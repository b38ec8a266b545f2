// Migrate of internal/store/store.go: one migrator as a method, and any number of them
// serialized by the advisory lock.
module Migrate {
  import opened Common

  class Database {
    var recorded: seq<string>   // schema_migrations in commit order
    var schema: seq<string>     // the files whose statements have taken effect

    constructor ()
      ensures recorded == [] && schema == []
    {
      recorded, schema := [], [];
    }

    /** Runs under the lock, so nobody else changes the database meanwhile; `fault(i)` is
        how the transaction of file i goes. */
    method Migrate(files: seq<string>, fault: nat -> Fault) returns (ok: bool)
      requires NoDuplicates(files)
      requires recorded <= files || files <= recorded
      requires schema == recorded
      modifies this
      ensures schema == recorded && old(recorded) <= recorded
      ensures recorded <= files || recorded == old(recorded)
      ensures ok ==> files <= recorded
      ensures (forall i :: fault(i).NoFault?) ==> ok
    {
      if files <= recorded {
        AllRecorded(files, recorded);
      }
      for i := 0 to |files|
        invariant schema == recorded && old(recorded) <= recorded
        invariant (recorded <= files && i <= |recorded|) || (recorded == old(recorded) && files <= recorded)
      {
        if files[i] in recorded {
          if recorded <= files {
            PrefixMember(files, recorded, i);
          }
          continue;
        }
        assert i == |recorded|;
        if fault(i).RolledBack? {
          return false;
        }
        recorded, schema := recorded + [files[i]], schema + [files[i]];
        assert recorded == files[..i + 1];
        if fault(i).ReplyLost? {
          return false;
        }
      }
      return true;
    }
  }

  lemma AllRecorded(files: seq<string>, recorded: seq<string>)
    requires files <= recorded
    ensures forall i :: 0 <= i < |files| ==> files[i] in recorded
  {
    assert forall i :: 0 <= i < |files| ==> files[i] == recorded[i];
  }

  lemma PrefixMember(files: seq<string>, recorded: seq<string>, i: nat)
    requires NoDuplicates(files) && recorded <= files && i < |files|
    ensures files[i] in recorded <==> i < |recorded|
  {
    assert forall j :: 0 <= j < |recorded| ==> recorded[j] == files[j];
  }

  // ---------- concurrent migrators ----------

  datatype Phase = Waiting | Checking(i: nat) | Applying(i: nat) | Returned(ok: bool)

  /** Migrator m knows the first `known[m]` files: an older binary knows fewer. */
  datatype World = World(lock: Option<nat>, recorded: seq<string>, schema: seq<string>, phases: seq<Phase>)

  datatype Action = Acquire(m: nat) | Check(m: nat) | Apply(m: nat) | ApplyAndFail(m: nat) | Fail(m: nat)

  function Start(migrators: nat): World {
    World(None, [], [], seq(migrators, _ => Waiting))
  }

  function Leave(s: World, m: nat, ok: bool): World
    requires m < |s.phases|
  {
    s.(lock := None, phases := s.phases[m := Returned(ok)])
  }

  function Record(s: World, f: string): World {
    s.(recorded := s.recorded + [f], schema := s.schema + [f])
  }

  /** One step; an action that is not enabled changes nothing. */
  function Next(all: seq<string>, known: seq<nat>, s: World, a: Action): World
    requires |known| == |s.phases| && forall m :: 0 <= m < |known| ==> known[m] <= |all|
    ensures |Next(all, known, s, a).phases| == |s.phases|
  {
    if a.m >= |s.phases| then s
    else match a
      case Acquire(m) =>
        if s.phases[m].Waiting? && s.lock.None? then s.(lock := Some(m), phases := s.phases[m := Checking(0)]) else s
      case Check(m) =>
        if !s.phases[m].Checking? then s
        else if s.phases[m].i >= known[m] then Leave(s, m, true)
        else if all[s.phases[m].i] in s.recorded then s.(phases := s.phases[m := Checking(s.phases[m].i + 1)])
        else s.(phases := s.phases[m := Applying(s.phases[m].i)])
      case Apply(m) =>
        if s.phases[m].Applying? && s.phases[m].i < |all|
        then Record(s, all[s.phases[m].i]).(phases := s.phases[m := Checking(s.phases[m].i + 1)])
        else s
      case ApplyAndFail(m) =>
        if s.phases[m].Applying? && s.phases[m].i < |all| then Leave(Record(s, all[s.phases[m].i]), m, false) else s
      case Fail(m) =>
        if s.phases[m].Checking? || s.phases[m].Applying? then Leave(s, m, false) else s
  }

  function Run(all: seq<string>, known: seq<nat>, s: World, acts: seq<Action>): (r: World)
    requires |known| == |s.phases| && forall m :: 0 <= m < |known| ==> known[m] <= |all|
    ensures |r.phases| == |s.phases|
  {
    if acts == [] then s else Next(all, known, Run(all, known, s, Most(acts)), Last(acts))
  }

  ghost predicate PhaseOk(known: seq<nat>, s: World, m: nat)
    requires m < |s.phases| == |known|
  {
    match s.phases[m]
    case Waiting => true
    case Checking(i) => s.lock == Some(m) && i <= |s.recorded|
    case Applying(i) => s.lock == Some(m) && i == |s.recorded| && i < known[m]
    case Returned(ok) => ok ==> known[m] <= |s.recorded|
  }

  /** Whoever holds the lock is at work. */
  predicate LockOk(s: World) {
    s.lock.Some? ==>
      s.lock.value < |s.phases| && (s.phases[s.lock.value].Checking? || s.phases[s.lock.value].Applying?)
  }

  ghost predicate Inv(all: seq<string>, known: seq<nat>, s: World) {
    && |known| == |s.phases| && LockOk(s)
    && s.recorded <= all && s.schema == s.recorded
    && forall m :: 0 <= m < |s.phases| ==> PhaseOk(known, s, m)
  }

  lemma StepKeepsInv(all: seq<string>, known: seq<nat>, s: World, a: Action)
    requires NoDuplicates(all) && Inv(all, known, s) && forall m :: 0 <= m < |known| ==> known[m] <= |all|
    ensures Inv(all, known, Next(all, known, s, a)) && s.recorded <= Next(all, known, s, a).recorded
  {
    if a.m < |s.phases| {
      assert PhaseOk(known, s, a.m);
      if s.phases[a.m].Checking? && s.phases[a.m].i < known[a.m] {
        PrefixMember(all, s.recorded, s.phases[a.m].i);
      }
      var s' := Next(all, known, s, a);
      forall m | 0 <= m < |s'.phases| ensures PhaseOk(known, s', m) {
        assert PhaseOk(known, s, m);
      }
    }
  }

  lemma {:induction false} RunKeepsInv(all: seq<string>, known: seq<nat>, s: World, acts: seq<Action>)
    requires NoDuplicates(all) && Inv(all, known, s) && forall m :: 0 <= m < |known| ==> known[m] <= |all|
    ensures Inv(all, known, Run(all, known, s, acts))
  {
    if acts != [] {
      RunKeepsInv(all, known, s, Most(acts));
      StepKeepsInv(all, known, Run(all, known, s, Most(acts)), Last(acts));
    }
  }

  /** For any number of migrators, old and new binaries, failing at any step: what is
      recorded is a prefix of the list, the schema is that prefix applied once each in
      order, and a migrator that returns without error has its whole list applied. */
  lemma {:induction false} MigrationsRunOnceInOrder(all: seq<string>, known: seq<nat>, acts: seq<Action>)
    requires NoDuplicates(all) && forall m :: 0 <= m < |known| ==> known[m] <= |all|
    ensures var s := Run(all, known, Start(|known|), acts);
            && s.recorded <= all && s.schema == s.recorded && NoDuplicates(s.schema)
            && forall m :: 0 <= m < |known| && s.phases[m] == Returned(true) ==> all[..known[m]] <= s.schema
  {
    var s := Run(all, known, Start(|known|), acts);
    RunKeepsInv(all, known, Start(|known|), acts);
    assert forall j :: 0 <= j < |s.recorded| ==> s.recorded[j] == all[j];
    forall m | 0 <= m < |known| && s.phases[m] == Returned(true) ensures all[..known[m]] <= s.schema {
      assert PhaseOk(known, s, m);
    }
  }

  // ---------- progress ----------

  ghost predicate Fits(all: seq<string>, known: seq<nat>, s: World) {
    NoDuplicates(all) && Inv(all, known, s) && forall m :: 0 <= m < |known| ==> known[m] <= |all|
  }

  lemma RunThen(all: seq<string>, known: seq<nat>, s: World, acts: seq<Action>, a: Action)
    returns (more: seq<Action>)
    requires Fits(all, known, s)
    ensures acts <= more && Run(all, known, s, more) == Next(all, known, Run(all, known, s, acts), a)
    ensures Fits(all, known, Run(all, known, s, acts)) && Fits(all, known, Run(all, known, s, more))
  {
    more := acts + [a];
    assert Most(more) == acts;
    RunKeepsInv(all, known, s, acts);
    RunKeepsInv(all, known, s, more);
  }

  /** How many files the migrator may still have to look at or apply. */
  function Ahead(known: seq<nat>, s: World, m: nat): int
    requires m < |s.phases| == |known|
  {
    match s.phases[m]
    case Checking(i) => 2 * (known[m] - i)
    case Applying(i) => 2 * (known[m] - i) - 1
    case _ => 0
  }

  lemma HolderAdvances(all: seq<string>, known: seq<nat>, s: World, m: nat) returns (a: Action)
    requires Fits(all, known, s) && m < |s.phases| && s.lock == Some(m)
    ensures var s' := Next(all, known, s, a);
            && (forall k :: 0 <= k < |s.phases| && k != m ==> s'.phases[k] == s.phases[k])
            && if Ahead(known, s, m) <= 0 then s'.phases[m] == Returned(true) && s'.lock.None?
               else s'.lock == Some(m) && Ahead(known, s', m) < Ahead(known, s, m)
  {
    assert PhaseOk(known, s, m);
    a := if s.phases[m].Checking? then Check(m) else Apply(m);
  }

  /** The holder of the lock, if nothing fails, applies its whole list and returns. */
  lemma {:induction false} HolderReturns(all: seq<string>, known: seq<nat>, s: World, acts: seq<Action>, m: nat)
    returns (more: seq<Action>)
    requires Fits(all, known, s) && m < |s.phases| && Run(all, known, s, acts).lock == Some(m)
    ensures var r, r' := Run(all, known, s, acts), Run(all, known, s, more);
            && acts <= more && r'.phases[m] == Returned(true) && r'.lock.None?
            && forall k :: 0 <= k < |s.phases| && k != m ==> r'.phases[k] == r.phases[k]
    decreases Ahead(known, Run(all, known, s, acts), m)
  {
    RunKeepsInv(all, known, s, acts);
    var a := HolderAdvances(all, known, Run(all, known, s, acts), m);
    more := RunThen(all, known, s, acts, a);
    if Ahead(known, Run(all, known, s, acts), m) > 0 {
      more := HolderReturns(all, known, s, more, m);
    }
  }

  lemma WaiterReturns(all: seq<string>, known: seq<nat>, s: World, acts: seq<Action>, m: nat)
    returns (more: seq<Action>)
    requires Fits(all, known, s) && m < |s.phases| && Run(all, known, s, acts).lock.None?
    requires Run(all, known, s, acts).phases[m].Waiting?
    ensures acts <= more && Run(all, known, s, more).phases[m] == Returned(true)
  {
    more := RunThen(all, known, s, acts, Acquire(m));
    more := HolderReturns(all, known, s, more, m);
  }

  /** No migrator is stuck: from every reachable state, each that has not returned can succeed
      by its own steps after those of the one that holds the lock; and then its whole list is
      applied. */
  lemma {:induction false} EveryMigratorCanSucceed(all: seq<string>, known: seq<nat>, acts: seq<Action>, m: nat)
    returns (more: seq<Action>)
    requires NoDuplicates(all) && (forall m :: 0 <= m < |known| ==> known[m] <= |all|) && m < |known|
    requires !Run(all, known, Start(|known|), acts).phases[m].Returned?
    ensures var s := Run(all, known, Start(|known|), more);
            acts <= more && s.phases[m] == Returned(true) && all[..known[m]] <= s.schema
  {
    var start := Start(|known|);
    RunKeepsInv(all, known, start, acts);
    var s := Run(all, known, start, acts);
    assert PhaseOk(known, s, m);
    more := acts;
    if s.lock.Some? {
      more := HolderReturns(all, known, start, acts, s.lock.value);
    }
    if s.phases[m].Waiting? {
      more := WaiterReturns(all, known, start, more, m);
    }
    MigrationsRunOnceInOrder(all, known, more);
  }
}
