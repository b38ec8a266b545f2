// The wake-up protocol inside one process: producers insert a row and then put a token
// into a channel of capacity one; workers look at the table and park on the channel.
module Wakeup {
  import opened Common

  datatype Worker =
    | Checking            // running the claim statement
    | Locked(id: nat)     // the statement holds the row lock and has not committed
    | Parked              // found nothing; waits for a token or the poll interval
    | Working
    | Sleeping            // backs off after a failed claim

  /** `notified` are the rows whose producer has called Notify after inserting them. */
  datatype Process = Process(
    inserted: set<nat>, pending: set<nat>, notified: set<nat>, token: bool, workers: seq<Worker>)

  datatype Action =
    | Insert(id: nat)
    | Notify(id: nat)
    | Lock(w: nat, id: nat)
    | Commit(w: nat)
    | Reclaim(w: nat)     // leases an expired row instead of a pending one
    | FindNothing(w: nat)
    | ClaimFails(w: nat)
    | TakeToken(w: nat)
    | Poll(w: nat)
    | Resume(w: nat)      // done with a job, or slept long enough

  function Start(workers: nat): Process {
    Process({}, {}, {}, false, seq(workers, _ => Checking))
  }

  predicate LockedBy(s: Process, id: nat, w: nat) {
    w < |s.workers| && s.workers[w] == Locked(id)
  }

  predicate Skipped(s: Process, id: nat) {
    exists w :: 0 <= w < |s.workers| && LockedBy(s, id, w)
  }

  predicate Enabled(s: Process, a: Action) {
    match a
    case Insert(id) => id !in s.inserted
    case Notify(id) => id in s.inserted && id !in s.notified
    case Lock(w, id) => w < |s.workers| && s.workers[w].Checking? && id in s.pending && !Skipped(s, id)
    case Commit(w) => w < |s.workers| && s.workers[w].Locked?
    case Reclaim(w) => w < |s.workers| && s.workers[w].Checking?
    // SKIP LOCKED: the statement comes back empty when others hold all pending rows.
    case FindNothing(w) => w < |s.workers| && s.workers[w].Checking? && forall id :: id in s.pending ==> Skipped(s, id)
    case ClaimFails(w) => w < |s.workers| && (s.workers[w].Checking? || s.workers[w].Locked?)
    case TakeToken(w) => w < |s.workers| && s.workers[w].Parked? && s.token
    case Poll(w) => w < |s.workers| && s.workers[w].Parked?
    case Resume(w) => w < |s.workers| && (s.workers[w].Working? || s.workers[w].Sleeping?)
  }

  function Do(s: Process, a: Action): Process
    requires Enabled(s, a)
  {
    match a
    case Insert(id) => s.(inserted := s.inserted + {id}, pending := s.pending + {id})
    case Notify(id) => s.(notified := s.notified + {id}, token := true)
    case Lock(w, id) => s.(workers := s.workers[w := Locked(id)])
    case Commit(w) => s.(pending := s.pending - {s.workers[w].id}, workers := s.workers[w := Working])
    case Reclaim(w) => s.(workers := s.workers[w := Working])
    case FindNothing(w) => s.(workers := s.workers[w := Parked])
    case ClaimFails(w) => s.(workers := s.workers[w := Sleeping])
    case TakeToken(w) => s.(token := false, workers := s.workers[w := Checking])
    case Poll(w) => s.(workers := s.workers[w := Checking])
    case Resume(w) => s.(workers := s.workers[w := Checking])
  }

  function Next(s: Process, a: Action): Process {
    if Enabled(s, a) then Do(s, a) else s
  }

  function Run(s: Process, acts: seq<Action>): Process {
    if acts == [] then s else Next(Run(s, Most(acts)), Last(acts))
  }

  ghost predicate AllParked(s: Process) {
    forall w :: 0 <= w < |s.workers| ==> s.workers[w].Parked?
  }

  /** If everybody is parked without a token, every pending row still has its Notify ahead. */
  ghost predicate NobodyForgot(s: Process) {
    AllParked(s) && !s.token ==> forall id :: id in s.pending ==> id !in s.notified
  }

  lemma StepKeepsAwake(s: Process, a: Action)
    requires NobodyForgot(s) && |s.workers| > 0
    requires s.notified <= s.inserted && s.pending <= s.inserted
    ensures var s' := Next(s, a);
            NobodyForgot(s') && |s'.workers| == |s.workers| && s'.notified <= s'.inserted && s'.pending <= s'.inserted
  {
    var s' := Next(s, a);
    if Enabled(s, a) && !a.Insert? && !a.Notify? {
      if a.FindNothing? {
        if id :| id in s.pending {
          var w :| 0 <= w < |s.workers| && LockedBy(s, id, w);
          assert s'.workers[w].Locked?;
        }
      } else {
        assert !s'.workers[a.w].Parked?;
      }
    }
  }

  lemma {:induction false} RunStaysAwake(s: Process, acts: seq<Action>)
    requires NobodyForgot(s) && |s.workers| > 0
    requires s.notified <= s.inserted && s.pending <= s.inserted
    ensures var s' := Run(s, acts);
            NobodyForgot(s') && |s'.workers| == |s.workers| && s'.notified <= s'.inserted && s'.pending <= s'.inserted
  {
    if acts != [] {
      RunStaysAwake(s, Most(acts));
      StepKeepsAwake(Run(s, Most(acts)), Last(acts));
    }
  }

  /** While a notified row is pending, a token waits in the channel or some worker is not
      parked: however inserts, coalesced notifies, claims and parks interleave. */
  lemma {:induction false} NoWakeupIsLost(workers: nat, acts: seq<Action>, id: nat)
    requires workers > 0
    requires var s := Run(Start(workers), acts); id in s.pending && id in s.notified
    ensures var s := Run(Start(workers), acts);
            s.token || exists w :: 0 <= w < |s.workers| && !s.workers[w].Parked?
  {
    RunStaysAwake(Start(workers), acts);
  }

  // ---------- tokens and first claims are used once ----------

  /** How many tokens the run takes from the channel. */
  function Taken(s: Process, acts: seq<Action>): nat {
    if acts == [] then 0
    else Taken(s, Most(acts)) + if Last(acts).TakeToken? && Enabled(Run(s, Most(acts)), Last(acts)) then 1 else 0
  }

  function Notified(s: Process, acts: seq<Action>): nat {
    if acts == [] then 0
    else Notified(s, Most(acts)) + if Last(acts).Notify? && Enabled(Run(s, Most(acts)), Last(acts)) then 1 else 0
  }

  /** A Notify wakes at most one worker, however many are parked. */
  lemma {:induction false} TokensWakeOnce(workers: nat, acts: seq<Action>)
    ensures Taken(Start(workers), acts) + (if Run(Start(workers), acts).token then 1 else 0)
            <= Notified(Start(workers), acts)
  {
    if acts != [] {
      TokensWakeOnce(workers, Most(acts));
    }
  }

  /** How often the pending row has been claimed. */
  function Claims(s: Process, acts: seq<Action>, id: nat): nat {
    if acts == [] then 0
    else
      var r, a := Run(s, Most(acts)), Last(acts);
      Claims(s, Most(acts), id) + if a.Commit? && LockedBy(r, id, a.w) then 1 else 0
  }

  /** Row locks are on pending rows and exclusive. */
  ghost predicate LocksOk(s: Process) {
    && s.pending <= s.inserted
    && (forall w :: 0 <= w < |s.workers| && s.workers[w].Locked? ==> s.workers[w].id in s.pending)
    && (forall v, w :: 0 <= v < w < |s.workers| && s.workers[v].Locked? ==> s.workers[v] != s.workers[w])
  }

  lemma StepKeepsLocks(s: Process, a: Action)
    requires LocksOk(s)
    ensures LocksOk(Next(s, a))
  {
    if a.Lock? && Enabled(s, a) {
      forall v | 0 <= v < |s.workers| ensures s.workers[v] != Locked(a.id) {
        assert !LockedBy(s, a.id, v);
      }
    }
  }

  lemma {:induction false} PendingRowsAreClaimedOnceFrom(s: Process, acts: seq<Action>, id: nat)
    requires LocksOk(s) && id !in s.inserted
    ensures var s' := Run(s, acts);
            && LocksOk(s')
            && Claims(s, acts, id) + (if id in s'.pending then 1 else 0) == if id in s'.inserted then 1 else 0
  {
    if acts != [] {
      PendingRowsAreClaimedOnceFrom(s, Most(acts), id);
      StepKeepsLocks(Run(s, Most(acts)), Last(acts));
    }
  }

  /** A row stays pending until a worker has claimed it, and no two workers do. */
  lemma {:induction false} PendingRowsAreClaimedOnce(workers: nat, acts: seq<Action>, id: nat)
    ensures var s := Run(Start(workers), acts);
            Claims(Start(workers), acts, id) + (if id in s.pending then 1 else 0) == if id in s.inserted then 1 else 0
  {
    PendingRowsAreClaimedOnceFrom(Start(workers), acts, id);
  }

  // ---------- progress ----------

  /** Steps of workers only, none of which is the end of the poll interval. */
  predicate WithoutPoll(acts: seq<Action>) {
    forall a :: a in acts ==> !a.Insert? && !a.Notify? && !a.Poll?
  }

  lemma Then(s: Process, acts: seq<Action>, a: Action) returns (more: seq<Action>)
    ensures Run(s, more) == Next(Run(s, acts), a) && more == acts + [a]
  {
    more := acts + [a];
    assert Most(more) == acts;
  }

  /** The step that brings the worker nearer to looking at the table again. */
  function NextLook(s: Process, w: nat): Action
    requires w < |s.workers|
  {
    match s.workers[w]
    case Parked => TakeToken(w)
    case Locked(_) => Commit(w)
    case _ => Resume(w)
  }

  /** A worker that is not parked, or can take a token, comes to look at the table. */
  lemma ComesToLook(s: Process, w: nat) returns (acts: seq<Action>)
    requires w < |s.workers| && (s.workers[w].Parked? ==> s.token)
    ensures WithoutPoll(acts) && w < |Run(s, acts).workers| && Run(s, acts).workers[w].Checking?
  {
    acts := [];
    if !s.workers[w].Checking? {
      acts := Then(s, acts, NextLook(s, w));
      if s.workers[w].Locked? {
        acts := Then(s, acts, Resume(w));
      }
    }
  }

  lemma LookerClaims(s: Process, acts: seq<Action>, w: nat, id: nat) returns (more: seq<Action>)
    requires w < |Run(s, acts).workers| && Run(s, acts).workers[w].Checking? && WithoutPoll(acts)
    ensures WithoutPoll(more) && id !in Run(s, more).pending
  {
    var r := Run(s, acts);
    more := acts;
    if id in r.pending {
      if Skipped(r, id) {
        var v :| 0 <= v < |r.workers| && LockedBy(r, id, v);
        more := Then(s, acts, Commit(v));
      } else {
        more := Then(s, acts, Lock(w, id));
        more := Then(s, more, Commit(w));
      }
    }
  }

  /** From every reachable state a notified row can be claimed without waiting for the poll
      interval. */
  lemma {:induction false} NotifiedRowsCanBeClaimed(workers: nat, acts: seq<Action>, id: nat)
    returns (more: seq<Action>)
    requires workers > 0 && id in Run(Start(workers), acts).notified
    ensures WithoutPoll(more) && id !in Run(Run(Start(workers), acts), more).pending
  {
    more := [];
    var s := Run(Start(workers), acts);
    if id in s.pending {
      NoWakeupIsLost(workers, acts, id);
      RunStaysAwake(Start(workers), acts);
      var w: nat :| w < |s.workers| && (s.workers[w].Parked? ==> s.token);
      more := ComesToLook(s, w);
      more := LookerClaims(s, more, w, id);
    }
  }
}
