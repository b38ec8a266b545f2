// Settled rows and their outcomes where workers keep to their leases; how many claims a run
// can issue, and that the queue drains, whether they do or not.
module Drain {
  import opened Common
  import opened RawQueue
  import opened System

  // ---------- every worker settles before its lease ends ----------

  /** Time does not pass the deadline of a worker that is still busy. */
  ghost predicate Timely(s: Service, a: Action) {
    a.Tick? ==> forall w :: 0 <= w < |s.workers| && s.workers[w].Busy? ==> s.now + a.d <= s.workers[w].deadline
  }

  ghost predicate TimelyRun(cfg: Config, s: Service, acts: seq<Action>) {
    acts == [] || (TimelyRun(cfg, s, Most(acts)) && Timely(Run(cfg, s, Most(acts)), Last(acts)))
  }

  /** A busy worker holds the current lease of its row, and the row's newest claim. */
  ghost predicate HoldsLease(s: Service, w: nat)
    requires w < |s.workers|
  {
    s.workers[w].Busy? ==>
      var Busy(job, deadline, _) := s.workers[w];
      && job.id < |s.rows| && s.rows[job.id].status.Processing?
      && s.rows[job.id].leaseUntil == Some(deadline) && s.now <= deadline
      && job.attempts == s.rows[job.id].attempts
  }

  /** At most one claim per row is live. */
  ghost predicate OneClaimPerRow(s: Service) {
    forall v, w :: 0 <= v < w < |s.workers| && s.workers[v].Busy? && s.workers[w].Busy? ==>
      s.workers[v].job.id != s.workers[w].job.id
  }

  ghost predicate LeaseInv(s: Service) {
    (forall w :: 0 <= w < |s.workers| ==> HoldsLease(s, w)) && OneClaimPerRow(s)
  }

  lemma LeasesStayHeld(cfg: Config, s: Service, a: Action, v: nat)
    requires WfConfig(cfg) && LeaseInv(s) && Timely(s, a) && Enabled(cfg, s, a) && v < |s.workers|
    ensures HoldsLease(Do(cfg, s, a), v)
  {
    assert HoldsLease(s, v);
    if a.Claim? || a.Settle? {
      assert HoldsLease(s, a.w);
    }
  }

  lemma ClaimsStaySingle(cfg: Config, s: Service, a: Action, u: nat, v: nat)
    requires LeaseInv(s) && Enabled(cfg, s, a) && u < v < |s.workers|
    requires var s' := Do(cfg, s, a); s'.workers[u].Busy? && s'.workers[v].Busy?
    ensures var s' := Do(cfg, s, a); s'.workers[u].job.id != s'.workers[v].job.id
  {
    assert HoldsLease(s, u) && HoldsLease(s, v);
  }

  lemma StepKeepsLeaseInv(cfg: Config, s: Service, a: Action)
    requires WfConfig(cfg) && LeaseInv(s) && Timely(s, a)
    ensures LeaseInv(Next(cfg, s, a))
  {
    if Enabled(cfg, s, a) {
      var s' := Do(cfg, s, a);
      forall v | 0 <= v < |s'.workers| ensures HoldsLease(s', v) {
        LeasesStayHeld(cfg, s, a, v);
      }
      forall u, v | 0 <= u < v < |s'.workers| && s'.workers[u].Busy? && s'.workers[v].Busy?
        ensures s'.workers[u].job.id != s'.workers[v].job.id
      {
        ClaimsStaySingle(cfg, s, a, u, v);
      }
    }
  }

  lemma {:induction false} RunKeepsLeaseInv(cfg: Config, s: Service, acts: seq<Action>)
    requires WfConfig(cfg) && LeaseInv(s) && TimelyRun(cfg, s, acts)
    ensures LeaseInv(Run(cfg, s, acts))
  {
    if acts != [] {
      RunKeepsLeaseInv(cfg, s, Most(acts));
      StepKeepsLeaseInv(cfg, Run(cfg, s, Most(acts)), Last(acts));
    }
  }

  /** No worker is busy on the row. */
  ghost predicate Free(s: Service, id: nat) {
    forall w :: 0 <= w < |s.workers| && s.workers[w].Busy? ==> s.workers[w].job.id != id
  }

  lemma FreeTerminalRowSurvives(cfg: Config, s: Service, a: Action, id: nat)
    requires id < |s.rows| && Terminal(s.rows[id]) && Free(s, id)
    ensures var s' := Next(cfg, s, a); id < |s'.rows| && s'.rows[id] == s.rows[id] && Free(s', id)
  {
  }

  lemma {:induction false} FreeTerminalRowStays(cfg: Config, s: Service, acts: seq<Action>, id: nat)
    requires id < |s.rows| && Terminal(s.rows[id]) && Free(s, id)
    ensures var s' := Run(cfg, s, acts); id < |s'.rows| && s'.rows[id] == s.rows[id] && Free(s', id)
  {
    if acts != [] {
      FreeTerminalRowStays(cfg, s, Most(acts), id);
      FreeTerminalRowSurvives(cfg, Run(cfg, s, Most(acts)), Last(acts), id);
    }
  }

  /** After a timely run at most one claim per row is live, and a row that is PROCESSED or
      FAILED never changes again, in any continuation, timely or not. */
  lemma {:induction false} LeasesMakeOutcomesFinal(
      cfg: Config, now: int, workers: nat, before: seq<Action>, acts: seq<Action>, id: nat)
    requires WfConfig(cfg) && TimelyRun(cfg, Start(now, workers), before)
    ensures var s := Run(cfg, Start(now, workers), before);
            var s' := Run(cfg, s, acts);
            && OneClaimPerRow(s)
            && (id < |s.rows| && Terminal(s.rows[id]) ==> id < |s'.rows| && s'.rows[id] == s.rows[id])
  {
    RunKeepsLeaseInv(cfg, Start(now, workers), before);
    var s := Run(cfg, Start(now, workers), before);
    if id < |s.rows| && Terminal(s.rows[id]) {
      forall w | 0 <= w < |s.workers| && s.workers[w].Busy? ensures s.workers[w].job.id != id {
        assert HoldsLease(s, w);
      }
      FreeTerminalRowStays(cfg, s, acts, id);
    }
  }

  /** The columns a settled row is left with. */
  predicate CleanRow(r: Row) {
    && (r.status.Processed? ==> r.error.None? && r.leaseUntil.None?)
    && (r.status.Failed? ==> r.error.Some? && r.leaseUntil.None?)
    && (r.status.Pending? ==> r.error.None? && r.leaseUntil.None?)
  }

  ghost predicate AllClean(s: Service) {
    forall id :: 0 <= id < |s.rows| ==> CleanRow(s.rows[id])
  }

  /** After a timely run a PROCESSED row carries no error and no lease, and a FAILED one its
      reason. */
  lemma {:induction false} LeasesKeepRowsClean(cfg: Config, now: int, workers: nat, acts: seq<Action>)
    requires WfConfig(cfg) && TimelyRun(cfg, Start(now, workers), acts)
    ensures AllClean(Run(cfg, Start(now, workers), acts))
  {
    RunKeepsRowsClean(cfg, Start(now, workers), acts);
  }

  lemma {:induction false} RunKeepsRowsClean(cfg: Config, s: Service, acts: seq<Action>)
    requires WfConfig(cfg) && LeaseInv(s) && TimelyRun(cfg, s, acts) && AllClean(s)
    ensures AllClean(Run(cfg, s, acts))
  {
    if acts != [] {
      RunKeepsRowsClean(cfg, s, Most(acts));
      RunKeepsLeaseInv(cfg, s, Most(acts));
      StepKeepsRowsClean(cfg, Run(cfg, s, Most(acts)), Last(acts));
    }
  }

  lemma StepKeepsRowsClean(cfg: Config, s: Service, a: Action)
    requires LeaseInv(s) && AllClean(s)
    ensures AllClean(Next(cfg, s, a))
  {
    if a.Settle? && BusyIn(s, a.w) {
      assert HoldsLease(s, a.w);
    }
  }

  // ---------- claims that are neither settled nor held ----------

  /** The row whose claim the step loses in a crash. */
  function LostBy(s: Service, a: Action): multiset<nat> {
    if a.Crash? && BusyIn(s, a.w) then multiset{s.workers[a.w].job.id} else multiset{}
  }

  /** The rows of the claims that the run loses, one entry per claim. */
  ghost function Lost(cfg: Config, s: Service, acts: seq<Action>): multiset<nat> {
    if acts == [] then multiset{}
    else Lost(cfg, s, Most(acts)) + LostBy(Run(cfg, s, Most(acts)), Last(acts))
  }

  /** The numbers of the claims on the row that these workers hold. */
  ghost function HeldBy(ws: seq<Local>, id: nat): set<nat> {
    set w | 0 <= w < |ws| && ws[w].Busy? && ws[w].job.id == id :: ws[w].job.attempts
  }

  lemma {:induction false} HeldByFew(ws: seq<Local>, id: nat)
    ensures |HeldBy(ws, id)| <= |ws|
  {
    if ws != [] {
      HeldByFew(Most(ws), id);
      var l := Last(ws);
      assert HeldBy(ws, id) == HeldBy(Most(ws), id) + if l.Busy? && l.job.id == id then {l.job.attempts} else {};
    }
  }

  /** At most one claim is held where leases are kept. */
  lemma HeldByOne(s: Service, id: nat)
    requires OneClaimPerRow(s)
    ensures |HeldBy(s.workers, id)| <= 1
  {
    var held := HeldBy(s.workers, id);
    if k :| k in held {
      assert held == {k};
    }
  }

  ghost function Orphans(s: Service, id: nat): set<nat>
    requires id < |s.rows|
  {
    Unsettled(s, id) - HeldBy(s.workers, id)
  }

  /** Only a crash makes an orphan. */
  lemma StepMakesOrphans(cfg: Config, s: Service, a: Action, id: nat)
    requires QueueInv(cfg, s) && Enabled(cfg, s, a) && id < |Do(cfg, s, a).rows|
    ensures id < |s.rows| ==>
              Orphans(Do(cfg, s, a), id) <= Orphans(s, id) + if a.Crash? && s.workers[a.w].job.id == id
                                                            then {s.workers[a.w].job.attempts} else {}
    ensures id == |s.rows| ==> Orphans(Do(cfg, s, a), id) == {}
  {
    var s' := Do(cfg, s, a);
    if id < |s.rows| {
      forall k | k in Orphans(s', id) && !(a.Crash? && s.workers[a.w].job == Job(id, s.workers[a.w].job.payload, k))
        ensures k in Orphans(s, id)
      {
        StaysOrphan(cfg, s, a, id, k);
      }
    }
  }

  /** What is held stays held, but for the claim that a step settles or loses. */
  lemma StaysHeld(cfg: Config, s: Service, a: Action, id: nat, w: nat)
    requires Enabled(cfg, s, a) && w < |s.workers| && s.workers[w].Busy? && s.workers[w].job.id == id
    requires !((a.Crash? || a.Settle?) && a.w == w)
    ensures s.workers[w].job.attempts in HeldBy(Do(cfg, s, a).workers, id)
  {
    var s' := Do(cfg, s, a);
    assert s'.workers[w].Busy? && s'.workers[w].job == s.workers[w].job;
  }

  lemma StaysOrphan(cfg: Config, s: Service, a: Action, id: nat, k: nat)
    requires Enabled(cfg, s, a) && id < |s.rows| && k in Orphans(Do(cfg, s, a), id)
    requires !(a.Crash? && s.workers[a.w].job == Job(id, s.workers[a.w].job.payload, k))
    ensures k in Orphans(s, id)
  {
    var s' := Do(cfg, s, a);
    if a.Claim? && a.id == id {
      assert s'.workers[a.w].job.attempts in HeldBy(s'.workers, id);
    }
    if k in HeldBy(s.workers, id) {
      var w :| 0 <= w < |s.workers| && s.workers[w].Busy? && s.workers[w].job.id == id
               && s.workers[w].job.attempts == k;
      if !((a.Crash? || a.Settle?) && a.w == w) {
        StaysHeld(cfg, s, a, id, w);
      }
    }
  }

  // ---------- how many claims a run issues ----------

  /** No row has had more than MaxAttempts - 1 claims, besides `h` that can be held at once
      and those that were lost. */
  ghost predicate AttemptsWithin(cfg: Config, s: Service, h: nat, lost: multiset<nat>) {
    forall id :: 0 <= id < |s.rows| ==> s.rows[id].attempts <= cfg.maxAttempts - 1 + h + lost[id]
  }

  ghost predicate ClaimInv(cfg: Config, s: Service, h: nat, lost: multiset<nat>) {
    && (forall id :: 0 <= id < |s.rows| ==> |Orphans(s, id)| <= lost[id])
    && AttemptsWithin(cfg, s, h, lost)
  }

  /** How many claims on one row workers can hold at once. */
  ghost predicate HoldAtMost(s: Service, h: nat) {
    h >= |s.workers| || (h >= 1 && LeaseInv(s))
  }

  lemma LiveRowsAreWithin(cfg: Config, s: Service, id: nat, h: nat, lost: nat)
    requires WfConfig(cfg) && QueueInv(cfg, s) && HoldAtMost(s, h) && id < |s.rows| && !Terminal(s.rows[id])
    requires |Orphans(s, id)| <= lost
    ensures s.rows[id].attempts <= cfg.maxAttempts - 1 + h + lost
  {
    HeldByFew(s.workers, id);
    if h < |s.workers| {
      HeldByOne(s, id);
    }
    var held := HeldBy(s.workers, id);
    SubsetSize(Unsettled(s, id), Orphans(s, id) + held);
    AttemptsAreAccounted(cfg, s, id);
  }

  lemma StepKeepsOrphansFew(cfg: Config, s: Service, a: Action, h: nat, lost: multiset<nat>, id: nat)
    requires QueueInv(cfg, s) && ClaimInv(cfg, s, h, lost) && id < |Next(cfg, s, a).rows|
    ensures |Orphans(Next(cfg, s, a), id)| <= (lost + LostBy(s, a))[id]
  {
    if Enabled(cfg, s, a) {
      StepMakesOrphans(cfg, s, a, id);
      if id < |s.rows| {
        var gone := if a.Crash? && s.workers[a.w].job.id == id then {s.workers[a.w].job.attempts} else {};
        SubsetSize(Orphans(Do(cfg, s, a), id), Orphans(s, id) + gone);
      }
    }
  }

  lemma StepKeepsClaimInv(cfg: Config, s: Service, a: Action, h: nat, lost: multiset<nat>)
    requires WfConfig(cfg) && QueueInv(cfg, s) && ClaimInv(cfg, s, h, lost) && HoldAtMost(Next(cfg, s, a), h)
    ensures ClaimInv(cfg, Next(cfg, s, a), h, lost + LostBy(s, a))
  {
    var s' := Next(cfg, s, a);
    StepKeepsQueueInv(cfg, s, a);
    forall id | 0 <= id < |s'.rows|
      ensures |Orphans(s', id)| <= (lost + LostBy(s, a))[id]
      ensures s'.rows[id].attempts <= cfg.maxAttempts - 1 + h + (lost + LostBy(s, a))[id]
    {
      StepKeepsOrphansFew(cfg, s, a, h, lost, id);
      if Terminal(s'.rows[id]) {
        OnlyClaimsCount(cfg, s, a, id);
      } else {
        LiveRowsAreWithin(cfg, s', id, h, (lost + LostBy(s, a))[id]);
      }
    }
  }

  lemma OnlyClaimsCount(cfg: Config, s: Service, a: Action, id: nat)
    requires id < |Next(cfg, s, a).rows| && Terminal(Next(cfg, s, a).rows[id])
    ensures id < |s.rows| && Next(cfg, s, a).rows[id].attempts == s.rows[id].attempts
  {
  }

  lemma {:induction false} RunKeepsClaimInv(cfg: Config, s: Service, acts: seq<Action>, h: nat)
    requires WfConfig(cfg) && QueueInv(cfg, s) && ClaimInv(cfg, s, h, multiset{})
    requires h >= |s.workers| || (h >= 1 && LeaseInv(s) && TimelyRun(cfg, s, acts))
    ensures ClaimInv(cfg, Run(cfg, s, acts), h, Lost(cfg, s, acts))
  {
    if acts != [] {
      RunKeepsClaimInv(cfg, s, Most(acts), h);
      RunKeepsQueueInv(cfg, s, Most(acts));
      SameWorkers(cfg, s, acts);
      if h < |s.workers| {
        RunKeepsLeaseInv(cfg, s, acts);
      }
      StepKeepsClaimInv(cfg, Run(cfg, s, Most(acts)), Last(acts), h, Lost(cfg, s, Most(acts)));
    }
  }

  lemma {:induction false} MultisetBound(m: multiset<nat>, extra: multiset<nat>, n: nat, b: nat)
    requires forall i :: i in m ==> i < n && m[i] <= b + extra[i]
    ensures |m| <= n * b + |extra|
  {
    if n > 0 {
      var i := n - 1;
      MultisetBound(m[i := 0], extra[i := 0], n - 1, b);
      assert |m[i := 0]| == |m| - m[i] && |extra[i := 0]| == |extra| - extra[i];
      assert n * b == (n - 1) * b + b;
    } else if i :| i in m {
      assert false;
    }
  }

  /** The bound on the claims of a run, where workers can hold `h` claims on a row at once. */
  ghost predicate ClaimsWithin(cfg: Config, s: Service, h: nat, lost: multiset<nat>) {
    && AttemptsWithin(cfg, s, h, lost)
    && |s.claims| <= |s.rows| * (cfg.maxAttempts - 1 + h) + |lost|
  }

  lemma ClaimsOfRow(cfg: Config, s: Service, h: nat, lost: multiset<nat>, id: nat)
    requires QueueInv(cfg, s) && AttemptsWithin(cfg, s, h, lost) && id in s.claims
    ensures id < |s.rows| && s.claims[id] == s.rows[id].attempts <= cfg.maxAttempts - 1 + h + lost[id]
  {
    assert RowOk(cfg, s, id);
  }

  lemma TotalOfClaims(s: Service, b: nat, lost: multiset<nat>)
    requires forall id :: id in s.claims ==> id < |s.rows| && s.claims[id] <= b + lost[id]
    ensures |s.claims| <= |s.rows| * b + |lost|
  {
    MultisetBound(s.claims, lost, |s.rows|, b);
  }

  lemma RowsBoundClaims(cfg: Config, s: Service, h: nat, lost: multiset<nat>)
    requires WfConfig(cfg) && QueueInv(cfg, s) && AttemptsWithin(cfg, s, h, lost)
    ensures ClaimsWithin(cfg, s, h, lost)
  {
    var b: nat := cfg.maxAttempts - 1 + h;
    forall id | id in s.claims ensures id < |s.rows| && s.claims[id] <= b + lost[id] {
      ClaimsOfRow(cfg, s, h, lost, id);
    }
    TotalOfClaims(s, b, lost);
  }

  lemma {:induction false} RunStaysWithin(cfg: Config, s: Service, acts: seq<Action>, h: nat)
    requires WfConfig(cfg) && QueueInv(cfg, s) && s.rows == []
    requires h >= |s.workers| || (h >= 1 && LeaseInv(s) && TimelyRun(cfg, s, acts))
    ensures ClaimsWithin(cfg, Run(cfg, s, acts), h, Lost(cfg, s, acts))
  {
    RunKeepsQueueInv(cfg, s, acts);
    RunKeepsClaimInv(cfg, s, acts, h);
    RowsBoundClaims(cfg, Run(cfg, s, acts), h, Lost(cfg, s, acts));
  }

  /** Besides the claims lost in crashes, a run issues at most MaxAttempts - 1 claims per row
      and one more for every worker, however stale; and at most MaxAttempts claims per row
      if workers keep to their leases. */
  lemma {:induction false} ClaimsAreBounded(cfg: Config, now: int, workers: nat, acts: seq<Action>)
    requires WfConfig(cfg)
    ensures var s, lost := Run(cfg, Start(now, workers), acts), Lost(cfg, Start(now, workers), acts);
            && ClaimsWithin(cfg, s, workers, lost)
            && (TimelyRun(cfg, Start(now, workers), acts) ==> ClaimsWithin(cfg, s, 1, lost))
  {
    RunStaysWithin(cfg, Start(now, workers), acts, workers);
    if TimelyRun(cfg, Start(now, workers), acts) {
      RunStaysWithin(cfg, Start(now, workers), acts, 1);
    }
  }

  // ---------- sums over workers ----------

  function Sum<T>(s: seq<T>, f: T -> nat): nat {
    if s == [] then 0 else Sum(Most(s), f) + f(Last(s))
  }

  lemma {:induction false} SumUpdate<T>(s: seq<T>, f: T -> nat, i: nat, x: T)
    requires i < |s|
    ensures Sum(s[i := x], f) + f(s[i]) == Sum(s, f) + f(x)
  {
    var s' := s[i := x];
    if i == |s| - 1 {
      assert Most(s') == Most(s);
    } else {
      assert Most(s') == Most(s)[i := x];
      SumUpdate(Most(s), f, i, x);
    }
  }

  lemma {:induction false} SumOfZeros<T>(s: seq<T>, f: T -> nat)
    requires forall i :: 0 <= i < |s| ==> f(s[i]) == 0
    ensures Sum(s, f) == 0
  {
    if s != [] {
      assert forall i :: 0 <= i < |Most(s)| ==> Most(s)[i] == s[i];
      SumOfZeros(Most(s), f);
    }
  }

  // ---------- draining ----------

  /** Statements and calls a worker has left in its job. */
  function Remaining(): Local -> nat {
    (l: Local) =>
      if l.Idle? then 0
      else match l.phase
        case Asking => 4
        case Storing(_) => 3
        case Projecting(_) => 2
        case Settling(_) => 1
  }

  /** Neither idle nor the passing of time or the arrival of a row. */
  predicate IsWork(cfg: Config, s: Service, a: Action) {
    Enabled(cfg, s, a) && !a.Tick? && !a.Insert?
  }

  /** The steps of the run that were work. */
  ghost function WorkDone(cfg: Config, s: Service, acts: seq<Action>): nat {
    if acts == [] then 0
    else WorkDone(cfg, s, Most(acts)) + if IsWork(cfg, Run(cfg, s, Most(acts)), Last(acts)) then 1 else 0
  }

  /** Five steps are paid for with every claim. */
  lemma StepIsPaidFor(cfg: Config, s: Service, a: Action)
    requires Enabled(cfg, s, a)
    ensures var s' := Do(cfg, s, a);
            (if IsWork(cfg, s, a) then 1 else 0) + Sum(s'.workers, Remaining()) + 5 * |s.claims|
              <= Sum(s.workers, Remaining()) + 5 * |s'.claims|
  {
    if !a.Tick? && !a.Insert? {
      var s' := Do(cfg, s, a);
      SumUpdate(s.workers, Remaining(), a.w, s'.workers[a.w]);
      assert s'.workers == s.workers[a.w := s'.workers[a.w]];
    }
  }

  lemma {:induction false} WorkIsPaidFor(cfg: Config, s: Service, acts: seq<Action>)
    ensures var s' := Run(cfg, s, acts);
            WorkDone(cfg, s, acts) + Sum(s'.workers, Remaining()) + 5 * |s.claims|
              <= Sum(s.workers, Remaining()) + 5 * |s'.claims|
  {
    if acts != [] {
      WorkIsPaidFor(cfg, s, Most(acts));
      if Enabled(cfg, Run(cfg, s, Most(acts)), Last(acts)) {
        StepIsPaidFor(cfg, Run(cfg, s, Most(acts)), Last(acts));
      }
    }
  }

  /** Some worker can do something, now or once the longest wait is over. */
  ghost predicate CanWork(cfg: Config, s: Service)
    requires WfConfig(cfg)
  {
    || (exists a :: IsWork(cfg, s, a) && !a.Crash?)
    || (exists id ::
          && Timely(s, Tick(LongestWait(cfg) + 1))
          && Enabled(cfg, Next(cfg, s, Tick(LongestWait(cfg) + 1)), Claim(0, id)))
  }

  lemma WorkIsPossible(cfg: Config, s: Service)
    requires WfConfig(cfg) && QueueInv(cfg, s) && |s.workers| > 0
    requires exists id :: 0 <= id < |s.rows| && !Terminal(s.rows[id])
    ensures CanWork(cfg, s)
  {
    if w :| 0 <= w < |s.workers| && s.workers[w].Busy? {
      assert WorkerOk(s, w);
      JitterZero(cfg, s.workers[w].job.attempts);
      match s.workers[w].phase
      case Asking => assert IsWork(cfg, s, Ask(w, TransientFault("")));
      case Storing(_) => assert IsWork(cfg, s, StoreFact(w, NoFault));
      case Projecting(_) => assert IsWork(cfg, s, Project(w, NoFault));
      case Settling(_) => assert IsWork(cfg, s, Settle(w, 0));
    } else {
      var id :| 0 <= id < |s.rows| && !Terminal(s.rows[id]);
      assert RowOk(cfg, s, id);
      assert Enabled(cfg, Next(cfg, s, Tick(LongestWait(cfg) + 1)), Claim(0, id));
    }
  }

  ghost predicate AllTerminal(s: Service) {
    forall id :: 0 <= id < |s.rows| ==> Terminal(s.rows[id])
  }

  /** Draining: for any number of stale workers and lost claims, all the work that a run does
      is bounded by the rows it has inserted and the claims it has lost, and until every row
      is terminal there is work to do. So when both stop growing, the queue drains. */
  lemma {:induction false} QueueDrains(cfg: Config, now: int, workers: nat, acts: seq<Action>)
    requires WfConfig(cfg) && workers > 0
    ensures var s, lost := Run(cfg, Start(now, workers), acts), Lost(cfg, Start(now, workers), acts);
            var done := WorkDone(cfg, Start(now, workers), acts);
            && done <= 5 * (|s.rows| * (cfg.maxAttempts - 1 + workers) + |lost|)
            && (TimelyRun(cfg, Start(now, workers), acts) ==> done <= 5 * (|s.rows| * cfg.maxAttempts + |lost|))
            && (AllTerminal(s) || CanWork(cfg, s))
  {
    ClaimsAreBounded(cfg, now, workers, acts);
    WorkIsPaidFor(cfg, Start(now, workers), acts);
    SumOfZeros(Start(now, workers).workers, Remaining());
    RunKeepsQueueInv(cfg, Start(now, workers), acts);
    SameWorkers(cfg, Start(now, workers), acts);
    if !AllTerminal(Run(cfg, Start(now, workers), acts)) {
      WorkIsPossible(cfg, Run(cfg, Start(now, workers), acts));
    }
  }
}
