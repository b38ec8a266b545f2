// What can still happen to a row, from any state of any run: when its outcome is final,
// and when its attempts can still grow.
module Finality {
  import opened Common
  import opened Model
  import opened Normalize
  import opened RawQueue
  import opened System

  // ---------- outcomes ----------

  /** In the state `s'` the row has the outcome it had in `s`. */
  predicate SameOutcome(s: Service, s': Service, id: nat)
    requires id < |s.rows|
  {
    id < |s'.rows| && s'.rows[id].status == s.rows[id].status
  }

  /** No continuation turns PROCESSED into FAILED or FAILED into PROCESSED. */
  ghost predicate OutcomeIsFinal(cfg: Config, s: Service, id: nat)
    requires id < |s.rows|
  {
    forall acts :: SameOutcome(s, Run(cfg, s, acts), id)
  }

  /** Some statement is left that can fail, or has failed, so that the job is retried. */
  predicate MayRetry(p: Phase) {
    p.Storing? || (p.Projecting? && ProjectionOf(0, p.n).Some?) || (p.Settling? && p.o.Transient?)
  }

  /** A worker on the terminal row that is able to overturn it: a FAILED row by succeeding;
      a PROCESSED row by a rejection, or by a retry of a claim at the cap. */
  predicate CanOverturn(cfg: Config, s: Service, w: nat, id: nat)
    requires id < |s.rows| && w < |s.workers|
  {
    && s.workers[w].Busy? && s.workers[w].job.id == id
    && var p, attempts := s.workers[w].phase, s.workers[w].job.attempts;
       if s.rows[id].status.Failed? then !p.Settling? || p.o.Success?
       else p.Asking? || (p.Settling? && p.o.Permanent?) || (attempts >= cfg.maxAttempts && MayRetry(p))
  }

  ghost predicate Overturnable(cfg: Config, s: Service, id: nat)
    requires id < |s.rows|
  {
    exists w :: 0 <= w < |s.workers| && CanOverturn(cfg, s, w, id)
  }

  /** A worker that cannot overturn the row never becomes able to. */
  lemma WorkersStayUnable(cfg: Config, s: Service, a: Action, id: nat, w: nat)
    requires id < |s.rows| && Terminal(s.rows[id]) && !Overturnable(cfg, s, id)
    requires SameOutcome(s, Next(cfg, s, a), id) && w < |Next(cfg, s, a).workers|
    ensures !CanOverturn(cfg, Next(cfg, s, a), w, id)
  {
    assert !CanOverturn(cfg, s, w, id);
  }

  lemma StepKeepsOutcome(cfg: Config, s: Service, a: Action, id: nat)
    requires id < |s.rows| && Terminal(s.rows[id]) && !Overturnable(cfg, s, id)
    ensures SameOutcome(s, Next(cfg, s, a), id)
  {
    if a.Settle? && BusyIn(s, a.w) {
      assert !CanOverturn(cfg, s, a.w, id);
    }
  }

  lemma {:induction false} RunKeepsOutcome(cfg: Config, s: Service, acts: seq<Action>, id: nat)
    requires id < |s.rows| && Terminal(s.rows[id]) && !Overturnable(cfg, s, id)
    ensures SameOutcome(s, Run(cfg, s, acts), id) && !Overturnable(cfg, Run(cfg, s, acts), id)
  {
    if acts != [] {
      RunKeepsOutcome(cfg, s, Most(acts), id);
      var r := Run(cfg, s, Most(acts));
      StepKeepsOutcome(cfg, r, Last(acts), id);
      forall w | 0 <= w < |Next(cfg, r, Last(acts)).workers|
        ensures !CanOverturn(cfg, Next(cfg, r, Last(acts)), w, id)
      {
        WorkersStayUnable(cfg, r, Last(acts), id, w);
      }
    }
  }

  // ---------- an able worker does overturn ----------

  /** A reply that passes the gate at any confidence floor: UNCLASSIFIED. */
  const UNKNOWN := Reply(Response("UNCLASSIFIED", "", "", "", None, "", "", 0.0))

  const UNKNOWN_FACT := Normalized(Unclassified, "", None, None, None, "", "", 0.0)

  lemma UnknownPasses(cfg: Config)
    ensures Verdict(cfg, UNKNOWN) == Ok(UNKNOWN_FACT)
  {
    ClassNameIsCanonical(Unclassified);
  }

  /** Worker `w` has reached phase `p` of its job. */
  predicate At(s: Service, s': Service, w: nat, p: Phase)
    requires BusyIn(s, w)
  {
    Moved(s, s', w, p, s'.facts, s'.entities)
  }

  /** It settles as its phase says. */
  lemma SettleAt(cfg: Config, s: Service, acts: seq<Action>, w: nat, o: Outcome) returns (more: seq<Action>)
    requires WfConfig(cfg) && BusyIn(s, w) && At(s, Run(cfg, s, acts), w, Settling(o))
    ensures var job := s.workers[w].job;
            Run(cfg, s, more).rows == s.rows[job.id := SettledRow(cfg, s.rows[job.id], job.attempts, o, s.now, 0)]
  {
    MovedStaysBusy(s, Run(cfg, s, acts), w, Settling(o));
    JitterZero(cfg, s.workers[w].job.attempts);
    more := Then(cfg, s, acts, Settle(w, 0));
  }

  /** The worker goes on with its job until it is about to acknowledge. */
  lemma Succeed(cfg: Config, s: Service, w: nat) returns (acts: seq<Action>)
    requires BusyIn(s, w) && (!s.workers[w].phase.Settling? || s.workers[w].phase.o.Success?)
    ensures At(s, Run(cfg, s, acts), w, Settling(Success))
  {
    acts := [];
    var p := s.workers[w].phase;
    if p.Asking? {
      UnknownPasses(cfg);
      AskMoves(cfg, s, w, UNKNOWN);
      acts := Then(cfg, s, acts, Ask(w, UNKNOWN));
      p := Storing(UNKNOWN_FACT);
    }
    if p.Storing? {
      StoreMoves(cfg, s, Run(cfg, s, acts), w, p.n, NoFault);
      acts := Then(cfg, s, acts, StoreFact(w, NoFault));
      p := Projecting(p.n);
    }
    if p.Projecting? {
      ProjectMoves(cfg, s, Run(cfg, s, acts), w, p.n, NoFault);
      acts := Then(cfg, s, acts, Project(w, NoFault));
    }
  }

  /** A step by which the worker fails, and what it then settles as. */
  function FailingStep(w: nat, p: Phase): Action {
    if p.Asking? then Ask(w, Rejected("")) else if p.Storing? then StoreFact(w, RolledBack) else Project(w, RolledBack)
  }

  function FailsAs(p: Phase): Outcome {
    match p
    case Asking => Permanent("")
    case Storing(_) => Transient("persist fact")
    case Projecting(_) => Transient("project")
    case Settling(o) => o
  }

  lemma FailingStepMoves(cfg: Config, s: Service, w: nat)
    requires BusyIn(s, w) && !s.workers[w].phase.Settling?
    requires s.workers[w].phase.Asking? || MayRetry(s.workers[w].phase)
    ensures var p := s.workers[w].phase; At(s, Next(cfg, s, FailingStep(w, p)), w, Settling(FailsAs(p)))
  {
    match s.workers[w].phase
    case Asking => AskMoves(cfg, s, w, Rejected(""));
    case Storing(n) => StoreMoves(cfg, s, s, w, n, RolledBack);
    case Projecting(n) => ProjectMoves(cfg, s, s, w, n, RolledBack);
  }

  lemma GiveUp(cfg: Config, s: Service, w: nat) returns (acts: seq<Action>)
    requires BusyIn(s, w)
    requires s.workers[w].phase.Asking? || s.workers[w].phase.Settling? || MayRetry(s.workers[w].phase)
    ensures At(s, Run(cfg, s, acts), w, Settling(FailsAs(s.workers[w].phase)))
  {
    var p := s.workers[w].phase;
    acts := [];
    if !p.Settling? {
      FailingStepMoves(cfg, s, w);
      acts := Then(cfg, s, acts, FailingStep(w, p));
    }
  }

  lemma Overturn(cfg: Config, s: Service, w: nat, id: nat) returns (acts: seq<Action>)
    requires WfConfig(cfg) && QueueInv(cfg, s) && id < |s.rows| && Terminal(s.rows[id])
    requires w < |s.workers| && CanOverturn(cfg, s, w, id)
    ensures !SameOutcome(s, Run(cfg, s, acts), id)
  {
    assert WorkerOk(s, w);
    if s.rows[id].status.Failed? {
      acts := Succeed(cfg, s, w);
      acts := SettleAt(cfg, s, acts, w, Success);
    } else {
      acts := GiveUp(cfg, s, w);
      acts := SettleAt(cfg, s, acts, w, FailsAs(s.workers[w].phase));
    }
  }

  lemma FinalExactlyFrom(cfg: Config, s: Service, id: nat)
    requires WfConfig(cfg) && QueueInv(cfg, s) && id < |s.rows| && Terminal(s.rows[id])
    ensures OutcomeIsFinal(cfg, s, id) <==> !Overturnable(cfg, s, id)
  {
    if Overturnable(cfg, s, id) {
      var w: nat :| w < |s.workers| && CanOverturn(cfg, s, w, id);
      var acts := Overturn(cfg, s, w, id);
    } else {
      forall acts ensures SameOutcome(s, Run(cfg, s, acts), id) {
        RunKeepsOutcome(cfg, s, acts, id);
      }
    }
  }

  /** In every state of every run, with any answers and stale workers, the outcome of a
      PROCESSED or FAILED row is final if and only if no worker on it is able to overturn it. */
  lemma {:induction false} OutcomeIsFinalExactly(cfg: Config, now: int, workers: nat, before: seq<Action>, id: nat)
    requires WfConfig(cfg)
    requires var s := Run(cfg, Start(now, workers), before); id < |s.rows| && Terminal(s.rows[id])
    ensures var s := Run(cfg, Start(now, workers), before);
            OutcomeIsFinal(cfg, s, id) <==> forall w :: 0 <= w < |s.workers| ==> !CanOverturn(cfg, s, w, id)
  {
    RunKeepsQueueInv(cfg, Start(now, workers), before);
    FinalExactlyFrom(cfg, Run(cfg, Start(now, workers), before), id);
  }

  // ---------- attempts ----------

  /** The row is live and has been claimed `n` times. */
  predicate LiveAt(s: Service, id: nat, n: nat) {
    id < |s.rows| && !Terminal(s.rows[id]) && s.rows[id].attempts == n
  }

  /** Once worker 0 is idle and the longest wait has passed, it can claim the row. */
  lemma ClaimAfterWaiting(cfg: Config, s: Service, id: nat, n: nat)
    requires WfConfig(cfg) && QueueInv(cfg, s) && |s.workers| > 0 && s.workers[0].Idle? && LiveAt(s, id, n)
    ensures var t := Next(cfg, s, Tick(LongestWait(cfg) + 1)); LiveAt(Next(cfg, t, Claim(0, id)), id, n + 1)
  {
    assert RowOk(cfg, s, id);
  }

  lemma CrashFreesTheWorker(cfg: Config, s: Service, id: nat, n: nat)
    requires QueueInv(cfg, s) && |s.workers| > 0 && LiveAt(s, id, n)
    ensures var t := Next(cfg, s, Crash(0)); t.workers != [] && t.workers[0].Idle? && LiveAt(t, id, n)
  {
    assert WorkerOk(s, 0);
  }

  /** Worker 0 crashes if it has to, the longest wait passes, and it claims the row. */
  lemma OneMoreClaim(cfg: Config, s: Service, acts: seq<Action>, id: nat, n: nat) returns (more: seq<Action>)
    requires WfConfig(cfg) && QueueInv(cfg, s) && |s.workers| > 0 && LiveAt(Run(cfg, s, acts), id, n)
    ensures LiveAt(Run(cfg, s, more), id, n + 1)
  {
    RunKeepsQueueInv(cfg, s, acts);
    SameWorkers(cfg, s, acts);
    CrashFreesTheWorker(cfg, Run(cfg, s, acts), id, n);
    more := Then(cfg, s, acts, Crash(0));
    RunKeepsQueueInv(cfg, s, more);
    ClaimAfterWaiting(cfg, Run(cfg, s, more), id, n);
    more := Then(cfg, s, more, Tick(LongestWait(cfg) + 1));
    more := Then(cfg, s, more, Claim(0, id));
  }

  /** Any number of further claims can be issued for a live row. */
  lemma {:induction false} ClaimsCanFollow(cfg: Config, s: Service, id: nat, n: nat) returns (acts: seq<Action>)
    requires WfConfig(cfg) && QueueInv(cfg, s) && |s.workers| > 0
    requires id < |s.rows| && !Terminal(s.rows[id])
    ensures LiveAt(Run(cfg, s, acts), id, s.rows[id].attempts + n)
  {
    if n == 0 {
      return [];
    }
    acts := ClaimsCanFollow(cfg, s, id, n - 1);
    acts := OneMoreClaim(cfg, s, acts, id, s.rows[id].attempts + n - 1);
  }

  /** Some continuation leaves the row with at least `n` attempts. */
  ghost predicate CanReach(cfg: Config, s: Service, id: nat, n: nat) {
    exists acts :: id < |Run(cfg, s, acts).rows| && Run(cfg, s, acts).rows[id].attempts >= n
  }

  /** MaxAttempts is no bound: in every state of every run the attempts of a row can still
      grow beyond any bound if and only if the row is not terminal. */
  lemma {:induction false} AttemptsGrowExactlyWhileLive(
      cfg: Config, now: int, workers: nat, before: seq<Action>, id: nat)
    requires WfConfig(cfg) && workers > 0 && id < |Run(cfg, Start(now, workers), before).rows|
    ensures var s := Run(cfg, Start(now, workers), before);
            (forall n :: CanReach(cfg, s, id, n)) <==> !Terminal(s.rows[id])
  {
    RunKeepsQueueInv(cfg, Start(now, workers), before);
    SameWorkers(cfg, Start(now, workers), before);
    AttemptsGrowFrom(cfg, Run(cfg, Start(now, workers), before), id);
  }

  lemma AttemptsGrowFrom(cfg: Config, s: Service, id: nat)
    requires WfConfig(cfg) && QueueInv(cfg, s) && |s.workers| > 0 && id < |s.rows|
    ensures (forall n :: CanReach(cfg, s, id, n)) <==> !Terminal(s.rows[id])
  {
    if Terminal(s.rows[id]) {
      var n := s.rows[id].attempts + 1;
      if CanReach(cfg, s, id, n) {
        var acts :| id < |Run(cfg, s, acts).rows| && Run(cfg, s, acts).rows[id].attempts >= n;
        TerminalIsClosed(cfg, s, acts, id);
      }
    } else {
      forall n: nat ensures CanReach(cfg, s, id, n) {
        var acts := ClaimsCanFollow(cfg, s, id, n);
      }
    }
  }
}
