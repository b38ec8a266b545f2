// Runs that show where the guarantees of the service end, and exactly which model clients
// keep it effectively once.
module Limits {
  import opened Common
  import opened Model
  import opened Projection
  import opened Normalize
  import opened Backoff
  import opened RawQueue
  import opened System
  import opened EffectivelyOnce
  import opened Finality
  import opened Drain

  // ---------- how many claims a row can be given ----------

  predicate IdleFrom(s: Service, held: nat) {
    forall w :: held <= w < |s.workers| ==> s.workers[w].Idle?
  }

  /** The only row can be claimed for the (k + 1)st time, and the workers from `held` on are
      idle. */
  predicate Ready(s: Service, k: nat, held: nat) {
    |s.rows| == 1 && s.rows[0].attempts == k && Claimable(s.rows[0], s.now) && IdleFrom(s, held)
  }

  /** The only row is leased or waits for its retry. */
  predicate Waits(cfg: Config, s: Service, k: nat, held: nat) {
    && |s.rows| == 1 && s.rows[0].attempts == k && s.rows[0].status.Processing?
    && s.rows[0].leaseUntil.Some? && s.rows[0].leaseUntil.value <= s.now + LongestWait(cfg)
    && IdleFrom(s, held)
  }

  predicate Claimed(s: Service, w: nat, k: nat) {
    BusyIn(s, w) && s.workers[w].job.id == 0 && s.workers[w].job.attempts == k && s.workers[w].phase.Asking?
  }

  lemma ClaimLeases(cfg: Config, s: Service, k: nat, held: nat)
    requires WfConfig(cfg) && Ready(s, k, held) && held < |s.workers|
    ensures var t := Next(cfg, s, Claim(held, 0));
            Waits(cfg, t, k + 1, held + 1) && Claimed(t, held, k + 1) && |t.workers| == |s.workers|
  {
  }

  lemma FaultMoves(cfg: Config, s: Service, k: nat)
    requires Waits(cfg, s, k, 1) && Claimed(s, 0, k)
    ensures var t := Next(cfg, s, Ask(0, TransientFault("")));
            && Waits(cfg, t, k, 1) && BusyIn(t, 0) && t.workers[0].job == s.workers[0].job
            && t.workers[0].phase == Settling(Transient("")) && |t.workers| == |s.workers|
  {
  }

  lemma RetryWaits(cfg: Config, s: Service, k: nat)
    requires WfConfig(cfg) && k < cfg.maxAttempts && Waits(cfg, s, k, 1)
    requires BusyIn(s, 0) && s.workers[0].job.id == 0 && s.workers[0].job.attempts == k
    requires s.workers[0].phase == Settling(Transient(""))
    ensures var t := Next(cfg, s, Settle(0, 0)); Waits(cfg, t, k, 0) && |t.workers| == |s.workers|
  {
    JitterZero(cfg, k);
    DelayIsCapped(cfg.baseBackoff, cfg.maxBackoff, k, 0);
  }

  lemma CrashWaits(cfg: Config, s: Service, k: nat)
    requires Waits(cfg, s, k, 1) && Claimed(s, 0, k)
    ensures var t := Next(cfg, s, Crash(0)); Waits(cfg, t, k, 0) && |t.workers| == |s.workers|
    ensures LostBy(s, Crash(0)) == multiset{0}
  {
  }

  lemma WaitingEnds(cfg: Config, s: Service, k: nat, held: nat)
    requires WfConfig(cfg) && Waits(cfg, s, k, held)
    ensures var t := Next(cfg, s, Tick(LongestWait(cfg) + 1)); Ready(t, k, held) && |t.workers| == |s.workers|
    ensures held == 0 ==> Timely(s, Tick(LongestWait(cfg) + 1))
  {
  }

  /** The run `acts` prolonged by `a`, and what that loses. */
  lemma ThenLost(cfg: Config, s: Service, acts: seq<Action>, a: Action) returns (more: seq<Action>)
    ensures Run(cfg, s, more) == Next(cfg, Run(cfg, s, acts), a)
    ensures Lost(cfg, s, more) == Lost(cfg, s, acts) + LostBy(Run(cfg, s, acts), a)
    ensures TimelyRun(cfg, s, acts) && Timely(Run(cfg, s, acts), a) ==> TimelyRun(cfg, s, more)
  {
    more := Then(cfg, s, acts, a);
    assert Most(more) == acts;
  }

  /** The claim of worker 0 ends in a retry or in a crash. */
  lemma ClaimEnds(cfg: Config, s: Service, acts: seq<Action>, k: nat, crash: bool) returns (more: seq<Action>)
    requires WfConfig(cfg) && (crash || k < cfg.maxAttempts)
    requires Waits(cfg, Run(cfg, s, acts), k, 1) && Claimed(Run(cfg, s, acts), 0, k) && TimelyRun(cfg, s, acts)
    ensures Waits(cfg, Run(cfg, s, more), k, 0) && TimelyRun(cfg, s, more)
    ensures |Run(cfg, s, more).workers| == |Run(cfg, s, acts).workers|
    ensures Lost(cfg, s, more) == Lost(cfg, s, acts) + if crash then multiset{0} else multiset{}
  {
    if crash {
      CrashWaits(cfg, Run(cfg, s, acts), k);
      more := ThenLost(cfg, s, acts, Crash(0));
    } else {
      FaultMoves(cfg, Run(cfg, s, acts), k);
      more := ThenLost(cfg, s, acts, Ask(0, TransientFault("")));
      RetryWaits(cfg, Run(cfg, s, more), k);
      more := ThenLost(cfg, s, more, Settle(0, 0));
    }
  }

  /** One more claim of worker 0, retried or lost, and the wait for the next one. */
  lemma OneMoreRound(cfg: Config, s: Service, acts: seq<Action>, k: nat, crash: bool) returns (more: seq<Action>)
    requires WfConfig(cfg) && (crash || k + 1 < cfg.maxAttempts)
    requires Ready(Run(cfg, s, acts), k, 0) && |Run(cfg, s, acts).workers| > 0 && TimelyRun(cfg, s, acts)
    ensures Ready(Run(cfg, s, more), k + 1, 0) && TimelyRun(cfg, s, more)
    ensures |Run(cfg, s, more).workers| == |Run(cfg, s, acts).workers|
    ensures Lost(cfg, s, more) == Lost(cfg, s, acts) + if crash then multiset{0} else multiset{}
  {
    ClaimLeases(cfg, Run(cfg, s, acts), k, 0);
    more := ThenLost(cfg, s, acts, Claim(0, 0));
    more := ClaimEnds(cfg, s, more, k + 1, crash);
    WaitingEnds(cfg, Run(cfg, s, more), k + 1, 0);
    more := ThenLost(cfg, s, more, Tick(LongestWait(cfg) + 1));
  }

  /** First `k` claims that are retried, then `n` that are lost. */
  lemma {:induction false} Rounds(cfg: Config, s: Service, acts: seq<Action>, k: nat, n: nat)
    returns (more: seq<Action>)
    requires WfConfig(cfg) && k < cfg.maxAttempts
    requires Ready(Run(cfg, s, acts), 0, 0) && |Run(cfg, s, acts).workers| > 0 && TimelyRun(cfg, s, acts)
    requires Lost(cfg, s, acts) == multiset{}
    ensures Ready(Run(cfg, s, more), k + n, 0) && TimelyRun(cfg, s, more)
    ensures |Run(cfg, s, more).workers| == |Run(cfg, s, acts).workers|
    ensures Lost(cfg, s, more) == multiset{}[0 := n]
    decreases k + n
  {
    if k + n == 0 {
      more := acts;
    } else if n == 0 {
      more := Rounds(cfg, s, acts, k - 1, 0);
      more := OneMoreRound(cfg, s, more, k - 1, false);
    } else {
      more := Rounds(cfg, s, acts, k, n - 1);
      more := OneMoreRound(cfg, s, more, k + n - 1, true);
    }
  }

  /** A payload that kills its worker never reaches the cap: claiming does not look at
      MaxAttempts, so for every n there is a run with n crashed claims on a live row. */
  lemma {:induction false} CrashesNeverCap(cfg: Config, now: int, n: nat) returns (acts: seq<Action>)
    requires WfConfig(cfg)
    ensures Ready(Run(cfg, Start(now, 1), acts), n, 0) && Lost(cfg, Start(now, 1), acts)[0] == n
  {
    acts := ThenLost(cfg, Start(now, 1), [], Insert("h", "{}", ""));
    acts := Rounds(cfg, Start(now, 1), acts, 0, n);
  }

  lemma OneMoreHolder(cfg: Config, s: Service, acts: seq<Action>, k: nat, held: nat) returns (more: seq<Action>)
    requires WfConfig(cfg) && Ready(Run(cfg, s, acts), k, held) && held < |Run(cfg, s, acts).workers|
    ensures Waits(cfg, Run(cfg, s, more), k + 1, held + 1)
    ensures |Run(cfg, s, more).workers| == |Run(cfg, s, acts).workers|
    ensures Lost(cfg, s, more) == Lost(cfg, s, acts)
    ensures TimelyRun(cfg, s, acts) ==> TimelyRun(cfg, s, more)
  {
    ClaimLeases(cfg, Run(cfg, s, acts), k, held);
    more := ThenLost(cfg, s, acts, Claim(held, 0));
  }

  lemma LeaseRunsOut(cfg: Config, s: Service, acts: seq<Action>, k: nat, held: nat) returns (more: seq<Action>)
    requires WfConfig(cfg) && Waits(cfg, Run(cfg, s, acts), k, held)
    ensures Ready(Run(cfg, s, more), k, held)
    ensures |Run(cfg, s, more).workers| == |Run(cfg, s, acts).workers|
    ensures Lost(cfg, s, more) == Lost(cfg, s, acts)
  {
    WaitingEnds(cfg, Run(cfg, s, acts), k, held);
    more := ThenLost(cfg, s, acts, Tick(LongestWait(cfg) + 1));
  }

  /** Then one stale claim after the other. */
  lemma {:induction false} StaleClaims(cfg: Config, s: Service, acts: seq<Action>, k: nat, held: nat)
    returns (more: seq<Action>)
    requires WfConfig(cfg) && Ready(Run(cfg, s, acts), k, 0) && 1 <= held <= |Run(cfg, s, acts).workers|
    ensures Waits(cfg, Run(cfg, s, more), k + held, held)
    ensures |Run(cfg, s, more).workers| == |Run(cfg, s, acts).workers|
    ensures Lost(cfg, s, more) == Lost(cfg, s, acts)
    ensures held == 1 && TimelyRun(cfg, s, acts) ==> TimelyRun(cfg, s, more)
  {
    more := acts;
    if held > 1 {
      more := StaleClaims(cfg, s, acts, k, held - 1);
      more := LeaseRunsOut(cfg, s, more, k + held - 1, held - 1);
    }
    more := OneMoreHolder(cfg, s, more, k + held - 1, held - 1);
  }

  /** The bounds of ClaimsAreBounded are reached, whatever the number `n` of lost claims: with
      all workers on one row, and with one worker that keeps to its lease. */
  lemma {:induction false} ClaimBoundsAreReached(cfg: Config, now: int, workers: nat, n: nat, held: nat)
    returns (acts: seq<Action>)
    requires WfConfig(cfg) && 1 <= held <= workers
    ensures var s, lost := Run(cfg, Start(now, workers), acts), Lost(cfg, Start(now, workers), acts);
            && LiveAt(s, 0, cfg.maxAttempts - 1 + held + n) && |s.rows| == 1
            && lost[0] == |lost| == n
    ensures held == 1 ==> TimelyRun(cfg, Start(now, workers), acts)
  {
    acts := ThenLost(cfg, Start(now, workers), [], Insert("h", "{}", ""));
    acts := Rounds(cfg, Start(now, workers), acts, cfg.maxAttempts - 1, n);
    acts := StaleClaims(cfg, Start(now, workers), acts, cfg.maxAttempts - 1 + n, held);
  }

  // ---------- one worker, one row, any client ----------

  /** Worker `w` is about to ask the model about row 0, the only one. */
  predicate AsksAlone(s: Service, w: nat, payload: string) {
    && |s.rows| == 1 && s.rows[0].payload == payload
    && BusyIn(s, w) && s.workers[w].phase.Asking?
    && s.workers[w].job.id == 0 && s.workers[w].job.payload == payload
  }

  /** Its row has the lease of a claim made just now. */
  predicate JustClaimed(cfg: Config, s: Service) {
    |s.rows| == 1 && s.rows[0].status.Processing? && s.rows[0].leaseUntil == Some(s.now + cfg.lease)
  }

  lemma FirstSteps(cfg: Config, r: Service, payload: string)
    requires WfConfig(cfg) && r.rows == [] && |r.workers| > 0 && r.workers[0].Idle?
    ensures var t := Next(cfg, Next(cfg, r, Insert("h", payload, "")), Claim(0, 0));
            && AsksAlone(t, 0, payload) && JustClaimed(cfg, t) && t.facts == r.facts && t.entities == r.entities
            && |t.workers| == |r.workers| && t.workers[1..] == r.workers[1..]
  {
  }

  lemma FirstClaim(cfg: Config, c: Client, now: int, workers: nat, payload: string) returns (acts: seq<Action>)
    requires WfConfig(cfg) && workers > 0
    ensures ClientRun(cfg, c, Start(now, workers), acts)
    ensures var s := Run(cfg, Start(now, workers), acts);
            && AsksAlone(s, 0, payload) && JustClaimed(cfg, s) && s.facts == map[] && s.entities == map[]
            && |s.workers| == workers && s.workers[1..] == Start(now, workers).workers[1..]
  {
    FirstSteps(cfg, Start(now, workers), payload);
    acts := ClientThen(cfg, c, Start(now, workers), [], Insert("h", payload, ""));
    acts := ClientThen(cfg, c, Start(now, workers), acts, Claim(0, 0));
  }

  /** `r'` is `r` after the lease of row 0 has run out and worker `w` has claimed it again. */
  predicate Reclaimed(cfg: Config, r: Service, r': Service, w: nat) {
    && |r.rows| == 1 && AsksAlone(r', w, r.rows[0].payload) && JustClaimed(cfg, r')
    && r'.facts == r.facts && r'.entities == r.entities && |r'.workers| == |r.workers|
    && forall v :: 0 <= v < |r.workers| && v != w ==> r'.workers[v] == r.workers[v]
  }

  lemma ReclaimSteps(cfg: Config, r: Service, w: nat)
    requires WfConfig(cfg) && JustClaimed(cfg, r) && w < |r.workers| && r.workers[w].Idle?
    ensures Reclaimed(cfg, r, Next(cfg, Next(cfg, r, Tick(cfg.lease + 1)), Claim(w, 0)), w)
  {
  }

  lemma Reclaim(cfg: Config, c: Client, s: Service, acts: seq<Action>, w: nat) returns (more: seq<Action>)
    requires WfConfig(cfg) && ClientRun(cfg, c, s, acts)
    requires var r := Run(cfg, s, acts); JustClaimed(cfg, r) && w < |r.workers| && r.workers[w].Idle?
    ensures ClientRun(cfg, c, s, more) && Reclaimed(cfg, Run(cfg, s, acts), Run(cfg, s, more), w)
  {
    ReclaimSteps(cfg, Run(cfg, s, acts), w);
    more := ClientThen(cfg, c, s, acts, Tick(cfg.lease + 1));
    more := ClientThen(cfg, c, s, more, Claim(w, 0));
  }

  /** Worker 1 is told that the payload is hopeless and dead-letters it; worker 0, which has
      outlived its lease, is still about to ask. */
  lemma RejectWhileAsking(cfg: Config, r: Service, payload: string)
    requires WfConfig(cfg) && AsksAlone(r, 0, payload) && AsksAlone(r, 1, payload)
    ensures var t := Next(cfg, Next(cfg, r, Ask(1, Rejected(""))), Settle(1, 0));
            |t.rows| == 1 && t.rows[0].status.Failed? && 0 < |t.workers| && CanOverturn(cfg, t, 0, 0)
  {
    JitterZero(cfg, r.workers[1].job.attempts);
  }

  /** Two claims of one row, both about to ask the model. */
  lemma TwoClaims(cfg: Config, now: int) returns (acts: seq<Action>)
    requires WfConfig(cfg)
    ensures var s := Run(cfg, Start(now, 2), acts); AsksAlone(s, 0, "{}") && AsksAlone(s, 1, "{}")
  {
    var any: Client := (_, _) => true;
    acts := FirstClaim(cfg, any, now, 2, "{}");
    assert Run(cfg, Start(now, 2), acts).workers[1..][0].Idle?;
    acts := Reclaim(cfg, any, Start(now, 2), acts, 1);
  }

  /** Without kept leases an outcome is not final: a worker that outlives its lease turns
      FAILED into PROCESSED. */
  lemma StaleWorkersOverturnOutcomes(cfg: Config, now: int) returns (before: seq<Action>, after: seq<Action>)
    requires WfConfig(cfg)
    ensures before <= after
    ensures var s := Run(cfg, Start(now, 2), before); |s.rows| == 1 && s.rows[0].status.Failed?
    ensures var s := Run(cfg, Start(now, 2), after); 0 < |s.rows| && s.rows[0].status.Processed?
  {
    before := TwoClaims(cfg, now);
    RejectWhileAsking(cfg, Run(cfg, Start(now, 2), before), "{}");
    before := Then(cfg, Start(now, 2), before, Ask(1, Rejected("")));
    before := Then(cfg, Start(now, 2), before, Settle(1, 0));
    RunKeepsQueueInv(cfg, Start(now, 2), before);
    var more := Overturn(cfg, Run(cfg, Start(now, 2), before), 0, 0);
    TerminalIsClosed(cfg, Run(cfg, Start(now, 2), before), more, 0);
    RunConcat(cfg, Start(now, 2), before, more);
    after := before + more;
  }

  // ---------- a client that asks for two writes ----------

  /** Worker 0 asks, gets the answer `ans` and stores its fact. */
  lemma AskAndStore(cfg: Config, c: Client, s: Service, acts: seq<Action>, payload: string, ans: Answer, n: Normalized)
    returns (more: seq<Action>)
    requires ClientRun(cfg, c, s, acts) && AsksAlone(Run(cfg, s, acts), 0, payload)
    requires c(payload, ans) && Verdict(cfg, ans) == Ok(n)
    ensures ClientRun(cfg, c, s, more)
    ensures var r, r' := Run(cfg, s, acts), Run(cfg, s, more);
            && r'.now == r.now && r'.rows == r.rows && r'.entities == r.entities
            && r'.facts == WithFact(r.facts, 0, n) && |r'.workers| == |r.workers|
            && BusyIn(r', 0) && r'.workers[0].job.id == 0 && r'.workers[0].phase == Projecting(n)
  {
    more := ClientThen(cfg, c, s, acts, Ask(0, ans));
    more := ClientThen(cfg, c, s, more, StoreFact(0, NoFault));
  }

  /** Worker 0 projects its fact and acknowledges the job. */
  lemma ProjectAndAck(cfg: Config, c: Client, s: Service, acts: seq<Action>, n: Normalized) returns (more: seq<Action>)
    requires WfConfig(cfg) && ClientRun(cfg, c, s, acts)
    requires var r := Run(cfg, s, acts);
             BusyIn(r, 0) && r.workers[0].job.id == 0 && r.workers[0].phase == Projecting(n)
    ensures ClientRun(cfg, c, s, more)
    ensures var r, r' := Run(cfg, s, acts), Run(cfg, s, more);
            && |r'.rows| == |r.rows| > 0 && r'.rows[0].status.Processed?
            && r'.facts == r.facts && r'.entities == Projected(r.entities, 0, n)
  {
    JitterZero(cfg, Run(cfg, s, acts).workers[0].job.attempts);
    more := ClientThen(cfg, c, s, acts, Project(0, NoFault));
    more := ClientThen(cfg, c, s, more, Settle(0, 0));
  }

  /** One PROCESSED row whose stored fact is `a` while the entities are those of `b`. */
  predicate Split(s: Service, a: Normalized, b: Normalized) {
    && |s.rows| == 1 && s.rows[0].status.Processed?
    && s.facts == map[0 := a] && s.entities == Projected(map[], 0, b)
  }

  lemma AtMostOnce<T>(s: seq<T>, x: T)
    ensures NoDuplicates(s) && (forall i :: 0 <= i < |s| ==> s[i] == x) ==> |s| <= 1
  {
    if |s| > 1 && forall i :: 0 <= i < |s| ==> s[i] == x {
      assert s[0] == s[1];
    }
  }

  /** The sequential runs over one stored fact. */
  lemma AtMostOneWrite(facts: map<nat, Normalized>, a: Normalized, ids: seq<nat>)
    requires facts == map[0 := a] && NoDuplicates(ids) && HasWrites(facts, ids)
    ensures ids == [] || (ids == [0] && Replay(WritesOf(facts, ids)) == Projected(map[], 0, a) != map[])
  {
    assert forall i :: 0 <= i < |ids| ==> ids[i] in facts;
    AtMostOnce(ids, 0);
    if ids != [] {
      assert ids == [0] && ProjectionOf(ids[0], facts[ids[0]]).Some?;
      AppendToReplay([], ProjectionOf(0, a).value);
      assert WritesOf(facts, ids) == [] + [ProjectionOf(0, a).value];
    }
  }

  lemma DifferentWritesDiffer(a: Normalized, b: Normalized)
    requires !SameWrite(a, b)
    ensures Projected(map[], 0, a) != Projected(map[], 0, b)
  {
    var x, y := ProjectionOf(0, a), ProjectionOf(0, b);
    if x.Some? {
      assert x.value.key in Projected(map[], 0, a);
    }
    if y.Some? {
      assert y.value.key in Projected(map[], 0, b);
    }
  }

  lemma SplitIsUnexplained(s: Service, a: Normalized, b: Normalized)
    requires Split(s, a, b) && WfNormalized(a) && !SameWrite(a, b)
    ensures !HandledOnce(s)
  {
    DifferentWritesDiffer(a, b);
    forall ids: seq<nat> ensures !Explains(s, ids) {
      if NoDuplicates(ids) && HasWrites(s.facts, ids) {
        AtMostOneWrite(s.facts, a, ids);
      }
    }
  }

  lemma CrashKeepsClaim(cfg: Config, r: Service)
    requires JustClaimed(cfg, r) && BusyIn(r, 0)
    ensures var t := Next(cfg, r, Crash(0)); t == r.(workers := t.workers) && |t.workers| > 0 && t.workers[0].Idle?
  {
  }

  /** Worker 0 crashes, and its row is claimed again. */
  lemma CrashAndReclaim(cfg: Config, c: Client, s: Service, acts: seq<Action>) returns (more: seq<Action>)
    requires WfConfig(cfg) && ClientRun(cfg, c, s, acts)
    requires JustClaimed(cfg, Run(cfg, s, acts)) && BusyIn(Run(cfg, s, acts), 0)
    ensures ClientRun(cfg, c, s, more)
    ensures var r, r' := Run(cfg, s, acts), Run(cfg, s, more);
            AsksAlone(r', 0, r.rows[0].payload) && r'.facts == r.facts && r'.entities == r.entities
  {
    CrashKeepsClaim(cfg, Run(cfg, s, acts));
    more := ClientThen(cfg, c, s, acts, Crash(0));
    more := Reclaim(cfg, c, s, more, 0);
  }

  lemma SplitFrom(
      cfg: Config, c: Client, s: Service, acts: seq<Action>, payload: string, ans1: Answer, ans2: Answer,
      a: Normalized, b: Normalized)
    returns (more: seq<Action>)
    requires WfConfig(cfg) && c(payload, ans1) && c(payload, ans2)
    requires Verdict(cfg, ans1) == Ok(a) && Verdict(cfg, ans2) == Ok(b)
    requires ClientRun(cfg, c, s, acts)
    requires var r := Run(cfg, s, acts);
             AsksAlone(r, 0, payload) && JustClaimed(cfg, r) && r.facts == map[] && r.entities == map[]
    ensures ClientRun(cfg, c, s, more) && Split(Run(cfg, s, more), a, b)
  {
    more := AskAndStore(cfg, c, s, acts, payload, ans1, a);
    more := CrashAndReclaim(cfg, c, s, more);
    more := AskAndStore(cfg, c, s, more, payload, ans2, b);
    more := ProjectAndAck(cfg, c, s, more, b);
  }

  /** The first answer is stored and the second projected: any two accepted answers to a
      payload are split by some run. */
  lemma {:induction false} SplitIsReached(
      cfg: Config, c: Client, now: int, payload: string, ans1: Answer, ans2: Answer, a: Normalized, b: Normalized)
    returns (acts: seq<Action>)
    requires WfConfig(cfg) && c(payload, ans1) && c(payload, ans2)
    requires Verdict(cfg, ans1) == Ok(a) && Verdict(cfg, ans2) == Ok(b)
    ensures ClientRun(cfg, c, Start(now, 1), acts) && Split(Run(cfg, Start(now, 1), acts), a, b)
    ensures WfNormalized(a) && WfNormalized(b)
  {
    acts := FirstClaim(cfg, c, now, 1, payload);
    acts := SplitFrom(cfg, c, Start(now, 1), acts, payload, ans1, ans2, a, b);
    VerdictIsWellFormed(cfg, ans1);
    VerdictIsWellFormed(cfg, ans2);
  }

  /** If the two ask for different writes, no handling of the stored facts explains the end. */
  lemma {:induction false} AnswersMustAgree(
      cfg: Config, c: Client, now: int, payload: string, ans1: Answer, ans2: Answer, a: Normalized, b: Normalized)
    returns (acts: seq<Action>)
    requires WfConfig(cfg) && c(payload, ans1) && c(payload, ans2)
    requires Verdict(cfg, ans1) == Ok(a) && Verdict(cfg, ans2) == Ok(b) && !SameWrite(a, b)
    ensures ClientRun(cfg, c, Start(now, 1), acts)
    ensures var s := Run(cfg, Start(now, 1), acts); Split(s, a, b) && !HandledOnce(s)
  {
    acts := SplitIsReached(cfg, c, now, payload, ans1, ans2, a, b);
    SplitIsUnexplained(Run(cfg, Start(now, 1), acts), a, b);
  }

  lemma SplitAccepted(cfg: Config, c: Client, payload: string, a: Normalized, b: Normalized) returns (s: Service)
    requires WfConfig(cfg) && Accepts(cfg, c, payload, a) && Accepts(cfg, c, payload, b)
    ensures Reachable(cfg, c, s) && Split(s, a, b) && WfNormalized(a) && WfNormalized(b)
  {
    var ans1 :| c(payload, ans1) && Verdict(cfg, ans1) == Ok(a);
    var ans2 :| c(payload, ans2) && Verdict(cfg, ans2) == Ok(b);
    var acts := SplitIsReached(cfg, c, 0, payload, ans1, ans2, a, b);
    s := Run(cfg, Start(0, 1), acts);
  }

  // ---------- exactly which clients keep which promise ----------

  /** Every run with the client is effectively once if and only if all its accepted answers
      to a payload ask for the same write. */
  lemma EffectivelyOnceExactlyForOneWrite(cfg: Config, c: Client)
    requires WfConfig(cfg)
    ensures (forall s :: Reachable(cfg, c, s) ==> HandledOnce(s)) <==> OneWritePerPayload(cfg, c)
  {
    if OneWritePerPayload(cfg, c) {
      forall s | Reachable(cfg, c, s) ensures HandledOnce(s) {
        HandledEffectivelyOnce(cfg, c, s);
      }
    } else {
      var payload, a, b :| Accepts(cfg, c, payload, a) && Accepts(cfg, c, payload, b) && !SameWrite(a, b);
      var s := SplitAccepted(cfg, c, payload, a, b);
      SplitIsUnexplained(s, a, b);
    }
  }

  lemma SplitStateHasNoFact(s: Service, a: Normalized, b: Normalized)
    requires Split(s, a, b) && WfNormalized(a) && Target(a) != Target(b) && Target(b).Some?
    ensures !StatesHaveFacts(s)
  {
    assert b.entityKey in s.entities && s.entities[b.entityKey].state == b.canonicalState.value;
    assert !HasItsFact(s, b.entityKey);
  }

  /** Every entity is in the state of a stored fact about it, in every run with the client, if
      and only if all its accepted answers to a payload agree on key and state. */
  lemma StatesHaveFactsExactlyForOneTarget(cfg: Config, c: Client)
    requires WfConfig(cfg)
    ensures (forall s :: Reachable(cfg, c, s) ==> StatesHaveFacts(s)) <==> OneTargetPerPayload(cfg, c)
  {
    if OneTargetPerPayload(cfg, c) {
      forall s | Reachable(cfg, c, s) ensures StatesHaveFacts(s) {
        EveryStateHasItsFact(cfg, c, s);
      }
    } else {
      var payload, a, b :| Accepts(cfg, c, payload, a) && Accepts(cfg, c, payload, b) && Target(a) != Target(b);
      var stored, projected := if Target(b).Some? then a else b, if Target(b).Some? then b else a;
      var s := SplitAccepted(cfg, c, payload, stored, projected);
      SplitStateHasNoFact(s, stored, projected);
    }
  }

  /** An entity written by `b` alone does not show the fact `a`. */
  predicate Outranks(a: Normalized, b: Normalized) {
    && Place(a).Some?
    && (Place(b).None? || a.entityKey != b.entityKey
        || (a.class_.Shipment? && (!b.class_.Shipment? || Rank(b) < Rank(a))))
  }

  function Rank(n: Normalized): nat {
    if n.canonicalState.Some? then ShipmentRank(n.canonicalState.value) else 0
  }

  lemma SplitFactIsNotShown(s: Service, a: Normalized, b: Normalized)
    requires Split(s, a, b) && WfNormalized(a) && WfNormalized(b) && Outranks(a, b)
    ensures !ProcessedIsShown(s)
  {
    assert !Shows(s, s.facts[0]);
  }

  lemma OneOutranksTheOther(a: Normalized, b: Normalized)
    requires WfNormalized(a) && WfNormalized(b) && Place(a) != Place(b)
    ensures Outranks(a, b) || Outranks(b, a)
  {
  }

  /** The entity of every PROCESSED row exists and has reached the rank of its shipment fact,
      in every run with the client, if and only if all its accepted answers to a payload
      agree on the key and on the state of a shipment. */
  lemma ProcessedIsShownExactlyForOnePlace(cfg: Config, c: Client)
    requires WfConfig(cfg)
    ensures (forall s :: Reachable(cfg, c, s) ==> ProcessedIsShown(s)) <==> OnePlacePerPayload(cfg, c)
  {
    if OnePlacePerPayload(cfg, c) {
      forall s | Reachable(cfg, c, s) ensures ProcessedIsShown(s) {
        ProcessedMeansProjected(cfg, c, s);
      }
    } else {
      var payload, a, b :| Accepts(cfg, c, payload, a) && Accepts(cfg, c, payload, b) && Place(a) != Place(b);
      var s := SplitAccepted(cfg, c, payload, a, b);
      var t := SplitAccepted(cfg, c, payload, b, a);
      OneOutranksTheOther(a, b);
      if Outranks(a, b) {
        SplitFactIsNotShown(s, a, b);
      } else {
        SplitFactIsNotShown(t, b, a);
      }
    }
  }
}
