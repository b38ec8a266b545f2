// The whole service as a step system: the three tables, any number of workers, a clock,
// leases that run out while a handler still runs, and crashes at any point.
module System {
  import opened Common
  import opened Model
  import opened Projection
  import opened Backoff
  import opened RawQueue

  /** What a worker is doing. Each phase ends with one statement or call of Handle or
      dispatch; `deadline` is when the lease it was given runs out. */
  datatype Phase =
    | Asking                             // the model call is under way
    | Storing(n: Normalized)             // about to insert the fact
    | Projecting(n: Normalized)          // about to write the entity
    | Settling(o: Outcome)               // about to Ack, Fail or Retry

  datatype Local = Idle | Busy(job: Job, deadline: int, phase: Phase)

  /** The last three fields record history: the claims issued per row, the claims settled
      (row and claim number), and the projection writes in commit order. */
  datatype Service = Service(
    now: int, rows: seq<Row>, facts: map<nat, Normalized>, entities: Table, workers: seq<Local>,
    claims: multiset<nat>, settled: set<(nat, nat)>, log: seq<Event>)

  datatype Action =
    | Tick(d: nat)
    | Insert(hash: string, payload: string, source: string)
    | Claim(w: nat, id: nat)
    | Ask(w: nat, ans: Answer)
    | StoreFact(w: nat, fault: Fault)
    | Project(w: nat, fault: Fault)
    | Settle(w: nat, jitter: int)
    | Crash(w: nat)

  function Start(now: int, workers: nat): Service {
    Service(now, [], map[], map[], seq(workers, _ => Idle), multiset{}, {}, [])
  }

  predicate BusyIn(s: Service, w: nat) {
    w < |s.workers| && s.workers[w].Busy? && s.workers[w].job.id < |s.rows| && s.workers[w].job.attempts >= 1
  }

  function Work(s: Service, w: nat): Local
    requires BusyIn(s, w)
    ensures Work(s, w).Busy?
  {
    s.workers[w]
  }

  predicate Enabled(cfg: Config, s: Service, a: Action) {
    match a
    case Tick(_) => true
    case Insert(hash, _, _) => forall i :: 0 <= i < |s.rows| ==> s.rows[i].hash != hash
    // SKIP LOCKED may pass over any row, so any claimable row can be the next one.
    case Claim(w, id) => w < |s.workers| && s.workers[w].Idle? && id < |s.rows| && Claimable(s.rows[id], s.now)
    case Ask(w, _) => BusyIn(s, w) && s.workers[w].phase.Asking?
    case StoreFact(w, _) => BusyIn(s, w) && s.workers[w].phase.Storing?
    case Project(w, _) => BusyIn(s, w) && s.workers[w].phase.Projecting?
    case Settle(w, jitter) =>
      && BusyIn(s, w) && s.workers[w].phase.Settling?
      && IsJitter(cfg.baseBackoff, cfg.maxBackoff, s.workers[w].job.attempts, jitter)
    case Crash(w) => BusyIn(s, w)
  }

  function GoTo(s: Service, w: nat, p: Phase): Service
    requires BusyIn(s, w)
  {
    s.(workers := s.workers[w := Work(s, w).(phase := p)])
  }

  /** Where the insert of the fact leads. */
  function AfterStore(n: Normalized, fault: Fault): Phase {
    if fault.NoFault? then Projecting(n) else Settling(Transient("persist fact"))
  }

  /** Where the write of the entity leads; without one there is no statement that can fail. */
  function AfterProject(n: Normalized, fault: Fault): Phase {
    if fault.NoFault? || ProjectionOf(0, n).None? then Settling(Success) else Settling(Transient("project"))
  }

  function Do(cfg: Config, s: Service, a: Action): Service
    requires Enabled(cfg, s, a)
  {
    match a
    case Tick(d) => s.(now := s.now + d)
    case Insert(hash, payload, source) => s.(rows := s.rows + [NewRow(hash, payload, source, s.now)])
    case Claim(w, id) =>
      var r := ClaimedRow(s.rows[id], s.now, cfg.lease);
      s.(rows := s.rows[id := r], claims := s.claims + multiset{id},
         workers := s.workers[w := Busy(Job(id, r.payload, r.attempts), s.now + cfg.lease, Asking)])
    case Ask(w, ans) =>
      var v := Verdict(cfg, ans);
      GoTo(s, w, if v.Ok? then Storing(v.value) else Settling(v.error))
    case StoreFact(w, fault) =>
      var n := Work(s, w).phase.n;
      GoTo(s, w, AfterStore(n, fault)).(facts := Left(fault, s.facts, WithFact(s.facts, Work(s, w).job.id, n)))
    case Project(w, fault) =>
      var n, id := Work(s, w).phase.n, Work(s, w).job.id;
      var ev := ProjectionOf(id, n);
      GoTo(s, w, AfterProject(n, fault)).(
        entities := Left(fault, s.entities, Projected(s.entities, id, n)),
        log := Left(fault, s.log, if ev.Some? then s.log + [ev.value] else s.log))
    case Settle(w, jitter) =>
      var job := Work(s, w).job;
      s.(rows := s.rows[job.id := SettledRow(cfg, s.rows[job.id], job.attempts, Work(s, w).phase.o, s.now, jitter)],
         workers := s.workers[w := Idle], settled := s.settled + {(job.id, job.attempts)})
    case Crash(w) => s.(workers := s.workers[w := Idle])
  }

  /** One step; an action that is not enabled changes nothing. */
  function Next(cfg: Config, s: Service, a: Action): Service {
    if Enabled(cfg, s, a) then Do(cfg, s, a) else s
  }

  /** A run is any sequence of actions. */
  function Run(cfg: Config, s: Service, acts: seq<Action>): Service {
    if acts == [] then s else Next(cfg, Run(cfg, s, Most(acts)), Last(acts))
  }

  /** The run `acts` prolonged by `a`. */
  lemma Then(cfg: Config, s: Service, acts: seq<Action>, a: Action) returns (more: seq<Action>)
    ensures more == acts + [a] && Run(cfg, s, more) == Next(cfg, Run(cfg, s, acts), a)
  {
    more := acts + [a];
    assert Most(more) == acts;
  }

  lemma {:induction false} RunConcat(cfg: Config, s: Service, acts: seq<Action>, more: seq<Action>)
    ensures Run(cfg, s, acts + more) == Run(cfg, Run(cfg, s, acts), more)
  {
    if more == [] {
      assert acts + more == acts;
    } else {
      assert Most(acts + more) == acts + Most(more);
      RunConcat(cfg, s, acts, Most(more));
    }
  }

  lemma {:induction false} SameWorkers(cfg: Config, s: Service, acts: seq<Action>)
    ensures |Run(cfg, s, acts).workers| == |s.workers|
  {
    if acts != [] {
      SameWorkers(cfg, s, Most(acts));
    }
  }

  // ---------- the steps within a job ----------

  /** Worker `w` has gone from where it is in `s` to phase `p` by steps of its own, which
      leave these facts and entities. */
  predicate Moved(s: Service, s': Service, w: nat, p: Phase, facts: map<nat, Normalized>, entities: Table)
    requires BusyIn(s, w)
  {
    && s'.rows == s.rows && s'.now == s.now && s'.facts == facts && s'.entities == entities
    && s'.workers == s.workers[w := s.workers[w].(phase := p)]
  }

  lemma MovedStaysBusy(s: Service, s': Service, w: nat, p: Phase)
    requires BusyIn(s, w) && Moved(s, s', w, p, s'.facts, s'.entities)
    ensures BusyIn(s', w) && s'.workers[w].job == s.workers[w].job && s'.workers[w].phase == p
  {
  }

  lemma AskMoves(cfg: Config, s: Service, w: nat, ans: Answer)
    requires BusyIn(s, w) && s.workers[w].phase.Asking?
    ensures var v := Verdict(cfg, ans);
            var p := if v.Ok? then Storing(v.value) else Settling(v.error);
            Moved(s, Next(cfg, s, Ask(w, ans)), w, p, s.facts, s.entities)
  {
  }

  lemma StoreMoves(cfg: Config, s: Service, t: Service, w: nat, n: Normalized, fault: Fault)
    requires BusyIn(s, w) && Moved(s, t, w, Storing(n), t.facts, t.entities)
    ensures var facts := Left(fault, t.facts, WithFact(t.facts, s.workers[w].job.id, n));
            Moved(s, Next(cfg, t, StoreFact(w, fault)), w, AfterStore(n, fault), facts, t.entities)
  {
    MovedStaysBusy(s, t, w, Storing(n));
  }

  lemma ProjectMoves(cfg: Config, s: Service, t: Service, w: nat, n: Normalized, fault: Fault)
    requires BusyIn(s, w) && Moved(s, t, w, Projecting(n), t.facts, t.entities)
    ensures var entities := Left(fault, t.entities, Projected(t.entities, s.workers[w].job.id, n));
            Moved(s, Next(cfg, t, Project(w, fault)), w, AfterProject(n, fault), t.facts, entities)
  {
    MovedStaysBusy(s, t, w, Projecting(n));
  }

  // ---------- the queue ----------

  function LongestWait(cfg: Config): int {
    Max(cfg.lease, cfg.maxBackoff)
  }

  ghost predicate RowOk(cfg: Config, s: Service, id: nat)
    requires id < |s.rows|
  {
    var r := s.rows[id];
    && s.claims[id] == r.attempts
    && (r.status.Pending? <==> r.attempts == 0)
    && (r.status.Processing? ==> r.leaseUntil.Some? && r.leaseUntil.value <= s.now + LongestWait(cfg))
  }

  ghost predicate WorkerOk(s: Service, w: nat)
    requires w < |s.workers|
  {
    s.workers[w].Busy? ==>
      var job := s.workers[w].job;
      && job.id < |s.rows| && 1 <= job.attempts <= s.rows[job.id].attempts
      && job.payload == s.rows[job.id].payload
      && (job.id, job.attempts) !in s.settled
  }

  /** No two workers hold the same claim. */
  ghost predicate DistinctClaims(s: Service) {
    forall v, w :: 0 <= v < w < |s.workers| && s.workers[v].Busy? && s.workers[w].Busy? ==>
      (s.workers[v].job.id, s.workers[v].job.attempts) != (s.workers[w].job.id, s.workers[w].job.attempts)
  }

  /** A settled claim was issued, and if it was the last allowed one or later, its row is
      terminal. */
  ghost predicate SettledOk(cfg: Config, s: Service) {
    forall p :: p in s.settled ==>
      && p.0 < |s.rows| && 1 <= p.1 <= s.rows[p.0].attempts
      && (p.1 >= cfg.maxAttempts ==> Terminal(s.rows[p.0]))
  }

  ghost predicate QueueInv(cfg: Config, s: Service) {
    && (forall id :: 0 <= id < |s.rows| ==> RowOk(cfg, s, id))
    && (forall w :: 0 <= w < |s.workers| ==> WorkerOk(s, w))
    && (forall id :: id in s.claims ==> id < |s.rows|)
    && DistinctClaims(s)
    && SettledOk(cfg, s)
  }

  lemma ClaimKeepsQueueInv(cfg: Config, s: Service, w: nat, id: nat)
    requires WfConfig(cfg) && QueueInv(cfg, s) && Enabled(cfg, s, Claim(w, id))
    ensures QueueInv(cfg, Do(cfg, s, Claim(w, id)))
  {
    var s' := Do(cfg, s, Claim(w, id));
    assert RowOk(cfg, s, id);
    forall i | 0 <= i < |s'.rows| ensures RowOk(cfg, s', i) {
      assert RowOk(cfg, s, i);
    }
    forall v | 0 <= v < |s'.workers| ensures WorkerOk(s', v) {
      assert WorkerOk(s, v);
    }
    forall u, v | 0 <= u < v < |s'.workers| && s'.workers[u].Busy? && s'.workers[v].Busy?
      ensures (s'.workers[u].job.id, s'.workers[u].job.attempts) != (s'.workers[v].job.id, s'.workers[v].job.attempts)
    {
      assert WorkerOk(s, u) && WorkerOk(s, v);
    }
  }

  lemma SettleKeepsQueueInv(cfg: Config, s: Service, w: nat, jitter: int)
    requires WfConfig(cfg) && QueueInv(cfg, s) && Enabled(cfg, s, Settle(w, jitter))
    ensures QueueInv(cfg, Do(cfg, s, Settle(w, jitter)))
  {
    var s' := Do(cfg, s, Settle(w, jitter));
    var job := s.workers[w].job;
    assert WorkerOk(s, w) && RowOk(cfg, s, job.id);
    DelayIsCapped(cfg.baseBackoff, cfg.maxBackoff, job.attempts, jitter);
    forall i | 0 <= i < |s'.rows| ensures RowOk(cfg, s', i) {
      assert RowOk(cfg, s, i);
    }
    forall v | 0 <= v < |s'.workers| ensures WorkerOk(s', v) {
      assert WorkerOk(s, v);
      if v != w && s.workers[v].Busy? {
        assert (s.workers[v].job.id, s.workers[v].job.attempts) != (job.id, job.attempts);
      }
    }
  }

  /** A step that only moves one worker on within its job, or drops it. */
  ghost predicate LocalStep(s: Service, s': Service, w: nat) {
    && w < |s.workers| && |s'.workers| == |s.workers|
    && s'.now == s.now && s'.rows == s.rows && s'.claims == s.claims && s'.settled == s.settled
    && (forall v :: 0 <= v < |s.workers| && v != w ==> s'.workers[v] == s.workers[v])
    && (s'.workers[w].Busy? ==>
         && s.workers[w].Busy? && s'.workers[w].job == s.workers[w].job
         && s'.workers[w].deadline == s.workers[w].deadline)
  }

  lemma LocalStepKeepsQueueInv(cfg: Config, s: Service, s': Service, w: nat)
    requires QueueInv(cfg, s) && LocalStep(s, s', w)
    ensures QueueInv(cfg, s')
  {
    forall i | 0 <= i < |s'.rows| ensures RowOk(cfg, s', i) {
      assert RowOk(cfg, s, i);
    }
    forall v | 0 <= v < |s'.workers| ensures WorkerOk(s', v) {
      assert WorkerOk(s, v);
    }
  }

  lemma InsertKeepsQueueInv(cfg: Config, s: Service, s': Service, r: Row)
    requires QueueInv(cfg, s) && s' == s.(rows := s.rows + [r])
    requires r.status.Pending? && r.attempts == 0
    ensures QueueInv(cfg, s')
  {
    forall i | 0 <= i < |s'.rows| ensures RowOk(cfg, s', i) {
      assert i < |s.rows| ==> RowOk(cfg, s, i);
    }
    forall v | 0 <= v < |s'.workers| ensures WorkerOk(s', v) {
      assert WorkerOk(s, v);
    }
  }

  lemma TickKeepsQueueInv(cfg: Config, s: Service, d: nat)
    requires QueueInv(cfg, s)
    ensures QueueInv(cfg, s.(now := s.now + d))
  {
    var s' := s.(now := s.now + d);
    forall i | 0 <= i < |s'.rows| ensures RowOk(cfg, s', i) {
      assert RowOk(cfg, s, i);
    }
    forall v | 0 <= v < |s'.workers| ensures WorkerOk(s', v) {
      assert WorkerOk(s, v);
    }
  }

  lemma OtherStepsAreLocal(cfg: Config, s: Service, a: Action)
    requires Enabled(cfg, s, a) && !a.Tick? && !a.Insert? && !a.Claim? && !a.Settle?
    ensures LocalStep(s, Do(cfg, s, a), a.w)
  {
  }

  lemma StepKeepsQueueInv(cfg: Config, s: Service, a: Action)
    requires WfConfig(cfg) && QueueInv(cfg, s)
    ensures QueueInv(cfg, Next(cfg, s, a))
  {
    if Enabled(cfg, s, a) {
      match a
      case Tick(d) => TickKeepsQueueInv(cfg, s, d);
      case Insert(hash, payload, source) =>
        InsertKeepsQueueInv(cfg, s, Do(cfg, s, a), NewRow(hash, payload, source, s.now));
      case Claim(w, id) => ClaimKeepsQueueInv(cfg, s, w, id);
      case Settle(w, jitter) => SettleKeepsQueueInv(cfg, s, w, jitter);
      case _ =>
        OtherStepsAreLocal(cfg, s, a);
        LocalStepKeepsQueueInv(cfg, s, Do(cfg, s, a), a.w);
    }
  }

  lemma {:induction false} RunKeepsQueueInv(cfg: Config, s: Service, acts: seq<Action>)
    requires WfConfig(cfg) && QueueInv(cfg, s)
    ensures QueueInv(cfg, Run(cfg, s, acts))
  {
    if acts != [] {
      RunKeepsQueueInv(cfg, s, Most(acts));
      StepKeepsQueueInv(cfg, Run(cfg, s, Most(acts)), Last(acts));
    }
  }

  /** Without new steps every row that is not terminal is claimable after the longest of a
      lease and a backoff, however stale workers have rescheduled it. */
  lemma {:induction false} NoRowIsStranded(cfg: Config, now: int, workers: nat, acts: seq<Action>, id: nat)
    requires WfConfig(cfg) && id < |Run(cfg, Start(now, workers), acts).rows|
    ensures var s := Run(cfg, Start(now, workers), acts);
            var s' := Next(cfg, s, Tick(LongestWait(cfg) + 1));
            !Terminal(s.rows[id]) ==> Claimable(s'.rows[id], s'.now)
  {
    RunKeepsQueueInv(cfg, Start(now, workers), acts);
    assert RowOk(cfg, Run(cfg, Start(now, workers), acts), id);
  }

  // ---------- terminal rows ----------

  lemma StepKeepsRows(cfg: Config, s: Service, a: Action, id: nat)
    requires id < |s.rows|
    ensures var s' := Next(cfg, s, a);
            && id < |s'.rows| && s'.rows[id].hash == s.rows[id].hash && s'.rows[id].payload == s.rows[id].payload
            && s'.rows[id].attempts >= s.rows[id].attempts
            && (Terminal(s.rows[id]) ==> Terminal(s'.rows[id]) && s'.rows[id].attempts == s.rows[id].attempts)
  {
  }

  /** Rows are never lost or rewritten; a terminal row stays terminal, whatever stale
      workers still do to it, so it can never be claimed again. */
  lemma {:induction false} TerminalIsClosed(cfg: Config, s: Service, acts: seq<Action>, id: nat)
    requires id < |s.rows|
    ensures var s' := Run(cfg, s, acts);
            && id < |s'.rows| && s'.rows[id].hash == s.rows[id].hash && s'.rows[id].payload == s.rows[id].payload
            && (Terminal(s.rows[id]) ==>
                 && Terminal(s'.rows[id]) && s'.rows[id].attempts == s.rows[id].attempts
                 && forall now :: !Claimable(s'.rows[id], now))
  {
    if acts != [] {
      TerminalIsClosed(cfg, s, Most(acts), id);
      StepKeepsRows(cfg, Run(cfg, s, Most(acts)), Last(acts), id);
    }
  }

  // ---------- when a row can be claimed ----------

  /** A claim keeps the row from everybody for the length of the lease, and no longer. */
  lemma ClaimsKeepTheirDistance(cfg: Config, s: Service, w: nat, id: nat, t: int)
    requires Enabled(cfg, s, Claim(w, id))
    ensures var r, was := Do(cfg, s, Claim(w, id)).rows[id], s.rows[id];
            && r == was.(status := Processing, attempts := was.attempts + 1, leaseUntil := r.leaseUntil)
            && (Claimable(r, t) <==> t > s.now + cfg.lease)
  {
  }

  /** In every run a transient failure below the cap of a leased row keeps it from everybody
      during the first half of the ideal delay, and no longer than the whole of it. */
  lemma {:induction false} RetriesWait(
      cfg: Config, now: int, workers: nat, acts: seq<Action>, w: nat, jitter: int, reason: string, t: int)
    requires WfConfig(cfg) && GuardCatchesOverflow(cfg.baseBackoff, cfg.maxBackoff)
    requires var s := Run(cfg, Start(now, workers), acts);
             && Enabled(cfg, s, Settle(w, jitter)) && s.workers[w].phase == Settling(Transient(reason))
             && s.workers[w].job.attempts < cfg.maxAttempts && s.rows[s.workers[w].job.id].status.Processing?
    ensures var s := Run(cfg, Start(now, workers), acts);
            var id, delay := s.workers[w].job.id,
                             Ideal(cfg.baseBackoff, cfg.maxBackoff, s.workers[w].job.attempts);
            var r := Next(cfg, s, Settle(w, jitter)).rows[id];
            && r.error == Some(reason) && r.status.Processing? && r.attempts == s.rows[id].attempts
            && (t <= s.now + delay / 2 ==> !Claimable(r, t))
            && (t > s.now + delay ==> Claimable(r, t))
  {
    RetryWaits(cfg, Run(cfg, Start(now, workers), acts), w, jitter, reason, t);
  }

  lemma RetryWaits(cfg: Config, s: Service, w: nat, jitter: int, reason: string, t: int)
    requires WfConfig(cfg) && GuardCatchesOverflow(cfg.baseBackoff, cfg.maxBackoff)
    requires Enabled(cfg, s, Settle(w, jitter)) && s.workers[w].phase == Settling(Transient(reason))
    requires s.workers[w].job.attempts < cfg.maxAttempts && s.rows[s.workers[w].job.id].status.Processing?
    ensures var id, delay := s.workers[w].job.id,
                             Ideal(cfg.baseBackoff, cfg.maxBackoff, s.workers[w].job.attempts);
            var r := Next(cfg, s, Settle(w, jitter)).rows[id];
            && r.error == Some(reason) && r.status.Processing? && r.attempts == s.rows[id].attempts
            && (t <= s.now + delay / 2 ==> !Claimable(r, t))
            && (t > s.now + delay ==> Claimable(r, t))
  {
    var job := s.workers[w].job;
    RetriesKeepTheirDistance(cfg, s.rows[job.id], job.attempts, reason, s.now, jitter, t);
  }

  /** An insert appends a pending row with what was delivered; a known hash changes nothing. */
  lemma InsertsAreOncePerHash(cfg: Config, s: Service, hash: string, payload: string, source: string)
    ensures var s' := Next(cfg, s, Insert(hash, payload, source));
            if exists i :: 0 <= i < |s.rows| && s.rows[i].hash == hash then s' == s
            else
              && |s'.rows| == |s.rows| + 1 && s' == s.(rows := s.rows + [s'.rows[|s.rows|]])
              && var r := s'.rows[|s.rows|];
              && r.hash == hash && r.payload == payload && r.source == (if source == "" then None else Some(source))
              && r.status.Pending? && r.attempts == 0 && r.error.None? && r.leaseUntil.None? && r.receivedAt == s.now
  {
  }

  ghost predicate UniqueHashes(s: Service) {
    forall i, j :: 0 <= i < j < |s.rows| ==> s.rows[i].hash != s.rows[j].hash
  }

  /** In every run no two rows have one hash. */
  lemma {:induction false} HashesStayUnique(cfg: Config, s: Service, acts: seq<Action>)
    requires UniqueHashes(s)
    ensures UniqueHashes(Run(cfg, s, acts))
  {
    if acts != [] {
      HashesStayUnique(cfg, s, Most(acts));
      StepKeepsHashes(cfg, Run(cfg, s, Most(acts)), Last(acts));
    }
  }

  lemma StepKeepsHashes(cfg: Config, s: Service, a: Action)
    requires UniqueHashes(s)
    ensures UniqueHashes(Next(cfg, s, a))
  {
  }

  /** Rows are in the order of their arrival. */
  ghost predicate InOrder(s: Service) {
    && (forall i, j :: 0 <= i <= j < |s.rows| ==> s.rows[i].receivedAt <= s.rows[j].receivedAt)
    && (forall i :: 0 <= i < |s.rows| ==> s.rows[i].receivedAt <= s.now)
  }

  lemma ArrivalsStay(cfg: Config, s: Service, a: Action)
    ensures var s' := Next(cfg, s, a);
            && |s.rows| <= |s'.rows| && s.now <= s'.now
            && (forall i :: 0 <= i < |s.rows| ==> s'.rows[i].receivedAt == s.rows[i].receivedAt)
            && (forall i :: |s.rows| <= i < |s'.rows| ==> a.Insert? && s'.rows[i].receivedAt == s.now == s'.now)
  {
  }

  lemma StepKeepsOrder(cfg: Config, s: Service, a: Action)
    requires InOrder(s)
    ensures InOrder(Next(cfg, s, a))
  {
    ArrivalsStay(cfg, s, a);
  }

  /** In every run rows lie in the order of their arrival, and a row keeps the time of the
      step that inserted it. */
  lemma {:induction false} RowsAreInOrder(cfg: Config, s: Service, acts: seq<Action>)
    requires InOrder(s)
    ensures var s' := Run(cfg, s, acts);
            && InOrder(s') && s.now <= s'.now && |s.rows| <= |s'.rows|
            && (forall i :: 0 <= i < |s.rows| ==> s'.rows[i].receivedAt == s.rows[i].receivedAt)
            && (forall i :: |s.rows| <= i < |s'.rows| ==> s.now <= s'.rows[i].receivedAt)
  {
    if acts != [] {
      RowsAreInOrder(cfg, s, Most(acts));
      StepKeepsOrder(cfg, Run(cfg, s, Most(acts)), Last(acts));
      ArrivalsStay(cfg, Run(cfg, s, Most(acts)), Last(acts));
    }
  }

  // ---------- attempts ----------

  /** The claims on a row that were never settled: crashed or still running. */
  ghost function Unsettled(s: Service, id: nat): set<nat>
    requires id < |s.rows|
  {
    set k: nat | 1 <= k <= s.rows[id].attempts && (id, k) !in s.settled
  }

  function Interval(lo: nat, hi: nat): (i: set<nat>)
    requires lo <= hi
    ensures forall k :: k in i <==> lo <= k < hi
    ensures |i| == hi - lo
  {
    if lo == hi then {} else Interval(lo, hi - 1) + {hi - 1}
  }

  lemma SubsetSize<T>(a: set<T>, b: set<T>)
    requires a <= b
    ensures |a| <= |b|
  {
    assert b == a + (b - a);
  }

  lemma AttemptsAreAccounted(cfg: Config, s: Service, id: nat)
    requires WfConfig(cfg) && QueueInv(cfg, s) && id < |s.rows| && !Terminal(s.rows[id])
    ensures s.rows[id].attempts <= cfg.maxAttempts - 1 + |Unsettled(s, id)|
  {
    var n := s.rows[id].attempts;
    if cfg.maxAttempts <= n {
      var late := Interval(cfg.maxAttempts, n + 1);
      assert forall k :: k in late ==> (id, k) !in s.settled;
      SubsetSize(late, Unsettled(s, id));
    }
  }

  /** attempts counts the claims issued, and a row that is not terminal has had at most
      MaxAttempts - 1 of them besides those never settled. */
  lemma {:induction false} AttemptsAreAccountedFor(cfg: Config, now: int, workers: nat, acts: seq<Action>, id: nat)
    requires WfConfig(cfg) && id < |Run(cfg, Start(now, workers), acts).rows|
    ensures var s := Run(cfg, Start(now, workers), acts);
            && s.claims[id] == s.rows[id].attempts
            && (!Terminal(s.rows[id]) ==> s.rows[id].attempts <= cfg.maxAttempts - 1 + |Unsettled(s, id)|)
  {
    RunKeepsQueueInv(cfg, Start(now, workers), acts);
    var s := Run(cfg, Start(now, workers), acts);
    assert RowOk(cfg, s, id);
    if !Terminal(s.rows[id]) {
      AttemptsAreAccounted(cfg, s, id);
    }
  }
}
