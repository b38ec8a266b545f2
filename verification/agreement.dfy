// The handler method against the step system, and two schedules of the service against
// each other.
module Agreement {
  import opened Common
  import opened Model
  import opened Projection
  import opened Backoff
  import opened RawQueue
  import opened System
  import opened EffectivelyOnce
  import Confluence
  import Store

  // ---------- the worker method is a run ----------

  /** A step that worker `w` takes within its job. */
  predicate OwnStep(w: nat, a: Action) {
    !a.Tick? && !a.Insert? && !a.Claim? && a.w == w
  }

  predicate OwnSteps(w: nat, acts: seq<Action>) {
    forall a :: a in acts ==> OwnStep(w, a)
  }

  /** The two writes of an accepted fact. */
  lemma WritesAreARun(cfg: Config, s: Service, t: Service, w: nat, n: Normalized, faults: Faults)
    returns (acts: seq<Action>)
    requires BusyIn(s, w) && Moved(s, t, w, Storing(n), s.facts, s.entities)
    ensures OwnSteps(w, acts)
    ensures var e := Store.WriteEffect(s.facts, s.entities, s.workers[w].job.id, n, faults);
            Moved(s, Run(cfg, t, acts), w, Settling(e.outcome), e.facts, e.entities)
  {
    StoreMoves(cfg, s, t, w, n, faults.fact);
    acts := Then(cfg, t, [], StoreFact(w, faults.fact));
    if faults.fact.NoFault? {
      ProjectMoves(cfg, s, Run(cfg, t, acts), w, n, faults.project);
      acts := Then(cfg, t, acts, Project(w, faults.project));
    }
  }

  lemma HandleIsARun(cfg: Config, s: Service, w: nat, ans: Answer, faults: Faults) returns (acts: seq<Action>)
    requires BusyIn(s, w) && s.workers[w].phase.Asking?
    ensures OwnSteps(w, acts)
    ensures var e := Store.HandleEffect(cfg, s.facts, s.entities, s.workers[w].job.id, ans, faults);
            Moved(s, Run(cfg, s, acts), w, Settling(e.outcome), e.facts, e.entities)
  {
    acts := Then(cfg, s, [], Ask(w, ans));
    AskMoves(cfg, s, w, ans);
    var v := Verdict(cfg, ans);
    if v.Ok? {
      var writes := WritesAreARun(cfg, s, Run(cfg, s, acts), w, v.value, faults);
      RunConcat(cfg, s, acts, writes);
      acts := acts + writes;
    }
  }

  /** What the method Worker.Dispatch leaves in the tables, a run of steps of that worker
      alone leaves there too, whichever statements fail or lose their reply. A settlement
      that fails without effect has the effect of a crash. */
  lemma {:induction false} DispatchIsARun(
      cfg: Config, s: Service, w: nat, ans: Answer, faults: Faults, jitter: int)
    returns (acts: seq<Action>)
    requires BusyIn(s, w) && s.workers[w].phase.Asking?
    requires IsJitter(cfg.baseBackoff, cfg.maxBackoff, s.workers[w].job.attempts, jitter)
    ensures OwnSteps(w, acts)
    ensures var job := s.workers[w].job;
            var e := Store.HandleEffect(cfg, s.facts, s.entities, job.id, ans, faults);
            var r := SettledRow(cfg, s.rows[job.id], job.attempts, e.outcome, s.now, jitter);
            var s' := Run(cfg, s, acts);
            && s'.facts == e.facts && s'.entities == e.entities
            && s'.rows == Left(faults.settle, s.rows, s.rows[job.id := r])
            && s'.workers == s.workers[w := Idle]
  {
    acts := HandleIsARun(cfg, s, w, ans, faults);
    var e := Store.HandleEffect(cfg, s.facts, s.entities, s.workers[w].job.id, ans, faults);
    MovedStaysBusy(s, Run(cfg, s, acts), w, Settling(e.outcome));
    acts := Then(cfg, s, acts, if faults.settle.RolledBack? then Crash(w) else Settle(w, jitter));
  }

  // ---------- the order of claims ----------

  /** The oldest-first rule of the method Tables.Claim, in every run: after time has passed, a
      row that arrives is never claimed before one that was there and can be claimed. */
  lemma {:induction false} ClaimsFollowArrival(
      cfg: Config, now: int, workers: nat, acts: seq<Action>, d: nat, more: seq<Action>, i: nat, j: nat, t: int)
    requires d > 0
    requires i < |Run(cfg, Start(now, workers), acts).rows| <= j
    requires var s := Run(cfg, Next(cfg, Run(cfg, Start(now, workers), acts), Tick(d)), more);
             j < |s.rows| && Claimable(s.rows[i], t)
    ensures var s := Run(cfg, Next(cfg, Run(cfg, Start(now, workers), acts), Tick(d)), more);
            !Store.OldestClaimable(s.rows, t, j)
  {
    RowsAreInOrder(cfg, Start(now, workers), acts);
    var s := Run(cfg, Start(now, workers), acts);
    RowsAreInOrder(cfg, Next(cfg, s, Tick(d)), more);
    assert s.rows[i].receivedAt <= s.now;
  }

  // ---------- two schedules of the same payloads ----------

  ghost predicate Meaningful(cfg: Config, c: Client, payload: string) {
    exists n :: Accepts(cfg, c, payload, n)
  }

  /** Every payload to which the client has an answer that the gate accepts has been
      processed; the others are pending, being retried or dead-lettered. */
  ghost predicate Finished(cfg: Config, c: Client, s: Service) {
    forall id :: 0 <= id < |s.rows| && Meaningful(cfg, c, s.rows[id].payload) ==> s.rows[id].status.Processed?
  }

  ghost predicate HasPayload(s: Service, payload: string) {
    exists id :: 0 <= id < |s.rows| && s.rows[id].payload == payload
  }

  ghost predicate SamePayloads(s: Service, t: Service) {
    forall p :: HasPayload(s, p) <==> HasPayload(t, p)
  }

  /** The invariants of a state, and that it has no payloads that `t` has not. */
  ghost predicate Covers(cfg: Config, c: Client, t: Service, s: Service) {
    && OneWritePerPayload(cfg, c)
    && DataInv(s) && MeaningInv(cfg, c, s) && MeaningInv(cfg, c, t)
    && Finished(cfg, c, t) && (forall p :: HasPayload(s, p) ==> HasPayload(t, p))
  }

  /** A write of one run has its counterpart in any other run that has processed the same
      payloads: same key, same change, under the id of the payload there. */
  lemma WriteIsShared(cfg: Config, c: Client, s: Service, t: Service, ev: Event) returns (other: Event)
    requires Covers(cfg, c, t, s) && ev in s.log
    ensures other in t.log && other.key == ev.key && other.change == ev.change
  {
    var id := ev.source;
    WritesAreOfFacts(cfg, c, s, ev);
    assert FactMeans(cfg, c, s, id);
    assert HasPayload(s, s.rows[id].payload);
    var twin :| 0 <= twin < |t.rows| && t.rows[twin].payload == s.rows[id].payload;
    assert Meaningful(cfg, c, t.rows[twin].payload);
    FactsOfProcessedLand(cfg, c, t, twin);
    SameWriteOfAnyRow(s.facts[id], t.facts[twin], twin);
    other := ProjectionOf(twin, t.facts[twin]).value;
  }

  lemma ShipmentsAreShared(cfg: Config, c: Client, s: Service, t: Service, key: string, state: State)
    requires Covers(cfg, c, t, s) && HasShipment(s.log, key, state)
    ensures HasShipment(t.log, key, state)
  {
    var i :| 0 <= i < |s.log| && ShipmentOn(s.log[i], key) && s.log[i].change.state == state;
    var other := WriteIsShared(cfg, c, s, t, s.log[i]);
    var j :| 0 <= j < |t.log| && t.log[j] == other;
  }

  /** Any two runs that have finished the same payloads, in any order, with any overlaps,
      crashes, retries and dead letters, agree on every shipment. */
  lemma {:induction false} SchedulesAgreeOnShipments(cfg: Config, c: Client, s: Service, t: Service, key: string)
    requires WfConfig(cfg) && OneWritePerPayload(cfg, c) && Reachable(cfg, c, s) && Reachable(cfg, c, t)
    requires Finished(cfg, c, s) && Finished(cfg, c, t) && SamePayloads(s, t)
    requires exists state :: HasShipment(s.log, key, state)
    ensures key in s.entities && key in t.entities
    ensures s.entities[key].state == t.entities[key].state && s.entities[key].rank == t.entities[key].rank
  {
    ReachableStates(cfg, c, s);
    ReachableStates(cfg, c, t);
    forall state ensures HasShipment(s.log, key, state) <==> HasShipment(t.log, key, state) {
      if HasShipment(s.log, key, state) { ShipmentsAreShared(cfg, c, s, t, key, state); }
      if HasShipment(t.log, key, state) { ShipmentsAreShared(cfg, c, t, s, key, state); }
    }
    var some :| HasShipment(s.log, key, some);
    SameShipmentsSameState(s.log, t.log, key, some);
  }

  lemma StatesAreShared(cfg: Config, c: Client, s: Service, t: Service, key: string, state: State)
    requires Covers(cfg, c, t, s) && Confluence.OccursOn(s.log, key, state)
    ensures Confluence.OccursOn(t.log, key, state)
  {
    var ev :| ev in s.log && ev.key == key && ev.change.state == state;
    var other := WriteIsShared(cfg, c, s, t, ev);
  }

  ghost predicate OnlyInvoiceWrites(s: Service, key: string) {
    forall ev :: ev in s.log && ev.key == key ==> ev.change.InvoiceTo?
  }

  /** They agree on an invoice too, if its states lie within one edge of the transition
      table and no shipment shares its key. */
  lemma {:induction false} SchedulesAgreeOnInvoices(
      cfg: Config, c: Client, s: Service, t: Service, key: string, from: State, to: State)
    requires WfConfig(cfg) && OneWritePerPayload(cfg, c) && Reachable(cfg, c, s) && Reachable(cfg, c, t)
    requires Finished(cfg, c, s) && Finished(cfg, c, t) && SamePayloads(s, t)
    requires OnlyInvoiceWrites(s, key) && InvoiceTransitionAllowed(from, to)
    requires forall state :: Confluence.OccursOn(s.log, key, state) ==> state == from || state == to
    ensures Confluence.FinalState(s.log, key) == Confluence.FinalState(t.log, key)
    ensures key in s.entities <==> key in t.entities
    ensures key in s.entities ==> s.entities[key].state == t.entities[key].state
  {
    ReachableStates(cfg, c, s);
    ReachableStates(cfg, c, t);
    forall state ensures Confluence.OccursOn(s.log, key, state) <==> Confluence.OccursOn(t.log, key, state) {
      if Confluence.OccursOn(s.log, key, state) { StatesAreShared(cfg, c, s, t, key, state); }
      if Confluence.OccursOn(t.log, key, state) { StatesAreShared(cfg, c, t, s, key, state); }
    }
    forall ev | (ev in s.log || ev in t.log) && ev.key == key ensures ev.change.InvoiceTo? && WfChange(ev.change) {
      if ev in t.log {
        var other := WriteIsShared(cfg, c, t, s, ev);
      }
    }
    Confluence.SameInvoicesSameState(s.log, t.log, key, from, to);
  }
}
