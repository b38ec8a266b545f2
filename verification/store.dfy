// The tables as one mutable store with a method per statement, and the objects that run
// on it: the queue, the processor and the worker. A parameter `fault` says how a statement
// goes.
module Store {
  import opened Common
  import opened Model
  import opened Projection
  import opened Normalize
  import opened Backoff
  import opened RawQueue

  /** An UPDATE by id: `f` is applied to row `id`, if there is one. */
  function Updated(rows: seq<Row>, id: nat, f: Row -> Row): seq<Row> {
    if id < |rows| then rows[id := f(rows[id])] else rows
  }

  ghost predicate UniqueHashes(rows: seq<Row>) {
    forall i, j :: 0 <= i < j < |rows| ==> rows[i].hash != rows[j].hash
  }

  predicate IsNewHash(rows: seq<Row>, hash: string) {
    forall i :: 0 <= i < |rows| ==> rows[i].hash != hash
  }

  /** `i` is a claimable row and no claimable row was received before it. */
  ghost predicate OldestClaimable(rows: seq<Row>, now: int, i: nat) {
    && i < |rows| && Claimable(rows[i], now)
    && forall j :: 0 <= j < |rows| && Claimable(rows[j], now) ==> rows[i].receivedAt <= rows[j].receivedAt
  }

  class Tables {
    var rows: seq<Row>                // raw_events; a row's id is its index
    var facts: map<nat, Normalized>   // normalized_events by raw_event_id
    var entities: Table

    constructor ()
      ensures rows == [] && facts == map[] && entities == map[]
    {
      rows, facts, entities := [], map[], map[];
    }

    ghost predicate Valid()
      reads this
    {
      UniqueHashes(rows)
    }

    method FindHash(hash: string) returns (id: Option<nat>)
      ensures id.Some? ==> id.value < |rows| && rows[id.value].hash == hash
      ensures id.None? ==> forall i :: 0 <= i < |rows| ==> rows[i].hash != hash
    {
      for i := 0 to |rows|
        invariant forall j :: 0 <= j < i ==> rows[j].hash != hash
      {
        if rows[i].hash == hash {
          return Some(i);
        }
      }
      return None;
    }

    /** Returns the id of the row with this hash, and whether this call made it. */
    method InsertRaw(hash: string, payload: string, source: string, now: int, fault: Fault)
      returns (ok: bool, id: nat, isNew: bool)
      requires Valid()
      modifies this`rows
      ensures Valid() && ok == fault.NoFault?
      ensures ok ==> id < |rows| && rows[id].hash == hash && isNew == IsNewHash(old(rows), hash)
      ensures !fault.RolledBack? && IsNewHash(old(rows), hash) ==>
                && |rows| == |old(rows)| + 1 && (ok ==> id == |old(rows)|)
                && var r := rows[|old(rows)|];
                && r.hash == hash && r.payload == payload && r.status.Pending? && r.attempts == 0
                && r.receivedAt == now && r.source == (if source == "" then None else Some(source))
                && r.error.None? && r.leaseUntil.None?
      ensures fault.RolledBack? ==> rows == old(rows)
      ensures rows == if IsNewHash(old(rows), hash) then
                        Left(fault, old(rows), old(rows) + [NewRow(hash, payload, source, now)])
                      else old(rows)
    {
      ok, id, isNew := fault.NoFault?, 0, false;
      var found := FindHash(hash);
      if found.Some? {
        id := found.value;
      } else if !fault.RolledBack? {
        rows := rows + [NewRow(hash, payload, source, now)];
        id, isNew := |rows| - 1, true;
      }
    }

    method SelectNext(now: int) returns (id: Option<nat>)
      ensures id.Some? ==> OldestClaimable(rows, now, id.value)
      ensures id.None? ==> forall i :: 0 <= i < |rows| ==> !Claimable(rows[i], now)
    {
      id := None;
      for i := 0 to |rows|
        invariant id.Some? ==> OldestClaimable(rows[..i], now, id.value)
        invariant id.None? ==> forall j :: 0 <= j < i ==> !Claimable(rows[j], now)
      {
        if Claimable(rows[i], now) && (id.None? || rows[i].receivedAt < rows[id.value].receivedAt) {
          id := Some(i);
        }
        assert rows[..i + 1] == rows[..i] + [rows[i]];
      }
      assert rows[..|rows|] == rows;
    }

    /** Leases the oldest claimable row; None when there is none. */
    method Claim(now: int, lease: int) returns (job: Option<Job>)
      modifies this`rows
      ensures job.None? ==> rows == old(rows) && forall i :: 0 <= i < |rows| ==> !Claimable(rows[i], now)
      ensures job.Some? ==>
                var id := job.value.id;
                && OldestClaimable(old(rows), now, id)
                && rows == old(rows)[id := ClaimedRow(old(rows)[id], now, lease)]
                && job.value == Job(id, rows[id].payload, rows[id].attempts)
      ensures job.Some? ==>
                var r, was := rows[job.value.id], old(rows)[job.value.id];
                && r == was.(status := Processing, attempts := was.attempts + 1, leaseUntil := r.leaseUntil)
                && forall t :: Claimable(r, t) <==> t > now + lease
    {
      var id := SelectNext(now);
      if id.None? {
        return None;
      }
      var r := ClaimedRow(rows[id.value], now, lease);
      rows := rows[id.value := r];
      return Some(Job(id.value, r.payload, r.attempts));
    }

    method MarkProcessed(id: nat, fault: Fault) returns (ok: bool)
      modifies this`rows
      ensures ok == fault.NoFault?
      ensures rows == Left(fault, old(rows), Updated(old(rows), id, ProcessedRow))
      ensures fault.RolledBack? ==> rows == old(rows)
      ensures !fault.RolledBack? && id < |rows| ==>
                rows[id] == old(rows)[id].(status := Processed, error := None, leaseUntil := None)
    {
      if !fault.RolledBack? && id < |rows| {
        rows := rows[id := rows[id].(status := Processed, error := None, leaseUntil := None)];
      }
      ok := fault.NoFault?;
    }

    method RetryOrFail(id: nat, attempts: int, maxAttempts: int, now: int, backoff: int, reason: string, fault: Fault)
      returns (ok: bool)
      modifies this`rows
      ensures ok == fault.NoFault?
      ensures rows == Left(fault, old(rows),
                        Updated(old(rows), id, (r: Row) => RetriedRow(r, attempts, maxAttempts, now, backoff, reason)))
      ensures fault.RolledBack? ==> rows == old(rows)
      ensures !fault.RolledBack? && id < |rows| ==>
                var r, was := rows[id], old(rows)[id];
                if attempts >= maxAttempts then
                  r == was.(status := Failed, error := Some(reason), leaseUntil := None)
                else
                  && r == was.(error := Some(reason), leaseUntil := r.leaseUntil)
                  && (was.status.Processing? ==> forall t :: Claimable(r, t) <==> t > now + backoff)
    {
      if attempts >= maxAttempts {
        ok := Fail(id, reason, fault);
        return;
      }
      if !fault.RolledBack? && id < |rows| {
        rows := rows[id := rows[id].(error := Some(reason), leaseUntil := Some(now + backoff))];
      }
      ok := fault.NoFault?;
    }

    method Fail(id: nat, reason: string, fault: Fault) returns (ok: bool)
      modifies this`rows
      ensures ok == fault.NoFault?
      ensures rows == Left(fault, old(rows), Updated(old(rows), id, (r: Row) => FailedRow(r, reason)))
      ensures fault.RolledBack? ==> rows == old(rows)
      ensures !fault.RolledBack? && id < |rows| ==>
                rows[id] == old(rows)[id].(status := Failed, error := Some(reason), leaseUntil := None)
    {
      if !fault.RolledBack? && id < |rows| {
        rows := rows[id := rows[id].(status := Failed, error := Some(reason), leaseUntil := None)];
      }
      ok := fault.NoFault?;
    }

    method InsertNormalized(id: nat, n: Normalized, fault: Fault) returns (ok: bool)
      modifies this`facts
      ensures ok == fault.NoFault?
      ensures facts == Left(fault, old(facts), WithFact(old(facts), id, n))
      ensures facts == if fault.RolledBack? || id in old(facts) then old(facts) else old(facts)[id := n]
    {
      if !fault.RolledBack? && id !in facts {
        facts := facts[id := n];
      }
      ok := fault.NoFault?;
    }

    method ApplyShipment(key: string, state: State, rank: nat, time: Option<int>, fault: Fault) returns (ok: bool)
      modifies this`entities
      ensures ok == fault.NoFault?
      ensures var was := old(entities);
              entities == Left(fault, was, was[key := ShipmentRow(Lookup(was, key), state, rank, time)])
      ensures fault.RolledBack? || (key in old(entities) && old(entities)[key].rank >= rank) ==>
                entities == old(entities)
      ensures !fault.RolledBack? && (key in old(entities) ==> old(entities)[key].rank < rank) ==>
                && key in entities && entities == old(entities)[key := entities[key]]
                && entities[key].(state := state, rank := rank, lastEventTime := time) == entities[key]
                && entities[key].kind == (if key in old(entities) then old(entities)[key].kind else Shipment)
                && (entities[key].amountMinor, entities[key].currency)
                   == if key in old(entities) then (old(entities)[key].amountMinor, old(entities)[key].currency)
                      else (None, None)
    {
      if !fault.RolledBack? {
        if key !in entities {
          entities := entities[key := Entity(Shipment, state, rank, time, None, None)];
        } else if entities[key].rank < rank {
          entities := entities[key := entities[key].(state := state, rank := rank, lastEventTime := time)];
        }
      }
      ghost var was := old(entities);
      assert key in was && was[key].rank >= rank ==> was[key := was[key]] == was;
      ok := fault.NoFault?;
    }

    /** One transaction. */
    method ApplyInvoice(
        key: string, state: State, time: Option<int>, amount: Option<int>, currency: string, fault: Fault)
      returns (ok: bool)
      modifies this`entities
      ensures ok == fault.NoFault?
      ensures var was := old(entities);
              entities == Left(fault, was, was[key := InvoiceRow(Lookup(was, key), state, time, amount, currency)])
      ensures fault.RolledBack?
              || (key in old(entities) && !InvoiceTransitionAllowed(old(entities)[key].state, state)) ==>
                entities == old(entities)
      ensures !fault.RolledBack?
              && (key in old(entities) ==> InvoiceTransitionAllowed(old(entities)[key].state, state)) ==>
                && key in entities && entities == old(entities)[key := entities[key]]
                && var e, seen := entities[key], key in old(entities);
                && e.state == state && e.lastEventTime == time
                && e.kind == (if seen then old(entities)[key].kind else Invoice)
                && e.rank == (if seen then old(entities)[key].rank else 0)
                && e.amountMinor == (if amount.None? && seen then old(entities)[key].amountMinor else amount)
                && e.currency == (if currency != "" then Some(currency)
                                  else if seen then old(entities)[key].currency else None)
    {
      ok := fault.NoFault?;
      if fault.RolledBack? {
        return;
      }
      if key !in entities {
        entities := entities[key := InvoiceSeed(state, time, amount, currency)];
      } else {
        var current := entities[key];
        if !InvoiceTransitionAllowed(current.state, state) {
          assert old(entities)[key := old(entities)[key]] == old(entities);
          return;
        }
        entities := entities[key := InvoiceUpdate(current, state, time, amount, currency)];
      }
    }
  }

  class Queue {
    const store: Tables
    const cfg: Config
    var notify: bool   // the token in the channel of capacity one

    constructor (store: Tables, cfg: Config)
      requires cfg.baseBackoff < TWO63 && cfg.maxBackoff < TWO63
      ensures this.store == store && this.cfg == WithDefaults(cfg) && WfConfig(this.cfg) && !notify
    {
      DefaultsAreWellFormed(cfg);
      this.store, this.cfg, this.notify := store, WithDefaults(cfg), false;
    }

    method Notify()
      modifies this`notify
      ensures notify
    {
      notify := true;
    }

    /** Leases a row; with none to lease, waits for a token or for the poll interval (the
        flag `timer` says which came first) and returns None either way. */
    method Claim(now: int, timer: bool) returns (job: Option<Job>)
      requires cfg.lease > 0
      modifies store`rows, this`notify
      ensures job.Some? ==>
                var id, was := job.value.id, old(store.rows);
                && OldestClaimable(was, now, id)
                && store.rows == was[id := ClaimedRow(was[id], now, cfg.lease)]
                && job.value == Job(id, was[id].payload, was[id].attempts + 1)
                && (forall t :: Claimable(store.rows[id], t) <==> t > now + cfg.lease)
                && notify == old(notify)
      ensures job.None? ==> store.rows == old(store.rows) && notify == (old(notify) && timer)
      ensures job.None? ==> forall i :: 0 <= i < |store.rows| ==> !Claimable(store.rows[i], now)
    {
      job := store.Claim(now, cfg.lease);
      if job.None? && !timer {
        notify := false;
      }
    }

    method Ack(id: nat, fault: Fault) returns (ok: bool)
      modifies store`rows
      ensures ok == fault.NoFault?
      ensures store.rows == Left(fault, old(store.rows), Updated(old(store.rows), id, ProcessedRow))
    {
      ok := store.MarkProcessed(id, fault);
    }

    method Retry(id: nat, attempts: nat, reason: string, now: int, jitter: int, fault: Fault) returns (ok: bool)
      requires attempts >= 1
      modifies store`rows
      ensures ok == fault.NoFault?
      ensures store.rows == Left(fault, old(store.rows), Updated(old(store.rows), id,
                              (r: Row) => SettledRow(cfg, r, attempts, Transient(reason), now, jitter)))
      ensures fault.RolledBack? ==> store.rows == old(store.rows)
      ensures !fault.RolledBack? && id < |store.rows| ==>
                SettledBy(cfg, old(store.rows)[id], store.rows[id], attempts, Transient(reason), now, jitter)
    {
      if id < |store.rows| {
        SettledRowIsSettled(cfg, store.rows[id], attempts, Transient(reason), now, jitter);
      }
      var backoff := Delay(cfg.baseBackoff, cfg.maxBackoff, attempts, jitter);
      ok := store.RetryOrFail(id, attempts, cfg.maxAttempts, now, backoff, reason, fault);
    }

    method Fail(id: nat, reason: string, fault: Fault) returns (ok: bool)
      modifies store`rows
      ensures ok == fault.NoFault?
      ensures store.rows == Left(fault, old(store.rows), Updated(old(store.rows), id, (r: Row) => FailedRow(r, reason)))
    {
      ok := store.Fail(id, reason, fault);
    }
  }

  /** What one call of Handle returns and leaves behind. */
  datatype Effect = Effect(outcome: Outcome, facts: map<nat, Normalized>, entities: Table)

  /** The two writes of an accepted fact; a fact without a projection has only one. */
  function WriteEffect(facts: map<nat, Normalized>, entities: Table, id: nat, n: Normalized, faults: Faults): Effect {
    var stored := Left(faults.fact, facts, WithFact(facts, id, n));
    if !faults.fact.NoFault? then Effect(Transient("persist fact"), stored, entities)
    else if ProjectionOf(id, n).None? then Effect(Success, stored, entities)
    else
      var projected := Left(faults.project, entities, Projected(entities, id, n));
      Effect(if faults.project.NoFault? then Success else Transient("project"), stored, projected)
  }

  function HandleEffect(
      cfg: Config, facts: map<nat, Normalized>, entities: Table, id: nat, ans: Answer, faults: Faults): Effect
  {
    match Verdict(cfg, ans)
    case Err(o) => Effect(o, facts, entities)
    case Ok(n) => WriteEffect(facts, entities, id, n, faults)
  }

  /** What a call of Handle does with each answer: a rejection, and a reply that the gate
      refuses, are final and leave both tables alone; a fault is to be retried; of any other
      reply the fact that says what it says is written. */
  ghost predicate HandledAs(
      cfg: Config, facts: map<nat, Normalized>, entities: Table, facts': map<nat, Normalized>, entities': Table,
      id: nat, ans: Answer, faults: Faults, o: Outcome)
  {
    match ans
    case Rejected(reason) => o == Permanent(reason) && facts' == facts && entities' == entities
    case TransientFault(reason) => o == Transient(reason) && facts' == facts && entities' == entities
    case Reply(r) =>
      if Refused(cfg.minConfidence, r) then o.Permanent? && facts' == facts && entities' == entities
      else
        exists n ::
          && WfNormalized(n) && Says(cfg.minConfidence, cfg.parse, r, n)
          && EndsAs(n, faults, o) && Wrote(facts, entities, facts', entities', id, n, faults)
  }

  class Processor {
    const store: Tables
    const cfg: Config
    const norm: Normalizer

    constructor (store: Tables, cfg: Config, norm: Normalizer)
      requires norm.minConfidence == cfg.minConfidence && norm.parse == cfg.parse
      ensures this.store == store && this.cfg == cfg && this.norm == norm
    {
      this.store, this.cfg, this.norm := store, cfg, norm;
    }

    method Project(id: nat, n: Normalized, fault: Fault) returns (ok: bool)
      requires WfNormalized(n)
      modifies store`entities
      ensures ok == (fault.NoFault? || ProjectionOf(id, n).None?)
      ensures store.entities == Left(fault, old(store.entities), Projected(old(store.entities), id, n))
      ensures ok == (fault.NoFault? || n.class_.Unclassified?)
      ensures if fault.RolledBack? then store.entities == old(store.entities)
              else Recorded(old(store.entities), store.entities, n)
    {
      ProjectedIsRecorded(store.entities, id, n);
      match n.class_
      case Shipment =>
        var state := n.canonicalState.value;
        ok := store.ApplyShipment(n.entityKey, state, ShipmentRank(state), n.eventTime, fault);
      case Invoice =>
        var state := n.canonicalState.value;
        ok := store.ApplyInvoice(n.entityKey, state, n.eventTime, n.amountMinor, n.currency, fault);
      case Unclassified => ok := true;
    }

    method Handle(job: Job, ans: Answer, faults: Faults) returns (o: Outcome)
      requires norm.minConfidence == cfg.minConfidence && norm.parse == cfg.parse
      modifies store`facts, store`entities
      ensures Effect(o, store.facts, store.entities)
           == HandleEffect(cfg, old(store.facts), old(store.entities), job.id, ans, faults)
      ensures HandledAs(cfg, old(store.facts), old(store.entities), store.facts, store.entities, job.id, ans, faults, o)
    {
      match ans
      case TransientFault(reason) => return Transient(reason);
      case Rejected(reason) => return Permanent(reason);
      case Reply(resp) =>
        var res := norm.Apply(resp);
        GateRejectsExactly(cfg.minConfidence, cfg.parse, resp);
        if res.Err? {
          return Permanent("normalize");
        }
        VerdictIsWellFormed(cfg, ans);
        GateKeepsWhatIsNamed(cfg.minConfidence, cfg.parse, resp);
        var ok := store.InsertNormalized(job.id, res.value, faults.fact);
        if !ok {
          return Transient("persist fact");
        }
        ok := Project(job.id, res.value, faults.project);
        if !ok {
          return Transient("project");
        }
        return Success;
    }
  }

  class Worker {
    const queue: Queue
    const handler: Processor

    constructor (queue: Queue, handler: Processor)
      ensures this.queue == queue && this.handler == handler
    {
      this.queue, this.handler := queue, handler;
    }

    /** Runs the handler and settles the job in exactly one way; a settlement that fails is
        given up, and its row left to its lease. */
    method Dispatch(job: Job, ans: Answer, faults: Faults, now: int, jitter: int)
      requires handler.store == queue.store && handler.cfg == queue.cfg && job.attempts >= 1
      requires handler.norm.minConfidence == handler.cfg.minConfidence && handler.norm.parse == handler.cfg.parse
      requires job.id < |queue.store.rows|
      modifies queue.store
      ensures var s := queue.store;
              var was := old(s.rows);
              var e := HandleEffect(queue.cfg, old(s.facts), old(s.entities), job.id, ans, faults);
              var r := SettledRow(queue.cfg, was[job.id], job.attempts, e.outcome, now, jitter);
              && s.facts == e.facts && s.entities == e.entities
              && s.rows == Left(faults.settle, was, was[job.id := r])
      ensures var s := queue.store;
              exists o ::
                && HandledAs(queue.cfg, old(s.facts), old(s.entities), s.facts, s.entities, job.id, ans, faults, o)
                && if faults.settle.RolledBack? then s.rows == old(s.rows)
                   else
                     && |s.rows| == |old(s.rows)|
                     && (forall i :: 0 <= i < |s.rows| && i != job.id ==> s.rows[i] == old(s.rows)[i])
                     && SettledBy(queue.cfg, old(s.rows)[job.id], s.rows[job.id], job.attempts, o, now, jitter)
    {
      var o := handler.Handle(job, ans, faults);
      SettledRowIsSettled(queue.cfg, queue.store.rows[job.id], job.attempts, o, now, jitter);
      var ok;
      match o
      case Success => ok := queue.Ack(job.id, faults.settle);
      case Permanent(reason) => ok := queue.Fail(job.id, reason, faults.settle);
      case Transient(reason) => ok := queue.Retry(job.id, job.attempts, reason, now, jitter, faults.settle);
    }
  }
}
