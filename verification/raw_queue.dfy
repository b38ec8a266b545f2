// The raw_events table as a lease queue: what each statement of internal/store/raw.go
// does to a row, and what one job does to the other two tables.
module RawQueue {
  import opened Common
  import opened Model
  import opened Projection
  import opened Normalize
  import opened Backoff

  datatype Status = Pending | Processing | Processed | Failed

  datatype Row = Row(
    hash: string, payload: string, source: Option<string>, status: Status, attempts: nat,
    error: Option<string>, leaseUntil: Option<int>, receivedAt: int)

  datatype Job = Job(id: nat, payload: string, attempts: nat)

  /** Lease and retry policy; times in nanoseconds. */
  datatype Config = Config(
    maxAttempts: int, lease: int, baseBackoff: int, maxBackoff: int,
    minConfidence: real, parse: string -> Option<int>)

  /** The defaults the constructor of the queue fills in. */
  function WithDefaults(c: Config): Config {
    c.(maxAttempts := if c.maxAttempts < 1 then 5 else c.maxAttempts,
       lease := if c.lease <= 0 then 30 * SECOND else c.lease,
       baseBackoff := if c.baseBackoff <= 0 then 2 * SECOND else c.baseBackoff,
       maxBackoff := if c.maxBackoff <= 0 then 300 * SECOND else c.maxBackoff)
  }

  predicate WfConfig(c: Config) {
    c.maxAttempts >= 1 && c.lease > 0 && Duration(c.baseBackoff) && Duration(c.maxBackoff)
  }

  lemma DefaultsAreWellFormed(c: Config)
    requires c.baseBackoff < TWO63 && c.maxBackoff < TWO63
    ensures WfConfig(WithDefaults(c))
    ensures WfConfig(c) ==> WithDefaults(c) == c
    ensures var d := WithDefaults(c);
            && (c.maxAttempts < 1 ==> d.maxAttempts == 5)
            && (c.lease <= 0 ==> d.lease == 30_000_000_000)
            && (c.baseBackoff <= 0 ==> d.baseBackoff == 2_000_000_000)
            && (c.maxBackoff <= 0 ==> d.maxBackoff == 300_000_000_000)
    ensures c.baseBackoff <= 0 && c.maxBackoff <= 0 ==>
              GuardCatchesOverflow(WithDefaults(c).baseBackoff, WithDefaults(c).maxBackoff)
  {
    DefaultsAreGuarded();
  }

  lemma JitterZero(cfg: Config, attempts: nat)
    requires WfConfig(cfg) && attempts >= 1
    ensures IsJitter(cfg.baseBackoff, cfg.maxBackoff, attempts, 0)
  {
  }

  // ---------- one row ----------

  predicate Claimable(r: Row, now: int) {
    r.status.Pending? || (r.status.Processing? && r.leaseUntil.Some? && r.leaseUntil.value < now)
  }

  predicate Terminal(r: Row) {
    r.status.Processed? || r.status.Failed?
  }

  function NewRow(hash: string, payload: string, source: string, now: int): Row {
    Row(hash, payload, NullIfEmpty(source), Pending, 0, None, None, now)
  }

  function ClaimedRow(r: Row, now: int, lease: int): Row {
    r.(status := Processing, attempts := r.attempts + 1, leaseUntil := Some(now + lease))
  }

  function ProcessedRow(r: Row): Row {
    r.(status := Processed, error := None, leaseUntil := None)
  }

  function FailedRow(r: Row, reason: string): Row {
    r.(status := Failed, error := Some(reason), leaseUntil := None)
  }

  /** Rescheduling leaves the status as it is. */
  function RetriedRow(r: Row, attempts: int, maxAttempts: int, now: int, backoff: int, reason: string): Row {
    if attempts >= maxAttempts then FailedRow(r, reason)
    else r.(error := Some(reason), leaseUntil := Some(now + backoff))
  }

  // ---------- one job ----------

  /** What the model client returns. */
  datatype Answer = Reply(response: Response) | TransientFault(reason: string) | Rejected(reason: string)

  /** What a handler returns to the worker. */
  datatype Outcome = Success | Permanent(reason: string) | Transient(reason: string)

  /** The first half of Handle: the fact to store, or the error to return. */
  function Verdict(cfg: Config, ans: Answer): Result<Normalized, Outcome> {
    match ans
    case TransientFault(reason) => Err(Transient(reason))
    case Rejected(reason) => Err(Permanent(reason))
    case Reply(resp) =>
      match Gate(cfg.minConfidence, cfg.parse, resp)
      case Ok(n) => Ok(n)
      case Err(_) => Err(Permanent("normalize"))
  }

  /** First write wins. */
  function WithFact(facts: map<nat, Normalized>, id: nat, n: Normalized): map<nat, Normalized> {
    if id in facts then facts else facts[id := n]
  }

  /** The write `project` asks for; UNCLASSIFIED has none. */
  function ProjectionOf(id: nat, n: Normalized): Option<Event> {
    if n.class_.Unclassified? || n.canonicalState.None? then None
    else if n.class_.Shipment? then Some(Event(id, n.entityKey, ShipmentTo(n.canonicalState.value, n.eventTime)))
    else Some(Event(id, n.entityKey, InvoiceTo(n.canonicalState.value, n.eventTime, n.amountMinor, n.currency)))
  }

  function Projected(t: Table, id: nat, n: Normalized): Table {
    var ev := ProjectionOf(id, n);
    if ev.None? then t else ApplyEvent(t, ev.value)
  }

  /** How a worker settles a job. */
  function SettledRow(cfg: Config, r: Row, attempts: nat, o: Outcome, now: int, jitter: int): Row
    requires attempts >= 1
  {
    match o
    case Success => ProcessedRow(r)
    case Permanent(reason) => FailedRow(r, reason)
    case Transient(reason) =>
      RetriedRow(r, attempts, cfg.maxAttempts, now, Delay(cfg.baseBackoff, cfg.maxBackoff, attempts, jitter), reason)
  }

  // ---------- the same, column by column ----------

  /** A new row of the entities table holds the fact. */
  predicate Carries(e: Entity, n: Normalized) {
    && e.kind == n.class_ && Some(e.state) == n.canonicalState && e.lastEventTime == n.eventTime
    && e.rank == (if n.class_.Shipment? then ShipmentRank(e.state) else 0)
    && e.amountMinor == n.amountMinor && e.currency == if n.currency == "" then None else Some(n.currency)
  }

  /** `e` is `was` moved on by the fact: a shipment to a higher rank, an invoice along a legal
      edge, with the money of the fact if it has any; otherwise nothing changes. */
  predicate Advances(was: Entity, e: Entity, n: Normalized)
    requires n.canonicalState.Some?
  {
    var state := n.canonicalState.value;
    if n.class_.Shipment? && ShipmentRank(state) > was.rank then
      e == was.(state := state, rank := ShipmentRank(state), lastEventTime := n.eventTime)
    else if n.class_.Invoice? && InvoiceTransitionAllowed(was.state, state) then
      && e.kind == was.kind && e.rank == was.rank && e.state == state && e.lastEventTime == n.eventTime
      && e.amountMinor == (if n.amountMinor.Some? then n.amountMinor else was.amountMinor)
      && e.currency == (if n.amountMinor.Some? then Some(n.currency) else was.currency)
    else
      e == was
  }

  /** What projecting a fact makes of the entities. */
  ghost predicate Recorded(was: Table, t: Table, n: Normalized) {
    if n.class_.Unclassified? || n.canonicalState.None? then t == was
    else
      var key := n.entityKey;
      && (forall k :: k != key ==> (k in t <==> k in was) && (k in t ==> t[k] == was[k]))
      && key in t && if key in was then Advances(was[key], t[key], n) else Carries(t[key], n)
  }

  lemma ProjectedIsRecorded(was: Table, id: nat, n: Normalized)
    requires WfNormalized(n)
    ensures Recorded(was, Projected(was, id, n), n)
  {
    if n.amountMinor.Some? {
      assert n.currency != "";
    }
  }

  /** How the three statements of one job go. */
  datatype Faults = Faults(fact: Fault, project: Fault, settle: Fault)

  /** How one call of Handle ends for a fact that the gate accepts. */
  predicate EndsAs(n: Normalized, faults: Faults, o: Outcome) {
    if faults.fact.NoFault? && (faults.project.NoFault? || n.class_.Unclassified?) then o.Success? else o.Transient?
  }

  /** What it leaves: the first fact of the row stays, a new one is the given one; and after
      the fact the entity. */
  ghost predicate Wrote(
      facts: map<nat, Normalized>, entities: Table, facts': map<nat, Normalized>, entities': Table, id: nat,
      n: Normalized, faults: Faults)
  {
    && (if faults.fact.RolledBack? || id in facts then facts' == facts else facts' == facts[id := n])
    && (if faults.fact.NoFault? && !faults.project.RolledBack? then Recorded(entities, entities', n)
        else entities' == entities)
  }

  /** The row is settled by this outcome of its `attempts`-th claim. The bounds on the delay
      are those of a power of two times the base, where the guard catches overflows. */
  predicate SettledBy(cfg: Config, was: Row, r: Row, attempts: nat, o: Outcome, now: int, jitter: int)
    requires attempts >= 1
  {
    && r.hash == was.hash && r.payload == was.payload && r.source == was.source
    && r.attempts == was.attempts && r.receivedAt == was.receivedAt
    && match o
       case Success => r.status.Processed? && r.error.None? && r.leaseUntil.None?
       case Permanent(reason) => r.status.Failed? && r.error == Some(reason) && r.leaseUntil.None?
       case Transient(reason) =>
         && r.error == Some(reason)
         && if attempts >= cfg.maxAttempts then r.status.Failed? && r.leaseUntil.None?
            else r.status == was.status && WaitsFor(cfg, r, attempts, now, jitter)
  }

  predicate WaitsFor(cfg: Config, r: Row, attempts: nat, now: int, jitter: int)
    requires attempts >= 1
  {
    && r.leaseUntil.Some?
    && (WfConfig(cfg) && IsJitter(cfg.baseBackoff, cfg.maxBackoff, attempts, jitter) ==>
          now <= r.leaseUntil.value <= now + cfg.maxBackoff)
    && (WfConfig(cfg) && GuardCatchesOverflow(cfg.baseBackoff, cfg.maxBackoff) ==>
          r.leaseUntil.value == now + Ideal(cfg.baseBackoff, cfg.maxBackoff, attempts) / 2 + jitter)
  }

  lemma SettledRowIsSettled(cfg: Config, was: Row, attempts: nat, o: Outcome, now: int, jitter: int)
    requires attempts >= 1
    ensures SettledBy(cfg, was, SettledRow(cfg, was, attempts, o, now, jitter), attempts, o, now, jitter)
  {
    if WfConfig(cfg) && IsJitter(cfg.baseBackoff, cfg.maxBackoff, attempts, jitter) {
      DelayIsCapped(cfg.baseBackoff, cfg.maxBackoff, attempts, jitter);
    }
    if WfConfig(cfg) && GuardCatchesOverflow(cfg.baseBackoff, cfg.maxBackoff) {
      BackoffIsExponentialExactlyWhenGuarded(cfg.baseBackoff, cfg.maxBackoff);
      assert Ceiling(cfg.baseBackoff, cfg.maxBackoff, attempts) == Ideal(cfg.baseBackoff, cfg.maxBackoff, attempts);
    }
  }

  /** A row that waits for its retry cannot be claimed during the first half of the ideal
      delay, and can be once the whole of it is over. */
  lemma RetriesKeepTheirDistance(cfg: Config, was: Row, attempts: nat, reason: string, now: int, jitter: int, t: int)
    requires WfConfig(cfg) && GuardCatchesOverflow(cfg.baseBackoff, cfg.maxBackoff)
    requires 1 <= attempts < cfg.maxAttempts && was.status.Processing?
    requires IsJitter(cfg.baseBackoff, cfg.maxBackoff, attempts, jitter)
    ensures var r := SettledRow(cfg, was, attempts, Transient(reason), now, jitter);
            var delay := Ideal(cfg.baseBackoff, cfg.maxBackoff, attempts);
            && r.error == Some(reason) && r.status == was.status && r.attempts == was.attempts
            && (t <= now + delay / 2 ==> !Claimable(r, t))
            && (t > now + delay ==> Claimable(r, t))
  {
    var delay := Ideal(cfg.baseBackoff, cfg.maxBackoff, attempts);
    DelayFollowsTheIdeal(cfg.baseBackoff, cfg.maxBackoff, attempts, jitter);
    SettledRowIsSettled(cfg, was, attempts, Transient(reason), now, jitter);
  }

  lemma VerdictIsWellFormed(cfg: Config, ans: Answer)
    requires Verdict(cfg, ans).Ok?
    ensures WfNormalized(Verdict(cfg, ans).value)
  {
    GateOutputIsWellFormed(cfg.minConfidence, cfg.parse, ans.response);
  }

  /** Handling a job again right after its writes changes nothing, whichever state the
      entity was in. */
  lemma RepeatedWritesAreNoOps(facts: map<nat, Normalized>, t: Table, id: nat, n: Normalized)
    requires CoherentTable(t) && WfNormalized(n)
    ensures WithFact(WithFact(facts, id, n), id, n) == WithFact(facts, id, n)
    ensures Projected(Projected(t, id, n), id, n) == Projected(t, id, n)
  {
    var ev := ProjectionOf(id, n);
    if ev.Some? {
      EffectiveApplyMovesUp(t, ev.value);
      EffectiveApplyMovesUp(ApplyEvent(t, ev.value), ev.value);
    }
  }
}
