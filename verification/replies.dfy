// What the facts and entities say, traced back to the replies of the model: without the
// functions that compute them.
module Replies {
  import opened Common
  import opened Model
  import opened Projection
  import opened Normalize
  import opened RawQueue
  import opened System
  import opened EffectivelyOnce

  /** The client may reply this to the payload of the row, the gate does not refuse it, and
      the fact says what it says. */
  ghost predicate Reported(cfg: Config, c: Client, s: Service, id: nat, r: Response, n: Normalized) {
    && id < |s.rows| && c(s.rows[id].payload, Reply(r)) && !Refused(cfg.minConfidence, r)
    && Says(cfg.minConfidence, cfg.parse, r, n) && WfNormalized(n)
  }

  /** The projection write carries the columns of the fact. */
  predicate Copies(ev: Event, n: Normalized) {
    && ev.key == n.entityKey && Some(ev.change.state) == n.canonicalState && ev.change.time == n.eventTime
    && match ev.change
       case ShipmentTo(_, _) => n.class_.Shipment?
       case InvoiceTo(_, _, amount, currency) => n.class_.Invoice? && amount == n.amountMinor && currency == n.currency
  }

  ghost predicate IsReported(cfg: Config, c: Client, s: Service, ev: Event) {
    exists r, n :: Reported(cfg, c, s, ev.source, r, n) && Copies(ev, n)
  }

  lemma AcceptedIsReported(cfg: Config, c: Client, s: Service, id: nat, n: Normalized) returns (r: Response)
    requires id < |s.rows| && Accepts(cfg, c, s.rows[id].payload, n)
    ensures Reported(cfg, c, s, id, r, n)
  {
    var ans :| c(s.rows[id].payload, ans) && Verdict(cfg, ans) == Ok(n);
    r := ans.response;
    VerdictIsWellFormed(cfg, ans);
    GateRejectsExactly(cfg.minConfidence, cfg.parse, r);
    GateKeepsWhatIsNamed(cfg.minConfidence, cfg.parse, r);
  }

  lemma WriteIsReported(cfg: Config, c: Client, s: Service, ev: Event)
    requires WriteMeans(cfg, c, s, ev)
    ensures IsReported(cfg, c, s, ev)
  {
    var n :| Accepts(cfg, c, s.rows[ev.source].payload, n) && ProjectionOf(ev.source, n) == Some(ev);
    var r := AcceptedIsReported(cfg, c, s, ev.source, n);
    assert Copies(ev, n);
  }

  ghost predicate WritesAreReported(cfg: Config, c: Client, s: Service) {
    forall ev :: ev in s.log ==> IsReported(cfg, c, s, ev)
  }

  /** In every state that any client can lead to, a stored fact says what a reply to its
      payload said, and every projection write carries class, key, state, time, amount and
      currency of a reply to the payload of its row. */
  lemma TablesSayWhatWasReplied(cfg: Config, c: Client, s: Service)
    requires WfConfig(cfg) && Reachable(cfg, c, s)
    ensures forall id :: id in s.facts ==> exists r :: Reported(cfg, c, s, id, r, s.facts[id])
    ensures WritesAreReported(cfg, c, s)
  {
    ReachableStates(cfg, c, s);
    forall id | id in s.facts ensures exists r :: Reported(cfg, c, s, id, r, s.facts[id]) {
      assert FactMeans(cfg, c, s, id);
      var r := AcceptedIsReported(cfg, c, s, id, s.facts[id]);
    }
    forall ev | ev in s.log ensures IsReported(cfg, c, s, ev) {
      assert WriteMeans(cfg, c, s, ev);
      WriteIsReported(cfg, c, s, ev);
    }
  }

  /** State and time of the entity are those of one reply about its key. */
  ghost predicate StateReplied(cfg: Config, c: Client, s: Service, key: string, e: Entity) {
    exists id, r, n ::
      && Reported(cfg, c, s, id, r, n)
      && n.entityKey == key && n.canonicalState == Some(e.state) && n.eventTime == e.lastEventTime
  }

  /** Its money, if any, is that of one reply about its key. */
  ghost predicate MoneyReplied(cfg: Config, c: Client, s: Service, key: string, e: Entity) {
    e.amountMinor.Some? ==>
      exists id, r, n ::
        && Reported(cfg, c, s, id, r, n) && n.class_.Invoice?
        && n.entityKey == key && n.amountMinor == e.amountMinor && Some(n.currency) == e.currency
  }

  /** Its type is the class of a reply about its key. */
  ghost predicate KindReplied(cfg: Config, c: Client, s: Service, key: string, e: Entity) {
    exists id, r, n :: Reported(cfg, c, s, id, r, n) && n.entityKey == key && n.class_ == e.kind
  }

  lemma {:induction false} MoneyHasAnEvent(evs: seq<Event>, key: string)
    ensures LastMoney(evs, key).0.Some? ==>
              exists x ::
                && x in evs && x.key == key && x.change.InvoiceTo?
                && LastMoney(evs, key) == (x.change.amountMinor, NullIfEmpty(x.change.currency))
  {
    if evs != [] {
      MoneyHasAnEvent(Most(evs), key);
      assert forall x :: x in Most(evs) ==> x in evs;
      assert Last(evs) in evs;
    }
  }

  lemma {:induction false} KindHasAnEvent(evs: seq<Event>, key: string)
    requires key in Replay(evs)
    ensures exists x ::
              x in evs && x.key == key && Replay(evs)[key].kind == if x.change.ShipmentTo? then Shipment else Invoice
  {
    var p := Most(evs);
    assert Last(evs) in evs && forall x :: x in p ==> x in evs;
    if key in Replay(p) {
      KindHasAnEvent(p, key);
    }
  }

  lemma EventStateIsReplied(cfg: Config, c: Client, s: Service, key: string, x: Event)
    requires IsReported(cfg, c, s, x) && key in s.entities && x.key == key
    requires s.entities[key].state == x.change.state && s.entities[key].lastEventTime == x.change.time
    ensures StateReplied(cfg, c, s, key, s.entities[key])
  {
  }

  lemma EventMoneyIsReplied(cfg: Config, c: Client, s: Service, key: string, x: Event)
    requires IsReported(cfg, c, s, x) && key in s.entities && x.key == key && x.change.InvoiceTo?
    requires s.entities[key].amountMinor == x.change.amountMinor
    requires s.entities[key].currency == NullIfEmpty(x.change.currency)
    ensures MoneyReplied(cfg, c, s, key, s.entities[key])
  {
    var r, n :| Reported(cfg, c, s, x.source, r, n) && Copies(x, n);
    assert n.amountMinor.Some? ==> n.currency != "";
  }

  lemma EventKindIsReplied(cfg: Config, c: Client, s: Service, key: string, x: Event)
    requires IsReported(cfg, c, s, x) && key in s.entities && x.key == key
    requires s.entities[key].kind == if x.change.ShipmentTo? then Shipment else Invoice
    ensures KindReplied(cfg, c, s, key, s.entities[key])
  {
  }

  lemma StateOfLog(cfg: Config, c: Client, s: Service, key: string)
    requires s.entities == Replay(s.log) && WfEvents(s.log) && WritesAreReported(cfg, c, s) && key in s.entities
    ensures StateReplied(cfg, c, s, key, s.entities[key])
  {
    StateAndTimeComeTogether(s.log, key);
    EventStateIsReplied(cfg, c, s, key, LastEffective(s.log, key).value);
  }

  lemma MoneyOfLog(cfg: Config, c: Client, s: Service, key: string)
    requires s.entities == Replay(s.log) && WfEvents(s.log) && WritesAreReported(cfg, c, s) && key in s.entities
    ensures MoneyReplied(cfg, c, s, key, s.entities[key])
  {
    MoneyIsNeverMixed(s.log, key);
    MoneyHasAnEvent(s.log, key);
    if s.entities[key].amountMinor.Some? {
      var y :| y in s.log && y.key == key && y.change.InvoiceTo?
               && LastMoney(s.log, key) == (y.change.amountMinor, NullIfEmpty(y.change.currency));
      EventMoneyIsReplied(cfg, c, s, key, y);
    }
  }

  lemma KindOfLog(cfg: Config, c: Client, s: Service, key: string)
    requires s.entities == Replay(s.log) && WritesAreReported(cfg, c, s) && key in s.entities
    ensures KindReplied(cfg, c, s, key, s.entities[key])
  {
    KindHasAnEvent(s.log, key);
    var x :| x in s.log && x.key == key && s.entities[key].kind == if x.change.ShipmentTo? then Shipment else Invoice;
    EventKindIsReplied(cfg, c, s, key, x);
  }

  /** So whatever the client, every entity is what replies about its key said: state and time
      of one, money of one, type of one. */
  lemma EntitiesSayWhatWasReplied(cfg: Config, c: Client, s: Service, key: string)
    requires WfConfig(cfg) && Reachable(cfg, c, s) && key in s.entities
    ensures var e := s.entities[key];
            StateReplied(cfg, c, s, key, e) && MoneyReplied(cfg, c, s, key, e) && KindReplied(cfg, c, s, key, e)
  {
    ReachableStates(cfg, c, s);
    TablesSayWhatWasReplied(cfg, c, s);
    StateOfLog(cfg, c, s, key);
    MoneyOfLog(cfg, c, s, key);
    KindOfLog(cfg, c, s, key);
  }
}
