// The guarded projection of internal/store/entity.go as functions on the entities
// table, and what any sequence of events does to it.
module Projection {
  import opened Common
  import opened Model

  type Table = map<string, Entity>

  datatype Change =
    | ShipmentTo(state: State, time: Option<int>)
    | InvoiceTo(state: State, time: Option<int>, amountMinor: Option<int>, currency: string)

  /** One projection write requested by the raw event `source`. */
  datatype Event = Event(source: nat, key: string, change: Change)

  // ---------- the two writes ----------

  function NullIfEmpty(s: string): Option<string> {
    if s == "" then None else Some(s)
  }

  function Lookup(t: Table, key: string): Option<Entity> {
    if key in t then Some(t[key]) else None
  }

  /** The conditional upsert: insert, or overwrite when the new rank is higher. */
  function ShipmentRow(row: Option<Entity>, state: State, rank: nat, time: Option<int>): Entity {
    match row
    case None => Entity(Shipment, state, rank, time, None, None)
    case Some(e) => if e.rank < rank then e.(state := state, rank := rank, lastEventTime := time) else e
  }

  function InvoiceSeed(state: State, time: Option<int>, amount: Option<int>, currency: string): Entity {
    Entity(Invoice, state, 0, time, amount, NullIfEmpty(currency))
  }

  /** The UPDATE of the transaction; money that is absent keeps the old columns. */
  function InvoiceUpdate(e: Entity, state: State, time: Option<int>, amount: Option<int>, currency: string): Entity {
    e.(state := state, lastEventTime := time,
       amountMinor := Coalesce(amount, e.amountMinor),
       currency := Coalesce(NullIfEmpty(currency), e.currency))
  }

  /** The row-locked transaction: seed, or follow a legal edge of the transition table. */
  function InvoiceRow(
      row: Option<Entity>, state: State, time: Option<int>, amount: Option<int>, currency: string): Entity
  {
    match row
    case None => InvoiceSeed(state, time, amount, currency)
    case Some(e) =>
      if InvoiceTransitionAllowed(e.state, state) then InvoiceUpdate(e, state, time, amount, currency) else e
  }

  function NextRow(row: Option<Entity>, c: Change): Entity {
    match c
    case ShipmentTo(state, time) => ShipmentRow(row, state, ShipmentRank(state), time)
    case InvoiceTo(state, time, amount, currency) => InvoiceRow(row, state, time, amount, currency)
  }

  function ApplyEvent(t: Table, ev: Event): Table {
    t[ev.key := NextRow(Lookup(t, ev.key), ev.change)]
  }

  /** Applying the events one after the other, first to last. */
  function Fold(t: Table, evs: seq<Event>): Table {
    if evs == [] then t else ApplyEvent(Fold(t, Most(evs)), Last(evs))
  }

  function Replay(evs: seq<Event>): Table {
    Fold(map[], evs)
  }

  // ---------- what the gate lets through ----------

  predicate MoneyPair(amount: Option<int>, currency: Option<string>) {
    || (amount.None? && currency.None?)
    || (amount.Some? && amount.value >= 0 && currency.Some? && ValidCurrency(currency.value))
  }

  predicate WfChange(c: Change) {
    match c
    case ShipmentTo(state, _) => IsShipmentState(state)
    case InvoiceTo(state, _, amount, currency) => IsInvoiceState(state) && MoneyPair(amount, NullIfEmpty(currency))
  }

  ghost predicate WfEvents(evs: seq<Event>) {
    forall i :: 0 <= i < |evs| ==> WfChange(evs[i].change)
  }

  // ---------- coherence and progress of one row ----------

  predicate Coherent(e: Entity) {
    e.rank == ShipmentRank(e.state) && MoneyPair(e.amountMinor, e.currency)
  }

  /** The strict order in which a row can move: ISSUED, then PAID or VOIDED, then
      REFUNDED, then the four shipment ranks. */
  function Level(s: State): nat {
    match s
    case Issued => 1
    case Paid => 2
    case Voided => 2
    case Refunded => 3
    case _ => 3 + ShipmentRank(s)
  }

  function Progress(t: Table, key: string): nat {
    if key in t then Level(t[key].state) else 0
  }

  ghost predicate CoherentTable(t: Table) {
    forall k :: k in t ==> Coherent(t[k])
  }

  /** An apply that changes anything moves exactly its own key to its own state, and
      strictly upwards; so the same target can never take effect twice. */
  lemma {:induction false} EffectiveApplyMovesUp(t: Table, ev: Event)
    requires CoherentTable(t) && WfChange(ev.change)
    ensures var t' := ApplyEvent(t, ev);
            && CoherentTable(t')
            && (forall k :: k != ev.key ==> Lookup(t', k) == Lookup(t, k))
            && (t' == t || (Progress(t', ev.key) > Progress(t, ev.key) && t'[ev.key].state == ev.change.state))
            && (t' != t <==> (ev.key in t ==> t'[ev.key] != t[ev.key]))
            && (Level(ev.change.state) <= Progress(t, ev.key) ==> t' == t)
  {
    var t' := ApplyEvent(t, ev);
    if ev.key in t && t'[ev.key] == t[ev.key] {
      assert t' == t;
    }
  }

  lemma {:induction false} FoldKeepsCoherence(t: Table, evs: seq<Event>)
    requires CoherentTable(t) && WfEvents(evs)
    ensures CoherentTable(Fold(t, evs))
    ensures forall k :: Progress(t, k) <= Progress(Fold(t, evs), k)
    ensures forall k :: Progress(t, k) == Progress(Fold(t, evs), k) ==> Lookup(t, k) == Lookup(Fold(t, evs), k)
  {
    if evs != [] {
      FoldKeepsCoherence(t, Most(evs));
      EffectiveApplyMovesUp(Fold(t, Most(evs)), Last(evs));
    }
  }

  lemma {:induction false} FoldConcat(t: Table, a: seq<Event>, b: seq<Event>)
    ensures Fold(t, a + b) == Fold(Fold(t, a), b)
  {
    if b == [] {
      assert a + b == a;
    } else {
      assert Most(a + b) == a + Most(b);
      FoldConcat(t, a, Most(b));
    }
  }

  lemma AppendToReplay(evs: seq<Event>, x: Event)
    ensures Replay(evs + [x]) == ApplyEvent(Replay(evs), x)
  {
    assert Most(evs + [x]) == evs;
  }

  // ---------- how often a row is written ----------

  /** How many of the events changed the row `key`. */
  function Writes(evs: seq<Event>, key: string): nat {
    if evs == [] then 0
    else
      var before := Replay(Most(evs));
      Writes(Most(evs), key) + if Lookup(ApplyEvent(before, Last(evs)), key) != Lookup(before, key) then 1 else 0
  }

  ghost predicate OnlyShipments(evs: seq<Event>, key: string) {
    forall i :: 0 <= i < |evs| && evs[i].key == key ==> evs[i].change.ShipmentTo?
  }

  ghost predicate OnlyInvoices(evs: seq<Event>, key: string) {
    forall i :: 0 <= i < |evs| && evs[i].key == key ==> evs[i].change.InvoiceTo?
  }

  /** However many events arrive, a row is written at most 7 times, 4 if its events are
      all shipments and 3 if they are all invoices. */
  lemma {:induction false} WritesAreBounded(evs: seq<Event>, key: string)
    requires WfEvents(evs)
    ensures Writes(evs, key) <= Progress(Replay(evs), key) <= 7
    ensures OnlyShipments(evs, key) ==>
              && Writes(evs, key) <= 4
              && (key in Replay(evs) ==>
                   IsShipmentState(Replay(evs)[key].state) && Writes(evs, key) <= Replay(evs)[key].rank)
    ensures OnlyInvoices(evs, key) ==>
              Writes(evs, key) <= 3 && (key in Replay(evs) ==> IsInvoiceState(Replay(evs)[key].state))
  {
    if evs != [] {
      WritesAreBounded(Most(evs), key);
      FoldKeepsCoherence(map[], Most(evs));
      FoldKeepsCoherence(map[], evs);
      EffectiveApplyMovesUp(Replay(Most(evs)), Last(evs));
    }
  }

  lemma OneMoreWrite(evs: seq<Event>, x: Event, row: Option<Entity>)
    requires WfEvents(evs) && WfChange(x.change)
    requires row == Lookup(Replay(evs), x.key) && row != Some(NextRow(row, x.change))
    ensures WfEvents(evs + [x])
    ensures Lookup(Replay(evs + [x]), x.key) == Some(NextRow(row, x.change))
    ensures Writes(evs + [x], x.key) == Writes(evs, x.key) + 1
  {
    AppendToReplay(evs, x);
    assert Most(evs + [x]) == evs;
  }

  /** Seven changes of one row, each legal after the one before. */
  function Rung(i: nat): Change
    requires i < 7
  {
    if i == 0 then InvoiceTo(Issued, None, None, "")
    else if i == 1 then InvoiceTo(Paid, None, None, "")
    else if i == 2 then InvoiceTo(Refunded, None, None, "")
    else if i == 3 then ShipmentTo(PickedUp, None)
    else if i == 4 then ShipmentTo(InTransit, None)
    else if i == 5 then ShipmentTo(OutForDelivery, None)
    else ShipmentTo(Delivered, None)
  }

  predicate OnRung(e: Entity, i: nat)
    requires i < 7
  {
    e.state == Rung(i).state && e.rank == ShipmentRank(e.state)
  }

  lemma RungFollows(row: Option<Entity>, i: nat)
    requires i < 7 && if i == 0 then row.None? else row.Some? && OnRung(row.value, i - 1)
    ensures OnRung(NextRow(row, Rung(i)), i) && row != Some(NextRow(row, Rung(i)))
  {
  }

  lemma {:induction false} Climb(key: string, i: nat) returns (p: seq<Event>, row: Option<Entity>)
    requires i <= 7
    ensures WfEvents(p) && Writes(p, key) == i && row == Lookup(Replay(p), key)
    ensures if i == 0 then row.None? else row.Some? && OnRung(row.value, i - 1)
  {
    if i == 0 {
      return [], None;
    }
    var q, below := Climb(key, i - 1);
    var x := Event(0, key, Rung(i - 1));
    RungFollows(below, i - 1);
    OneMoreWrite(q, x, below);
    p, row := q + [x], Some(NextRow(below, Rung(i - 1)));
  }

  /** The bound 7 is reached. */
  lemma SevenWritesHappen(key: string)
    ensures exists evs :: WfEvents(evs) && Writes(evs, key) == 7
  {
    var evs, row := Climb(key, 7);
  }

  // ---------- shipment convergence ----------

  predicate ShipmentOn(ev: Event, key: string) {
    ev.key == key && ev.change.ShipmentTo?
  }

  /** `i` is the first shipment event of the highest rank that occurs on `key`. */
  ghost predicate Winner(evs: seq<Event>, key: string, i: nat) {
    && i < |evs| && ShipmentOn(evs[i], key)
    && forall j :: 0 <= j < |evs| && ShipmentOn(evs[j], key) ==>
         && ShipmentRank(evs[j].change.state) <= ShipmentRank(evs[i].change.state)
         && (j < i ==> ShipmentRank(evs[j].change.state) < ShipmentRank(evs[i].change.state))
  }

  lemma {:induction false} RankStaysBelow(evs: seq<Event>, key: string, r: nat)
    requires WfEvents(evs) && r > 0
    requires forall j :: 0 <= j < |evs| && ShipmentOn(evs[j], key) ==> ShipmentRank(evs[j].change.state) < r
    ensures key in Replay(evs) ==> Replay(evs)[key].rank < r
  {
    if evs != [] {
      assert forall j :: 0 <= j < |Most(evs)| ==> Most(evs)[j] == evs[j];
      RankStaysBelow(Most(evs), key, r);
    }
  }

  /** Whatever else arrives, in whatever order, with whatever repetitions and invoice
      events in between, the row ends at the winner. */
  lemma {:induction false} ShipmentsConverge(evs: seq<Event>, key: string, i: nat)
    requires WfEvents(evs) && Winner(evs, key, i)
    ensures key in Replay(evs)
    ensures var e := Replay(evs)[key];
            && e.state == evs[i].change.state
            && e.rank == ShipmentRank(evs[i].change.state)
            && e.lastEventTime == evs[i].change.time
  {
    var p := Most(evs);
    assert forall j :: 0 <= j < |p| ==> p[j] == evs[j];
    if i == |p| {
      assert ShipmentOn(Last(evs), key);
      RankStaysBelow(p, key, ShipmentRank(evs[i].change.state));
    } else {
      assert Winner(p, key, i);
      ShipmentsConverge(p, key, i);
      if ShipmentOn(Last(evs), key) {
        assert ShipmentOn(evs[|p|], key);
      }
    }
  }

  lemma {:induction false} WinnerExists(evs: seq<Event>, key: string, some: nat) returns (i: nat)
    requires some < |evs| && ShipmentOn(evs[some], key)
    ensures Winner(evs, key, i)
    decreases |evs|
  {
    var p := Most(evs);
    assert forall j :: 0 <= j < |p| ==> p[j] == evs[j];
    if k: nat :| k < |p| && ShipmentOn(p[k], key) {
      i := WinnerExists(p, key, k);
      if ShipmentOn(Last(evs), key) && ShipmentRank(Last(evs).change.state) > ShipmentRank(p[i].change.state) {
        i := |p|;
      }
    } else {
      i := |p|;
      assert some == |p|;
    }
  }

  ghost predicate HasShipment(evs: seq<Event>, key: string, state: State) {
    exists i :: 0 <= i < |evs| && ShipmentOn(evs[i], key) && evs[i].change.state == state
  }

  /** Two histories with the same set of shipment states on a key, at least one, end
      alike, whatever their orders, repetitions and other events. */
  lemma SameShipmentsSameState(a: seq<Event>, b: seq<Event>, key: string, some: State)
    requires WfEvents(a) && WfEvents(b)
    requires forall s :: HasShipment(a, key, s) <==> HasShipment(b, key, s)
    requires HasShipment(a, key, some)
    ensures key in Replay(a) && key in Replay(b)
    ensures Replay(a)[key].state == Replay(b)[key].state && Replay(a)[key].rank == Replay(b)[key].rank
  {
    var s := HighestReached(a, key, some);
    var t := HighestReached(b, key, some);
  }

  lemma HighestReached(evs: seq<Event>, key: string, some: State) returns (top: State)
    requires WfEvents(evs) && HasShipment(evs, key, some)
    ensures HasShipment(evs, key, top) && IsShipmentState(top)
    ensures forall s :: HasShipment(evs, key, s) ==> ShipmentRank(s) <= ShipmentRank(top)
    ensures key in Replay(evs) && Replay(evs)[key].state == top && Replay(evs)[key].rank == ShipmentRank(top)
  {
    var m: nat :| m < |evs| && ShipmentOn(evs[m], key) && evs[m].change.state == some;
    var i := WinnerExists(evs, key, m);
    ShipmentsConverge(evs, key, i);
    top := evs[i].change.state;
  }

  /** Nothing but an event of the history puts a row into a state. */
  lemma {:induction false} StatesAreJustified(evs: seq<Event>, key: string)
    requires key in Replay(evs)
    ensures exists i :: 0 <= i < |evs| && evs[i].key == key && evs[i].change.state == Replay(evs)[key].state
  {
    var p, x := Most(evs), Last(evs);
    if key in Replay(p) && Replay(p)[key].state == Replay(evs)[key].state {
      StatesAreJustified(p, key);
      var i :| 0 <= i < |p| && p[i].key == key && p[i].change.state == Replay(p)[key].state;
      assert evs[i] == p[i];
    } else {
      assert evs[|p|] == x;
    }
  }

  lemma {:induction false} KeysAreJustified(evs: seq<Event>, key: string)
    ensures key in Replay(evs) <==> exists i :: 0 <= i < |evs| && evs[i].key == key
  {
    if evs != [] {
      var p := Most(evs);
      KeysAreJustified(p, key);
      assert forall i :: 0 <= i < |p| ==> p[i] == evs[i];
      assert evs[|p|] == Last(evs);
    }
  }

  /** The last event that changed the row. */
  function LastEffective(evs: seq<Event>, key: string): Option<Event> {
    if evs == [] then None
    else
      var before, x := Replay(Most(evs)), Last(evs);
      if x.key == key && ApplyEvent(before, x) != before then Some(x) else LastEffective(Most(evs), key)
  }

  /** The state and the time of a row are those of one and the same event. */
  lemma {:induction false} StateAndTimeComeTogether(evs: seq<Event>, key: string)
    requires WfEvents(evs)
    ensures key in Replay(evs) <==> LastEffective(evs, key).Some?
    ensures key in Replay(evs) ==>
              var e, x := Replay(evs)[key], LastEffective(evs, key).value;
              x in evs && x.key == key && e.state == x.change.state && e.lastEventTime == x.change.time
  {
    if evs != [] {
      StateAndTimeComeTogether(Most(evs), key);
      FoldKeepsCoherence(map[], Most(evs));
      EffectiveApplyMovesUp(Replay(Most(evs)), Last(evs));
      assert forall x :: x in Most(evs) ==> x in evs;
      assert Last(evs) in evs;
    }
  }

  /** The type of a row is that of the first event on its key and never changes, even when
      a later shipment event moves an invoice row into a shipment state. */
  lemma {:induction false} KindIsThatOfTheFirstEvent(evs: seq<Event>, key: string, i: nat)
    requires i < |evs| && evs[i].key == key && forall j :: 0 <= j < i ==> evs[j].key != key
    ensures key in Replay(evs)
    ensures Replay(evs)[key].kind == if evs[i].change.ShipmentTo? then Shipment else Invoice
  {
    var p := Most(evs);
    assert forall j :: 0 <= j < |p| ==> p[j] == evs[j];
    if i == |p| {
      KeysAreJustified(p, key);
    } else {
      KindIsThatOfTheFirstEvent(p, key, i);
    }
  }

  // ---------- money ----------

  /** The money of the last event that changed the row and carried any. */
  function LastMoney(evs: seq<Event>, key: string): (Option<int>, Option<string>) {
    if evs == [] then (None, None)
    else
      var before, x := Replay(Most(evs)), Last(evs);
      if x.key == key && ApplyEvent(before, x) != before && x.change.InvoiceTo? && x.change.amountMinor.Some?
      then (x.change.amountMinor, NullIfEmpty(x.change.currency))
      else LastMoney(Most(evs), key)
  }

  /** Amount and currency always come from one and the same event. */
  lemma {:induction false} MoneyIsNeverMixed(evs: seq<Event>, key: string)
    requires WfEvents(evs)
    ensures key in Replay(evs) ==> (Replay(evs)[key].amountMinor, Replay(evs)[key].currency) == LastMoney(evs, key)
    ensures key !in Replay(evs) ==> LastMoney(evs, key) == (None, None)
  {
    if evs != [] {
      MoneyIsNeverMixed(Most(evs), key);
      FoldKeepsCoherence(map[], Most(evs));
      EffectiveApplyMovesUp(Replay(Most(evs)), Last(evs));
    }
  }

  // ---------- eliminating duplicates ----------

  /** `c` without its element `i`. */
  function Without<T>(c: seq<T>, i: nat): seq<T>
    requires i < |c|
  {
    c[..i] + c[i + 1..]
  }

  /** What took effect once has none ever after. */
  lemma EffectIsFinal(t: Table, x: Event, later: seq<Event>)
    requires CoherentTable(t) && WfChange(x.change) && WfEvents(later)
    requires ApplyEvent(t, x) != t
    ensures var u := Fold(ApplyEvent(t, x), later); ApplyEvent(u, x) == u
  {
    EffectiveApplyMovesUp(t, x);
    FoldKeepsCoherence(ApplyEvent(t, x), later);
    EffectiveApplyMovesUp(Fold(ApplyEvent(t, x), later), x);
  }

  /** An event that takes effect now had no effect at any earlier place in the history. */
  lemma {:induction false} EffectHappensOnce(evs: seq<Event>, i: nat)
    requires WfEvents(evs) && i < |evs|
    requires ApplyEvent(Replay(evs), evs[i]) != Replay(evs)
    ensures ApplyEvent(Replay(evs[..i]), evs[i]) == Replay(evs[..i])
  {
    var before, x, later := evs[..i], evs[i], evs[i + 1..];
    if ApplyEvent(Replay(before), x) != Replay(before) {
      assert evs == (before + [x]) + later;
      assert forall j :: 0 <= j < |later| ==> later[j] == evs[i + 1 + j];
      assert forall j :: 0 <= j < |before| ==> before[j] == evs[j];
      FoldConcat(map[], before + [x], later);
      AppendToReplay(before, x);
      FoldKeepsCoherence(map[], before);
      EffectIsFinal(Replay(before), x, later);
    }
  }

  lemma DroppingANoOp(evs: seq<Event>, i: nat)
    requires i < |evs|
    requires ApplyEvent(Replay(evs[..i]), evs[i]) == Replay(evs[..i])
    ensures Replay(Without(evs, i)) == Replay(evs)
  {
    assert evs == (evs[..i] + [evs[i]]) + evs[i + 1..];
    FoldConcat(map[], evs[..i] + [evs[i]], evs[i + 1..]);
    FoldConcat(map[], evs[..i], evs[i + 1..]);
    assert Most(evs[..i] + [evs[i]]) == evs[..i];
  }

  ghost predicate SameElements<T>(a: seq<T>, b: seq<T>) {
    (forall x :: x in a ==> x in b) && (forall x :: x in b ==> x in a)
  }

  /** Every history has the effect of one without duplicates. The kept occurrence of an
      event is the one that took effect, which need not be its first: a REFUNDED that was
      ignored at ISSUED takes effect when it is replayed after PAID. */
  lemma {:induction false} DuplicatesAreHarmless(evs: seq<Event>) returns (c: seq<Event>)
    requires WfEvents(evs)
    ensures NoDuplicates(c) && SameElements(c, evs)
    ensures Replay(c) == Replay(evs)
  {
    if evs == [] {
      return [];
    }
    var p, x := Most(evs), Last(evs);
    assert evs == p + [x];
    var d := DuplicatesAreHarmless(p);
    c := AppendOnce(d, x);
    SameElementsAppend(d, p, c, x);
  }

  lemma AppendOnce(d: seq<Event>, x: Event) returns (c: seq<Event>)
    requires NoDuplicates(d) && (exists p :: WfEvents(p) && SameElements(d, p))
    requires WfChange(x.change)
    ensures NoDuplicates(c) && SameElements(c, d + [x])
    ensures Replay(c) == ApplyEvent(Replay(d), x)
  {
    var p :| WfEvents(p) && SameElements(d, p);
    SameElementsWf(d, p);
    if x !in d {
      AppendToReplay(d, x);
      c := d + [x];
    } else if ApplyEvent(Replay(d), x) == Replay(d) {
      c := d;
    } else {
      var i: nat :| i < |d| && d[i] == x;
      EffectHappensOnce(d, i);
      DroppingANoOp(d, i);
      AppendToReplay(Without(d, i), x);
      MoveToEnd(d, i);
      c := Without(d, i) + [x];
    }
  }

  lemma MoveToEnd<T(!new)>(d: seq<T>, i: nat)
    requires NoDuplicates(d) && i < |d|
    ensures NoDuplicates(Without(d, i) + [d[i]]) && SameElements(Without(d, i) + [d[i]], d + [d[i]])
  {
    var w := Without(d, i);
    assert forall j :: 0 <= j < |w| ==> w[j] == d[if j < i then j else j + 1];
    forall y | y in d ensures y in w + [d[i]] {
      var j :| 0 <= j < |d| && d[j] == y;
      if j < i { assert w[j] == y; } else if j > i { assert w[j - 1] == y; }
    }
  }

  lemma SameElementsAppend<T(!new)>(d: seq<T>, p: seq<T>, c: seq<T>, x: T)
    requires SameElements(d, p) && SameElements(c, d + [x])
    ensures SameElements(c, p + [x])
  {
  }

  lemma SameElementsWf(c: seq<Event>, p: seq<Event>)
    requires SameElements(c, p) && WfEvents(p)
    ensures WfEvents(c)
  {
    forall i | 0 <= i < |c| ensures WfChange(c[i].change) {
      assert c[i] in p;
    }
  }

  // ---------- when an ignored copy counts later ----------

  /** `x` changes nothing in `t`, but something after the events `later`. */
  predicate IgnoredThenEffective(t: Table, later: seq<Event>, x: Event) {
    var u := Fold(t, later);
    ApplyEvent(t, x) == t && ApplyEvent(u, x) != u
  }

  /** A refund that came while its invoice was issued, and comes again once it is paid. */
  predicate EarlyRefund(t: Table, later: seq<Event>, x: Event) {
    var u := Fold(t, later);
    && x.change.InvoiceTo? && x.change.state.Refunded?
    && x.key in t && t[x.key].state.Issued?
    && x.key in u && u[x.key].state.Paid?
  }

  lemma ChangesExactlyItsRow(t: Table, x: Event)
    ensures ApplyEvent(t, x) == t <==> x.key in t && NextRow(Some(t[x.key]), x.change) == t[x.key]
  {
    if x.key in t && NextRow(Some(t[x.key]), x.change) == t[x.key] {
      assert t[x.key := t[x.key]] == t;
    }
  }

  /** An ignored event takes effect later if and only if it is an early refund. So the
      first copy of an event is the one to keep, unless that copy is an early refund. */
  lemma IgnoredCopiesCountExactlyForEarlyRefunds(t: Table, later: seq<Event>, x: Event)
    requires CoherentTable(t) && WfEvents(later) && WfChange(x.change)
    ensures IgnoredThenEffective(t, later, x) <==> EarlyRefund(t, later, x)
  {
    FoldKeepsCoherence(t, later);
    ChangesExactlyItsRow(t, x);
    ChangesExactlyItsRow(Fold(t, later), x);
    assert Progress(t, x.key) == Progress(Fold(t, later), x.key)
           ==> Lookup(t, x.key) == Lookup(Fold(t, later), x.key);
    EffectiveApplyMovesUp(Fold(t, later), x);
  }

  function Issue(key: string): Event {
    Event(0, key, InvoiceTo(Issued, None, None, ""))
  }

  function Refund(key: string): Event {
    Event(1, key, InvoiceTo(Refunded, None, None, ""))
  }

  function Pay(key: string): Event {
    Event(2, key, InvoiceTo(Paid, None, None, ""))
  }

  lemma IssuedThenPaid(key: string)
    ensures CoherentTable(Replay([Issue(key)])) && EarlyRefund(Replay([Issue(key)]), [Pay(key)], Refund(key))
  {
    AppendToReplay([], Issue(key));
    assert [] + [Issue(key)] == [Issue(key)];
    assert Most([Pay(key)]) == [];
  }

  lemma TwoThenOne(a: Event, b: Event, c: Event)
    ensures Replay([a, b, c]) == Fold(ApplyEvent(Replay([a]), b), [c])
  {
    AppendToReplay([a], b);
    FoldConcat(map[], [a] + [b], [c]);
    assert [a] + [b] + [c] == [a, b, c];
  }

  /** The smallest case: the refund arrives between issue and payment, and again after. */
  lemma KeepingTheFirstCopyIsNotEnough(key: string)
    ensures var issue, refund, pay := Issue(key), Refund(key), Pay(key);
            Replay([issue, refund, pay, refund]) != Replay([issue, refund, pay])
  {
    var issue, refund, pay := Issue(key), Refund(key), Pay(key);
    IssuedThenPaid(key);
    IgnoredCopiesCountExactlyForEarlyRefunds(Replay([issue]), [pay], refund);
    TwoThenOne(issue, refund, pay);
    AppendToReplay([issue, refund, pay], refund);
    assert [issue, refund, pay] + [refund] == [issue, refund, pay, refund];
  }
}
