// Exactly when the service leaves an entity in the same state however its workers were
// scheduled, as a condition on what the client says about the payloads.
module Schedules {
  import opened Common
  import opened Model
  import opened Projection
  import opened Normalize
  import opened RawQueue
  import opened System
  import opened EffectivelyOnce
  import opened Agreement
  import opened Confluence

  /** `s` is reachable, and has finished exactly these payloads. */
  ghost predicate Handled(cfg: Config, c: Client, ps: seq<string>, s: Service) {
    Reachable(cfg, c, s) && Finished(cfg, c, s) && forall p :: HasPayload(s, p) <==> p in ps
  }

  function StateOf(s: Service, key: string): Option<State> {
    if key in s.entities then Some(s.entities[key].state) else None
  }

  ghost predicate SchedulesAgree(cfg: Config, c: Client, ps: seq<string>, key: string) {
    forall s, t :: Handled(cfg, c, ps, s) && Handled(cfg, c, ps, t) ==> StateOf(s, key) == StateOf(t, key)
  }

  /** An accepted answer to one of the payloads asks for this change of the key. */
  ghost predicate AskedFor(cfg: Config, c: Client, ps: seq<string>, key: string, change: Change) {
    exists p, n :: p in ps && Accepts(cfg, c, p, n) && ProjectionOf(0, n) == Some(Event(0, key, change))
  }

  ghost predicate InvoiceKey(cfg: Config, c: Client, ps: seq<string>, key: string) {
    forall change :: AskedFor(cfg, c, ps, key, change) ==> change.InvoiceTo?
  }

  /** An answer asks for a shipment state of the key. */
  ghost predicate ShipmentKey(cfg: Config, c: Client, ps: seq<string>, key: string) {
    exists change :: AskedFor(cfg, c, ps, key, change) && change.ShipmentTo?
  }

  ghost predicate AskedWithin(cfg: Config, c: Client, ps: seq<string>, key: string, from: State, to: State) {
    forall change :: AskedFor(cfg, c, ps, key, change) ==> change.state == from || change.state == to
  }

  /** The states asked for lie within one edge of the transition table. */
  ghost predicate AskedWithinOneEdge(cfg: Config, c: Client, ps: seq<string>, key: string) {
    exists from, to :: InvoiceTransitionAllowed(from, to) && AskedWithin(cfg, c, ps, key, from, to)
  }

  // ---------- a shipment on the key ----------

  /** What is asked for has been written in every state that has finished the payloads. */
  lemma AskedForLands(cfg: Config, c: Client, ps: seq<string>, s: Service, key: string, change: Change)
    returns (ev: Event)
    requires WfConfig(cfg) && OneWritePerPayload(cfg, c) && Handled(cfg, c, ps, s)
    requires AskedFor(cfg, c, ps, key, change)
    ensures ev in s.log && ev.key == key && ev.change == change
  {
    ReachableStates(cfg, c, s);
    var p, n :| p in ps && Accepts(cfg, c, p, n) && ProjectionOf(0, n) == Some(Event(0, key, change));
    assert HasPayload(s, p) && Meaningful(cfg, c, p);
    var id :| 0 <= id < |s.rows| && s.rows[id].payload == p;
    FactsOfProcessedLand(cfg, c, s, id);
    SameWriteOfAnyRow(n, s.facts[id], id);
    ev := ProjectionOf(id, s.facts[id]).value;
  }

  lemma ShipmentSchedulesAgree(cfg: Config, c: Client, ps: seq<string>, key: string)
    requires WfConfig(cfg) && OneWritePerPayload(cfg, c) && ShipmentKey(cfg, c, ps, key)
    ensures SchedulesAgree(cfg, c, ps, key)
  {
    var change :| AskedFor(cfg, c, ps, key, change) && change.ShipmentTo?;
    forall s, t | Handled(cfg, c, ps, s) && Handled(cfg, c, ps, t) ensures StateOf(s, key) == StateOf(t, key) {
      var ev := AskedForLands(cfg, c, ps, s, key, change);
      var i :| 0 <= i < |s.log| && s.log[i] == ev;
      assert HasShipment(s.log, key, change.state);
      SchedulesAgreeOnShipments(cfg, c, s, t, key);
    }
  }

  // ---------- within one edge ----------

  lemma WritesAreAskedFor(cfg: Config, c: Client, ps: seq<string>, s: Service, ev: Event)
    requires WfConfig(cfg) && Handled(cfg, c, ps, s) && ev in s.log
    ensures AskedFor(cfg, c, ps, ev.key, ev.change)
  {
    ReachableStates(cfg, c, s);
    assert WriteMeans(cfg, c, s, ev);
    assert HasPayload(s, s.rows[ev.source].payload);
  }

  lemma EdgeSchedulesAgree(cfg: Config, c: Client, ps: seq<string>, key: string, from: State, to: State)
    requires WfConfig(cfg) && OneWritePerPayload(cfg, c) && InvoiceKey(cfg, c, ps, key)
    requires InvoiceTransitionAllowed(from, to) && AskedWithin(cfg, c, ps, key, from, to)
    ensures SchedulesAgree(cfg, c, ps, key)
  {
    forall s, t | Handled(cfg, c, ps, s) && Handled(cfg, c, ps, t) ensures StateOf(s, key) == StateOf(t, key) {
      forall ev | ev in s.log && ev.key == key
        ensures ev.change.InvoiceTo? && (ev.change.state == from || ev.change.state == to)
      {
        WritesAreAskedFor(cfg, c, ps, s, ev);
      }
      SchedulesAgreeOnInvoices(cfg, c, s, t, key, from, to);
    }
  }

  // ---------- a run that handles payloads in a given order ----------

  /** A fact that the client may make of each payload, where there is one. */
  ghost predicate FactsOf(cfg: Config, c: Client, ps: seq<string>, fs: seq<Option<Normalized>>) {
    && |fs| == |ps|
    && forall i :: 0 <= i < |ps| ==>
         if fs[i].Some? then Accepts(cfg, c, ps[i], fs[i].value) else !Meaningful(cfg, c, ps[i])
  }

  lemma {:induction false} FactsExist(cfg: Config, c: Client, ps: seq<string>) returns (fs: seq<Option<Normalized>>)
    ensures FactsOf(cfg, c, ps, fs)
  {
    fs := [];
    if ps != [] {
      var before := FactsExist(cfg, c, Most(ps));
      assert forall i :: 0 <= i < |Most(ps)| ==> ps[i] == Most(ps)[i];
      if n :| Accepts(cfg, c, Last(ps), n) {
        fs := before + [Some(n)];
      } else {
        assert !Meaningful(cfg, c, Last(ps));
        fs := before + [None];
      }
    }
  }

  /** The write of payload `i`. */
  function WriteOf(fs: seq<Option<Normalized>>, i: nat): Option<Event>
    requires i < |fs|
  {
    if fs[i].Some? then ProjectionOf(i, fs[i].value) else None
  }

  /** Distinct positions of payloads with a fact. */
  ghost predicate Order(fs: seq<Option<Normalized>>, order: seq<nat>) {
    NoDuplicates(order) && forall j :: 0 <= j < |order| ==> order[j] < |fs| && fs[order[j]].Some?
  }

  ghost function LogOf(fs: seq<Option<Normalized>>, order: seq<nat>): seq<Event>
    requires Order(fs, order)
  {
    if order == [] then []
    else
      var ev := WriteOf(fs, Last(order));
      LogOf(fs, Most(order)) + if ev.Some? then [ev.value] else []
  }

  /** One idle worker; the rows are the payloads, those in `done` processed, the others
      pending. */
  ghost predicate HasDone(ps: seq<string>, s: Service, done: seq<nat>) {
    && |s.workers| == 1 && s.workers[0].Idle? && |s.rows| == |ps|
    && forall i :: 0 <= i < |ps| ==>
         && s.rows[i].payload == ps[i] && s.rows[i].hash == ps[i]
         && (if i in done then s.rows[i].status.Processed? else s.rows[i].status.Pending?)
  }

  lemma InsertStep(cfg: Config, s: Service, ps: seq<string>, p: string)
    requires HasDone(ps, s, []) && p !in ps
    ensures var t := Next(cfg, s, Insert(p, p, "")); HasDone(ps + [p], t, []) && t.log == s.log
  {
    assert forall i :: 0 <= i < |s.rows| ==> s.rows[i].hash == ps[i];
  }

  lemma {:induction false} InsertAll(cfg: Config, c: Client, ps: seq<string>) returns (acts: seq<Action>)
    requires NoDuplicates(ps)
    ensures ClientRun(cfg, c, Start(0, 1), acts)
    ensures var s := Run(cfg, Start(0, 1), acts); HasDone(ps, s, []) && s.log == []
  {
    acts := [];
    if ps != [] {
      var p := Last(ps);
      assert ps == Most(ps) + [p];
      acts := InsertAll(cfg, c, Most(ps));
      InsertStep(cfg, Run(cfg, Start(0, 1), acts), Most(ps), p);
      acts := ClientThen(cfg, c, Start(0, 1), acts, Insert(p, p, ""));
    }
  }

  /** Worker 0 is in phase `p` of a job on row `i` that it started in `s`. */
  predicate Within(s: Service, t: Service, i: nat, p: Phase, log: seq<Event>) {
    && |t.workers| == 1 && BusyIn(t, 0) && t.workers[0].job.id == i && t.workers[0].phase == p
    && |t.rows| == |s.rows| && i < |t.rows| && t.log == log
    && t.rows[i].payload == s.rows[i].payload == t.workers[0].job.payload && t.rows[i].hash == s.rows[i].hash
    && forall j :: 0 <= j < |t.rows| && j != i ==> t.rows[j] == s.rows[j]
  }

  lemma ClaimStarts(cfg: Config, s: Service, i: nat)
    requires |s.workers| == 1 && s.workers[0].Idle? && i < |s.rows| && s.rows[i].status.Pending?
    ensures Within(s, Next(cfg, s, Claim(0, i)), i, Asking, s.log)
  {
  }

  lemma AskGoesOn(cfg: Config, s: Service, t: Service, i: nat, ans: Answer)
    requires Within(s, t, i, Asking, s.log) && Verdict(cfg, ans).Ok?
    ensures Within(s, Next(cfg, t, Ask(0, ans)), i, Storing(Verdict(cfg, ans).value), s.log)
  {
  }

  lemma StoreGoesOn(cfg: Config, s: Service, t: Service, i: nat, n: Normalized)
    requires Within(s, t, i, Storing(n), s.log)
    ensures Within(s, Next(cfg, t, StoreFact(0, NoFault)), i, Projecting(n), s.log)
  {
  }

  lemma ProjectGoesOn(cfg: Config, s: Service, t: Service, i: nat, n: Normalized)
    requires Within(s, t, i, Projecting(n), s.log)
    ensures var ev := ProjectionOf(i, n);
            var log := s.log + if ev.Some? then [ev.value] else [];
            Within(s, Next(cfg, t, Project(0, NoFault)), i, Settling(Success), log)
  {
  }

  lemma AckEnds(cfg: Config, ps: seq<string>, s: Service, t: Service, done: seq<nat>, i: nat, log: seq<Event>)
    requires WfConfig(cfg) && HasDone(ps, s, done) && Within(s, t, i, Settling(Success), log)
    ensures var u := Next(cfg, t, Settle(0, 0)); HasDone(ps, u, done + [i]) && u.log == log
  {
    JitterZero(cfg, t.workers[0].job.attempts);
  }

  /** Worker 0 handles one more payload. */
  lemma HandleOne(
      cfg: Config, c: Client, s: Service, acts: seq<Action>, ps: seq<string>, done: seq<nat>, i: nat, n: Normalized)
    returns (more: seq<Action>)
    requires WfConfig(cfg) && ClientRun(cfg, c, s, acts) && HasDone(ps, Run(cfg, s, acts), done)
    requires i < |ps| && i !in done && Accepts(cfg, c, ps[i], n)
    ensures ClientRun(cfg, c, s, more)
    ensures var ev := ProjectionOf(i, n);
            var r, r' := Run(cfg, s, acts), Run(cfg, s, more);
            HasDone(ps, r', done + [i]) && r'.log == r.log + if ev.Some? then [ev.value] else []
  {
    var r := Run(cfg, s, acts);
    var ans :| c(ps[i], ans) && Verdict(cfg, ans) == Ok(n);
    ClaimStarts(cfg, r, i);
    more := ClientThen(cfg, c, s, acts, Claim(0, i));
    AskGoesOn(cfg, r, Run(cfg, s, more), i, ans);
    more := ClientThen(cfg, c, s, more, Ask(0, ans));
    StoreGoesOn(cfg, r, Run(cfg, s, more), i, n);
    more := ClientThen(cfg, c, s, more, StoreFact(0, NoFault));
    ProjectGoesOn(cfg, r, Run(cfg, s, more), i, n);
    more := ClientThen(cfg, c, s, more, Project(0, NoFault));
    AckEnds(cfg, ps, r, Run(cfg, s, more), done, i, Run(cfg, s, more).log);
    more := ClientThen(cfg, c, s, more, Settle(0, 0));
  }

  lemma {:induction false} HandleInOrder(
      cfg: Config, c: Client, s: Service, acts: seq<Action>, ps: seq<string>, fs: seq<Option<Normalized>>,
      order: seq<nat>)
    returns (more: seq<Action>)
    requires WfConfig(cfg) && FactsOf(cfg, c, ps, fs) && Order(fs, order) && ClientRun(cfg, c, s, acts)
    requires HasDone(ps, Run(cfg, s, acts), []) && Run(cfg, s, acts).log == []
    ensures ClientRun(cfg, c, s, more)
    ensures HasDone(ps, Run(cfg, s, more), order) && Run(cfg, s, more).log == LogOf(fs, order)
  {
    if order == [] {
      more := acts;
    } else {
      var i := Last(order);
      assert fs[i].Some? && Accepts(cfg, c, ps[i], fs[i].value) && i !in Most(order);
      more := HandleInOrder(cfg, c, s, acts, ps, fs, Most(order));
      assert order == Most(order) + [i];
      more := HandleOne(cfg, c, s, more, ps, Most(order), i, fs[i].value);
    }
  }

  /** An order of all payloads with a fact is that of some run. */
  lemma OrderIsReached(cfg: Config, c: Client, ps: seq<string>, fs: seq<Option<Normalized>>, order: seq<nat>)
    returns (s: Service)
    requires WfConfig(cfg) && NoDuplicates(ps) && FactsOf(cfg, c, ps, fs) && Order(fs, order)
    requires forall i :: 0 <= i < |fs| && fs[i].Some? ==> i in order
    ensures Handled(cfg, c, ps, s) && s.log == LogOf(fs, order)
  {
    var acts := InsertAll(cfg, c, ps);
    acts := HandleInOrder(cfg, c, Start(0, 1), acts, ps, fs, order);
    s := Run(cfg, Start(0, 1), acts);
    assert Reachable(cfg, c, s);
    forall p ensures HasPayload(s, p) <==> p in ps {
      if p in ps {
        var i :| 0 <= i < |ps| && ps[i] == p;
        assert s.rows[i].payload == p;
      }
    }
  }

  // ---------- outside of one edge ----------

  predicate Touches(fs: seq<Option<Normalized>>, key: string, i: nat)
    requires i < |fs|
  {
    WriteOf(fs, i).Some? && WriteOf(fs, i).value.key == key
  }

  /** The positions among the first `k` of facts that touch the key, or of those that do not. */
  function Positions(fs: seq<Option<Normalized>>, key: string, on: bool, k: nat): seq<nat>
    requires k <= |fs|
  {
    if k == 0 then []
    else Positions(fs, key, on, k - 1) + if fs[k - 1].Some? && Touches(fs, key, k - 1) == on then [k - 1] else []
  }

  lemma {:induction false} PositionsAreExact(fs: seq<Option<Normalized>>, key: string, on: bool, k: nat)
    requires k <= |fs|
    ensures var order := Positions(fs, key, on, k);
            && NoDuplicates(order)
            && (forall j :: 0 <= j < |order| ==>
                  order[j] < k && fs[order[j]].Some? && Touches(fs, key, order[j]) == on)
            && (forall i :: 0 <= i < k && fs[i].Some? && Touches(fs, key, i) == on ==> i in order)
  {
    if k > 0 {
      PositionsAreExact(fs, key, on, k - 1);
    }
  }

  /** Every element is the write of its source. */
  ghost predicate AreWrites(fs: seq<Option<Normalized>>, evs: seq<Event>) {
    forall e :: e in evs ==> e.source < |fs| && WriteOf(fs, e.source) == Some(e)
  }

  function Sources(evs: seq<Event>): seq<nat> {
    seq(|evs|, i requires 0 <= i < |evs| => evs[i].source)
  }

  lemma {:induction false} SourcesAreAnOrder(fs: seq<Option<Normalized>>, evs: seq<Event>)
    requires AreWrites(fs, evs) && NoDuplicates(evs)
    ensures Order(fs, Sources(evs)) && LogOf(fs, Sources(evs)) == evs
  {
    assert forall i :: 0 <= i < |evs| ==> evs[i] in evs;
    if evs != [] {
      assert Sources(Most(evs)) == Most(Sources(evs));
      SourcesAreAnOrder(fs, Most(evs));
    }
  }

  lemma {:induction false} LogConcat(fs: seq<Option<Normalized>>, a: seq<nat>, b: seq<nat>)
    requires Order(fs, a + b) && Order(fs, a) && Order(fs, b)
    ensures LogOf(fs, a + b) == LogOf(fs, a) + LogOf(fs, b)
  {
    if b == [] {
      assert a + b == a;
    } else {
      assert Most(a + b) == a + Most(b);
      LogConcat(fs, a, Most(b));
    }
  }

  lemma {:induction false} LogIsElsewhere(fs: seq<Option<Normalized>>, key: string, order: seq<nat>)
    requires Order(fs, order) && forall j :: 0 <= j < |order| ==> !Touches(fs, key, order[j])
    ensures forall e :: e in LogOf(fs, order) ==> e.key != key
  {
    if order != [] {
      LogIsElsewhere(fs, key, Most(order));
    }
  }

  lemma OtherKeyDoesNotCount(evs: seq<Event>, x: Event, key: string)
    requires x.key != key
    ensures FinalState(evs + [x], key) == FinalState(evs, key)
  {
    AppendToReplay(evs, x);
  }

  lemma {:induction false} OtherKeysDoNotCount(evs: seq<Event>, others: seq<Event>, key: string)
    requires forall e :: e in others ==> e.key != key
    ensures FinalState(evs + others, key) == FinalState(evs, key)
  {
    if others == [] {
      assert evs + others == evs;
    } else {
      OtherKeysDoNotCount(evs, Most(others), key);
      OtherKeyDoesNotCount(evs + Most(others), Last(others), key);
      assert evs + others == evs + Most(others) + [Last(others)];
    }
  }

  lemma {:induction false} CountsAtMostOne<T>(a: seq<T>, x: T)
    requires NoDuplicates(a)
    ensures multiset(a)[x] <= 1
  {
    if a != [] {
      assert a == Most(a) + [Last(a)];
      CountsAtMostOne(Most(a), x);
      if x == Last(a) {
        assert x !in Most(a);
      }
    }
  }

  lemma PermutationsHaveNoDuplicates<T>(a: seq<T>, b: seq<T>)
    requires NoDuplicates(a) && multiset(a) == multiset(b)
    ensures NoDuplicates(b)
  {
    forall i, j | 0 <= i < j < |b| ensures b[i] != b[j] {
      CountsAtMostOne(a, b[i]);
      assert b == b[..j] + b[j..];
      assert multiset(b) == multiset(b[..j]) + multiset(b[j..]);
      assert b[..j][i] in multiset(b[..j]) && b[j..][0] in multiset(b[j..]);
    }
  }

  /** `evs` are the writes on the key, one per payload that touches it. */
  ghost predicate KeyWrites(fs: seq<Option<Normalized>>, key: string, evs: seq<Event>) {
    && AreWrites(fs, evs) && NoDuplicates(evs) && (forall e :: e in evs ==> e.key == key)
    && forall i :: 0 <= i < |fs| && Touches(fs, key, i) ==> WriteOf(fs, i).value in evs
  }

  lemma KeyWritesExist(fs: seq<Option<Normalized>>, key: string) returns (evs: seq<Event>)
    ensures KeyWrites(fs, key, evs)
  {
    var on := Positions(fs, key, true, |fs|);
    PositionsAreExact(fs, key, true, |fs|);
    evs := seq(|on|, j requires 0 <= j < |on| => WriteOf(fs, on[j]).value);
    assert forall j :: 0 <= j < |on| ==> evs[j].source == on[j] && evs[j].key == key;
    forall i | 0 <= i < |fs| && Touches(fs, key, i) ensures WriteOf(fs, i).value in evs {
      var j :| 0 <= j < |on| && on[j] == i;
      assert evs[j] == WriteOf(fs, i).value;
    }
  }

  lemma PermutedKeyWrites(fs: seq<Option<Normalized>>, key: string, evs: seq<Event>, p: seq<Event>)
    requires KeyWrites(fs, key, evs) && multiset(p) == multiset(evs)
    ensures KeyWrites(fs, key, p)
  {
    PermutationsHaveNoDuplicates(evs, p);
    forall e ensures e in p <==> e in evs {
      assert e in multiset(p) <==> e in multiset(evs);
    }
  }

  /** The positions that touch the key, in any order, and then the others. */
  lemma JoinIsAnOrder(fs: seq<Option<Normalized>>, key: string, p: seq<Event>, rest: seq<nat>)
    requires KeyWrites(fs, key, p) && rest == Positions(fs, key, false, |fs|)
    ensures Order(fs, Sources(p)) && Order(fs, rest) && Order(fs, Sources(p) + rest)
    ensures forall i :: 0 <= i < |fs| && fs[i].Some? ==> i in Sources(p) + rest
  {
    SourcesAreAnOrder(fs, p);
    PositionsAreExact(fs, key, false, |fs|);
    forall j | 0 <= j < |p| ensures Touches(fs, key, Sources(p)[j]) {
      assert p[j] in p;
    }
    forall i | 0 <= i < |fs| && fs[i].Some? ensures i in Sources(p) + rest {
      if Touches(fs, key, i) {
        var j :| 0 <= j < |p| && p[j] == WriteOf(fs, i).value;
        assert Sources(p)[j] == i;
      }
    }
  }

  /** Every order of those writes is what some run does to the key. */
  lemma PermutationIsReached(
      cfg: Config, c: Client, ps: seq<string>, key: string, fs: seq<Option<Normalized>>, p: seq<Event>)
    returns (s: Service)
    requires WfConfig(cfg) && OneWritePerPayload(cfg, c) && NoDuplicates(ps)
    requires FactsOf(cfg, c, ps, fs) && KeyWrites(fs, key, p)
    ensures Handled(cfg, c, ps, s) && StateOf(s, key) == FinalState(p, key)
  {
    var rest := Positions(fs, key, false, |fs|);
    SourcesAreAnOrder(fs, p);
    JoinIsAnOrder(fs, key, p, rest);
    s := OrderIsReached(cfg, c, ps, fs, Sources(p) + rest);
    LogConcat(fs, Sources(p), rest);
    PositionsAreExact(fs, key, false, |fs|);
    LogIsElsewhere(fs, key, rest);
    OtherKeysDoNotCount(p, LogOf(fs, rest), key);
    ReachableStates(cfg, c, s);
  }

  lemma FactOfPayload(
      cfg: Config, c: Client, ps: seq<string>, fs: seq<Option<Normalized>>, i: nat, n: Normalized)
    requires OneWritePerPayload(cfg, c) && FactsOf(cfg, c, ps, fs) && i < |ps| && Accepts(cfg, c, ps[i], n)
    ensures fs[i].Some? && SameWrite(n, fs[i].value)
  {
    assert Meaningful(cfg, c, ps[i]);
  }

  /** They stand for all that the client asks for. */
  lemma AskedForIsWritten(
      cfg: Config, c: Client, ps: seq<string>, key: string, fs: seq<Option<Normalized>>, evs: seq<Event>,
      change: Change)
    requires OneWritePerPayload(cfg, c) && FactsOf(cfg, c, ps, fs) && KeyWrites(fs, key, evs)
    requires AskedFor(cfg, c, ps, key, change)
    ensures exists e :: e in evs && e.change == change
  {
    var p, n :| p in ps && Accepts(cfg, c, p, n) && ProjectionOf(0, n) == Some(Event(0, key, change));
    var i :| 0 <= i < |ps| && ps[i] == p;
    FactOfPayload(cfg, c, ps, fs, i, n);
    SameWriteOfAnyRow(n, fs[i].value, i);
    assert Touches(fs, key, i);
  }

  lemma KeyWritesAreAskedFor(
      cfg: Config, c: Client, ps: seq<string>, key: string, fs: seq<Option<Normalized>>, evs: seq<Event>, e: Event)
    requires FactsOf(cfg, c, ps, fs) && KeyWrites(fs, key, evs) && e in evs
    ensures e.source < |ps| && fs[e.source].Some? && Accepts(cfg, c, ps[e.source], fs[e.source].value)
    ensures AskedFor(cfg, c, ps, key, e.change)
  {
    assert ps[e.source] in ps;
  }

  lemma KeyWritesAreInvoices(
      cfg: Config, c: Client, ps: seq<string>, key: string, fs: seq<Option<Normalized>>, evs: seq<Event>)
    requires FactsOf(cfg, c, ps, fs) && KeyWrites(fs, key, evs)
    requires InvoiceKey(cfg, c, ps, key)
    ensures InvoicesOn(evs, key)
  {
    forall e | e in evs ensures e.change.InvoiceTo? && WfChange(e.change) {
      KeyWritesAreAskedFor(cfg, c, ps, key, fs, evs, e);
      AcceptedIsWellFormed(cfg, c, ps[e.source], fs[e.source].value);
      ProjectionIsWellFormed(e.source, fs[e.source].value);
    }
  }

  lemma AcceptedIsWellFormed(cfg: Config, c: Client, payload: string, n: Normalized)
    requires Accepts(cfg, c, payload, n)
    ensures WfNormalized(n)
  {
    var ans :| c(payload, ans) && Verdict(cfg, ans) == Ok(n);
    VerdictIsWellFormed(cfg, ans);
  }

  lemma EdgeOfKeyWrites(
      cfg: Config, c: Client, ps: seq<string>, key: string, fs: seq<Option<Normalized>>, evs: seq<Event>)
    requires OneWritePerPayload(cfg, c) && FactsOf(cfg, c, ps, fs) && KeyWrites(fs, key, evs)
    requires WithinOneEdge(evs)
    ensures AskedWithinOneEdge(cfg, c, ps, key)
  {
    var from, to :| InvoiceTransitionAllowed(from, to) && forall s :: Occurs(evs, s) ==> s == from || s == to;
    forall change | AskedFor(cfg, c, ps, key, change) ensures Occurs(evs, change.state) {
      AskedForIsWritten(cfg, c, ps, key, fs, evs, change);
    }
    assert AskedWithin(cfg, c, ps, key, from, to);
  }

  /** Otherwise two schedules of the same payloads leave the invoice in different states. */
  lemma DisagreeingSchedules(cfg: Config, c: Client, ps: seq<string>, key: string) returns (s: Service, t: Service)
    requires WfConfig(cfg) && OneWritePerPayload(cfg, c) && NoDuplicates(ps) && InvoiceKey(cfg, c, ps, key)
    requires !AskedWithinOneEdge(cfg, c, ps, key)
    ensures Handled(cfg, c, ps, s) && Handled(cfg, c, ps, t) && StateOf(s, key) != StateOf(t, key)
  {
    var fs := FactsExist(cfg, c, ps);
    var evs := KeyWritesExist(fs, key);
    KeyWritesAreInvoices(cfg, c, ps, key, fs, evs);
    if WithinOneEdge(evs) {
      EdgeOfKeyWrites(cfg, c, ps, key, fs, evs);
    } else {
      var p, q := DisagreeingOrders(evs, key);
      PermutedKeyWrites(fs, key, evs, p);
      PermutedKeyWrites(fs, key, evs, q);
      s := PermutationIsReached(cfg, c, ps, key, fs, p);
      t := PermutationIsReached(cfg, c, ps, key, fs, q);
    }
  }

  /** All schedules of the same payloads leave a key in the same state if and only if an
      accepted answer makes it a shipment's, or all the states that the answers ask for lie
      within one edge of the transition table. */
  lemma SchedulesAgreeExactly(cfg: Config, c: Client, ps: seq<string>, key: string)
    requires WfConfig(cfg) && OneWritePerPayload(cfg, c) && NoDuplicates(ps)
    ensures SchedulesAgree(cfg, c, ps, key) <==>
              ShipmentKey(cfg, c, ps, key) || AskedWithinOneEdge(cfg, c, ps, key)
  {
    if ShipmentKey(cfg, c, ps, key) {
      ShipmentSchedulesAgree(cfg, c, ps, key);
    } else if AskedWithinOneEdge(cfg, c, ps, key) {
      var from, to :| InvoiceTransitionAllowed(from, to) && AskedWithin(cfg, c, ps, key, from, to);
      EdgeSchedulesAgree(cfg, c, ps, key, from, to);
    } else {
      var s, t := DisagreeingSchedules(cfg, c, ps, key);
    }
  }
}
