// When the order in which the invoice events of one key arrive does not matter.
module Confluence {
  import opened Common
  import opened Model
  import opened Projection

  ghost predicate InvoicesOn(evs: seq<Event>, key: string) {
    forall e :: e in evs ==> e.key == key && e.change.InvoiceTo? && WfChange(e.change)
  }

  ghost predicate Occurs(evs: seq<Event>, s: State) {
    exists e :: e in evs && e.change.state == s
  }

  /** All states that occur lie within {from, to}, for one edge of the transition table. */
  ghost predicate WithinOneEdge(evs: seq<Event>) {
    exists from, to :: InvoiceTransitionAllowed(from, to) && forall s :: Occurs(evs, s) ==> s == from || s == to
  }

  function FinalState(evs: seq<Event>, key: string): Option<State> {
    if key in Replay(evs) then Some(Replay(evs)[key].state) else None
  }

  // ---------- the state alone ----------

  function Move(c: Option<State>, s: State): Option<State> {
    if c.None? || InvoiceTransitionAllowed(c.value, s) then Some(s) else c
  }

  function After(c: Option<State>, evs: seq<Event>): Option<State>
    decreases |evs|
  {
    if evs == [] then c else After(Move(c, evs[0].change.state), evs[1..])
  }

  lemma {:induction false} AfterConcat(c: Option<State>, a: seq<Event>, b: seq<Event>)
    ensures After(c, a + b) == After(After(c, a), b)
    decreases |a|
  {
    if a == [] {
      assert a + b == b;
    } else {
      assert (a + b)[1..] == a[1..] + b;
      AfterConcat(Move(c, a[0].change.state), a[1..], b);
    }
  }

  lemma {:induction false} FinalIsAfter(evs: seq<Event>, key: string)
    requires InvoicesOn(evs, key)
    ensures FinalState(evs, key) == After(None, evs)
  {
    if evs != [] {
      var p, x := Most(evs), Last(evs);
      assert evs == p + [x];
      FinalIsAfter(p, key);
      AfterConcat(None, p, [x]);
      assert After(After(None, p), [x]) == Move(After(None, p), x.change.state);
    }
  }

  // ---------- within one edge every order agrees ----------

  lemma OccursInAppend(p: seq<Event>, x: Event, s: State)
    ensures Occurs(p + [x], s) <==> Occurs(p, s) || x.change.state == s
  {
    var q := p + [x];
    if Occurs(p, s) {
      var e :| e in p && e.change.state == s;
      assert e in q;
    }
    assert x in q;
  }

  lemma AfterAppend(p: seq<Event>, x: Event)
    ensures After(None, p + [x]) == Move(After(None, p), x.change.state)
  {
    AfterConcat(None, p, [x]);
    assert [x][1..] == [];
  }

  predicate Seen(evs: seq<Event>, s: State) {
    evs != [] && (Seen(Most(evs), s) || Last(evs).change.state == s)
  }

  lemma {:induction false} SeenIsOccurs(evs: seq<Event>, s: State)
    ensures Seen(evs, s) <==> Occurs(evs, s)
  {
    if evs != [] {
      SeenIsOccurs(Most(evs), s);
      OccursInAppend(Most(evs), Last(evs), s);
      assert evs == Most(evs) + [Last(evs)];
    }
  }

  lemma {:induction false} EdgeDecidesSeen(evs: seq<Event>, from: State, to: State)
    requires InvoiceTransitionAllowed(from, to)
    requires forall i :: 0 <= i < |evs| ==> evs[i].change.state == from || evs[i].change.state == to
    ensures After(None, evs) == if evs == [] then None else Some(if Seen(evs, to) then to else from)
  {
    if evs != [] {
      var p, x := Most(evs), Last(evs);
      assert evs == p + [x];
      EdgeDecidesSeen(p, from, to);
      AfterAppend(p, x);
      EdgeMoves(After(None, p), x.change.state, from, to);
    }
  }

  lemma EdgeDecides(evs: seq<Event>, from: State, to: State)
    requires InvoiceTransitionAllowed(from, to)
    requires forall s :: Occurs(evs, s) ==> s == from || s == to
    ensures After(None, evs) == if evs == [] then None else Some(if Occurs(evs, to) then to else from)
  {
    forall i | 0 <= i < |evs| ensures evs[i].change.state == from || evs[i].change.state == to {
      assert Occurs(evs, evs[i].change.state);
    }
    EdgeDecidesSeen(evs, from, to);
    SeenIsOccurs(evs, to);
  }

  lemma EdgeMoves(c: Option<State>, s: State, from: State, to: State)
    requires InvoiceTransitionAllowed(from, to) && (s == from || s == to)
    ensures c == Some(from) || c == Some(to) || c == None ==>
              Move(c, s) == if c == None then Some(s) else if c == Some(to) || s == to then Some(to) else Some(from)
  {
  }

  // ---------- otherwise two orders disagree ----------

  function Only(evs: seq<Event>, s: State): seq<Event> {
    if evs == [] then []
    else (if evs[0].change.state == s then [evs[0]] else []) + Only(evs[1..], s)
  }

  lemma {:induction false} OnlyCounts(evs: seq<Event>, s: State, e: Event)
    ensures multiset(Only(evs, s))[e] == if e.change.state == s then multiset(evs)[e] else 0
  {
    if evs != [] {
      assert evs == [evs[0]] + evs[1..];
      OnlyCounts(evs[1..], s, e);
    }
  }

  /** The events regrouped by state. */
  function Blocks(evs: seq<Event>, a: State, b: State, c: State, d: State): seq<Event> {
    Only(evs, a) + (Only(evs, b) + (Only(evs, c) + Only(evs, d)))
  }

  predicate FourStates(a: State, b: State, c: State, d: State) {
    && a != b && a != c && a != d && b != c && b != d && c != d
    && IsInvoiceState(a) && IsInvoiceState(b) && IsInvoiceState(c) && IsInvoiceState(d)
  }

  lemma ExactlyOneOfFour(a: State, b: State, c: State, d: State, s: State)
    requires FourStates(a, b, c, d) && IsInvoiceState(s)
    ensures s == a || s == b || s == c || s == d
  {
  }

  lemma ConcatCount<T>(a: seq<T>, b: seq<T>, c: seq<T>, d: seq<T>, e: T)
    ensures multiset(a + (b + (c + d)))[e] == multiset(a)[e] + multiset(b)[e] + multiset(c)[e] + multiset(d)[e]
  {
    assert multiset(b + (c + d)) == multiset(b) + multiset(c + d);
  }

  lemma BlocksCount(evs: seq<Event>, a: State, b: State, c: State, d: State, e: Event)
    requires FourStates(a, b, c, d) && (e in evs ==> IsInvoiceState(e.change.state))
    ensures multiset(Blocks(evs, a, b, c, d))[e] == multiset(evs)[e]
  {
    OnlyCounts(evs, a, e);
    OnlyCounts(evs, b, e);
    OnlyCounts(evs, c, e);
    OnlyCounts(evs, d, e);
    ConcatCount(Only(evs, a), Only(evs, b), Only(evs, c), Only(evs, d), e);
    if e in evs {
      ExactlyOneOfFour(a, b, c, d, e.change.state);
    } else {
      assert e !in multiset(evs);
    }
  }

  lemma BlocksPermute(evs: seq<Event>, key: string, a: State, b: State, c: State, d: State)
    requires InvoicesOn(evs, key) && FourStates(a, b, c, d)
    ensures multiset(Blocks(evs, a, b, c, d)) == multiset(evs)
    ensures InvoicesOn(Blocks(evs, a, b, c, d), key)
  {
    var bs := Blocks(evs, a, b, c, d);
    forall e ensures multiset(bs)[e] == multiset(evs)[e] {
      BlocksCount(evs, a, b, c, d, e);
    }
    forall e | e in bs ensures e in evs {
      assert e in multiset(bs);
    }
  }

  lemma {:induction false} OnlyMoves(c: Option<State>, evs: seq<Event>, s: State)
    ensures After(c, Only(evs, s)) == if Occurs(evs, s) then Move(c, s) else c
    decreases |evs|
  {
    if evs != [] {
      assert evs == [evs[0]] + evs[1..];
      assert Occurs(evs, s) <==> Occurs(evs[1..], s) || evs[0].change.state == s;
      if evs[0].change.state == s {
        assert Only(evs, s)[1..] == Only(evs[1..], s);
        OnlyMoves(Move(c, s), evs[1..], s);
      } else {
        assert Only(evs, s) == Only(evs[1..], s);
        OnlyMoves(c, evs[1..], s);
      }
    }
  }

  function Try(c: Option<State>, occurs: bool, s: State): Option<State> {
    if occurs then Move(c, s) else c
  }

  lemma BlocksMove(evs: seq<Event>, a: State, b: State, c: State, d: State)
    ensures After(None, Blocks(evs, a, b, c, d)) ==
            Try(Try(Try(Try(None, Occurs(evs, a), a), Occurs(evs, b), b), Occurs(evs, c), c), Occurs(evs, d), d)
  {
    var x := After(None, Only(evs, a));
    var y := After(x, Only(evs, b));
    var z := After(y, Only(evs, c));
    AfterConcat(None, Only(evs, a), Only(evs, b) + (Only(evs, c) + Only(evs, d)));
    AfterConcat(x, Only(evs, b), Only(evs, c) + Only(evs, d));
    AfterConcat(y, Only(evs, c), Only(evs, d));
    OnlyMoves(None, evs, a);
    OnlyMoves(x, evs, b);
    OnlyMoves(y, evs, c);
    OnlyMoves(z, evs, d);
  }

  lemma Regroup(evs: seq<Event>, key: string, a: State, b: State, c: State, d: State) returns (p: seq<Event>)
    requires InvoicesOn(evs, key) && FourStates(a, b, c, d)
    ensures multiset(p) == multiset(evs)
    ensures FinalState(p, key) ==
            Try(Try(Try(Try(None, Occurs(evs, a), a), Occurs(evs, b), b), Occurs(evs, c), c), Occurs(evs, d), d)
  {
    p := Blocks(evs, a, b, c, d);
    BlocksPermute(evs, key, a, b, c, d);
    FinalIsAfter(p, key);
    BlocksMove(evs, a, b, c, d);
  }

  lemma SomePairIsNoEdge(evs: seq<Event>, key: string)
    requires InvoicesOn(evs, key) && !WithinOneEdge(evs)
    ensures (Occurs(evs, Issued) && Occurs(evs, Refunded))
         || (Occurs(evs, Paid) && Occurs(evs, Voided))
         || (Occurs(evs, Voided) && Occurs(evs, Refunded))
  {
    forall s | Occurs(evs, s) ensures IsInvoiceState(s) {
      var e :| e in evs && e.change.state == s;
    }
    assert InvoiceTransitionAllowed(Issued, Paid);
    assert InvoiceTransitionAllowed(Issued, Voided);
    assert InvoiceTransitionAllowed(Paid, Refunded);
  }

  /** Two arrival orders of the same events with different outcomes. */
  lemma DisagreeingOrders(evs: seq<Event>, key: string) returns (p: seq<Event>, q: seq<Event>)
    requires InvoicesOn(evs, key) && !WithinOneEdge(evs)
    ensures multiset(p) == multiset(evs) && multiset(q) == multiset(evs)
    ensures FinalState(p, key) != FinalState(q, key)
  {
    SomePairIsNoEdge(evs, key);
    if Occurs(evs, Issued) && Occurs(evs, Refunded) {
      p := Regroup(evs, key, Issued, Refunded, Paid, Voided);
      q := Regroup(evs, key, Refunded, Issued, Paid, Voided);
    } else if Occurs(evs, Paid) && Occurs(evs, Voided) {
      p := Regroup(evs, key, Paid, Voided, Issued, Refunded);
      q := Regroup(evs, key, Voided, Paid, Issued, Refunded);
    } else {
      p := Regroup(evs, key, Voided, Refunded, Issued, Paid);
      q := Regroup(evs, key, Refunded, Voided, Issued, Paid);
    }
  }

  ghost predicate Confluent(evs: seq<Event>, key: string) {
    forall p :: multiset(p) == multiset(evs) ==> FinalState(p, key) == FinalState(evs, key)
  }

  /** Every arrival order ends in the same state if and only if all the states that occur
      lie within one edge of the transition table. */
  lemma ConfluentExactlyWithinOneEdge(evs: seq<Event>, key: string)
    requires InvoicesOn(evs, key)
    ensures Confluent(evs, key) <==> WithinOneEdge(evs)
  {
    if WithinOneEdge(evs) {
      var from, to :| InvoiceTransitionAllowed(from, to) && forall s :: Occurs(evs, s) ==> s == from || s == to;
      forall p | multiset(p) == multiset(evs) ensures FinalState(p, key) == FinalState(evs, key) {
        SameOccurrences(p, evs);
        FinalIsAfter(p, key);
        FinalIsAfter(evs, key);
        EdgeDecides(p, from, to);
        EdgeDecides(evs, from, to);
      }
    } else {
      var p, q := DisagreeingOrders(evs, key);
    }
  }

  lemma SameOccurrences(p: seq<Event>, evs: seq<Event>)
    requires multiset(p) == multiset(evs)
    ensures forall e :: e in p <==> e in evs
    ensures forall s :: Occurs(p, s) <==> Occurs(evs, s)
    ensures p == [] <==> evs == []
  {
    forall e ensures e in p <==> e in evs {
      assert e in multiset(p) <==> e in multiset(evs);
    }
    assert |multiset(p)| == |p| && |multiset(evs)| == |evs|;
  }

  // ---------- among the events of other keys ----------

  function On(evs: seq<Event>, key: string): seq<Event> {
    if evs == [] then [] else On(Most(evs), key) + if Last(evs).key == key then [Last(evs)] else []
  }

  lemma {:induction false} OnFilters(evs: seq<Event>, key: string, e: Event)
    ensures e in On(evs, key) <==> e in evs && e.key == key
  {
    if evs != [] {
      OnFilters(Most(evs), key, e);
      assert evs == Most(evs) + [Last(evs)];
    }
  }

  /** A row depends only on the events of its own key. */
  lemma {:induction false} KeysAreIndependent(evs: seq<Event>, key: string)
    ensures Lookup(Replay(evs), key) == Lookup(Replay(On(evs, key)), key)
  {
    if evs != [] {
      var p, x := Most(evs), Last(evs);
      KeysAreIndependent(p, key);
      assert Replay(evs) == ApplyEvent(Replay(p), x);
      if x.key == key {
        AppendToReplay(On(p, key), x);
        assert On(evs, key) == On(p, key) + [x];
        SameRowSameNext(Replay(p), Replay(On(p, key)), x);
      } else {
        assert On(evs, key) == On(p, key);
      }
    }
  }

  lemma SameRowSameNext(t: Table, u: Table, x: Event)
    requires Lookup(t, x.key) == Lookup(u, x.key)
    ensures Lookup(ApplyEvent(t, x), x.key) == Lookup(ApplyEvent(u, x), x.key)
  {
  }

  ghost predicate OccursOn(evs: seq<Event>, key: string, s: State) {
    exists e :: e in evs && e.key == key && e.change.state == s
  }

  /** Two histories whose events on a key are invoice events with the same states, all
      within one edge, leave the key in the same state; repetitions and the events of
      other keys do not matter. */
  lemma SameInvoicesSameState(a: seq<Event>, b: seq<Event>, key: string, from: State, to: State)
    requires forall e :: (e in a || e in b) && e.key == key ==> e.change.InvoiceTo? && WfChange(e.change)
    requires forall s :: OccursOn(a, key, s) <==> OccursOn(b, key, s)
    requires InvoiceTransitionAllowed(from, to) && forall s :: OccursOn(a, key, s) ==> s == from || s == to
    ensures FinalState(a, key) == FinalState(b, key)
  {
    EdgeDecidesOn(a, key, from, to);
    EdgeDecidesOn(b, key, from, to);
  }

  lemma EdgeDecidesOn(evs: seq<Event>, key: string, from: State, to: State)
    requires forall e :: e in evs && e.key == key ==> e.change.InvoiceTo? && WfChange(e.change)
    requires InvoiceTransitionAllowed(from, to) && forall s :: OccursOn(evs, key, s) ==> s == from || s == to
    ensures FinalState(evs, key) ==
            if OccursOn(evs, key, to) then Some(to) else if OccursOn(evs, key, from) then Some(from) else None
  {
    KeysAreIndependent(evs, key);
    var p := On(evs, key);
    forall e ensures e in p <==> e in evs && e.key == key {
      OnFilters(evs, key, e);
    }
    assert forall s :: Occurs(p, s) <==> OccursOn(evs, key, s);
    FinalIsAfter(p, key);
    EdgeDecides(p, from, to);
    if p != [] {
      assert p[0] in p && Occurs(p, p[0].change.state);
    }
  }
}
