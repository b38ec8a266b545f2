// The producer side: the ingest handler, and the two statements of InsertRaw run by any
// number of concurrent callers.
module Ingest {
  import opened Common
  import opened Model
  import opened Projection
  import opened Normalize
  import opened RawQueue
  import opened Store

  /** 202, 413, 400 and 500. */
  datatype Reply = Accepted(id: nat, duplicate: bool) | TooLarge | BadRequest | ServerError

  /** The request body as it arrives: cut off or too large, no JSON, or JSON. */
  datatype Body = Unreadable | NotJson | Json(text: string)

  class Api {
    const store: Tables
    const queue: Queue
    const hash: string -> string   // SHA-256

    constructor (store: Tables, queue: Queue, hash: string -> string)
      requires queue.store == store
      ensures this.store == store && this.queue == queue && this.hash == hash
    {
      this.store, this.queue, this.hash := store, queue, hash;
    }

    /** Same body, same answer; only a new row is inserted, and only if the caller learns of
        it is it signalled. */
    method Ingest(body: Body, source: string, now: int, fault: Fault) returns (r: Reply)
      requires store.Valid()
      modifies store`rows, queue`notify
      ensures store.Valid()
      ensures r.TooLarge? <==> body.Unreadable?
      ensures r.BadRequest? <==> body.NotJson?
      ensures r.ServerError? <==> body.Json? && !fault.NoFault?
      ensures !body.Json? ==> store.rows == old(store.rows)
      ensures body.Json? ==>
                var h, was := hash(body.text), old(store.rows);
                store.rows == if IsNewHash(was, h) then
                                Left(fault, was, was + [NewRow(h, body.text, TrimSpace(source), now)])
                              else was
      ensures r.Accepted? ==>
                && r.id < |store.rows| && store.rows[r.id].hash == hash(body.text)
                && (r.duplicate <==> !IsNewHash(old(store.rows), hash(body.text)))
      ensures queue.notify == (old(queue.notify) || (r.Accepted? && !r.duplicate))
    {
      match body
      case Unreadable => return TooLarge;
      case NotJson => return BadRequest;
      case Json(text) =>
        var ok, id, isNew := store.InsertRaw(hash(text), text, TrimSpace(source), now, fault);
        if !ok {
          return ServerError;
        }
        if isNew {
          queue.Notify();
        }
        return Accepted(id, !isNew);
    }

    /** Reads with the key canonicalized as on write. */
    method GetEntity(key: string) returns (e: Option<Entity>)
      ensures e == Lookup(store.entities, CanonicalKey(key))
      ensures forall k :: k in store.entities && IsCanonical(k) && VariantOf(key, k) ==> e == Some(store.entities[k])
      ensures e.Some? ==> exists k :: k in store.entities && VariantOf(key, k) && e.value == store.entities[k]
    {
      var k := CanonicalKey(key);
      e := if k in store.entities then Some(store.entities[k]) else None;
      VariantsFindTheKey(key, k);
      forall k | k in store.entities && IsCanonical(k) && VariantOf(key, k) ensures e == Some(store.entities[k]) {
        VariantsFindTheKey(key, k);
      }
    }
  }

  // ---------- concurrent callers ----------

  /** A call of InsertRaw: before its insert; after an insert that found a conflict; after
      one that made the row; and its end. */
  datatype Call =
    | Begun(hash: string)
    | Conflicted(hash: string)
    | Inserted(hash: string, id: nat)
    | Done(hash: string, id: nat, isNew: bool)
    | Broken(hash: string, made: Option<nat>)   // an error is returned; `made` is a row it inserted all the same

  datatype World = World(rows: seq<string>, calls: seq<Call>)   // a row is its hash

  datatype Action = Arrive(hash: string) | Insert(c: nat) | Select(c: nat) | Respond(c: nat) | Break(c: nat)

  predicate Exists(s: World, hash: string) {
    exists i :: 0 <= i < |s.rows| && s.rows[i] == hash
  }

  ghost function IdOf(s: World, hash: string): (id: nat)
    requires Exists(s, hash)
    ensures id < |s.rows| && s.rows[id] == hash
  {
    var i :| 0 <= i < |s.rows| && s.rows[i] == hash; i
  }

  ghost function Next(s: World, a: Action): World {
    match a
    case Arrive(hash) => s.(calls := s.calls + [Begun(hash)])
    case Insert(c) =>
      if c < |s.calls| && s.calls[c].Begun? then
        var h := s.calls[c].hash;
        if Exists(s, h) then s.(calls := s.calls[c := Conflicted(h)])
        else World(s.rows + [h], s.calls[c := Inserted(h, |s.rows|)])
      else s
    case Select(c) =>
      if c < |s.calls| && s.calls[c].Conflicted? then
        var h := s.calls[c].hash;
        if Exists(s, h) then s.(calls := s.calls[c := Done(h, IdOf(s, h), false)])
        else s.(calls := s.calls[c := Broken(h, None)])
      else s
    case Respond(c) =>
      if c < |s.calls| && s.calls[c].Inserted?
      then s.(calls := s.calls[c := Done(s.calls[c].hash, s.calls[c].id, true)]) else s
    case Break(c) =>
      if c < |s.calls| && (s.calls[c].Begun? || s.calls[c].Conflicted? || s.calls[c].Inserted?)
      then s.(calls := s.calls[c := Broken(s.calls[c].hash, Made(s.calls[c]))]) else s
  }

  ghost function Run(s: World, acts: seq<Action>): World {
    if acts == [] then s else Next(Run(s, Most(acts)), Last(acts))
  }

  /** The row this call inserted. */
  function Made(c: Call): Option<nat> {
    match c
    case Inserted(_, id) => Some(id)
    case Done(_, id, isNew) => if isNew then Some(id) else None
    case Broken(_, made) => made
    case _ => None
  }

  ghost predicate CallOk(s: World, c: nat)
    requires c < |s.calls|
  {
    var call := s.calls[c];
    && (Made(call).Some? ==> Made(call).value < |s.rows| && s.rows[Made(call).value] == call.hash)
    && (call.Conflicted? ==> Exists(s, call.hash))
    && (call.Done? ==> call.id < |s.rows| && s.rows[call.id] == call.hash)
  }

  ghost predicate HasMaker(s: World, id: nat) {
    exists c :: 0 <= c < |s.calls| && Made(s.calls[c]) == Some(id)
  }

  ghost predicate OneMaker(s: World) {
    forall c, d :: 0 <= c < d < |s.calls| && Made(s.calls[c]).Some? ==> Made(s.calls[c]) != Made(s.calls[d])
  }

  ghost predicate Inv(s: World) {
    && NoDuplicates(s.rows)
    && (forall c :: 0 <= c < |s.calls| ==> CallOk(s, c))
    && (forall id :: 0 <= id < |s.rows| ==> HasMaker(s, id))
    && OneMaker(s)
  }

  lemma CallsStayOk(s: World, a: Action, c: nat)
    requires Inv(s) && c < |Next(s, a).calls|
    ensures CallOk(Next(s, a), c)
  {
    var s' := Next(s, a);
    if c < |s.calls| {
      assert CallOk(s, c);
      if i :| 0 <= i < |s.rows| && s.rows[i] == s.calls[c].hash {
        assert s'.rows[i] == s.calls[c].hash;
      }
    }
  }

  lemma MakersStay(s: World, a: Action, c: nat)
    requires c < |s.calls|
    ensures c < |Next(s, a).calls|
    ensures Made(s.calls[c]).Some? ==> Made(Next(s, a).calls[c]) == Made(s.calls[c])
    ensures Made(s.calls[c]).None? && Made(Next(s, a).calls[c]).Some? ==>
              a == Insert(c) && Made(Next(s, a).calls[c]) == Some(|s.rows|) && |Next(s, a).rows| == |s.rows| + 1
  {
  }

  lemma RowsHaveMakers(s: World, a: Action, id: nat)
    requires Inv(s) && id < |Next(s, a).rows|
    ensures HasMaker(Next(s, a), id)
  {
    if id < |s.rows| {
      assert HasMaker(s, id);
      var c :| 0 <= c < |s.calls| && Made(s.calls[c]) == Some(id);
      MakersStay(s, a, c);
    } else {
      assert Made(Next(s, a).calls[a.c]) == Some(id);
    }
  }

  lemma MakersStayDistinct(s: World, a: Action, c: nat, d: nat)
    requires Inv(s) && c < d < |Next(s, a).calls| && Made(Next(s, a).calls[c]).Some?
    ensures Made(Next(s, a).calls[c]) != Made(Next(s, a).calls[d])
  {
    if d < |s.calls| {
      assert CallOk(s, c) && CallOk(s, d);
      MakersStay(s, a, c);
      MakersStay(s, a, d);
    }
  }

  lemma RowsStayUnique(s: World, a: Action)
    requires NoDuplicates(s.rows)
    ensures NoDuplicates(Next(s, a).rows) && s.rows <= Next(s, a).rows
  {
  }

  lemma StepKeepsInv(s: World, a: Action)
    requires Inv(s)
    ensures Inv(Next(s, a)) && s.rows <= Next(s, a).rows
  {
    var s' := Next(s, a);
    RowsStayUnique(s, a);
    forall c | 0 <= c < |s'.calls| ensures CallOk(s', c) {
      CallsStayOk(s, a, c);
    }
    forall id | 0 <= id < |s'.rows| ensures HasMaker(s', id) {
      RowsHaveMakers(s, a, id);
    }
    forall c, d | 0 <= c < d < |s'.calls| && Made(s'.calls[c]).Some? ensures Made(s'.calls[c]) != Made(s'.calls[d]) {
      MakersStayDistinct(s, a, c, d);
    }
  }

  lemma {:induction false} RunKeepsInv(s: World, acts: seq<Action>)
    requires Inv(s)
    ensures Inv(Run(s, acts)) && s.rows <= Run(s, acts).rows
  {
    if acts != [] {
      RunKeepsInv(s, Most(acts));
      StepKeepsInv(Run(s, Most(acts)), Last(acts));
    }
  }

  /** Over all interleavings: calls that return have the same id if and only if they have
      the same hash, now and after any more steps. */
  lemma {:induction false} OneRowPerHash(acts: seq<Action>, more: seq<Action>, c: nat, d: nat)
    requires c < |Run(World([], []), acts).calls|
    requires var s := Run(Run(World([], []), acts), more); d < |s.calls|
    requires var s := Run(World([], []), acts); s.calls[c].Done?
    requires var s := Run(Run(World([], []), acts), more); s.calls[d].Done?
    ensures var s, s' := Run(World([], []), acts), Run(Run(World([], []), acts), more);
            s.calls[c].hash == s'.calls[d].hash <==> s.calls[c].id == s'.calls[d].id
  {
    var s := Run(World([], []), acts);
    var s' := Run(s, more);
    RunKeepsInv(World([], []), acts);
    RunKeepsInv(s, more);
    assert CallOk(s, c) && CallOk(s', d);
    assert s'.rows[s.calls[c].id] == s.rows[s.calls[c].id];
  }

  /** The row was made by exactly one call; only if that call lost its reply after inserting
      does none report a new row. */
  lemma {:induction false} OneNewPerHash(acts: seq<Action>, c: nat)
    requires c < |Run(World([], []), acts).calls| && Run(World([], []), acts).calls[c].Done?
    ensures var s := Run(World([], []), acts);
            exists d ::
              && 0 <= d < |s.calls| && s.calls[d].hash == s.calls[c].hash && Made(s.calls[d]) == Some(s.calls[c].id)
              && (s.calls[d].Inserted? || s.calls[d].Broken? || (s.calls[d].Done? && s.calls[d].isNew))
              && forall e :: 0 <= e < |s.calls| && e != d && s.calls[e].hash == s.calls[c].hash ==>
                   Made(s.calls[e]).None?
  {
    var s := Run(World([], []), acts);
    RunKeepsInv(World([], []), acts);
    assert CallOk(s, c);
    assert HasMaker(s, s.calls[c].id);
    var d :| 0 <= d < |s.calls| && Made(s.calls[d]) == Some(s.calls[c].id);
    assert CallOk(s, d);
    forall e | 0 <= e < |s.calls| && e != d && s.calls[e].hash == s.calls[c].hash ensures Made(s.calls[e]).None? {
      assert CallOk(s, e);
    }
  }

  /** A call of its own: what it does if nobody breaks it. */
  function OwnSteps(c: nat): seq<Action> {
    [Insert(c), Select(c), Respond(c)]
  }

  lemma RunThen(s: World, acts: seq<Action>, a: Action)
    ensures Run(s, acts + [a]) == Next(Run(s, acts), a)
  {
    assert Most(acts + [a]) == acts;
  }

  lemma OwnStepsRun(s: World, c: nat)
    ensures Run(s, OwnSteps(c)) == Next(Next(Next(s, Insert(c)), Select(c)), Respond(c))
  {
    RunThen(s, [], Insert(c));
    RunThen(s, [Insert(c)], Select(c));
    RunThen(s, [Insert(c), Select(c)], Respond(c));
    assert [] + [Insert(c)] == [Insert(c)] && [Insert(c)] + [Select(c)] == [Insert(c), Select(c)];
    assert [Insert(c), Select(c)] + [Respond(c)] == OwnSteps(c);
  }

  /** No call is stuck: in every reachable state a call that has not ended returns the id of a
      row with its hash by its own steps, and reports a new row if and only if it is the one
      to insert it. */
  lemma {:induction false} CallsCanReturn(acts: seq<Action>, c: nat)
    requires c < |Run(World([], []), acts).calls|
    requires !Run(World([], []), acts).calls[c].Done? && !Run(World([], []), acts).calls[c].Broken?
    ensures var s := Run(World([], []), acts);
            Returns(s, Run(s, OwnSteps(c)), c)
  {
    RunKeepsInv(World([], []), acts);
    CallReturns(Run(World([], []), acts), c);
  }

  ghost predicate Returns(s: World, s': World, c: nat)
    requires c < |s.calls|
  {
    var h := s.calls[c].hash;
    && c < |s'.calls| && s'.calls[c].Done? && s'.calls[c].hash == h
    && s'.calls[c].id < |s'.rows| && s'.rows[s'.calls[c].id] == h
    && (s'.calls[c].isNew <==> s.calls[c].Inserted? || (s.calls[c].Begun? && !Exists(s, h)))
    && s'.rows == if Exists(s, h) then s.rows else s.rows + [h]
  }

  lemma CallReturns(s: World, c: nat)
    requires Inv(s) && c < |s.calls| && !s.calls[c].Done? && !s.calls[c].Broken?
    ensures Returns(s, Run(s, OwnSteps(c)), c)
  {
    OwnStepsRun(s, c);
    assert CallOk(s, c);
    StepKeepsInv(s, Insert(c));
    assert CallOk(Next(s, Insert(c)), c);
  }
}
