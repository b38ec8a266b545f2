// The statements of ApplyInvoice run by any number of concurrent transactions, next to
// atomic ApplyShipment statements, under READ COMMITTED row locks: a locking select sees
// a committed row or nothing, an insert waits for an uncommitted insert of the same key
// and fails on a committed one, and every writer of a locked row waits for its holder.
module InvoiceTx {
  import opened Common
  import opened Model
  import opened Projection

  datatype Phase =
    | Begun
    | SawNone                             // the select found no row; nothing is locked
    | SawRow(current: State)              // the select found and locked the row
    | Wrote(row: Entity, seeded: bool)    // inserted or updated, not yet committed
    | Committed
    | Aborted

  datatype Tx = Tx(ev: Event, phase: Phase)

  /** `order` lists the committed transactions, and `log` their events, as they commit. */
  datatype Db = Db(table: Table, locks: map<string, nat>, txs: map<nat, Tx>, order: seq<nat>, log: seq<Event>)

  datatype Action =
    | Begin(t: nat, ev: Event)
    | Select(t: nat)
    | Write(t: nat)
    | Commit(t: nat)
    | Abort(t: nat)
    | Upsert(t: nat, ev: Event)   // ApplyShipment, one statement

  const EMPTY := Db(map[], map[], map[], [], [])

  predicate Holding(p: Phase) {
    p.SawRow? || p.Wrote?
  }

  function SetPhase(s: Db, t: nat, p: Phase): Db
    requires t in s.txs
  {
    s.(txs := s.txs[t := s.txs[t].(phase := p)])
  }

  function Lock(s: Db, t: nat, p: Phase): Db
    requires t in s.txs
  {
    SetPhase(s, t, p).(locks := s.locks[s.txs[t].ev.key := t])
  }

  function Release(s: Db, t: nat, p: Phase): Db
    requires t in s.txs
  {
    SetPhase(s, t, p).(locks := s.locks - {s.txs[t].ev.key})
  }

  /** One step; an action that is not enabled, or has to wait, changes nothing. */
  function Next(s: Db, a: Action): Db {
    match a
    case Begin(t, ev) =>
      if t !in s.txs && ev.change.InvoiceTo? then s.(txs := s.txs[t := Tx(ev, Begun)]) else s
    case Select(t) =>
      if t in s.txs && s.txs[t].phase.Begun? then
        var key := s.txs[t].ev.key;
        if key !in s.table then SetPhase(s, t, SawNone)
        else if key in s.locks then s
        else Lock(s, t, SawRow(s.table[key].state))
      else s
    case Write(t) =>
      if t in s.txs then NextWrite(s, t) else s
    case Commit(t) =>
      if t in s.txs then NextCommit(s, t) else s
    case Abort(t) =>
      if t !in s.txs then s
      else if Holding(s.txs[t].phase) then Release(s, t, Aborted)
      else if s.txs[t].phase.Begun? || s.txs[t].phase.SawNone? then SetPhase(s, t, Aborted)
      else s
    case Upsert(t, ev) =>
      if t !in s.txs && ev.change.ShipmentTo? && ev.key !in s.locks then
        s.(table := ApplyEvent(s.table, ev), txs := s.txs[t := Tx(ev, Committed)],
           order := s.order + [t], log := s.log + [ev])
      else s
  }

  function NextWrite(s: Db, t: nat): Db
    requires t in s.txs
  {
    var Event(_, key, c) := s.txs[t].ev;
    if !c.InvoiceTo? then s
    else match s.txs[t].phase
      case SawNone =>
        if key in s.table then SetPhase(s, t, Aborted)   // unique violation
        else if key in s.locks then s                    // waits for the other insert
        else Lock(s, t, Wrote(InvoiceSeed(c.state, c.time, c.amountMinor, c.currency), true))
      case SawRow(current) =>
        if InvoiceTransitionAllowed(current, c.state) && key in s.table
        then SetPhase(s, t, Wrote(InvoiceUpdate(s.table[key], c.state, c.time, c.amountMinor, c.currency), false))
        else s
      case _ => s
  }

  function NextCommit(s: Db, t: nat): Db
    requires t in s.txs
  {
    var ev := s.txs[t].ev;
    match s.txs[t].phase
    case Wrote(row, _) =>
      Release(s, t, Committed).(table := s.table[ev.key := row], order := s.order + [t], log := s.log + [ev])
    case SawRow(current) =>
      if InvoiceTransitionAllowed(current, ev.change.state) then s
      else Release(s, t, Committed).(order := s.order + [t], log := s.log + [ev])
    case _ => s
  }

  function Run(s: Db, acts: seq<Action>): Db {
    if acts == [] then s else Next(Run(s, Most(acts)), Last(acts))
  }

  // ---------- the invariant ----------

  ghost predicate TxOk(s: Db, t: nat)
    requires t in s.txs
  {
    var Tx(ev, p) := s.txs[t];
    && (p.Committed? || ev.change.InvoiceTo?)
    && (Holding(p) ==> ev.key in s.locks && s.locks[ev.key] == t)
    && (p.SawRow? ==> ev.key in s.table && s.table[ev.key].state == p.current)
    && (p.Wrote? ==>
         && p.row == NextRow(Lookup(s.table, ev.key), ev.change)
         && (p.seeded <==> ev.key !in s.table))
  }

  /** Every lock is held by a transaction on that key that has read or written the row. */
  ghost predicate LockOk(s: Db, k: string)
    requires k in s.locks
  {
    var t := s.locks[k];
    t in s.txs && s.txs[t].ev.key == k && Holding(s.txs[t].phase)
  }

  ghost predicate Inv(s: Db) {
    && s.table == Replay(s.log)
    && (forall t {:trigger TxOk(s, t)} :: t in s.txs ==> TxOk(s, t))
    && (forall k {:trigger LockOk(s, k)} :: k in s.locks ==> LockOk(s, k))
    && LogOk(s)
  }

  ghost predicate LogOk(s: Db) {
    && |s.log| == |s.order|
    && NoDuplicates(s.order)
    && (forall i :: 0 <= i < |s.order| ==>
          && s.order[i] in s.txs && s.txs[s.order[i]].phase.Committed?
          && s.log[i] == s.txs[s.order[i]].ev)
    && (forall t :: t in s.txs && s.txs[t].phase.Committed? ==> t in s.order)
  }

  lemma SetPhaseKeepsLog(s: Db, t: nat, p: Phase)
    requires LogOk(s) && t in s.txs && !s.txs[t].phase.Committed? && !p.Committed?
    ensures LogOk(SetPhase(s, t, p))
  {
  }

  lemma AppendKeepsLog(s: Db, t: nat, tx: Tx)
    requires LogOk(s) && (t in s.txs ==> !s.txs[t].phase.Committed? && s.txs[t].ev == tx.ev) && tx.phase.Committed?
    ensures LogOk(s.(txs := s.txs[t := tx], order := s.order + [t], log := s.log + [tx.ev]))
  {
  }

  /** The lock of `t`'s own key may come or go; nobody else may hold it. */
  ghost predicate OnlyOwnLock(s: Db, s': Db, t: nat)
    requires t in s.txs && t in s'.txs
  {
    var k := s.txs[t].ev.key;
    && s'.table == s.table && s'.txs == s.txs[t := s'.txs[t]] && s'.txs[t].ev == s.txs[t].ev
    && (k in s.locks ==> s.locks[k] == t || s'.locks == s.locks)
    && (s'.locks == s.locks || s'.locks == s.locks[k := t] || s'.locks == s.locks - {k})
  }

  lemma OthersKept(s: Db, s': Db, t: nat)
    requires Inv(s) && t in s.txs && t in s'.txs && OnlyOwnLock(s, s', t)
    requires TxOk(s', t)
    requires s.txs[t].ev.key in s'.locks && s'.locks[s.txs[t].ev.key] == t ==> Holding(s'.txs[t].phase)
    ensures forall u {:trigger TxOk(s', u)} :: u in s'.txs ==> TxOk(s', u)
    ensures forall k {:trigger LockOk(s', k)} :: k in s'.locks ==> LockOk(s', k)
  {
    forall u | u in s'.txs ensures TxOk(s', u) {
      if u != t {
        assert TxOk(s, u);
      }
    }
    forall k | k in s'.locks ensures LockOk(s', k) {
      if k in s.locks {
        assert LockOk(s, k);
      }
    }
  }

  lemma BeginKeepsInv(s: Db, t: nat, ev: Event)
    requires Inv(s)
    ensures Inv(Next(s, Begin(t, ev)))
  {
    var s' := Next(s, Begin(t, ev));
    if s' != s {
      forall u | u in s'.txs ensures TxOk(s', u) {
        assert u in s.txs ==> TxOk(s, u);
      }
      forall k | k in s'.locks ensures LockOk(s', k) {
        assert LockOk(s, k);
      }
    }
  }

  lemma SelectKeepsInv(s: Db, t: nat)
    requires Inv(s)
    ensures Inv(Next(s, Select(t)))
  {
    if t in s.txs && s.txs[t].phase.Begun? {
      assert TxOk(s, t);
      if s.txs[t].ev.key in s.locks { assert LockOk(s, s.txs[t].ev.key); }
      var s' := Next(s, Select(t));
      SetPhaseKeepsLog(s, t, s'.txs[t].phase);
      OthersKept(s, s', t);
    }
  }

  lemma WriteKeepsInv(s: Db, t: nat)
    requires Inv(s)
    ensures Inv(Next(s, Write(t)))
  {
    if t in s.txs && Next(s, Write(t)) != s {
      assert TxOk(s, t);
      if s.txs[t].ev.key in s.locks { assert LockOk(s, s.txs[t].ev.key); }
      var s' := Next(s, Write(t));
      SetPhaseKeepsLog(s, t, s'.txs[t].phase);
      OthersKept(s, s', t);
    }
  }

  lemma AbortKeepsInv(s: Db, t: nat)
    requires Inv(s)
    ensures Inv(Next(s, Abort(t)))
  {
    if t in s.txs && Next(s, Abort(t)) != s {
      assert TxOk(s, t);
      if s.txs[t].ev.key in s.locks { assert LockOk(s, s.txs[t].ev.key); }
      var s' := Next(s, Abort(t));
      SetPhaseKeepsLog(s, t, Aborted);
      OthersKept(s, s', t);
    }
  }

  lemma CommitIsApply(s: Db, t: nat)
    requires Inv(s) && t in s.txs && Next(s, Commit(t)) != s
    ensures Next(s, Commit(t)).table == ApplyEvent(s.table, s.txs[t].ev)
    ensures Next(s, Commit(t)).log == s.log + [s.txs[t].ev]
  {
    assert TxOk(s, t);
  }

  /** Applying `ev` where nobody else holds its key, and giving back the lock if it was
      held for it, does not touch the other transactions. */
  ghost predicate Published(s: Db, s': Db, t: nat, ev: Event) {
    && t in s'.txs && s'.txs == s.txs[t := Tx(ev, Committed)]
    && s'.table == ApplyEvent(s.table, ev) && s'.locks == s.locks - {ev.key}
    && (ev.key in s.locks ==> s.locks[ev.key] == t)
  }

  lemma PublishKeepsTx(s: Db, s': Db, t: nat, ev: Event, u: nat)
    requires Published(s, s', t, ev) && u in s'.txs && (u in s.txs ==> TxOk(s, u))
    ensures TxOk(s', u)
  {
    if u != t && Holding(s.txs[u].phase) {
      assert s.txs[u].ev.key != ev.key;
    }
  }

  lemma PublishKeepsLock(s: Db, s': Db, t: nat, ev: Event, k: string)
    requires Published(s, s', t, ev) && k in s'.locks && LockOk(s, k)
    requires t in s.txs ==> s.txs[t].ev.key == ev.key
    ensures LockOk(s', k)
  {
  }

  lemma PublishKeepsInv(s: Db, s': Db, t: nat, ev: Event)
    requires Inv(s) && Published(s, s', t, ev)
    requires t in s.txs ==> !s.txs[t].phase.Committed? && s.txs[t].ev == ev
    requires s'.order == s.order + [t] && s'.log == s.log + [ev]
    ensures Inv(s')
  {
    AppendToReplay(s.log, ev);
    AppendKeepsLog(s, t, Tx(ev, Committed));
    assert LogOk(s');
    forall u | u in s'.txs ensures TxOk(s', u) {
      assert u in s.txs ==> TxOk(s, u);
      PublishKeepsTx(s, s', t, ev, u);
    }
    forall k | k in s'.locks ensures LockOk(s', k) {
      assert LockOk(s, k);
      PublishKeepsLock(s, s', t, ev, k);
    }
  }

  lemma CommitKeepsInv(s: Db, t: nat)
    requires Inv(s)
    ensures Inv(Next(s, Commit(t)))
  {
    if t in s.txs && Next(s, Commit(t)) != s {
      CommitIsApply(s, t);
      assert TxOk(s, t);
      PublishKeepsInv(s, Next(s, Commit(t)), t, s.txs[t].ev);
    }
  }

  lemma UpsertKeepsInv(s: Db, t: nat, ev: Event)
    requires Inv(s)
    ensures Inv(Next(s, Upsert(t, ev)))
  {
    if Next(s, Upsert(t, ev)) != s {
      assert s.locks - {ev.key} == s.locks;
      PublishKeepsInv(s, Next(s, Upsert(t, ev)), t, ev);
    }
  }

  lemma StepKeepsInv(s: Db, a: Action)
    requires Inv(s)
    ensures Inv(Next(s, a))
  {
    match a
    case Begin(t, ev) => BeginKeepsInv(s, t, ev);
    case Select(t) => SelectKeepsInv(s, t);
    case Write(t) => WriteKeepsInv(s, t);
    case Commit(t) => CommitKeepsInv(s, t);
    case Abort(t) => AbortKeepsInv(s, t);
    case Upsert(t, ev) => UpsertKeepsInv(s, t, ev);
  }

  /** Seen from the table, a step is nothing at all or one atomic apply: the step of a
      transaction that commits, or of an upsert. */
  lemma StepIsAtomic(s: Db, a: Action)
    requires Inv(s)
    ensures var s' := Next(s, a);
            if |s'.order| > |s.order| then
              && s'.order == s.order + [a.t]
              && s'.table == ApplyEvent(s.table, s'.txs[a.t].ev)
            else s'.table == s.table && s'.order == s.order
  {
    if a.Commit? && Next(s, a) != s {
      CommitIsApply(s, a.t);
    }
  }

  lemma {:induction false} RunKeepsInv(s: Db, acts: seq<Action>)
    requires Inv(s)
    ensures Inv(Run(s, acts))
  {
    if acts != [] {
      RunKeepsInv(s, Most(acts));
      StepKeepsInv(Run(s, Most(acts)), Last(acts));
    }
  }

  /** Every interleaving is equivalent to running the committed transactions, each once,
      atomically in commit order; the others leave no trace. */
  lemma {:induction false} Serializable(acts: seq<Action>)
    ensures var s := Run(EMPTY, acts);
            && NoDuplicates(s.order) && |s.log| == |s.order|
            && (forall t :: t in s.order <==> t in s.txs && s.txs[t].phase.Committed?)
            && (forall i :: 0 <= i < |s.order| ==> s.log[i] == s.txs[s.order[i]].ev)
            && s.table == Replay(s.log)
  {
    RunKeepsInv(EMPTY, acts);
  }

  /** No deadlock: whoever holds a lock can write and commit without waiting for anybody. */
  lemma {:induction false} LockHoldersCanCommit(acts: seq<Action>, key: string)
    requires key in Run(EMPTY, acts).locks
    ensures var s := Run(EMPTY, acts);
            var t := s.locks[key];
            var s' := Next(Next(s, Write(t)), Commit(t));
            t in s'.txs && s'.txs[t].phase.Committed? && key !in s'.locks
  {
    RunKeepsInv(EMPTY, acts);
    HolderCommits(Run(EMPTY, acts), key);
  }

  lemma HolderCommits(s: Db, key: string)
    requires Inv(s) && key in s.locks
    ensures var t := s.locks[key];
            var s' := Next(Next(s, Write(t)), Commit(t));
            t in s'.txs && s'.txs[t].phase.Committed? && key !in s'.locks
  {
    assert LockOk(s, key) && TxOk(s, s.locks[key]);
  }

  // ---------- two transactions that both see no row ----------

  predicate Racing(s: Db, t: nat, key: string) {
    && t in s.txs && s.txs[t].ev.key == key && s.txs[t].ev.change.InvoiceTo?
    && match s.txs[t].phase
       case SawNone => true
       case Wrote(_, seeded) => seeded
       case Committed => key in s.table
       case Aborted => true
       case _ => false
  }

  ghost predicate Race(s: Db, t: nat, u: nat, key: string) {
    && Racing(s, t, key) && Racing(s, u, key)
    && !(s.txs[t].phase.Committed? && s.txs[u].phase.Committed?)
  }

  lemma OthersUntouched(s: Db, a: Action, t: nat)
    requires t in s.txs && a.t != t
    ensures t in Next(s, a).txs && Next(s, a).txs[t] == s.txs[t]
  {
  }

  lemma KeysStay(s: Db, a: Action, key: string)
    requires key in s.table
    ensures key in Next(s, a).table
  {
  }

  lemma RacingStep(s: Db, a: Action, t: nat, key: string)
    requires Racing(s, t, key) && TxOk(s, t)
    ensures Racing(Next(s, a), t, key)
    ensures Next(s, a).txs[t].phase.Committed? && !s.txs[t].phase.Committed? ==> key !in s.table && a == Commit(t)
  {
    if key in s.table {
      KeysStay(s, a, key);
    }
    if a.t != t {
      OthersUntouched(s, a, t);
    }
  }

  lemma RaceStep(s: Db, a: Action, t: nat, u: nat, key: string)
    requires Inv(s) && Race(s, t, u, key) && t != u
    ensures Race(Next(s, a), t, u, key)
  {
    assert TxOk(s, t) && TxOk(s, u);
    RacingStep(s, a, t, key);
    RacingStep(s, a, u, key);
  }

  lemma {:induction false} RaceGoesOn(s: Db, acts: seq<Action>, t: nat, u: nat, key: string)
    requires Inv(s) && Race(s, t, u, key) && t != u
    ensures Race(Run(s, acts), t, u, key)
  {
    if acts != [] {
      RunKeepsInv(s, Most(acts));
      RaceGoesOn(s, Most(acts), t, u, key);
      RaceStep(Run(s, Most(acts)), Last(acts), t, u, key);
    }
  }

  ghost predicate Loses(s: Db, u: nat) {
    && u in s.txs && u !in s.order
    && (s.txs[u].phase.Aborted? || (s.txs[u].phase.SawNone? && Next(s, Write(u)) == SetPhase(s, u, Aborted)))
  }

  lemma WinnerTakesAll(s: Db, t: nat, u: nat, key: string)
    requires Inv(s) && Race(s, t, u, key) && s.txs[t].phase.Committed?
    ensures Loses(s, u)
  {
    assert TxOk(s, u);
  }

  /** When two transactions both see no row for a key, whatever follows, at most one of
      them commits; and once one has, the other can only be aborted, without effect. */
  lemma {:induction false} OneSeeds(before: seq<Action>, after: seq<Action>, t: nat, u: nat)
    requires t != u
    requires var s := Run(EMPTY, before);
             && t in s.txs && u in s.txs && s.txs[t].phase.SawNone? && s.txs[u].phase.SawNone?
             && s.txs[t].ev.key == s.txs[u].ev.key
    ensures var s := Run(Run(EMPTY, before), after);
            && t in s.txs && u in s.txs
            && (s.txs[t].phase.Committed? ==> Loses(s, u))
            && (s.txs[u].phase.Committed? ==> Loses(s, t))
  {
    var s := Run(EMPTY, before);
    var key := s.txs[t].ev.key;
    RunKeepsInv(EMPTY, before);
    assert TxOk(s, t) && TxOk(s, u);
    RaceGoesOn(s, after, t, u, key);
    RunKeepsInv(s, after);
    var s' := Run(s, after);
    if s'.txs[t].phase.Committed? {
      WinnerTakesAll(s', t, u, key);
    }
    if s'.txs[u].phase.Committed? {
      WinnerTakesAll(s', u, t, key);
    }
  }

  // ---------- progress ----------

  /** The row is seeded by the event. */
  predicate Seeded(e: Entity, ev: Event)
    requires ev.change.InvoiceTo?
  {
    && e.kind.Invoice? && e.rank == 0 && e.state == ev.change.state && e.lastEventTime == ev.change.time
    && e.amountMinor == ev.change.amountMinor
    && e.currency == if ev.change.currency == "" then None else Some(ev.change.currency)
  }

  /** The row has followed the edge to the state of the event, which keeps money it has none
      for; without such an edge it stays. */
  predicate Followed(was: Entity, e: Entity, ev: Event)
    requires ev.change.InvoiceTo?
  {
    if !InvoiceTransitionAllowed(was.state, ev.change.state) then e == was
    else
      && e.kind == was.kind && e.rank == was.rank && e.state == ev.change.state && e.lastEventTime == ev.change.time
      && e.amountMinor == (if ev.change.amountMinor.None? then was.amountMinor else ev.change.amountMinor)
      && e.currency == if ev.change.currency == "" then was.currency else Some(ev.change.currency)
  }

  /** `t` has committed, its row is as its event asks for, and nothing else has changed. */
  ghost predicate Took(s: Db, s': Db, t: nat)
    requires t in s.txs && s.txs[t].ev.change.InvoiceTo?
  {
    var ev := s.txs[t].ev;
    && t in s'.txs && s'.txs == s.txs[t := Tx(ev, Committed)] && s'.order == s.order + [t]
    && s'.locks == s.locks - {ev.key}
    && ev.key in s'.table && s'.table == s.table[ev.key := s'.table[ev.key]]
    && if ev.key in s.table then Followed(s.table[ev.key], s'.table[ev.key], ev) else Seeded(s'.table[ev.key], ev)
  }

  lemma BeginStarts(s: Db, t: nat, ev: Event)
    requires t !in s.txs && ev.change.InvoiceTo?
    ensures Next(s, Begin(t, ev)) == s.(txs := s.txs[t := Tx(ev, Begun)])
  {
  }

  lemma SeedCommits(s: Db, t: nat)
    requires Inv(s) && t in s.txs && s.txs[t].phase.SawNone?
    requires s.txs[t].ev.key !in s.table && s.txs[t].ev.key !in s.locks
    ensures s.txs[t].ev.change.InvoiceTo? && Took(s, Next(Next(s, Write(t)), Commit(t)), t)
  {
    assert TxOk(s, t);
  }

  lemma LockedRowCommits(s: Db, t: nat)
    requires Inv(s) && t in s.txs && s.txs[t].phase.SawRow?
    ensures s.txs[t].ev.change.InvoiceTo? && Took(s, Next(Next(s, Write(t)), Commit(t)), t)
  {
    assert TxOk(s, t);
    var key := s.txs[t].ev.key;
    assert s.table[key := s.table[key]] == s.table;
  }

  /** A transaction that nobody is in the way of does the work of ApplyInvoice. */
  lemma BegunCommits(s: Db, t: nat)
    requires Inv(s) && t in s.txs && s.txs[t].phase.Begun? && s.txs[t].ev.key !in s.locks
    ensures var ready := Next(Next(s, Select(t)), Write(t));
            && s.txs[t].ev.change.InvoiceTo? && t in ready.txs && !ready.txs[t].phase.Committed?
            && Took(s, Next(ready, Commit(t)), t)
  {
    assert TxOk(s, t);
    var u := Next(s, Select(t));
    SelectKeepsInv(s, t);
    if s.txs[t].ev.key in s.table {
      LockedRowCommits(u, t);
    } else {
      SeedCommits(u, t);
    }
  }

  /** Of two transactions that both see no row, the first to write makes the other wait and
      can commit; then the other is aborted. So exactly one seeds. */
  lemma {:induction false} ExactlyOneSeeds(acts: seq<Action>, t: nat, u: nat)
    requires t != u
    requires var s := Run(EMPTY, acts);
             && t in s.txs && u in s.txs && s.txs[t].phase.SawNone? && s.txs[u].phase.SawNone?
             && s.txs[t].ev.key == s.txs[u].ev.key
             && s.txs[t].ev.key !in s.table && s.txs[t].ev.key !in s.locks
    ensures var s := Run(EMPTY, acts);
            var written := Next(s, Write(t));
            var won := Next(written, Commit(t));
            var lost := Next(won, Write(u));
            && s.txs[t].ev.change.InvoiceTo? && Next(written, Write(u)) == written
            && Took(s, won, t)
            && u in lost.txs && lost.txs[u].phase.Aborted? && lost.table == won.table
  {
    RunKeepsInv(EMPTY, acts);
    FirstWriteWins(Run(EMPTY, acts), t, u);
  }

  lemma FirstWriteWins(s: Db, t: nat, u: nat)
    requires Inv(s) && t != u && t in s.txs && u in s.txs
    requires s.txs[t].phase.SawNone? && s.txs[u].phase.SawNone? && s.txs[t].ev.key == s.txs[u].ev.key
    requires s.txs[t].ev.key !in s.table && s.txs[t].ev.key !in s.locks
    ensures var written := Next(s, Write(t));
            var won := Next(written, Commit(t));
            var lost := Next(won, Write(u));
            && s.txs[t].ev.change.InvoiceTo? && Next(written, Write(u)) == written
            && Took(s, won, t)
            && u in lost.txs && lost.txs[u].phase.Aborted? && lost.table == won.table
  {
    assert TxOk(s, t) && TxOk(s, u);
    SeedCommits(s, t);
  }

  /** Committed; or aborted, having seen no row where there is one now. */
  predicate Ended(s: Db, s': Db, t: nat) {
    && t in s.txs && t in s'.txs
    && (s'.txs[t].phase.Committed?
        || (s'.txs[t].phase.Aborted?
            && (s.txs[t].phase.Aborted? || (s.txs[t].phase.SawNone? && s.txs[t].ev.key in s'.table))))
  }

  lemma RunThen(s: Db, acts: seq<Action>, a: Action)
    ensures Run(s, acts + [a]) == Next(Run(s, acts), a)
  {
    assert Most(acts + [a]) == acts;
  }

  lemma RunTwo(s: Db, a: Action, b: Action)
    ensures Run(s, [a, b]) == Next(Next(s, a), b)
  {
    RunThen(s, [], a);
    RunThen(s, [a], b);
    assert [] + [a] == [a] && [a] + [b] == [a, b];
  }

  lemma RunThree(s: Db, a: Action, b: Action, c: Action)
    ensures Run(s, [a, b, c]) == Next(Next(Next(s, a), b), c)
  {
    RunTwo(s, a, b);
    RunThen(s, [a, b], c);
    assert [a, b] + [c] == [a, b, c];
  }

  lemma EndsUnlocked(s: Db, t: nat) returns (acts: seq<Action>)
    requires Inv(s) && t in s.txs && !Holding(s.txs[t].phase) && s.txs[t].ev.key !in s.locks
    ensures Ended(s, Run(s, acts), t)
  {
    acts := [];
    if s.txs[t].phase.Begun? {
      BegunCommits(s, t);
      RunThree(s, Select(t), Write(t), Commit(t));
      acts := [Select(t), Write(t), Commit(t)];
    } else if s.txs[t].phase.SawNone? {
      assert TxOk(s, t);
      RunTwo(s, Write(t), Commit(t));
      acts := [Write(t), Commit(t)];
      if s.txs[t].ev.key !in s.table {
        SeedCommits(s, t);
      }
    }
  }

  lemma {:induction false} RunConcat(s: Db, a: seq<Action>, b: seq<Action>)
    ensures Run(s, a + b) == Run(Run(s, a), b)
  {
    if b == [] {
      assert a + b == a;
    } else {
      assert Most(a + b) == a + Most(b);
      RunConcat(s, a, Most(b));
    }
  }

  lemma HolderLeavesOthers(s: Db, h: nat, t: nat)
    requires t in s.txs && h != t
    ensures var s' := Next(Next(s, Write(h)), Commit(h)); t in s'.txs && s'.txs[t] == s.txs[t]
  {
    OthersUntouched(s, Write(h), t);
    OthersUntouched(Next(s, Write(h)), Commit(h), t);
  }

  lemma EndsFrom(s: Db, t: nat) returns (acts: seq<Action>)
    requires Inv(s) && t in s.txs
    ensures Ended(s, Run(s, acts), t)
  {
    var key := s.txs[t].ev.key;
    assert TxOk(s, t);
    if key !in s.locks {
      acts := EndsUnlocked(s, t);
    } else {
      var h := s.locks[key];
      HolderCommits(s, key);
      RunTwo(s, Write(h), Commit(h));
      acts := [Write(h), Commit(h)];
      if h != t {
        HolderLeavesOthers(s, h, t);
        RunKeepsInv(s, acts);
        var more := EndsUnlocked(Run(s, acts), t);
        RunConcat(s, acts, more);
        acts := acts + more;
      }
    }
  }

  /** No transaction is stuck: from every reachable state, each can be brought to its end by
      steps of its own after those of the one it waits for, and is aborted only by the
      unique violation of a seed that came too late. */
  lemma {:induction false} EveryTransactionCanEnd(before: seq<Action>, t: nat) returns (acts: seq<Action>)
    requires t in Run(EMPTY, before).txs
    ensures Ended(Run(EMPTY, before), Run(Run(EMPTY, before), acts), t)
  {
    RunKeepsInv(EMPTY, before);
    acts := EndsFrom(Run(EMPTY, before), t);
  }

  /** A rollback of what is not finished releases its lock and leaves the table alone. */
  lemma {:induction false} RollbackReleases(acts: seq<Action>, t: nat)
    requires t in Run(EMPTY, acts).txs
    ensures var s := Run(EMPTY, acts);
            var s' := Next(s, Abort(t));
            && s'.table == s.table && t in s'.txs
            && (!s.txs[t].phase.Committed? ==>
                 s'.txs[t].phase.Aborted? && (s.txs[t].ev.key in s'.locks ==> s'.locks[s.txs[t].ev.key] != t))
  {
    RunKeepsInv(EMPTY, acts);
    RollbackReleasesIn(Run(EMPTY, acts), t);
  }

  lemma RollbackReleasesIn(s: Db, t: nat)
    requires Inv(s) && t in s.txs
    ensures var s' := Next(s, Abort(t));
            && s'.table == s.table && t in s'.txs
            && (!s.txs[t].phase.Committed? ==>
                 s'.txs[t].phase.Aborted? && (s.txs[t].ev.key in s'.locks ==> s'.locks[s.txs[t].ev.key] != t))
  {
    assert TxOk(s, t);
    if s.txs[t].ev.key in s.locks {
      assert LockOk(s, s.txs[t].ev.key);
    }
  }

  /** The upsert of a shipment takes effect at once unless the row is locked, when it waits. */
  lemma UpsertTakesEffect(s: Db, t: nat, ev: Event)
    requires t !in s.txs && ev.change.ShipmentTo?
    ensures ev.key !in s.locks ==>
              && t in Next(s, Upsert(t, ev)).txs && Next(s, Upsert(t, ev)).txs[t].phase.Committed?
              && Next(s, Upsert(t, ev)).table == ApplyEvent(s.table, ev)
    ensures ev.key in s.locks ==> Next(s, Upsert(t, ev)) == s
  {
  }
}
