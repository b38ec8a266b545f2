// The service with the invoice projection run statement by statement under row locks. It
// refines the service in which a projection is one step.
module LockedService {
  import opened Common
  import opened Projection
  import opened RawQueue
  import opened System
  import opened EffectivelyOnce
  import Tx = InvoiceTx

  /** The service, the database with its transactions and locks, and the open transaction
      of each worker that has one. */
  datatype Joint = Joint(s: Service, db: Tx.Db, open: map<nat, nat>)

  datatype Move =
    | Serve(a: Action)               // any step but a projection that takes effect
    | OpenTx(w: nat, t: nat)
    | SelectTx(w: nat)
    | WriteTx(w: nat)
    | CommitTx(w: nat, fault: Fault)
    | UpsertRow(w: nat, t: nat, fault: Fault)   // the single statement of a shipment
    | NoWrite(w: nat)                // UNCLASSIFIED

  function Begin(now: int, workers: nat): Joint {
    Joint(System.Start(now, workers), Tx.EMPTY, map[])
  }

  predicate ProjectingIn(s: Service, w: nat) {
    BusyIn(s, w) && s.workers[w].phase.Projecting?
  }

  function WriteWanted(s: Service, w: nat): Option<Event>
    requires ProjectingIn(s, w)
  {
    ProjectionOf(s.workers[w].job.id, s.workers[w].phase.n)
  }

  /** The step drops its worker, or is a projection given up without effect: whatever
      transaction the worker has open is rolled back. */
  predicate ClosesConnection(a: Action) {
    a.Crash? || (a.Project? && a.fault.RolledBack?)
  }

  /** The step closes the connection of an open transaction. */
  predicate DropsTx(j: Joint, a: Action) {
    ClosesConnection(a) && a.w in j.open
  }

  /** The worker is about to write this entity and has no transaction open. */
  predicate ReadyToWrite(j: Joint, w: nat) {
    ProjectingIn(j.s, w) && w !in j.open && WriteWanted(j.s, w).Some?
  }

  /** A commit takes effect, and its reply may be lost. */
  predicate Commits(j: Joint, w: nat, fault: Fault) {
    w in j.open && j.open[w] in j.db.txs && !fault.RolledBack?
  }

  predicate Upserts(j: Joint, w: nat, fault: Fault) {
    ReadyToWrite(j, w) && !fault.RolledBack?
  }

  /** The step of the service that a move performs, if any. */
  function Visible(j: Joint, m: Move): Option<Action> {
    match m
    case Serve(a) => if a.Project? && !a.fault.RolledBack? then None else Some(a)
    case CommitTx(w, fault) =>
      if Commits(j, w, fault) && Tx.Next(j.db, Tx.Commit(j.open[w])) != j.db then Some(Project(w, fault)) else None
    case UpsertRow(w, t, fault) =>
      if Upserts(j, w, fault) && Tx.Next(j.db, Tx.Upsert(t, WriteWanted(j.s, w).value)) != j.db
      then Some(Project(w, fault)) else None
    case NoWrite(w) => if ProjectingIn(j.s, w) && WriteWanted(j.s, w).None? then Some(Project(w, NoFault)) else None
    case _ => None
  }

  function NextService(cfg: Config, j: Joint, m: Move): Service {
    var v := Visible(j, m);
    if v.Some? then System.Next(cfg, j.s, v.value) else j.s
  }

  /** What the move does in the database. */
  function NextDb(j: Joint, m: Move): Tx.Db {
    match m
    case Serve(a) => if DropsTx(j, a) then Tx.Next(j.db, Tx.Abort(j.open[a.w])) else j.db
    case OpenTx(w, t) =>
      if ReadyToWrite(j, w) then Tx.Next(j.db, Tx.Begin(t, WriteWanted(j.s, w).value)) else j.db
    case SelectTx(w) => if w in j.open then Tx.Next(j.db, Tx.Select(j.open[w])) else j.db
    case WriteTx(w) => if w in j.open then Tx.Next(j.db, Tx.Write(j.open[w])) else j.db
    case CommitTx(w, fault) => if Commits(j, w, fault) then Tx.Next(j.db, Tx.Commit(j.open[w])) else j.db
    case UpsertRow(w, t, fault) =>
      if Upserts(j, w, fault) then Tx.Next(j.db, Tx.Upsert(t, WriteWanted(j.s, w).value)) else j.db
    case _ => j.db
  }

  function NextOpen(j: Joint, m: Move): map<nat, nat> {
    match m
    case OpenTx(w, t) => if NextDb(j, m) != j.db then j.open[w := t] else j.open
    case Serve(a) => if ClosesConnection(a) then j.open - {a.w} else j.open
    case CommitTx(w, _) => if Visible(j, m).Some? then j.open - {w} else j.open
    case _ => j.open
  }

  function Next(cfg: Config, j: Joint, m: Move): Joint {
    Joint(NextService(cfg, j, m), NextDb(j, m), NextOpen(j, m))
  }

  function Run(cfg: Config, j: Joint, moves: seq<Move>): Joint {
    if moves == [] then j else Next(cfg, Run(cfg, j, Most(moves)), Last(moves))
  }

  /** The steps of the service that a run performs. */
  function Trace(cfg: Config, j: Joint, moves: seq<Move>): seq<Action> {
    if moves == [] then []
    else
      var v := Visible(Run(cfg, j, Most(moves)), Last(moves));
      Trace(cfg, j, Most(moves)) + if v.Some? then [v.value] else []
  }

  // ---------- the invariant ----------

  /** An open transaction belongs to a worker that is projecting, and writes what that
      worker wants. */
  ghost predicate OpenOk(j: Joint, w: nat)
    requires w in j.open
  {
    var t := j.open[w];
    && ProjectingIn(j.s, w)
    && t in j.db.txs && !j.db.txs[t].phase.Committed?
    && WriteWanted(j.s, w) == Some(j.db.txs[t].ev)
  }

  /** The tables of the service are the committed tables of the database. */
  ghost predicate Agree(s: Service, db: Tx.Db) {
    s.entities == db.table && s.log == db.log
  }

  ghost predicate Inv(j: Joint) {
    && Tx.Inv(j.db)
    && Agree(j.s, j.db)
    && (forall w {:trigger OpenOk(j, w)} :: w in j.open ==> OpenOk(j, w))
    && (forall v, w :: v in j.open && w in j.open && v != w ==> j.open[v] != j.open[w])
  }

  lemma OtherTxsStay(db: Tx.Db, a: Tx.Action, t: nat)
    requires t in db.txs && a.t != t
    ensures t in Tx.Next(db, a).txs && Tx.Next(db, a).txs[t] == db.txs[t]
  {
  }

  lemma OwnTxKeepsEvent(db: Tx.Db, a: Tx.Action)
    requires a.t in db.txs
    ensures a.t in Tx.Next(db, a).txs && Tx.Next(db, a).txs[a.t].ev == db.txs[a.t].ev
    ensures !a.Commit? && !db.txs[a.t].phase.Committed? ==> !Tx.Next(db, a).txs[a.t].phase.Committed?
  {
  }

  lemma OtherWorkersStay(cfg: Config, s: Service, a: Action, v: nat)
    requires ProjectingIn(s, v) && (a.Tick? || a.Insert? || a.w != v)
    ensures ProjectingIn(System.Next(cfg, s, a), v) && System.Next(cfg, s, a).workers[v] == s.workers[v]
  {
  }

  /** A step other than a projection with effect leaves the entities and the log alone, and moves a
      projecting worker only by dropping or failing it. */
  lemma OtherStepsDoNotWrite(cfg: Config, s: Service, a: Action)
    requires !a.Project? || a.fault.RolledBack?
    ensures System.Next(cfg, s, a).entities == s.entities && System.Next(cfg, s, a).log == s.log
    ensures !a.Tick? && !a.Insert? && ProjectingIn(s, a.w) && !ClosesConnection(a) ==> System.Next(cfg, s, a) == s
  {
  }

  lemma ProjectWrites(cfg: Config, s: Service, w: nat, fault: Fault)
    requires ProjectingIn(s, w) && !fault.RolledBack?
    ensures var s', ev := System.Next(cfg, s, Project(w, fault)), WriteWanted(s, w);
            && s'.entities == (if ev.Some? then ApplyEvent(s.entities, ev.value) else s.entities)
            && s'.log == (if ev.Some? then s.log + [ev.value] else s.log)
  {
  }

  lemma CommitAgrees(cfg: Config, j: Joint, w: nat, fault: Fault)
    requires Inv(j)
    ensures Agree(NextService(cfg, j, CommitTx(w, fault)), NextDb(j, CommitTx(w, fault)))
  {
    if Commits(j, w, fault) {
      assert OpenOk(j, w);
      if Tx.Next(j.db, Tx.Commit(j.open[w])) != j.db {
        Tx.CommitIsApply(j.db, j.open[w]);
        ProjectWrites(cfg, j.s, w, fault);
      }
    }
  }

  lemma UpsertAgrees(cfg: Config, j: Joint, w: nat, t: nat, fault: Fault)
    requires Inv(j)
    ensures Agree(NextService(cfg, j, UpsertRow(w, t, fault)), NextDb(j, UpsertRow(w, t, fault)))
  {
    if Visible(j, UpsertRow(w, t, fault)).Some? {
      ProjectWrites(cfg, j.s, w, fault);
    }
  }

  /** Only a commit publishes what a transaction did. */
  lemma QuietStatements(db: Tx.Db, a: Tx.Action)
    requires !a.Commit? && !a.Upsert?
    ensures Tx.Next(db, a).table == db.table && Tx.Next(db, a).log == db.log
  {
  }

  lemma QuietMoves(j: Joint, m: Move)
    requires !m.CommitTx? && !m.UpsertRow?
    ensures NextDb(j, m).table == j.db.table && NextDb(j, m).log == j.db.log
  {
    match m {
      case Serve(a) => if DropsTx(j, a) { QuietStatements(j.db, Tx.Abort(j.open[a.w])); }
      case OpenTx(w, t) =>
        if ReadyToWrite(j, w) { QuietStatements(j.db, Tx.Begin(t, WriteWanted(j.s, w).value)); }
      case SelectTx(w) => if w in j.open { QuietStatements(j.db, Tx.Select(j.open[w])); }
      case WriteTx(w) => if w in j.open { QuietStatements(j.db, Tx.Write(j.open[w])); }
      case _ =>
    }
  }

  lemma TablesAgree(cfg: Config, j: Joint, m: Move)
    requires Inv(j)
    ensures Agree(NextService(cfg, j, m), NextDb(j, m))
  {
    if m.CommitTx? {
      CommitAgrees(cfg, j, m.w, m.fault);
    } else if m.UpsertRow? {
      UpsertAgrees(cfg, j, m.w, m.t, m.fault);
    } else {
      QuietMoves(j, m);
      if m.NoWrite? {
        if Visible(j, m).Some? {
          ProjectWrites(cfg, j.s, m.w, NoFault);
        }
      } else if Visible(j, m).Some? {
        OtherStepsDoNotWrite(cfg, j.s, Visible(j, m).value);
      }
    }
  }

  lemma DbKeepsInv(j: Joint, m: Move)
    requires Tx.Inv(j.db)
    ensures Tx.Inv(NextDb(j, m))
  {
    match m {
      case Serve(a) => if DropsTx(j, a) { Tx.StepKeepsInv(j.db, Tx.Abort(j.open[a.w])); }
      case OpenTx(w, t) =>
        if ReadyToWrite(j, w) { Tx.StepKeepsInv(j.db, Tx.Begin(t, WriteWanted(j.s, w).value)); }
      case SelectTx(w) => if w in j.open { Tx.StepKeepsInv(j.db, Tx.Select(j.open[w])); }
      case WriteTx(w) => if w in j.open { Tx.StepKeepsInv(j.db, Tx.Write(j.open[w])); }
      case CommitTx(w, _) => if w in j.open { Tx.StepKeepsInv(j.db, Tx.Commit(j.open[w])); }
      case UpsertRow(w, t, _) =>
        if ReadyToWrite(j, w) { Tx.StepKeepsInv(j.db, Tx.Upsert(t, WriteWanted(j.s, w).value)); }
      case _ =>
    }
  }

  /** The worker a move is about, if it is about one. */
  function Actor(m: Move): Option<nat> {
    match m
    case Serve(a) => if a.Tick? || a.Insert? then None else Some(a.w)
    case _ => Some(m.w)
  }

  lemma OthersStayOpen(cfg: Config, j: Joint, m: Move, v: nat)
    requires Inv(j) && v in j.open && Actor(m) != Some(v)
    ensures var j' := Next(cfg, j, m); v in j'.open && j'.open[v] == j.open[v] && OpenOk(j', v)
  {
    assert OpenOk(j, v);
    if Visible(j, m).Some? {
      OtherWorkersStay(cfg, j.s, Visible(j, m).value, v);
    }
    TxStays(j, m, v);
  }

  lemma TxStays(j: Joint, m: Move, v: nat)
    requires Inv(j) && v in j.open && Actor(m) != Some(v) && OpenOk(j, v)
    ensures j.open[v] in NextDb(j, m).txs && NextDb(j, m).txs[j.open[v]] == j.db.txs[j.open[v]]
  {
    var t := j.open[v];
    match m {
      case Serve(a) => if DropsTx(j, a) { OtherTxsStay(j.db, Tx.Abort(j.open[a.w]), t); }
      case SelectTx(w) => if w in j.open { OtherTxsStay(j.db, Tx.Select(j.open[w]), t); }
      case WriteTx(w) => if w in j.open { OtherTxsStay(j.db, Tx.Write(j.open[w]), t); }
      case CommitTx(w, _) => if w in j.open { OtherTxsStay(j.db, Tx.Commit(j.open[w]), t); }
      case _ =>
    }
  }

  lemma ActorStaysOk(cfg: Config, j: Joint, m: Move, v: nat)
    requires Inv(j) && Actor(m) == Some(v) && v in Next(cfg, j, m).open
    ensures OpenOk(Next(cfg, j, m), v)
  {
    if v in j.open {
      assert OpenOk(j, v);
      var t := j.open[v];
      match m {
        case Serve(a) => if !a.Project? || a.fault.RolledBack? { OtherStepsDoNotWrite(cfg, j.s, a); }
        case SelectTx(w) => OwnTxKeepsEvent(j.db, Tx.Select(t));
        case WriteTx(w) => OwnTxKeepsEvent(j.db, Tx.Write(t));
        case _ =>
      }
    }
  }

  lemma OpenStaysOk(cfg: Config, j: Joint, m: Move, v: nat)
    requires Inv(j) && v in Next(cfg, j, m).open
    ensures OpenOk(Next(cfg, j, m), v)
  {
    if Actor(m) == Some(v) {
      ActorStaysOk(cfg, j, m, v);
    } else {
      OthersStayOpen(cfg, j, m, v);
    }
  }

  lemma OpenStaysDistinct(j: Joint, m: Move, v: nat, w: nat)
    requires Inv(j) && v in NextOpen(j, m) && w in NextOpen(j, m) && v != w
    ensures NextOpen(j, m)[v] != NextOpen(j, m)[w]
  {
    assert v in j.open ==> OpenOk(j, v);
    assert w in j.open ==> OpenOk(j, w);
  }

  lemma StepKeepsInv(cfg: Config, j: Joint, m: Move)
    requires Inv(j)
    ensures Inv(Next(cfg, j, m))
  {
    var j' := Next(cfg, j, m);
    TablesAgree(cfg, j, m);
    DbKeepsInv(j, m);
    forall v | v in j'.open ensures OpenOk(j', v) {
      OpenStaysOk(cfg, j, m, v);
    }
    forall v, w | v in j'.open && w in j'.open && v != w ensures j'.open[v] != j'.open[w] {
      OpenStaysDistinct(j, m, v, w);
    }
  }

  lemma {:induction false} RunKeepsInv(cfg: Config, j: Joint, moves: seq<Move>)
    requires Inv(j)
    ensures Inv(Run(cfg, j, moves))
  {
    if moves != [] {
      RunKeepsInv(cfg, j, Most(moves));
      StepKeepsInv(cfg, Run(cfg, j, Most(moves)), Last(moves));
    }
  }

  // ---------- refinement ----------

  lemma {:induction false} TraceRuns(cfg: Config, j: Joint, moves: seq<Move>)
    ensures System.Run(cfg, j.s, Trace(cfg, j, moves)) == Run(cfg, j, moves).s
  {
    if moves != [] {
      TraceRuns(cfg, j, Most(moves));
      var v := Visible(Run(cfg, j, Most(moves)), Last(moves));
      if v.Some? {
        assert Most(Trace(cfg, j, Most(moves)) + [v.value]) == Trace(cfg, j, Most(moves));
      } else {
        assert Trace(cfg, j, moves) == Trace(cfg, j, Most(moves));
      }
    }
  }

  /** However the statements of the transactions interleave with everything else, the
      service goes through a run in which each projection is one step, and its entities
      table is the committed table of the database. */
  lemma {:induction false} LockedServiceRefinesService(cfg: Config, now: int, workers: nat, moves: seq<Move>)
    ensures var j := Run(cfg, Begin(now, workers), moves);
            && j.s == System.Run(cfg, System.Start(now, workers), Trace(cfg, Begin(now, workers), moves))
            && j.s.entities == j.db.table && j.s.log == j.db.log
  {
    TraceRuns(cfg, Begin(now, workers), moves);
    RunKeepsInv(cfg, Begin(now, workers), moves);
  }

  /** So with a client that asks for one write per payload, the committed table is
      effectively once too. */
  lemma {:induction false} CommittedEffectivelyOnce(
      cfg: Config, c: Client, now: int, workers: nat, moves: seq<Move>)
    requires WfConfig(cfg) && OneWritePerPayload(cfg, c)
    requires ClientRun(cfg, c, System.Start(now, workers), Trace(cfg, Begin(now, workers), moves))
    ensures var j := Run(cfg, Begin(now, workers), moves);
            j.s.entities == j.db.table && HandledOnce(j.s)
  {
    LockedServiceRefinesService(cfg, now, workers, moves);
    HandledEffectivelyOnce(cfg, c, Run(cfg, Begin(now, workers), moves).s);
  }

  // ---------- no lock is left behind ----------

  predicate Unfinished(db: Tx.Db, t: nat) {
    t in db.txs && !db.txs[t].phase.Committed? && !db.txs[t].phase.Aborted?
  }

  ghost predicate OwnedBy(j: Joint, t: nat, w: nat) {
    w in j.open && j.open[w] == t
  }

  /** Every unfinished transaction is open in some worker. */
  ghost predicate AllOwned(j: Joint) {
    forall t :: Unfinished(j.db, t) ==> exists w :: OwnedBy(j, t, w)
  }

  lemma StepKeepsOwned(cfg: Config, j: Joint, m: Move, t: nat) returns (w: nat)
    requires Inv(j) && AllOwned(j) && Unfinished(NextDb(j, m), t)
    ensures OwnedBy(Next(cfg, j, m), t, w)
  {
    if Unfinished(j.db, t) {
      w :| OwnedBy(j, t, w);
      assert OpenOk(j, w);
    } else {
      NewTxIsOpened(j, m, t);
      w := m.w;
    }
  }

  lemma OnlyBeginStarts(db: Tx.Db, a: Tx.Action, t: nat)
    requires Tx.Inv(db) && !Unfinished(db, t) && Unfinished(Tx.Next(db, a), t)
    ensures a.Begin? && a.t == t
  {
  }

  /** Only OpenTx starts a transaction, and an end is final. */
  lemma NewTxIsOpened(j: Joint, m: Move, t: nat)
    requires Inv(j) && !Unfinished(j.db, t) && Unfinished(NextDb(j, m), t)
    ensures m.OpenTx? && OwnedBy(Joint(j.s, NextDb(j, m), NextOpen(j, m)), t, m.w)
  {
    match m {
      case Serve(a) => if DropsTx(j, a) { OnlyBeginStarts(j.db, Tx.Abort(j.open[a.w]), t); }
      case OpenTx(w, u) =>
        if ReadyToWrite(j, w) { OnlyBeginStarts(j.db, Tx.Begin(u, WriteWanted(j.s, w).value), t); }
      case SelectTx(w) => if w in j.open { OnlyBeginStarts(j.db, Tx.Select(j.open[w]), t); }
      case WriteTx(w) => if w in j.open { OnlyBeginStarts(j.db, Tx.Write(j.open[w]), t); }
      case CommitTx(w, _) => if w in j.open { OnlyBeginStarts(j.db, Tx.Commit(j.open[w]), t); }
      case UpsertRow(w, u, _) =>
        if ReadyToWrite(j, w) { OnlyBeginStarts(j.db, Tx.Upsert(u, WriteWanted(j.s, w).value), t); }
      case _ =>
    }
  }

  lemma {:induction false} RunKeepsOwned(cfg: Config, j: Joint, moves: seq<Move>)
    requires Inv(j) && AllOwned(j)
    ensures AllOwned(Run(cfg, j, moves))
  {
    if moves != [] {
      RunKeepsOwned(cfg, j, Most(moves));
      RunKeepsInv(cfg, j, Most(moves));
      var r := Run(cfg, j, Most(moves));
      forall t | Unfinished(NextDb(r, Last(moves)), t) ensures exists w :: OwnedBy(Run(cfg, j, moves), t, w) {
        var w := StepKeepsOwned(cfg, r, Last(moves), t);
        assert OwnedBy(Run(cfg, j, moves), t, w);
      }
    }
  }

  /** A worker that crashes or gives up takes its lock with it: in every reachable state a row
      is locked only by a worker that is projecting onto it. */
  lemma {:induction false} LocksHaveLiveHolders(cfg: Config, now: int, workers: nat, moves: seq<Move>, key: string)
    requires key in Run(cfg, Begin(now, workers), moves).db.locks
    ensures var j := Run(cfg, Begin(now, workers), moves);
            exists w ::
              && w in j.open && j.open[w] == j.db.locks[key]
              && ProjectingIn(j.s, w) && WriteWanted(j.s, w).Some? && WriteWanted(j.s, w).value.key == key
  {
    RunKeepsInv(cfg, Begin(now, workers), moves);
    RunKeepsOwned(cfg, Begin(now, workers), moves);
    LockIsOwned(Run(cfg, Begin(now, workers), moves), key);
  }

  lemma LockIsOwned(j: Joint, key: string)
    requires Inv(j) && AllOwned(j) && key in j.db.locks
    ensures exists w ::
              && w in j.open && j.open[w] == j.db.locks[key]
              && ProjectingIn(j.s, w) && WriteWanted(j.s, w).Some? && WriteWanted(j.s, w).value.key == key
  {
    assert Tx.LockOk(j.db, key) && Unfinished(j.db, j.db.locks[key]);
    var w :| OwnedBy(j, j.db.locks[key], w);
    assert OpenOk(j, w);
  }

  // ---------- and every run of the service is performed ----------

  lemma {:induction false} RunConcat(cfg: Config, j: Joint, a: seq<Move>, b: seq<Move>)
    ensures Run(cfg, j, a + b) == Run(cfg, Run(cfg, j, a), b)
  {
    if b == [] {
      assert a + b == a;
    } else {
      assert Most(a + b) == a + Most(b);
      RunConcat(cfg, j, a, Most(b));
    }
  }

  lemma RunThen(cfg: Config, j: Joint, moves: seq<Move>, m: Move)
    ensures Run(cfg, j, moves + [m]) == Next(cfg, Run(cfg, j, moves), m)
  {
    assert Most(moves + [m]) == moves;
  }

  /** No transaction is open. */
  predicate Quiet(j: Joint) {
    j.open == map[] && j.db.locks == map[]
  }

  lemma {:induction false} FreshId(ids: set<nat>) returns (t: nat)
    ensures forall i :: i in ids ==> i < t
  {
    t := 0;
    if i :| i in ids {
      t := FreshId(ids - {i});
      t := if i < t then t else i + 1;
      assert forall k :: k in ids ==> k == i || k in ids - {i};
    }
  }

  lemma PerformOther(cfg: Config, j: Joint, a: Action)
    requires Quiet(j) && (!a.Project? || a.fault.RolledBack?)
    ensures var j' := Next(cfg, j, Serve(a)); Quiet(j') && j'.s == System.Next(cfg, j.s, a)
  {
  }

  lemma PerformNoWrite(cfg: Config, j: Joint, w: nat, fault: Fault)
    requires Quiet(j) && ProjectingIn(j.s, w) && WriteWanted(j.s, w).None?
    ensures var j' := Next(cfg, j, NoWrite(w)); Quiet(j') && j'.s == System.Next(cfg, j.s, Project(w, fault))
  {
  }

  lemma PerformUpsert(cfg: Config, j: Joint, w: nat, fault: Fault, t: nat)
    requires Quiet(j) && ReadyToWrite(j, w) && WriteWanted(j.s, w).value.change.ShipmentTo? && !fault.RolledBack?
    requires t !in j.db.txs
    ensures var j' := Next(cfg, j, UpsertRow(w, t, fault));
            Quiet(j') && j'.s == System.Next(cfg, j.s, Project(w, fault))
  {
    Tx.UpsertTakesEffect(j.db, t, WriteWanted(j.s, w).value);
  }

  /** The statements of one transaction. */
  function Statements(w: nat, t: nat, fault: Fault): seq<Move> {
    [OpenTx(w, t), SelectTx(w), WriteTx(w), CommitTx(w, fault)]
  }

  lemma StatementsRun(cfg: Config, j: Joint, w: nat, t: nat, fault: Fault)
    ensures Run(cfg, j, Statements(w, t, fault))
         == Next(cfg, Next(cfg, Next(cfg, Next(cfg, j, OpenTx(w, t)), SelectTx(w)), WriteTx(w)), CommitTx(w, fault))
  {
    RunThen(cfg, j, [], OpenTx(w, t));
    RunThen(cfg, j, [OpenTx(w, t)], SelectTx(w));
    RunThen(cfg, j, [OpenTx(w, t), SelectTx(w)], WriteTx(w));
    RunThen(cfg, j, [OpenTx(w, t), SelectTx(w), WriteTx(w)], CommitTx(w, fault));
    assert [] + [OpenTx(w, t)] == [OpenTx(w, t)];
    assert [OpenTx(w, t)] + [SelectTx(w)] == [OpenTx(w, t), SelectTx(w)];
    assert [OpenTx(w, t), SelectTx(w)] + [WriteTx(w)] == [OpenTx(w, t), SelectTx(w), WriteTx(w)];
    assert [OpenTx(w, t), SelectTx(w), WriteTx(w)] + [CommitTx(w, fault)] == Statements(w, t, fault);
  }

  /** The worker has transaction `t` open, and the service is as before. */
  ghost predicate Opened(j: Joint, j': Joint, w: nat, t: nat, db: Tx.Db) {
    j' == Joint(j.s, db, map[w := t]) && t in db.txs
  }

  lemma OpenOpens(cfg: Config, j: Joint, w: nat, t: nat)
    requires Quiet(j) && ReadyToWrite(j, w) && WriteWanted(j.s, w).value.change.InvoiceTo? && t !in j.db.txs
    ensures Opened(j, Next(cfg, j, OpenTx(w, t)), w, t, Tx.Next(j.db, Tx.Begin(t, WriteWanted(j.s, w).value)))
  {
    Tx.BeginStarts(j.db, t, WriteWanted(j.s, w).value);
  }

  lemma StatementRuns(cfg: Config, j: Joint, i: Joint, w: nat, t: nat)
    requires Opened(j, i, w, t, i.db)
    ensures Opened(j, Next(cfg, i, SelectTx(w)), w, t, Tx.Next(i.db, Tx.Select(t)))
    ensures Opened(j, Next(cfg, i, WriteTx(w)), w, t, Tx.Next(i.db, Tx.Write(t)))
  {
  }

  lemma CommitCloses(cfg: Config, j: Joint, i: Joint, w: nat, t: nat, fault: Fault)
    requires Opened(j, i, w, t, i.db) && !fault.RolledBack? && Tx.Next(i.db, Tx.Commit(t)) != i.db
    ensures var j' := Next(cfg, i, CommitTx(w, fault));
            && j'.s == System.Next(cfg, j.s, Project(w, fault)) && j'.open == map[]
            && j'.db == Tx.Next(i.db, Tx.Commit(t))
  {
  }

  lemma PerformInvoice(cfg: Config, j: Joint, w: nat, fault: Fault, t: nat)
    requires Inv(j) && Quiet(j) && ReadyToWrite(j, w) && !fault.RolledBack? && t !in j.db.txs
    requires WriteWanted(j.s, w).value.change.InvoiceTo?
    ensures var j' := Run(cfg, j, Statements(w, t, fault));
            Quiet(j') && j'.s == System.Next(cfg, j.s, Project(w, fault))
  {
    var ev := WriteWanted(j.s, w).value;
    StatementsRun(cfg, j, w, t, fault);
    OpenOpens(cfg, j, w, t);
    Tx.BeginStarts(j.db, t, ev);
    Tx.StepKeepsInv(j.db, Tx.Begin(t, ev));
    var a := Next(cfg, j, OpenTx(w, t));
    Tx.BegunCommits(a.db, t);
    StatementRuns(cfg, j, a, w, t);
    var b := Next(cfg, a, SelectTx(w));
    StatementRuns(cfg, j, b, w, t);
    var c := Next(cfg, b, WriteTx(w));
    CommitCloses(cfg, j, c, w, t, fault);
  }

  /** A step of the service, as moves that leave no transaction open. */
  lemma PerformStep(cfg: Config, j: Joint, a: Action) returns (moves: seq<Move>)
    requires Inv(j) && Quiet(j)
    ensures Quiet(Run(cfg, j, moves)) && Run(cfg, j, moves).s == System.Next(cfg, j.s, a)
  {
    if !a.Project? || a.fault.RolledBack? {
      PerformOther(cfg, j, a);
      moves := OneMove(cfg, j, Serve(a));
    } else if !ProjectingIn(j.s, a.w) {
      moves := [];
    } else if WriteWanted(j.s, a.w).None? {
      PerformNoWrite(cfg, j, a.w, a.fault);
      moves := OneMove(cfg, j, NoWrite(a.w));
    } else {
      var t := FreshId(j.db.txs.Keys);
      if WriteWanted(j.s, a.w).value.change.ShipmentTo? {
        PerformUpsert(cfg, j, a.w, a.fault, t);
        moves := OneMove(cfg, j, UpsertRow(a.w, t, a.fault));
      } else {
        PerformInvoice(cfg, j, a.w, a.fault, t);
        moves := Statements(a.w, t, a.fault);
      }
    }
  }

  lemma OneMove(cfg: Config, j: Joint, m: Move) returns (moves: seq<Move>)
    ensures Run(cfg, j, moves) == Next(cfg, j, m)
  {
    RunThen(cfg, j, [], m);
    moves := [] + [m];
  }

  lemma {:induction false} RunIsPerformed(cfg: Config, j: Joint, acts: seq<Action>) returns (moves: seq<Move>)
    requires Inv(j) && Quiet(j)
    ensures Quiet(Run(cfg, j, moves)) && Run(cfg, j, moves).s == System.Run(cfg, j.s, acts)
  {
    moves := [];
    if acts != [] {
      moves := RunIsPerformed(cfg, j, Most(acts));
      RunKeepsInv(cfg, j, moves);
      var more := PerformStep(cfg, Run(cfg, j, moves), Last(acts));
      RunConcat(cfg, j, moves, more);
      moves := moves + more;
    }
  }

  /** The other direction: every run of the service is performed statement by statement, so
      both services reach exactly the same states. */
  lemma {:induction false} ServiceIsPerformed(cfg: Config, now: int, workers: nat, acts: seq<Action>)
    returns (moves: seq<Move>)
    ensures Run(cfg, Begin(now, workers), moves).s == System.Run(cfg, System.Start(now, workers), acts)
  {
    moves := RunIsPerformed(cfg, Begin(now, workers), acts);
  }
}
