// What every run of the service leaves in the facts and entities tables.
module EffectivelyOnce {
  import opened Common
  import opened Model
  import opened Projection
  import opened Normalize
  import opened RawQueue
  import opened System

  // ---------- whatever the model answers ----------

  ghost predicate PhaseOk(s: Service, w: nat)
    requires w < |s.workers|
  {
    s.workers[w].Busy? ==>
      var p, id := s.workers[w].phase, s.workers[w].job.id;
      && (p.Storing? || p.Projecting? ==> WfNormalized(p.n))
      && (p.Projecting? ==> id in s.facts)
      && (p.Settling? && p.o.Success? ==> id in s.facts)
  }

  /** The entities are the replay of the writes, every write and fact passed the gate, and
      a PROCESSED row has its fact. */
  ghost predicate DataInv(s: Service) {
    && s.entities == Replay(s.log)
    && WfEvents(s.log)
    && (forall ev :: ev in s.log ==> CanonicalKey(ev.key) == ev.key && ev.key != "")
    && (forall id :: id in s.facts ==> WfNormalized(s.facts[id]))
    && (forall w :: 0 <= w < |s.workers| ==> PhaseOk(s, w))
    && (forall id :: 0 <= id < |s.rows| && s.rows[id].status.Processed? ==> id in s.facts)
  }

  lemma ProjectionIsWellFormed(id: nat, n: Normalized)
    requires WfNormalized(n) && ProjectionOf(id, n).Some?
    ensures var ev := ProjectionOf(id, n).value;
            WfChange(ev.change) && CanonicalKey(ev.key) == ev.key && ev.key != "" && ev.source == id
  {
  }

  lemma PhasesStayOk(cfg: Config, s: Service, a: Action, v: nat)
    requires DataInv(s) && Enabled(cfg, s, a) && v < |s.workers|
    ensures PhaseOk(Do(cfg, s, a), v)
  {
    assert PhaseOk(s, v);
    if a.Ask? && Verdict(cfg, a.ans).Ok? {
      VerdictIsWellFormed(cfg, a.ans);
    }
  }

  lemma FactsStayOk(cfg: Config, s: Service, a: Action)
    requires DataInv(s) && Enabled(cfg, s, a)
    ensures var s' := Do(cfg, s, a);
            && (forall id :: id in s'.facts ==> WfNormalized(s'.facts[id]))
            && (forall id :: 0 <= id < |s'.rows| && s'.rows[id].status.Processed? ==> id in s'.facts)
  {
    if !a.Tick? && !a.Insert? {
      assert PhaseOk(s, a.w);
    }
  }

  lemma LogStaysOk(cfg: Config, s: Service, a: Action)
    requires DataInv(s) && Enabled(cfg, s, a)
    ensures var s' := Do(cfg, s, a);
            && s'.entities == Replay(s'.log) && WfEvents(s'.log)
            && (forall ev :: ev in s'.log ==> CanonicalKey(ev.key) == ev.key && ev.key != "")
  {
    if !a.Tick? && !a.Insert? {
      assert PhaseOk(s, a.w);
    }
    if a.Project? {
      WriteKeepsLog(s, s.workers[a.w].job.id, s.workers[a.w].phase.n);
    }
  }

  lemma StepKeepsDataInv(cfg: Config, s: Service, a: Action)
    requires DataInv(s)
    ensures DataInv(Next(cfg, s, a))
  {
    if Enabled(cfg, s, a) {
      FactsStayOk(cfg, s, a);
      LogStaysOk(cfg, s, a);
      forall v | 0 <= v < |s.workers| ensures PhaseOk(Do(cfg, s, a), v) {
        PhasesStayOk(cfg, s, a, v);
      }
    }
  }

  lemma WriteKeepsLog(s: Service, id: nat, n: Normalized)
    requires s.entities == Replay(s.log) && WfEvents(s.log) && WfNormalized(n)
    requires forall ev :: ev in s.log ==> CanonicalKey(ev.key) == ev.key && ev.key != ""
    ensures var ev := ProjectionOf(id, n);
            var log := if ev.Some? then s.log + [ev.value] else s.log;
            && Projected(s.entities, id, n) == Replay(log) && WfEvents(log)
            && (forall e :: e in log ==> CanonicalKey(e.key) == e.key && e.key != "")
  {
    if ProjectionOf(id, n).Some? {
      ProjectionIsWellFormed(id, n);
      AppendToReplay(s.log, ProjectionOf(id, n).value);
    }
  }

  lemma {:induction false} RunKeepsDataInv(cfg: Config, s: Service, acts: seq<Action>)
    requires DataInv(s)
    ensures DataInv(Run(cfg, s, acts))
  {
    if acts != [] {
      RunKeepsDataInv(cfg, s, Most(acts));
      StepKeepsDataInv(cfg, Run(cfg, s, Most(acts)), Last(acts));
    }
  }

  /** In every reachable state, with any answers, crashes and stale workers, each entity
      has the rank of its state, its money is one coherent pair out of one event, and any
      spelling of its key finds it. */
  lemma {:induction false} EntitiesAreCoherent(cfg: Config, now: int, workers: nat, acts: seq<Action>, key: string)
    ensures var s := Run(cfg, Start(now, workers), acts);
            key in s.entities ==>
              var e := s.entities[key];
              && e.rank == ShipmentRank(e.state)
              && MoneyPair(e.amountMinor, e.currency) && (e.amountMinor, e.currency) == LastMoney(s.log, key)
              && IsCanonical(key) && (forall q :: CanonicalKey(q) == key <==> VariantOf(q, key))
              && Writes(s.log, key) <= 7
  {
    var s := Run(cfg, Start(now, workers), acts);
    RunKeepsDataInv(cfg, Start(now, workers), acts);
    if key in s.entities {
      FoldKeepsCoherence(map[], s.log);
      MoneyIsNeverMixed(s.log, key);
      WritesAreBounded(s.log, key);
      KeysAreJustified(s.log, key);
      CanonicalIsFixpoint(key);
      forall q ensures CanonicalKey(q) == key <==> VariantOf(q, key) {
        VariantsFindTheKey(q, key);
      }
    }
  }

  // ---------- a model client ----------

  /** What the client may return for a payload: any relation. */
  type Client = (string, Answer) -> bool

  predicate Admissible(cfg: Config, c: Client, s: Service, a: Action) {
    a.Ask? && Enabled(cfg, s, a) ==> c(s.workers[a.w].job.payload, a.ans)
  }

  ghost predicate ClientRun(cfg: Config, c: Client, s: Service, acts: seq<Action>) {
    acts == [] || (ClientRun(cfg, c, s, Most(acts)) && Admissible(cfg, c, Run(cfg, s, Most(acts)), Last(acts)))
  }

  /** The run `acts` prolonged by `a`, which the client allows. */
  lemma ClientThen(cfg: Config, c: Client, s: Service, acts: seq<Action>, a: Action) returns (more: seq<Action>)
    requires ClientRun(cfg, c, s, acts) && Admissible(cfg, c, Run(cfg, s, acts), a)
    ensures ClientRun(cfg, c, s, more) && Run(cfg, s, more) == Next(cfg, Run(cfg, s, acts), a)
  {
    more := Then(cfg, s, acts, a);
    assert Most(more) == acts;
  }

  /** The gate makes this fact of an answer the client may give to the payload. */
  ghost predicate Accepts(cfg: Config, c: Client, payload: string, n: Normalized) {
    exists ans :: c(payload, ans) && Verdict(cfg, ans) == Ok(n)
  }

  /** The client may ask for this write of row `id`. */
  ghost predicate MayWrite(cfg: Config, c: Client, s: Service, id: nat, w: Option<Event>)
    requires id < |s.rows|
  {
    exists n :: Accepts(cfg, c, s.rows[id].payload, n) && ProjectionOf(id, n) == w
  }

  /** What this fact of row `id` asks for, if anything, has been written. */
  ghost predicate Landed(s: Service, id: nat, n: Normalized) {
    ProjectionOf(id, n).Some? ==> ProjectionOf(id, n).value in s.log
  }

  /** Row `id` has its fact, and a write that the client may ask for has been made. */
  ghost predicate Done(cfg: Config, c: Client, s: Service, id: nat)
    requires id < |s.rows|
  {
    id in s.facts && exists w :: MayWrite(cfg, c, s, id, w) && (w.Some? ==> w.value in s.log)
  }

  ghost predicate PhaseMeans(cfg: Config, c: Client, s: Service, w: nat)
    requires w < |s.workers|
  {
    s.workers[w].Busy? && s.workers[w].job.id < |s.rows| ==>
      var p, id := s.workers[w].phase, s.workers[w].job.id;
      && (p.Storing? || p.Projecting? ==> Accepts(cfg, c, s.rows[id].payload, p.n))
      && (p.Projecting? ==> id in s.facts)
      && (p.Settling? && p.o.Success? ==> Done(cfg, c, s, id))
  }

  ghost predicate FactMeans(cfg: Config, c: Client, s: Service, id: nat)
    requires id in s.facts
  {
    id < |s.rows| && Accepts(cfg, c, s.rows[id].payload, s.facts[id])
  }

  ghost predicate WriteMeans(cfg: Config, c: Client, s: Service, ev: Event) {
    ev.source < |s.rows| && ev.source in s.facts && MayWrite(cfg, c, s, ev.source, Some(ev))
  }

  ghost predicate RowMeans(cfg: Config, c: Client, s: Service, id: nat)
    requires id < |s.rows|
  {
    s.rows[id].status.Processed? ==> Done(cfg, c, s, id)
  }

  /** Whatever the client: facts and writes are made of its answers to the payload, a write
      is made after its fact, and a row is PROCESSED after both. */
  ghost predicate MeaningInv(cfg: Config, c: Client, s: Service) {
    && (forall id {:trigger FactMeans(cfg, c, s, id)} :: id in s.facts ==> FactMeans(cfg, c, s, id))
    && (forall w :: 0 <= w < |s.workers| ==> PhaseMeans(cfg, c, s, w))
    && (forall ev {:trigger WriteMeans(cfg, c, s, ev)} :: ev in s.log ==> WriteMeans(cfg, c, s, ev))
    && (forall id {:trigger RowMeans(cfg, c, s, id)} :: 0 <= id < |s.rows| ==> RowMeans(cfg, c, s, id))
  }

  /** Nothing recorded is lost. */
  ghost predicate Grows(s: Service, s': Service) {
    && (forall id :: id in s.facts ==> id in s'.facts && s'.facts[id] == s.facts[id])
    && (forall ev :: ev in s.log ==> ev in s'.log)
    && |s.rows| <= |s'.rows| && (forall id :: 0 <= id < |s.rows| ==> s'.rows[id].payload == s.rows[id].payload)
  }

  lemma StepGrows(cfg: Config, s: Service, a: Action)
    ensures Grows(s, Next(cfg, s, a))
  {
  }

  lemma GrowsOn(s: Service, t: Service, u: Service)
    requires Grows(s, t) && Grows(t, u)
    ensures Grows(s, u)
  {
  }

  /** Facts, writes and payloads are immutable: whatever the model answers to a retried
      worker, the first fact of a raw event stays. */
  lemma {:induction false} NothingRecordedIsLost(cfg: Config, s: Service, acts: seq<Action>)
    ensures Grows(s, Run(cfg, s, acts))
  {
    if acts != [] {
      NothingRecordedIsLost(cfg, s, Most(acts));
      StepGrows(cfg, Run(cfg, s, Most(acts)), Last(acts));
      GrowsOn(s, Run(cfg, s, Most(acts)), Run(cfg, s, acts));
    }
  }

  lemma GrowthKeepsWrites(cfg: Config, c: Client, s: Service, s': Service, id: nat, w: Option<Event>)
    requires Grows(s, s') && id < |s.rows| && MayWrite(cfg, c, s, id, w)
    ensures MayWrite(cfg, c, s', id, w)
  {
  }

  lemma GrowthKeepsDone(cfg: Config, c: Client, s: Service, s': Service, id: nat)
    requires Grows(s, s') && id < |s.rows| && Done(cfg, c, s, id)
    ensures Done(cfg, c, s', id)
  {
    var w :| MayWrite(cfg, c, s, id, w) && (w.Some? ==> w.value in s.log);
    GrowthKeepsWrites(cfg, c, s, s', id, w);
  }

  /** Everything but what the step itself adds follows from growth. */
  lemma GrowthKeepsMeaning(cfg: Config, c: Client, s: Service, s': Service)
    requires MeaningInv(cfg, c, s) && Grows(s, s')
    ensures forall id :: id in s.facts ==> FactMeans(cfg, c, s', id)
    ensures forall ev :: ev in s.log ==> WriteMeans(cfg, c, s', ev)
  {
    forall id | id in s.facts ensures FactMeans(cfg, c, s', id) {
      assert FactMeans(cfg, c, s, id);
    }
    forall ev | ev in s.log ensures WriteMeans(cfg, c, s', ev) {
      assert WriteMeans(cfg, c, s, ev);
      GrowthKeepsWrites(cfg, c, s, s', ev.source, Some(ev));
    }
  }

  lemma AskMeans(cfg: Config, c: Client, s: Service, w: nat, ans: Answer)
    requires QueueInv(cfg, s) && Admissible(cfg, c, s, Ask(w, ans)) && Enabled(cfg, s, Ask(w, ans))
    ensures PhaseMeans(cfg, c, Do(cfg, s, Ask(w, ans)), w)
  {
    assert WorkerOk(s, w);
  }

  lemma ProjectMeans(cfg: Config, c: Client, s: Service, w: nat, fault: Fault)
    requires MeaningInv(cfg, c, s) && Enabled(cfg, s, Project(w, fault))
    ensures var id, ev := s.workers[w].job.id, ProjectionOf(s.workers[w].job.id, s.workers[w].phase.n);
            id in s.facts && MayWrite(cfg, c, s, id, ev)
  {
    assert PhaseMeans(cfg, c, s, w);
  }

  lemma ProjectedMeans(cfg: Config, c: Client, s: Service, w: nat, fault: Fault)
    requires MeaningInv(cfg, c, s) && Enabled(cfg, s, Project(w, fault))
    ensures PhaseMeans(cfg, c, Do(cfg, s, Project(w, fault)), w)
  {
    var id, ev := s.workers[w].job.id, ProjectionOf(s.workers[w].job.id, s.workers[w].phase.n);
    ProjectMeans(cfg, c, s, w, fault);
    StepGrows(cfg, s, Project(w, fault));
    GrowthKeepsWrites(cfg, c, s, Do(cfg, s, Project(w, fault)), id, ev);
  }

  lemma WorkersKeepMeaning(cfg: Config, c: Client, s: Service, a: Action, v: nat)
    requires QueueInv(cfg, s) && MeaningInv(cfg, c, s)
    requires Admissible(cfg, c, s, a) && Enabled(cfg, s, a) && v < |s.workers|
    ensures PhaseMeans(cfg, c, Do(cfg, s, a), v)
  {
    if a.Ask? && a.w == v {
      AskMeans(cfg, c, s, v, a.ans);
    } else if a.Project? && a.w == v {
      ProjectedMeans(cfg, c, s, v, a.fault);
    } else {
      StepGrows(cfg, s, a);
      assert PhaseMeans(cfg, c, s, v) && WorkerOk(s, v);
      if s.workers[v].Busy? && s.workers[v].phase.Settling? && s.workers[v].phase.o.Success? {
        GrowthKeepsDone(cfg, c, s, Do(cfg, s, a), s.workers[v].job.id);
      }
    }
  }

  lemma RowsKeepMeaning(cfg: Config, c: Client, s: Service, a: Action, id: nat)
    requires MeaningInv(cfg, c, s) && Enabled(cfg, s, a) && id < |Do(cfg, s, a).rows|
    ensures RowMeans(cfg, c, Do(cfg, s, a), id)
  {
    if id < |s.rows| && Do(cfg, s, a).rows[id].status.Processed? {
      StepGrows(cfg, s, a);
      assert RowMeans(cfg, c, s, id);
      if a.Settle? {
        assert PhaseMeans(cfg, c, s, a.w);
      }
      GrowthKeepsDone(cfg, c, s, Do(cfg, s, a), id);
    }
  }

  lemma TablesKeepMeaning(cfg: Config, c: Client, s: Service, a: Action)
    requires MeaningInv(cfg, c, s) && Enabled(cfg, s, a)
    ensures var s' := Do(cfg, s, a);
            && (forall id :: id in s'.facts ==> FactMeans(cfg, c, s', id))
            && (forall ev :: ev in s'.log ==> WriteMeans(cfg, c, s', ev))
  {
    var s' := Do(cfg, s, a);
    StepGrows(cfg, s, a);
    GrowthKeepsMeaning(cfg, c, s, s');
    if a.StoreFact? {
      assert PhaseMeans(cfg, c, s, a.w);
    } else if a.Project? {
      ProjectMeans(cfg, c, s, a.w, a.fault);
      GrowthKeepsWrites(cfg, c, s, s', s.workers[a.w].job.id,
                        ProjectionOf(s.workers[a.w].job.id, s.workers[a.w].phase.n));
    }
  }

  lemma StepKeepsMeaningInv(cfg: Config, c: Client, s: Service, a: Action)
    requires QueueInv(cfg, s) && MeaningInv(cfg, c, s) && Admissible(cfg, c, s, a)
    ensures MeaningInv(cfg, c, Next(cfg, s, a))
  {
    if Enabled(cfg, s, a) {
      var s' := Do(cfg, s, a);
      TablesKeepMeaning(cfg, c, s, a);
      forall v | 0 <= v < |s'.workers| ensures PhaseMeans(cfg, c, s', v) {
        WorkersKeepMeaning(cfg, c, s, a, v);
      }
      forall id | 0 <= id < |s'.rows| ensures RowMeans(cfg, c, s', id) {
        RowsKeepMeaning(cfg, c, s, a, id);
      }
    }
  }

  lemma {:induction false} RunKeepsMeaningInv(cfg: Config, c: Client, s: Service, acts: seq<Action>)
    requires WfConfig(cfg) && QueueInv(cfg, s) && MeaningInv(cfg, c, s) && ClientRun(cfg, c, s, acts)
    ensures MeaningInv(cfg, c, Run(cfg, s, acts))
  {
    if acts != [] {
      RunKeepsMeaningInv(cfg, c, s, Most(acts));
      RunKeepsQueueInv(cfg, s, Most(acts));
      StepKeepsMeaningInv(cfg, c, Run(cfg, s, Most(acts)), Last(acts));
    }
  }

  /** A state that some run with the client reaches. */
  ghost predicate Reachable(cfg: Config, c: Client, s: Service) {
    exists now, workers: nat, acts ::
      ClientRun(cfg, c, Start(now, workers), acts) && s == Run(cfg, Start(now, workers), acts)
  }

  lemma ReachableStates(cfg: Config, c: Client, s: Service)
    requires WfConfig(cfg) && Reachable(cfg, c, s)
    ensures DataInv(s) && MeaningInv(cfg, c, s) && QueueInv(cfg, s)
  {
    var now, workers: nat, acts :|
      ClientRun(cfg, c, Start(now, workers), acts) && s == Run(cfg, Start(now, workers), acts);
    RunKeepsDataInv(cfg, Start(now, workers), acts);
    RunKeepsQueueInv(cfg, Start(now, workers), acts);
    RunKeepsMeaningInv(cfg, c, Start(now, workers), acts);
  }

  /** Whatever the client: a PROCESSED row has its fact, made of an answer to its payload,
      and the write of an answer to its payload has been made, if that asks for one. */
  lemma ProcessedHasItsFact(cfg: Config, c: Client, s: Service, id: nat)
    requires WfConfig(cfg) && Reachable(cfg, c, s) && id < |s.rows| && s.rows[id].status.Processed?
    ensures id in s.facts && Accepts(cfg, c, s.rows[id].payload, s.facts[id]) && WfNormalized(s.facts[id])
    ensures exists n :: Accepts(cfg, c, s.rows[id].payload, n) && Landed(s, id, n)
  {
    ReachableStates(cfg, c, s);
    LandedWrite(cfg, c, s, id);
  }

  lemma LandedWrite(cfg: Config, c: Client, s: Service, id: nat)
    requires MeaningInv(cfg, c, s) && id < |s.rows| && s.rows[id].status.Processed?
    ensures id in s.facts && Accepts(cfg, c, s.rows[id].payload, s.facts[id])
    ensures exists n :: Accepts(cfg, c, s.rows[id].payload, n) && Landed(s, id, n)
  {
    assert RowMeans(cfg, c, s, id) && FactMeans(cfg, c, s, id);
    var w :| MayWrite(cfg, c, s, id, w) && (w.Some? ==> w.value in s.log);
    var n :| Accepts(cfg, c, s.rows[id].payload, n) && ProjectionOf(id, n) == w;
    assert Landed(s, id, n);
  }

  // ---------- effectively once ----------

  /** Two facts ask for the same write, or both for none. */
  predicate SameWrite(a: Normalized, b: Normalized) {
    ProjectionOf(0, a) == ProjectionOf(0, b)
  }

  /** Whatever the client answers to a payload, rejections and faults aside, asks for one
      and the same write; confidence and texts may differ. */
  ghost predicate OneWritePerPayload(cfg: Config, c: Client) {
    forall payload, a, b :: Accepts(cfg, c, payload, a) && Accepts(cfg, c, payload, b) ==> SameWrite(a, b)
  }

  lemma SameWriteOfAnyRow(a: Normalized, b: Normalized, id: nat)
    ensures SameWrite(a, b) <==> ProjectionOf(id, a) == ProjectionOf(id, b)
  {
  }

  predicate HasWrites(facts: map<nat, Normalized>, ids: seq<nat>) {
    forall i :: 0 <= i < |ids| ==> ids[i] in facts && ProjectionOf(ids[i], facts[ids[i]]).Some?
  }

  /** The writes of a sequential run that handles the raw events `ids` once each. */
  function WritesOf(facts: map<nat, Normalized>, ids: seq<nat>): seq<Event>
    requires HasWrites(facts, ids)
  {
    seq(|ids|, i requires 0 <= i < |ids| => ProjectionOf(ids[i], facts[ids[i]]).value)
  }

  /** `ids` handled one after the other, once each, explain the whole entities table. */
  ghost predicate Explains(s: Service, ids: seq<nat>) {
    && NoDuplicates(ids)
    && HasWrites(s.facts, ids)
    && (forall id :: 0 <= id < |s.rows| && s.rows[id].status.Processed? ==>
          id in s.facts && (s.facts[id].class_.Unclassified? || id in ids))
    && s.entities == Replay(WritesOf(s.facts, ids))
  }

  /** The entities are those of some sequential run that handles each raw event once. */
  ghost predicate HandledOnce(s: Service) {
    exists ids :: Explains(s, ids)
  }

  /** The write of the stored fact. */
  ghost predicate IsFactWrite(s: Service, ev: Event) {
    ev.source in s.facts && ProjectionOf(ev.source, s.facts[ev.source]) == Some(ev)
  }

  lemma SourcesOf(s: Service, evs: seq<Event>) returns (ids: seq<nat>)
    requires NoDuplicates(evs) && forall i :: 0 <= i < |evs| ==> IsFactWrite(s, evs[i])
    ensures NoDuplicates(ids) && HasWrites(s.facts, ids) && WritesOf(s.facts, ids) == evs
    ensures forall ev :: ev in evs ==> ev.source in ids
  {
    ids := seq(|evs|, i requires 0 <= i < |evs| => evs[i].source);
    forall i | 0 <= i < |evs| ensures ids[i] in s.facts && ProjectionOf(ids[i], s.facts[ids[i]]) == Some(evs[i]) {
      assert IsFactWrite(s, evs[i]);
    }
    forall ev | ev in evs ensures ev.source in ids {
      var i :| 0 <= i < |evs| && evs[i] == ev;
      assert ids[i] == ev.source;
    }
  }

  /** With one write per payload every write is that of the stored fact. */
  lemma WritesAreOfFacts(cfg: Config, c: Client, s: Service, ev: Event)
    requires OneWritePerPayload(cfg, c) && MeaningInv(cfg, c, s) && ev in s.log
    ensures IsFactWrite(s, ev)
  {
    assert WriteMeans(cfg, c, s, ev) && FactMeans(cfg, c, s, ev.source);
    var n :| Accepts(cfg, c, s.rows[ev.source].payload, n) && ProjectionOf(ev.source, n) == Some(ev);
    SameWriteOfAnyRow(n, s.facts[ev.source], ev.source);
  }

  /** Then the write of the fact of a PROCESSED row has been made. */
  lemma FactsOfProcessedLand(cfg: Config, c: Client, s: Service, id: nat)
    requires OneWritePerPayload(cfg, c) && MeaningInv(cfg, c, s) && id < |s.rows| && s.rows[id].status.Processed?
    ensures id in s.facts && Accepts(cfg, c, s.rows[id].payload, s.facts[id]) && Landed(s, id, s.facts[id])
  {
    LandedWrite(cfg, c, s, id);
    var n :| Accepts(cfg, c, s.rows[id].payload, n) && Landed(s, id, n);
    SameWriteOfAnyRow(n, s.facts[id], id);
  }

  /** The main theorem: however many workers overlap, retry, outlive their leases or crash,
      the entities are those of a run that handles some raw events once each, one after the
      other, among them every PROCESSED event that names an entity. */
  lemma HandledEffectivelyOnce(cfg: Config, c: Client, s: Service)
    requires WfConfig(cfg) && OneWritePerPayload(cfg, c) && Reachable(cfg, c, s)
    ensures HandledOnce(s)
  {
    ReachableStates(cfg, c, s);
    var evs := DuplicatesAreHarmless(s.log);
    forall i | 0 <= i < |evs| ensures IsFactWrite(s, evs[i]) {
      WritesAreOfFacts(cfg, c, s, evs[i]);
    }
    var ids := SourcesOf(s, evs);
    forall id | 0 <= id < |s.rows| && s.rows[id].status.Processed?
      ensures id in s.facts && (s.facts[id].class_.Unclassified? || id in ids)
    {
      FactsOfProcessedLand(cfg, c, s, id);
      assert WfNormalized(s.facts[id]);
      if !s.facts[id].class_.Unclassified? {
        assert ProjectionOf(id, s.facts[id]).value in evs;
      }
    }
    assert Explains(s, ids);
  }

  // ---------- weaker promises, for more clients ----------

  /** The key and the state that a fact asks for. */
  function Target(n: Normalized): Option<(string, State)> {
    var ev := ProjectionOf(0, n);
    if ev.None? then None else Some((ev.value.key, ev.value.change.state))
  }

  /** Two accepted answers to a payload may differ in time and money only. */
  ghost predicate OneTargetPerPayload(cfg: Config, c: Client) {
    forall payload, a, b :: Accepts(cfg, c, payload, a) && Accepts(cfg, c, payload, b) ==> Target(a) == Target(b)
  }

  /** The entity is in the state of some stored fact about it. */
  ghost predicate HasItsFact(s: Service, key: string)
    requires key in s.entities
  {
    exists id ::
      id in s.facts && s.facts[id].entityKey == key && s.facts[id].canonicalState == Some(s.entities[key].state)
  }

  ghost predicate StatesHaveFacts(s: Service) {
    forall key :: key in s.entities ==> HasItsFact(s, key)
  }

  lemma TargetsAreOfFacts(cfg: Config, c: Client, s: Service, ev: Event)
    requires OneTargetPerPayload(cfg, c) && MeaningInv(cfg, c, s) && ev in s.log
    ensures ev.source in s.facts && Target(s.facts[ev.source]) == Some((ev.key, ev.change.state))
  {
    assert WriteMeans(cfg, c, s, ev) && FactMeans(cfg, c, s, ev.source);
    var n :| Accepts(cfg, c, s.rows[ev.source].payload, n) && ProjectionOf(ev.source, n) == Some(ev);
    assert Target(n) == Target(s.facts[ev.source]);
  }

  lemma EveryStateHasItsFact(cfg: Config, c: Client, s: Service)
    requires WfConfig(cfg) && OneTargetPerPayload(cfg, c) && Reachable(cfg, c, s)
    ensures StatesHaveFacts(s)
  {
    ReachableStates(cfg, c, s);
    forall key | key in s.entities ensures HasItsFact(s, key) {
      StatesAreJustified(s.log, key);
      var i :| 0 <= i < |s.log| && s.log[i].key == key && s.log[i].change.state == s.entities[key].state;
      TargetsAreOfFacts(cfg, c, s, s.log[i]);
    }
  }

  /** The key that a fact asks for, and its state if it is a shipment's. */
  function Place(n: Normalized): Option<(string, Option<State>)> {
    var ev := ProjectionOf(0, n);
    if ev.None? then None
    else Some((ev.value.key, if ev.value.change.ShipmentTo? then Some(ev.value.change.state) else None))
  }

  /** Two accepted answers to a payload may differ in the states of an invoice, too. */
  ghost predicate OnePlacePerPayload(cfg: Config, c: Client) {
    forall payload, a, b :: Accepts(cfg, c, payload, a) && Accepts(cfg, c, payload, b) ==> Place(a) == Place(b)
  }

  /** The entity of the stored fact exists, and has reached the rank of a shipment fact. */
  ghost predicate Shows(s: Service, n: Normalized) {
    && (!n.class_.Unclassified? ==> n.entityKey in s.entities)
    && (n.class_.Shipment? ==>
          n.canonicalState.Some? && s.entities[n.entityKey].rank >= ShipmentRank(n.canonicalState.value) > 0)
  }

  ghost predicate ProcessedIsShown(s: Service) {
    forall id :: 0 <= id < |s.rows| && s.rows[id].status.Processed? ==> id in s.facts && Shows(s, s.facts[id])
  }

  lemma ProcessedMeansProjected(cfg: Config, c: Client, s: Service)
    requires WfConfig(cfg) && OnePlacePerPayload(cfg, c) && Reachable(cfg, c, s)
    ensures ProcessedIsShown(s)
  {
    ReachableStates(cfg, c, s);
    forall id | 0 <= id < |s.rows| && s.rows[id].status.Processed? ensures id in s.facts && Shows(s, s.facts[id]) {
      ProcessedHasItsFact(cfg, c, s, id);
      var n :| Accepts(cfg, c, s.rows[id].payload, n) && Landed(s, id, n);
      assert Place(n) == Place(s.facts[id]);
      PlaceIsShown(s, id, n, s.facts[id]);
    }
  }

  lemma PlaceIsShown(s: Service, id: nat, written: Normalized, n: Normalized)
    requires DataInv(s) && WfNormalized(n) && Place(written) == Place(n) && Landed(s, id, written)
    ensures Shows(s, n)
  {
    if !n.class_.Unclassified? {
      var i :| 0 <= i < |s.log| && s.log[i] == ProjectionOf(id, written).value;
      KeysAreJustified(s.log, n.entityKey);
      if n.class_.Shipment? {
        assert HasShipment(s.log, n.entityKey, n.canonicalState.value);
        var top := HighestReached(s.log, n.entityKey, n.canonicalState.value);
      }
    }
  }
}
