/**
 The undo stack law. After any run of one actor's moves, layouts, visibility,
 dimming and intensity changes, consecutive undos never conflict, and the k-th
 one returns to the document as it was k recorded actions earlier. A node that
 had no position comes back at the origin, which is how the code replays it.
 */
module UndoStack {
  import opened Values
  import opened Lists
  import opened SessionModel
  import opened SessionFacts
  import opened Undo

  predicate Stackable(op: Op) {
    || op.NodeMoved? || op.LayoutApplied? || op.IntensitySet?
    || ((op.FlagSet? || op.FlagCleared?) && op.flag != HiddenEdge)
  }

  /** One recorded action of the run: the session it met, and the record it left. */
  datatype Mark = Mark(met: Session, op: Op, env: Env, record: Record)

  function Marks(cfg: Config, st: Store, ops: seq<(Op, Env)>): seq<Mark>
    decreases |ops|
  {
    if ops == [] then []
    else
      var (op, env) := ops[0];
      var r := ApplyOp(cfg, st, op, env);
      var q := PlanOp(cfg, st.session, st.deleted, op, env);
      var rest := Marks(cfg, if r.Done? then r.store else st, ops[1..]);
      if q.Step? && q.change.Some? then
        [Mark(st.session, op, env, Record(env.client, st.session.seqNo + 1, env.now, q.change.value, false))] + rest
      else rest
  }

  /** `now` shows what `past` showed: positions up to the origin default, the
      hidden and dimmed sets, the intensity, and everything the run cannot touch. */
  ghost predicate Shows(now: Doc, past: Doc) {
    && now.annotations == past.annotations
    && now.nodeRefs == past.nodeRefs
    && now.hiddenEdges == past.hiddenEdges
    && now.intensity == past.intensity
    && (forall k :: k in past.positions ==> Lookup(now.positions, k) == Some(past.positions[k]))
    && (forall k :: k in now.positions && k !in past.positions ==> now.positions[k] == ORIGIN)
    && SameSet(now.hiddenNodes, past.hiddenNodes)
    && SameSet(now.dimmedNodes, past.dimmedNodes)
    && SameSet(now.dimmedEdges, past.dimmedEdges)
  }

  ghost predicate SameSet(s: seq<string>, t: seq<string>) {
    forall x :: x in s <==> x in t
  }

  function PlanOf(cfg: Config, m: Mark): Plan {
    PlanOp(cfg, m.met, [], m.op, m.env)
  }

  /** The mark is a stackable action that left its record and led to `after`. */
  ghost predicate LedTo(cfg: Config, m: Mark, after: Doc) {
    && Stackable(m.op)
    && PlanOf(cfg, m).Step?
    && PlanOf(cfg, m).change == Some(m.record.change)
    && PlanOf(cfg, m).doc == after
    && 0.0 <= m.met.doc.intensity <= 1.0
  }

  /** The marks follow one another: each led to the document the next one met. */
  ghost predicate Consecutive(cfg: Config, marks: seq<Mark>, final: Doc)
    decreases |marks|, 1
  {
    marks == [] || LastLedTo(cfg, marks, final)
  }

  ghost predicate LastLedTo(cfg: Config, marks: seq<Mark>, final: Doc)
    requires marks != []
    decreases |marks|, 0
  {
    && LedTo(cfg, marks[|marks| - 1], final)
    && Consecutive(cfg, marks[..|marks| - 1], marks[|marks| - 1].met.doc)
  }

  lemma ConsecutiveRest(cfg: Config, marks: seq<Mark>, final: Doc)
    requires marks != [] && Consecutive(cfg, marks, final)
    ensures Consecutive(cfg, marks[..|marks| - 1], marks[|marks| - 1].met.doc)
  {
    assert LastLedTo(cfg, marks, final);
  }

  lemma {:induction false} ConsecutiveCons(cfg: Config, m: Mark, rest: seq<Mark>, final: Doc)
    requires Consecutive(cfg, rest, final)
    requires LedTo(cfg, m, if rest == [] then final else rest[0].met.doc)
    ensures Consecutive(cfg, [m] + rest, final)
    decreases |rest|
  {
    var marks := [m] + rest;
    if rest != [] {
      var n := |rest| - 1;
      assert marks[..|marks| - 1] == [m] + rest[..n];
      assert LastLedTo(cfg, rest, final);
      ConsecutiveCons(cfg, m, rest[..n], rest[n].met.doc);
    }
    assert LastLedTo(cfg, marks, final);
  }

  lemma UnrecordedKeepsDoc(cfg: Config, s: Session, deleted: seq<string>, op: Op, env: Env)
    requires Stackable(op)
    requires PlanOp(cfg, s, deleted, op, env).Step?
    ensures var q := PlanOp(cfg, s, deleted, op, env);
            && q.change == PlanOp(cfg, s, [], op, env).change
            && q.doc == PlanOp(cfg, s, [], op, env).doc
            && PlanOp(cfg, s, [], op, env).Step?
            && (q.change.None? ==> q.doc == s.doc)
  {
    match op
    case FlagSet(flag, ids) => NothingToSet(s.doc.Flagged(flag), ids);
    case FlagCleared(flag, ids) => NothingToClear(s.doc.Flagged(flag), ids);
    case _ =>
  }

  lemma NothingToSet(held: seq<string>, ids: seq<string>)
    ensures SortedSet(Select(ids, Outside(held))) == [] ==> Union(held, ids) == held
  {
    if Select(ids, Outside(held)) != [] {
      SortedSetNonempty(Select(ids, Outside(held)));
    } else {
      SelectFacts(ids, Outside(held));
      assert forall x :: x in ids ==> x !in Select(ids, Outside(held));
      UnionOfHeld(held, ids);
    }
  }

  lemma NothingToClear(held: seq<string>, ids: seq<string>)
    ensures SortedSet(Select(ids, Inside(held))) == [] ==> RemoveAll(held, ids) == held
  {
    if Select(ids, Inside(held)) != [] {
      SortedSetNonempty(Select(ids, Inside(held)));
    } else {
      SelectFacts(ids, Inside(held));
      assert forall x :: x in ids ==> x !in Select(ids, Inside(held));
      SelectAll(held, Outside(ids));
    }
  }

  lemma {:induction false} UnionOfHeld(held: seq<string>, ids: seq<string>)
    requires forall x :: x in ids ==> x in held
    ensures Union(held, ids) == held
  {
    if ids != [] {
      UnionOfHeld(held, ids[1..]);
    }
  }

  lemma {:induction false} MarksAreConsecutive(cfg: Config, st: Store, ops: seq<(Op, Env)>)
    requires StoreOk(cfg, st)
    requires forall i :: 0 <= i < |ops| ==> Stackable(ops[i].0)
    ensures var marks, final := Marks(cfg, st, ops), Run(cfg, st, ops).session.doc;
            && Consecutive(cfg, marks, final)
            && StoreOk(cfg, Run(cfg, st, ops))
            && st.session.doc == if marks == [] then final else marks[0].met.doc
    decreases |ops|
  {
    if ops != [] {
      var (op, env) := ops[0];
      var r := ApplyOp(cfg, st, op, env);
      if r.Done? {
        PlainOpOk(cfg, st, op, env);
        MarksAreConsecutive(cfg, r.store, ops[1..]);
        MarkLeads(cfg, st, op, env);
        var q := PlanOp(cfg, st.session, st.deleted, op, env);
        if q.change.Some? {
          ConsecutiveCons(cfg, Marks(cfg, st, ops)[0], Marks(cfg, r.store, ops[1..]), Run(cfg, st, ops).session.doc);
        }
      } else {
        MarksAreConsecutive(cfg, st, ops[1..]);
      }
    }
  }

  lemma MarkLeads(cfg: Config, st: Store, op: Op, env: Env)
    requires StoreOk(cfg, st) && Stackable(op) && ApplyOp(cfg, st, op, env).Done?
    ensures var q := PlanOp(cfg, st.session, st.deleted, op, env);
            var doc' := ApplyOp(cfg, st, op, env).store.session.doc;
            && q.Step?
            && (q.change.None? ==> doc' == st.session.doc)
            && (q.change.Some? ==> forall r: Record :: r.change == q.change.value ==>
                  LedTo(cfg, Mark(st.session, op, env, r), doc'))
  {
    UnrecordedKeepsDoc(cfg, st.session, st.deleted, op, env);
  }

  lemma PlainOpOk(cfg: Config, st: Store, op: Op, env: Env)
    requires StoreOk(cfg, st) && Stackable(op) && ApplyOp(cfg, st, op, env).Done?
    ensures StoreOk(cfg, ApplyOp(cfg, st, op, env).store)
  {
    var mint := Longer(st.session.doc.annotations);
    OpKeepsStoreOk(cfg, st, op, env.(mint := mint));
    assert PlanOp(cfg, st.session, st.deleted, op, env) == PlanOp(cfg, st.session, st.deleted, op, env.(mint := mint));
  }

  /** An id longer than every id in the list, hence a new one. */
  function Longer(anns: seq<Ann>): (id: string)
    ensures forall i :: 0 <= i < |anns| ==> |anns[i].id| < |id|
    ensures !HasAnn(anns, id)
  {
    if anns == [] then "x"
    else
      var rest := Longer(anns[1..]);
      assert forall i :: 0 < i < |anns| ==> anns[i] == anns[1..][i - 1];
      rest + anns[0].id + "x"
  }

  // ------------------------------------------------------------ one step back

  lemma StepBackConflictFree(cfg: Config, m: Mark, after: Doc, now: Doc)
    requires LedTo(cfg, m, after) && Shows(now, after)
    ensures Current(now, m.record.change.target) == m.record.change.after
  {
    var c := m.record.change;
    match m.op
    case FlagSet(flag, ids) => FlagConflictFree(cfg, m, after, now);
    case FlagCleared(flag, ids) => FlagConflictFree(cfg, m, after, now);
    case NodeMoved(id, position) => assert id in after.positions;
    case LayoutApplied(places) =>
      forall k | k in c.target.nodeIds ensures Lookup(now.positions, k) == c.after.places[k] {
        assert k in after.positions;
      }
      assert Current(now, c.target).places == c.after.places;
    case IntensitySet(_) =>
  }

  lemma FlagConflictFree(cfg: Config, m: Mark, after: Doc, now: Doc)
    requires LedTo(cfg, m, after) && Shows(now, after) && (m.op.FlagSet? || m.op.FlagCleared?)
    ensures Current(now, m.record.change.target) == m.record.change.after
  {
    var flag, ids := m.op.flag, m.op.ids;
    var held, novel := m.met.doc.Flagged(flag), m.record.change.target.ids;
    assert SameSet(now.Flagged(flag), after.Flagged(flag));
    if m.op.FlagSet? {
      SortedSetFacts(Select(ids, Outside(held)));
      SelectFacts(ids, Outside(held));
      UnionFacts(held, ids);
      SelectAll(novel, Inside(now.Flagged(flag)));
      SortedSetOfAscending(novel);
    } else {
      SortedSetFacts(Select(ids, Inside(held)));
      SelectFacts(ids, Inside(held));
      RemoveAllFacts(held, ids);
      SelectNone(novel, Inside(now.Flagged(flag)));
    }
  }

  lemma MoveStepsBack(cfg: Config, m: Mark, now: Doc, now': Doc)
    requires m.op.NodeMoved? && PlanOf(cfg, m).Step? && Shows(now, PlanOf(cfg, m).doc)
    requires now' == now.(positions := now.positions[m.op.id := Lookup(m.met.doc.positions, m.op.id).GetOr(ORIGIN)])
    ensures Shows(now', m.met.doc)
  {
    var after := PlanOf(cfg, m).doc;
    forall k | k in m.met.doc.positions ensures Lookup(now'.positions, k) == Some(m.met.doc.positions[k]) {
      assert k in after.positions;
    }
  }

  lemma LayoutPlan(cfg: Config, m: Mark)
    requires m.op.LayoutApplied? && PlanOf(cfg, m).Step?
    ensures var doc, past := PlanOf(cfg, m).doc, m.met.doc;
            && doc == past.(positions := doc.positions)
            && doc.positions.Keys == past.positions.Keys + m.op.places.Keys
            && forall k :: k in past.positions && k !in m.op.places ==> doc.positions[k] == past.positions[k]
  {
  }

  lemma LayoutStepsBack(cfg: Config, m: Mark, now: Doc, now': Doc)
    requires m.op.LayoutApplied? && PlanOf(cfg, m).Step? && Shows(now, PlanOf(cfg, m).doc)
    requires now' == now.(positions := now.positions +
      map k | k in m.op.places :: Lookup(m.met.doc.positions, k).GetOr(ORIGIN))
    ensures Shows(now', m.met.doc)
  {
    LayoutPlan(cfg, m);
    hide PlanOf;
    var after := PlanOf(cfg, m).doc;
    forall k | k in m.met.doc.positions ensures Lookup(now'.positions, k) == Some(m.met.doc.positions[k]) {
      assert k in after.positions;
    }
  }

  lemma FlagStepsBack(cfg: Config, m: Mark, now: Doc, now': Doc, list: seq<string>)
    requires (m.op.FlagSet? || m.op.FlagCleared?) && m.op.flag != HiddenEdge
    requires PlanOf(cfg, m).Step? && PlanOf(cfg, m).change == Some(m.record.change)
    requires Shows(now, PlanOf(cfg, m).doc)
    requires now' == now.WithFlagged(m.op.flag, list)
    requires var ids := m.record.change.target.ids;
             forall x :: x in list <==> if m.op.FlagSet? then x in now.Flagged(m.op.flag) && x !in ids
                                        else x in now.Flagged(m.op.flag) || x in ids
    ensures Shows(now', m.met.doc)
  {
    var flag, ids := m.op.flag, m.op.ids;
    var held := m.met.doc.Flagged(flag);
    UnionFacts(held, ids);
    RemoveAllFacts(held, ids);
    SelectFacts(ids, Outside(held));
    SelectFacts(ids, Inside(held));
    SortedSetFacts(Select(ids, Outside(held)));
    SortedSetFacts(Select(ids, Inside(held)));
    assert SameSet(now.Flagged(flag), PlanOf(cfg, m).doc.Flagged(flag));
    forall x ensures x in list <==> x in held {
      assert x in now.Flagged(flag) <==> x in PlanOf(cfg, m).doc.Flagged(flag);
    }
  }

  /** Replaying the inverse of a mark shows the document the mark met. */
  ghost predicate Reverts(cfg: Config, m: Mark, st: Store, env: Env) {
    var r := ApplyOp(cfg, st, m.record.change.inverse, ReplayEnv(env));
    r.Done? && Shows(r.store.session.doc, m.met.doc) && r.store.session.log == st.session.log
  }

  lemma ReplayMove(cfg: Config, m: Mark, after: Doc, st: Store, env: Env)
    requires LedTo(cfg, m, after) && Shows(st.session.doc, after) && m.op.NodeMoved?
    ensures Reverts(cfg, m, st, env)
  {
    var op := NodeMoved(m.op.id, Some(Lookup(m.met.doc.positions, m.op.id).GetOr(ORIGIN)));
    assert m.record.change.inverse == op;
    MoveStepsBack(cfg, m, st.session.doc, ApplyOp(cfg, st, op, ReplayEnv(env)).store.session.doc);
  }

  lemma ReplayLayout(cfg: Config, m: Mark, after: Doc, st: Store, env: Env)
    requires LedTo(cfg, m, after) && Shows(st.session.doc, after) && m.op.LayoutApplied?
    ensures Reverts(cfg, m, st, env)
  {
    hide Shows, Prune;
    var places, past := m.op.places, m.met.doc;
    var normal := map k | k in places && places[k].Some? :: places[k].value;
    var back := map k | k in normal :: Some(Lookup(past.positions, k).GetOr(ORIGIN));
    LayoutInverse(cfg, m);
    LayoutResult(cfg, st, back, ReplayEnv(env));
    var put := map k | k in back && back[k].Some? :: back[k].value;
    assert put == map k | k in places :: Lookup(past.positions, k).GetOr(ORIGIN);
    LayoutStepsBack(cfg, m, st.session.doc, ApplyOp(cfg, st, LayoutApplied(back), ReplayEnv(env)).store.session.doc);
  }

  lemma LayoutInverse(cfg: Config, m: Mark)
    requires m.op.LayoutApplied? && PlanOf(cfg, m).Step? && PlanOf(cfg, m).change == Some(m.record.change)
    ensures var normal := map k | k in m.op.places && m.op.places[k].Some? :: m.op.places[k].value;
            && normal.Keys == m.op.places.Keys
            && m.record.change.inverse ==
               LayoutApplied(map k | k in normal :: Some(Lookup(m.met.doc.positions, k).GetOr(ORIGIN)))
  {
  }

  lemma LayoutResult(cfg: Config, st: Store, places: map<string, Option<Pos>>, env: Env)
    requires (forall k :: k in places ==> places[k].Some?) && !env.record
    ensures var r := ApplyOp(cfg, st, LayoutApplied(places), env);
            var put := map k | k in places && places[k].Some? :: places[k].value;
            && r.Done? && r.store.session.log == st.session.log
            && r.store.session.doc == st.session.doc.(positions := st.session.doc.positions + put)
  {
  }

  lemma ReplayFlag(cfg: Config, m: Mark, after: Doc, st: Store, env: Env)
    requires LedTo(cfg, m, after) && Shows(st.session.doc, after) && (m.op.FlagSet? || m.op.FlagCleared?)
    ensures Reverts(cfg, m, st, env)
  {
    hide Union, RemoveAll, Select, SortedSet, Prune, Shows;
    var now, flag, novel := st.session.doc, m.op.flag, m.record.change.target.ids;
    var op := if m.op.FlagSet? then FlagCleared(flag, novel) else FlagSet(flag, novel);
    assert m.record.change.inverse == op;
    var list := if m.op.FlagSet? then RemoveAll(now.Flagged(flag), novel) else Union(now.Flagged(flag), novel);
    RemoveAllFacts(now.Flagged(flag), novel);
    UnionFacts(now.Flagged(flag), novel);
    FlagStepsBack(cfg, m, now, now.WithFlagged(flag, list), list);
  }

  lemma ReplayShows(cfg: Config, m: Mark, after: Doc, st: Store, env: Env)
    requires LedTo(cfg, m, after) && Shows(st.session.doc, after)
    ensures Reverts(cfg, m, st, env)
  {
    match m.op
    case NodeMoved(_, _) => ReplayMove(cfg, m, after, st, env);
    case LayoutApplied(_) => ReplayLayout(cfg, m, after, st, env);
    case IntensitySet(_) =>
      assert m.record.change.inverse == IntensitySet(Some(m.met.doc.intensity));
    case _ => ReplayFlag(cfg, m, after, st, env);
  }

  // --------------------------------------------------------------- the stack

  /** The newest `k` undoable records of the actor are those of the last `k` marks. */
  ghost predicate OnTop(log: seq<Record>, actor: string, marks: seq<Mark>, k: nat)
    requires k <= |marks|
    decreases k
  {
    k > 0 ==>
      var i := LatestUndoable(log, actor);
      && i.Some?
      && log[i.value].change == marks[|marks| - 1].record.change
      && OnTop(log[..i.value], actor, marks[..|marks| - 1], k - 1)
  }

  lemma {:induction false} OnTopIgnoresRest(log: seq<Record>, log': seq<Record>, actor: string, marks: seq<Mark>, k: nat)
    requires k <= |marks| && OnTop(log, actor, marks, k)
    requires log <= log' && forall j :: |log| <= j < |log'| ==> !Eligible(log'[j], actor)
    ensures OnTop(log', actor, marks, k)
  {
    if k > 0 {
      var i := LatestUndoable(log, actor).value;
      assert log'[i] == log[i];
      assert LatestUndoable(log', actor) == Some(i) by {
        var j := LatestUndoable(log', actor);
        assert j.Some? && (j.value < |log| ==> Eligible(log[j.value], actor));
      }
      assert log'[..i] == log[..i];
    }
  }

  function UndoTimes(cfg: Config, st: Store, actor: string, holders: map<string, string>, envs: seq<Env>): Option<Store>
    decreases |envs|
  {
    if envs == [] then Some(st)
    else
      var r := UndoLast(cfg, st, actor, holders, envs[0]);
      if r.Undone? then UndoTimes(cfg, r.store, actor, holders, envs[1..]) else None
  }

  /** The document as it was `k` recorded actions before the end of the run. */
  function BackBy(marks: seq<Mark>, final: Doc, k: nat): Doc
    requires k <= |marks|
  {
    if k == 0 then final else marks[|marks| - k].met.doc
  }

  lemma {:induction false} UndoMarks(cfg: Config, st: Store, actor: string, holders: map<string, string>,
                                     envs: seq<Env>, marks: seq<Mark>, final: Doc)
    requires Consecutive(cfg, marks, final) && Shows(st.session.doc, final)
    requires |envs| <= |marks| && OnTop(st.session.log, actor, marks, |envs|)
    ensures UndoTimes(cfg, st, actor, holders, envs).Some?
    ensures Shows(UndoTimes(cfg, st, actor, holders, envs).value.session.doc, BackBy(marks, final, |envs|))
    decreases |envs|
  {
    hide UndoLast, LedTo;
    if envs != [] {
      var m, rest := marks[|marks| - 1], marks[..|marks| - 1];
      var st' := UndoTopMark(cfg, st, actor, holders, envs, marks, final);
      assert BackBy(rest, m.met.doc, |envs| - 1) == BackBy(marks, final, |envs|);
      ConsecutiveRest(cfg, marks, final);
      UndoMarks(cfg, st', actor, holders, envs[1..], rest, m.met.doc);
    }
  }

  lemma UndoTopMark(cfg: Config, st: Store, actor: string, holders: map<string, string>,
                    envs: seq<Env>, marks: seq<Mark>, final: Doc) returns (st': Store)
    requires Consecutive(cfg, marks, final) && Shows(st.session.doc, final)
    requires 0 < |envs| <= |marks| && OnTop(st.session.log, actor, marks, |envs|)
    ensures UndoTimes(cfg, st, actor, holders, envs) == UndoTimes(cfg, st', actor, holders, envs[1..])
    ensures Shows(st'.session.doc, marks[|marks| - 1].met.doc)
    ensures OnTop(st'.session.log, actor, marks[..|marks| - 1], |envs| - 1)
  {
    var m := marks[|marks| - 1];
    assert LastLedTo(cfg, marks, final) && LedTo(cfg, m, final);
    var i := LatestUndoable(st.session.log, actor).value;
    StepBackConflictFree(cfg, m, final, st.session.doc);
    ReplayShows(cfg, m, final, st, envs[0]);
    InverseIsPlain(cfg, m);
    st' := UndoOfPlain(cfg, st, actor, holders, envs[0], i);
    var log := st.session.log;
    assert log[..i] <= st'.session.log;
    OnTopIgnoresRest(log[..i], st'.session.log, actor, marks[..|marks| - 1], |envs| - 1);
  }

  /** An unconflicted undo of a record that no annotation is the target of. */
  lemma UndoOfPlain(cfg: Config, st: Store, actor: string, holders: map<string, string>, env: Env, i: nat)
    returns (st': Store)
    requires LatestUndoable(st.session.log, actor) == Some(i)
    requires var c := st.session.log[i].change;
             && Current(st.session.doc, c.target) == c.after
             && !c.inverse.AnnotationCreated? && TargetOf(c.inverse, st.session.doc) == None
             && ApplyOp(cfg, st, c.inverse, ReplayEnv(env)).Done?
             && ApplyOp(cfg, st, c.inverse, ReplayEnv(env)).store.session.log == st.session.log
    ensures var r := UndoLast(cfg, st, actor, holders, env); r.Undone? && r.store == st'
    ensures st'.session.doc == ApplyOp(cfg, st, st.session.log[i].change.inverse, ReplayEnv(env)).store.session.doc
    ensures st'.session.log == st.session.log[i := st.session.log[i].(undone := true)]
  {
    st' := MarkUndone(ApplyOp(cfg, st, st.session.log[i].change.inverse, ReplayEnv(env)).store, i);
  }

  lemma InverseIsPlain(cfg: Config, m: Mark)
    requires Stackable(m.op) && PlanOf(cfg, m).Step? && PlanOf(cfg, m).change == Some(m.record.change)
    ensures var op := m.record.change.inverse;
            !op.AnnotationCreated? && forall doc :: TargetOf(op, doc) == None
  {
  }

  function Records(marks: seq<Mark>): (r: seq<Record>)
    ensures |r| == |marks|
    ensures forall i :: 0 <= i < |r| ==> r[i] == marks[i].record
  {
    seq(|marks|, i requires 0 <= i < |marks| => marks[i].record)
  }

  lemma {:induction false} TailIsOnTop(log: seq<Record>, actor: string, marks: seq<Mark>, k: nat)
    requires k <= |marks| && EndsWith(log, Records(marks)[|marks| - k..])
    requires forall i :: 0 <= i < |marks| ==> Eligible(marks[i].record, actor)
    ensures OnTop(log, actor, marks, k)
    decreases k
  {
    if k > 0 {
      var n, m := |log|, |marks|;
      assert log[n - 1] == log[n - k..][k - 1] == Records(marks)[m - k..][k - 1] == marks[m - 1].record;
      assert log[..n - 1][n - k..] == log[n - k..][..k - 1];
      assert Records(marks[..m - 1])[m - k..] == Records(marks)[m - k..][..k - 1];
      TailIsOnTop(log[..n - 1], actor, marks[..m - 1], k - 1);
    }
  }

  /** The stack law, for records that are still in the log. */
  lemma UndoStackLaw(cfg: Config, st: Store, ops: seq<(Op, Env)>, actor: string,
                     holders: map<string, string>, envs: seq<Env>)
    requires StoreOk(cfg, st)
    requires forall i :: 0 <= i < |ops| ==> Stackable(ops[i].0) && ops[i].1.client == actor
    requires var marks := Marks(cfg, st, ops);
             |envs| <= |marks| && EndsWith(Run(cfg, st, ops).session.log, Records(marks)[|marks| - |envs|..])
    ensures var marks, end := Marks(cfg, st, ops), Run(cfg, st, ops);
            var r := UndoTimes(cfg, end, actor, holders, envs);
            && r.Some?
            && Shows(r.value.session.doc, BackBy(marks, end.session.doc, |envs|))
  {
    hide Run, BackBy, UndoTimes, Stackable, StoreOk;
    var marks, end := Marks(cfg, st, ops), Run(cfg, st, ops);
    MarksAreConsecutive(cfg, st, ops);
    MarksAreTheActors(cfg, st, ops, actor);
    TailIsOnTop(end.session.log, actor, marks, |envs|);
    UndoMarks(cfg, end, actor, holders, envs, marks, end.session.doc);
  }

  lemma {:induction false} MarksAreTheActors(cfg: Config, st: Store, ops: seq<(Op, Env)>, actor: string)
    requires forall i :: 0 <= i < |ops| ==> ops[i].1.client == actor
    ensures forall i :: 0 <= i < |Marks(cfg, st, ops)| ==> Eligible(Marks(cfg, st, ops)[i].record, actor)
    decreases |ops|
  {
    if ops != [] {
      var r := ApplyOp(cfg, st, ops[0].0, ops[0].1);
      MarksAreTheActors(cfg, if r.Done? then r.store else st, ops[1..], actor);
    }
  }

  // --------------------------------------------------- what retention leaves

  lemma LastOfLast<T>(cfg: Config, a: seq<T>, b: seq<T>)
    ensures Capped(cfg, Capped(cfg, a)) == Capped(cfg, a)
    ensures Capped(cfg, Capped(cfg, a) + b) == Capped(cfg, a + b)
  {
    if 0 < cfg.maxRecords < |a| {
      var c := cfg.maxRecords;
      assert (a + b)[|a| + |b| - c..] == (a[|a| - c..] + b)[|b|..];
    }
  }

  /** Records of the run stay in the log up to the cap, as long as the run lasts
      no longer than the maximum age. */
  lemma {:induction false} RunLeavesTail(cfg: Config, st: Store, ops: seq<(Op, Env)>, start: int, tail: seq<Record>)
    requires EndsWith(st.session.log, tail) && Capped(cfg, tail) == tail
    requires forall i :: 0 <= i < |ops| ==> ops[i].1.record && ops[i].1.client != ""
    requires forall i :: 0 <= i < |ops| ==> start <= ops[i].1.now && (cfg.maxAge > 0 ==> ops[i].1.now <= start + cfg.maxAge)
    requires forall r :: r in tail ==> r.at >= start
    ensures EndsWith(Run(cfg, st, ops).session.log, Capped(cfg, tail + Records(Marks(cfg, st, ops))))
    decreases |ops|
  {
    hide ApplyOp, PlanOp, EndsWith, Capped, Prune;
    if ops == [] {
      assert tail + Records(Marks(cfg, st, ops)) == tail;
    } else {
      var st', made := RunHead(cfg, st, ops);
      if made == [] {
        assert tail + made == tail;
        RunLeavesTail(cfg, st', ops[1..], start, tail);
        assert made + Records(Marks(cfg, st', ops[1..])) == Records(Marks(cfg, st', ops[1..]));
      } else {
        StepLeavesTail(cfg, st.session.log, made[0], ops[0].1.now, tail);
        assert [made[0]] == made;
        var tail' := Capped(cfg, tail + made);
        RegroupTail(cfg, tail, made, Records(Marks(cfg, st', ops[1..])));
        CappedWithin(cfg, tail + made);
        RunLeavesTail(cfg, st', ops[1..], start, tail');
      }
    }
  }

  lemma RegroupTail(cfg: Config, tail: seq<Record>, made: seq<Record>, rest: seq<Record>)
    ensures Capped(cfg, Capped(cfg, tail + made)) == Capped(cfg, tail + made)
    ensures Capped(cfg, Capped(cfg, tail + made) + rest) == Capped(cfg, tail + (made + rest))
  {
    hide Capped;
    assert tail + (made + rest) == (tail + made) + rest;
    LastOfLast(cfg, tail + made, rest);
  }

  lemma CappedWithin<T>(cfg: Config, s: seq<T>)
    ensures forall r :: r in Capped(cfg, s) ==> r in s
  {
  }

  /** One step of the run: what it leads to and what it adds to the log. */
  lemma RunHead(cfg: Config, st: Store, ops: seq<(Op, Env)>) returns (st': Store, made: seq<Record>)
    requires ops != [] && ops[0].1.record && ops[0].1.client != ""
    ensures Run(cfg, st, ops) == Run(cfg, st', ops[1..])
    ensures Records(Marks(cfg, st, ops)) == made + Records(Marks(cfg, st', ops[1..]))
    ensures |made| <= 1
    ensures made == [] ==> st'.session.log == st.session.log
    ensures made != [] ==>
      made[0].at == ops[0].1.now && st'.session.log == Prune(cfg, st.session.log + [made[0]], ops[0].1.now)
  {
    var (op, env) := ops[0];
    var o := ApplyOp(cfg, st, op, env);
    var q := PlanOp(cfg, st.session, st.deleted, op, env);
    st' := if o.Done? then o.store else st;
    LogAfter(cfg, st, op, env);
    made := if q.Step? && q.change.Some?
            then [Record(env.client, st.session.seqNo + 1, env.now, q.change.value, false)] else [];
    assert Records(Marks(cfg, st, ops)) == made + Records(Marks(cfg, st', ops[1..]));
  }

  lemma StepLeavesTail(cfg: Config, log: seq<Record>, r: Record, now: int, tail: seq<Record>)
    requires EndsWith(log, tail)
    requires cfg.maxAge > 0 ==> r.at >= now - cfg.maxAge && forall x :: x in tail ==> x.at >= now - cfg.maxAge
    ensures EndsWith(Prune(cfg, log + [r], now), Capped(cfg, tail + [r]))
  {
    assert (log + [r])[|log| - |tail|..] == log[|log| - |tail|..] + [r];
    PruneKeepsTail(cfg, log + [r], tail + [r], now);
  }

  lemma LogAfter(cfg: Config, st: Store, op: Op, env: Env)
    requires env.record && env.client != ""
    ensures var q := PlanOp(cfg, st.session, st.deleted, op, env);
            var r := ApplyOp(cfg, st, op, env);
            && r.Done? == q.Step?
            && (q.Step? && q.change.None? ==> r.store.session.log == st.session.log)
            && (q.Step? && q.change.Some? ==>
                  var made := Record(env.client, st.session.seqNo + 1, env.now, q.change.value, false);
                  r.store.session.log == Prune(cfg, st.session.log + [made], env.now))
  {
    hide PlanOp, Prune;
  }

  lemma SuffixOfSuffix<T>(log: seq<T>, kept: seq<T>, all: seq<T>, k: nat)
    requires EndsWith(log, kept) && EndsWith(all, kept) && k <= |kept|
    ensures EndsWith(log, all[|all| - k..])
  {
    assert log[|log| - k..] == log[|log| - |kept|..][|kept| - k..];
    assert all[|all| - k..] == all[|all| - |kept|..][|kept| - k..];
  }

  /** The stack law with retention resolved: within the record cap and the maximum
      age, any number of undos up to the number of recorded actions goes back. */
  lemma UndoStackWithinRetention(cfg: Config, st: Store, ops: seq<(Op, Env)>, actor: string,
                                 holders: map<string, string>, envs: seq<Env>, start: int)
    requires StoreOk(cfg, st) && actor != ""
    requires forall i :: 0 <= i < |ops| ==> Stackable(ops[i].0) && ops[i].1.client == actor && ops[i].1.record
    requires forall i :: 0 <= i < |ops| ==> start <= ops[i].1.now && (cfg.maxAge > 0 ==> ops[i].1.now <= start + cfg.maxAge)
    requires |envs| <= |Marks(cfg, st, ops)| && (cfg.maxRecords > 0 ==> |envs| <= cfg.maxRecords)
    ensures var marks, end := Marks(cfg, st, ops), Run(cfg, st, ops);
            var r := UndoTimes(cfg, end, actor, holders, envs);
            && r.Some?
            && Shows(r.value.session.doc, BackBy(marks, end.session.doc, |envs|))
  {
    hide *;
    RunTailCapped(cfg, st, ops, start);
    CappedSuffix(cfg, Run(cfg, st, ops).session.log, Records(Marks(cfg, st, ops)), |envs|);
    UndoStackLaw(cfg, st, ops, actor, holders, envs);
  }

  lemma RunTailCapped(cfg: Config, st: Store, ops: seq<(Op, Env)>, start: int)
    requires forall i :: 0 <= i < |ops| ==> ops[i].1.record && ops[i].1.client != ""
    requires forall i :: 0 <= i < |ops| ==> start <= ops[i].1.now && (cfg.maxAge > 0 ==> ops[i].1.now <= start + cfg.maxAge)
    ensures EndsWith(Run(cfg, st, ops).session.log, Capped(cfg, Records(Marks(cfg, st, ops))))
  {
    hide Run, Marks, Prune;
    RunLeavesTail(cfg, st, ops, start, []);
    assert [] + Records(Marks(cfg, st, ops)) == Records(Marks(cfg, st, ops));
  }

  lemma CappedSuffix(cfg: Config, log: seq<Record>, all: seq<Record>, k: nat)
    requires EndsWith(log, Capped(cfg, all))
    requires k <= |all| && (cfg.maxRecords > 0 ==> k <= cfg.maxRecords)
    ensures EndsWith(log, all[|all| - k..])
  {
    SuffixOfSuffix(log, Capped(cfg, all), all, k);
  }
}
