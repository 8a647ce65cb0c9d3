/**
 Tracker and reporter together, as fine-grained as the code lets them
 interleave: a heartbeat may arrive, and the reporter may take any step,
 between any two steps of a running check.
 */
module System {
  import opened Basics
  import opened Heartbeats
  import opened SweepPhases
  import opened Reporting
  import C = Collapser

  // `snap` is what GetRange returned, `todo` the entries still to judge.
  datatype Check = Idle | Running(todo: seq<string>, snap: Store, deletes: seq<string>, puts: seq<Put>)

  datatype World = World(kv: Store, stale: bool, check: Check, desk: Desk)

  datatype WorldStep =
    | Arrive(key: string, timestamp: string, status: string, now: UnixTime)
    | StartCheck(order: seq<string>)
    | JudgeNext(r: Reading, limits: Limits)
    | ApplyNext
    | EndCheck
    | Reporter(s: DeskStep)

  ghost predicate Can(w: World, s: WorldStep) {
    match s
    case Arrive(_, _, _, _) => true
    case StartCheck(order) => w.check.Idle? && Lists(order, w.kv)
    case JudgeNext(_, _) => w.check.Running? && w.check.todo != [] && w.check.todo[0] in w.check.snap
    case ApplyNext => w.check.Running? && w.check.todo == [] && (w.check.deletes != [] || w.check.puts != [])
    case EndCheck => w.check.Running? && w.check.todo == [] && w.check.deletes == [] && w.check.puts == []
    case Reporter(ds) => !ds.Notice? && Enabled(w.desk, ds)
  }

  /** The event that the step emits, if any. */
  ghost function Emits(w: World, s: WorldStep): Option<Event>
    requires Can(w, s)
  {
    match s
    case Arrive(key, timestamp, status, now) =>
      var event := BeatKey(key, Lookup(w.kv, key), timestamp, status, now).1;
      if event.Some? then Some(Event(key, event.value)) else None
    case JudgeNext(r, limits) =>
      var events := Judged(w, r, limits).events;
      if events == [] then None else Some(events[0])
    case _ => None
  }

  /** The turn of the judging loop for the first entry of `todo`. */
  ghost function Judged(w: World, r: Reading, limits: Limits): Plan
    requires w.check.Running? && w.check.todo != [] && w.check.todo[0] in w.check.snap
  {
    var key := w.check.todo[0];
    Extend(Plan(w.check.deletes, w.check.puts, [], 0), key, w.check.snap[key], r, limits, w.stale)
  }

  ghost function Tell(d: Desk, event: Option<Event>): Desk {
    if event.Some? then Step(d, Notice(event.value)) else d
  }

  ghost function Next(w: World, s: WorldStep): World
    requires Can(w, s)
  {
    var desk := Tell(w.desk, Emits(w, s));
    match s
    case Arrive(key, timestamp, status, now) => w.(kv := Beat(w.kv, key, timestamp, status, now), desk := desk)
    case StartCheck(order) => w.(check := Running(order, w.kv, [], []))
    case JudgeNext(r, limits) =>
      var plan := Judged(w, r, limits);
      w.(check := w.check.(todo := w.check.todo[1..], deletes := plan.deletes, puts := plan.puts), desk := desk)
    case ApplyNext =>
      if w.check.deletes != [] then
        w.(kv := w.kv - {w.check.deletes[0]}, check := w.check.(deletes := w.check.deletes[1..]))
      else
        w.(kv := w.kv[w.check.puts[0].key := Record(w.check.puts[0].info)],
           check := w.check.(puts := w.check.puts[1..]))
    case EndCheck => w.(check := Idle, stale := false)
    case Reporter(ds) => w.(desk := Step(w.desk, ds))
  }

  // ---------- the store as it will be once the running check has applied its lists ----------

  function PutFor(puts: seq<Put>, key: string): Option<Info>
    decreases |puts|
  {
    if puts == [] then None else if puts[0].key == key then Some(puts[0].info) else PutFor(puts[1..], key)
  }

  lemma {:induction false} PutForAppend(puts: seq<Put>, p: Put, key: string)
    ensures PutFor(puts + [p], key) ==
            if PutFor(puts, key).Some? then PutFor(puts, key) else if p.key == key then Some(p.info) else None
    decreases |puts|
  {
    if puts != [] {
      assert (puts + [p])[1..] == puts[1..] + [p];
      PutForAppend(puts[1..], p, key);
    }
  }

  function PutKeys(puts: seq<Put>): multiset<string>
    decreases |puts|
  {
    if puts == [] then multiset{} else multiset{puts[0].key} + PutKeys(puts[1..])
  }

  lemma {:induction false} PutKeysAppend(puts: seq<Put>, p: Put)
    ensures PutKeys(puts + [p]) == PutKeys(puts) + multiset{p.key}
    decreases |puts|
  {
    if puts != [] {
      assert (puts + [p])[1..] == puts[1..] + [p];
      PutKeysAppend(puts[1..], p);
    }
  }

  lemma {:induction false} PutForIsThere(puts: seq<Put>, key: string)
    ensures PutFor(puts, key).Some? <==> key in PutKeys(puts)
    ensures PutFor(puts, key).Some? ==> Put(key, PutFor(puts, key).value) in puts
    decreases |puts|
  {
    if puts != [] {
      assert puts == [puts[0]] + puts[1..];
      PutForIsThere(puts[1..], key);
    }
  }

  function Effective(w: World, key: string): Option<Stored> {
    if w.check.Idle? then Lookup(w.kv, key)
    else if key in w.check.deletes then None
    else match PutFor(w.check.puts, key)
      case Some(info) => Some(Record(info))
      case None => Lookup(w.kv, key)
  }

  function PhaseIn(w: World, key: string): Phase {
    PhaseOf(Effective(w, key))
  }

  /** The keys that the running check has yet to judge or to apply. */
  function Work(c: Check): multiset<string> {
    if c.Idle? then multiset{} else multiset(c.todo) + multiset(c.deletes) + PutKeys(c.puts)
  }

  ghost predicate OnceOnly(m: multiset<string>) {
    forall key :: m[key] <= 1
  }

  lemma FewerStillOnce(m: multiset<string>, x: string, rest: multiset<string>)
    requires OnceOnly(m) && m == multiset{x} + rest
    ensures OnceOnly(rest) && x !in rest
  {
    forall key
      ensures rest[key] <= 1
    {
      assert m[key] <= 1;
    }
    assert m[x] <= 1;
  }

  ghost predicate IsRecord(kv: Store, key: string) {
    key in kv && kv[key].Record?
  }

  /** The snapshot may be old, but it shows the phase that the store still shows. */
  ghost predicate TodoFits(kv: Store, snap: Store, key: string) {
    && key in snap && InRange(key)
    && PhaseOf(Lookup(kv, key)) == PhaseOf(Some(snap[key]))
    && (snap[key].Record? ==> snap[key].info.component == key)
  }

  ghost predicate PutFits(kv: Store, p: Put) {
    p.info.component == p.key && InRange(p.key) && IsRecord(kv, p.key)
  }

  ghost predicate CheckInv(w: World) {
    && OnceOnly(Work(w.check))
    && (w.check.Running? ==>
          && (forall key :: key in w.check.todo ==> TodoFits(w.kv, w.check.snap, key))
          && (forall key :: key in w.check.deletes ==> IsRecord(w.kv, key))
          && (forall p :: p in w.check.puts ==> PutFits(w.kv, p)))
  }

  ghost predicate WorldInv(w: World) {
    KeyedByComponent(w.kv) && CheckInv(w) && DeskInv(w.desk)
  }

  // ---------- one step ----------

  function KindFor(event: Option<Event>, key: string): Option<Kind> {
    if event.Some? && event.value.component == key then Some(event.value.kind) else None
  }

  lemma StartKeepsInv(w: World, order: seq<string>)
    requires WorldInv(w) && Can(w, StartCheck(order))
    ensures CheckInv(Next(w, StartCheck(order)))
  {
    OnceEach(order);
  }

  lemma {:induction false} OnceEach(order: seq<string>)
    requires forall i, j :: 0 <= i < j < |order| ==> order[i] != order[j]
    ensures OnceOnly(multiset(order))
    decreases |order|
  {
    if order != [] {
      var init := order[..|order| - 1];
      assert order == init + [order[|order| - 1]];
      OnceEach(init);
      assert order[|order| - 1] !in init;
    }
  }

  lemma BeatAt(kv: Store, s: WorldStep, key: string)
    requires s.Arrive?
    ensures var kv' := Beat(kv, s.key, s.timestamp, s.status, s.now);
            Lookup(kv', key) ==
            if key == s.key then BeatKey(key, Lookup(kv, key), s.timestamp, s.status, s.now).0 else Lookup(kv, key)
  {
  }

  lemma ArriveKeepsInv(w: World, s: WorldStep)
    requires WorldInv(w) && s.Arrive?
    ensures KeyedByComponent(Next(w, s).kv) && CheckInv(Next(w, s))
  {
    var kv' := Next(w, s).kv;
    forall key
      ensures IsRecord(w.kv, key) ==> IsRecord(kv', key)
      ensures w.check.Running? && TodoFits(w.kv, w.check.snap, key) ==> TodoFits(kv', w.check.snap, key)
    {
      BeatAt(w.kv, s, key);
      BeatMovesPhase(key, Lookup(w.kv, key), s.timestamp, s.status, s.now);
    }
  }

  /** A component that the running check is about to delete or store has a record, so its heartbeat is no start. */
  lemma ArriveDuringApply(w: World, s: WorldStep)
    requires CheckInv(w) && s.Arrive? && w.check.Running?
    requires s.key in w.check.deletes || PutFor(w.check.puts, s.key).Some?
    ensures Emits(w, s).None?
  {
    PutForIsThere(w.check.puts, s.key);
    if s.key !in w.check.deletes {
      assert PutFits(w.kv, Put(s.key, PutFor(w.check.puts, s.key).value));
    }
  }

  /** A heartbeat neither warns nor clears: it refreshes a record, or makes one. */
  lemma ArriveMoves(w: World, s: WorldStep, key: string)
    requires WorldInv(w) && s.Arrive?
    ensures MovesPhase(PhaseIn(w, key), KindFor(Emits(w, s), key), PhaseIn(Next(w, s), key), w.stale)
  {
    BeatAt(w.kv, s, key);
    BeatMovesPhase(s.key, Lookup(w.kv, s.key), s.timestamp, s.status, s.now);
    if w.check.Running? && (s.key in w.check.deletes || PutFor(w.check.puts, s.key).Some?) {
      ArriveDuringApply(w, s);
    }
  }

  lemma DeleteKeepsInv(w: World)
    requires WorldInv(w) && Can(w, ApplyNext) && w.check.deletes != []
    ensures KeyedByComponent(Next(w, ApplyNext).kv) && CheckInv(Next(w, ApplyNext))
  {
    var (first, c') := (w.check.deletes[0], Next(w, ApplyNext).check);
    var kv' := w.kv - {first};
    assert w.check.deletes == [first] + c'.deletes;
    FewerStillOnce(Work(w.check), first, Work(c'));
    forall key | key in c'.deletes
      ensures IsRecord(kv', key)
    {
      assert key in multiset(c'.deletes) && IsRecord(w.kv, key);
    }
    forall p | p in c'.puts
      ensures PutFits(kv', p)
    {
      ListedPut(c'.puts, p);
      assert PutFits(w.kv, p);
    }
  }

  /** A key that is deleted is not deleted or stored again. */
  lemma DeletedOnce(c: Check)
    requires c.Running? && c.deletes != [] && OnceOnly(Work(c))
    ensures c.deletes[0] !in c.deletes[1..] && c.deletes[0] !in PutKeys(c.puts)
    ensures forall key :: key in c.deletes <==> key == c.deletes[0] || key in c.deletes[1..]
  {
    var rest := c.(deletes := c.deletes[1..]);
    assert c.deletes == [c.deletes[0]] + c.deletes[1..];
    FewerStillOnce(Work(c), c.deletes[0], Work(rest));
    assert c.deletes[0] !in multiset(rest.deletes);
  }

  lemma DeleteMoves(w: World, key: string)
    requires WorldInv(w) && Can(w, ApplyNext) && w.check.deletes != []
    ensures Effective(Next(w, ApplyNext), key) == Effective(w, key)
  {
    DeletedOnce(w.check);
    PutForIsThere(w.check.puts, key);
  }

  lemma {:induction false} ListedPut(puts: seq<Put>, p: Put)
    requires p in puts
    ensures p.key in PutKeys(puts)
    decreases |puts|
  {
    if puts[0] != p {
      ListedPut(puts[1..], p);
    }
  }

  lemma StoreKeepsInv(w: World)
    requires WorldInv(w) && Can(w, ApplyNext) && w.check.deletes == []
    ensures KeyedByComponent(Next(w, ApplyNext).kv) && CheckInv(Next(w, ApplyNext))
  {
    var (puts, c') := (w.check.puts, Next(w, ApplyNext).check);
    assert puts == [puts[0]] + puts[1..];
    assert PutFits(w.kv, puts[0]);
    FewerStillOnce(Work(w.check), puts[0].key, Work(c'));
    forall p | p in puts[1..]
      ensures PutFits(Next(w, ApplyNext).kv, p)
    {
      assert PutFits(w.kv, p);
    }
  }

  lemma StoreMoves(w: World, key: string)
    requires WorldInv(w) && Can(w, ApplyNext) && w.check.deletes == []
    ensures Effective(Next(w, ApplyNext), key) == Effective(w, key)
  {
    var (puts, c') := (w.check.puts, Next(w, ApplyNext).check);
    FewerStillOnce(Work(w.check), puts[0].key, Work(c'));
    PutForIsThere(puts[1..], key);
  }

  lemma SameKeysStillOnce(m: multiset<string>, n: multiset<string>)
    requires OnceOnly(m) && m == n
    ensures OnceOnly(n)
  {
  }

  /** Taking the first key off `todo`, wherever it goes, brings no key in twice. */
  lemma WorkMoves(todo: seq<string>, snap: Store, deletes: seq<string>, puts: seq<Put>, info: Info)
    requires todo != [] && OnceOnly(Work(Running(todo, snap, deletes, puts)))
    ensures OnceOnly(Work(Running(todo[1..], snap, deletes, puts)))
    ensures OnceOnly(Work(Running(todo[1..], snap, deletes + [todo[0]], puts)))
    ensures OnceOnly(Work(Running(todo[1..], snap, deletes, puts + [Put(todo[0], info)])))
  {
    var (t, d, p, one) := (multiset(todo[1..]), multiset(deletes), PutKeys(puts), multiset{todo[0]});
    var all := Work(Running(todo, snap, deletes, puts));
    assert multiset(todo) == one + t by {
      assert todo == [todo[0]] + todo[1..];
    }
    assert all == one + (t + d + p);
    FewerStillOnce(all, todo[0], t + d + p);
    SameKeysStillOnce(all, t + (d + one) + p);
    PutKeysAppend(puts, Put(todo[0], info));
    SameKeysStillOnce(all, t + d + (p + one));
  }

  /** Where the judged key goes. */
  lemma JudgedShape(w: World, s: WorldStep) returns (info: Info)
    requires s.JudgeNext? && Can(w, s) && TodoFits(w.kv, w.check.snap, w.check.todo[0])
    ensures var (c, c') := (w.check, Next(w, s).check);
            || c' == Running(c.todo[1..], c.snap, c.deletes, c.puts)
            || c' == Running(c.todo[1..], c.snap, c.deletes + [c.todo[0]], c.puts)
            || c' == Running(c.todo[1..], c.snap, c.deletes, c.puts + [Put(c.todo[0], info)])
  {
    var verdict := Treat(w.check.todo[0], w.check.snap[w.check.todo[0]], s.r, s.limits, w.stale);
    info := if verdict.Update? then verdict.info else Info("", "", "", "", NoWarning);
  }

  lemma JudgeWork(w: World, s: WorldStep)
    requires s.JudgeNext? && Can(w, s) && OnceOnly(Work(w.check))
    requires TodoFits(w.kv, w.check.snap, w.check.todo[0])
    ensures OnceOnly(Work(Next(w, s).check))
  {
    var info := JudgedShape(w, s);
    WorkMoves(w.check.todo, w.check.snap, w.check.deletes, w.check.puts, info);
  }

  lemma JudgeKeepsInv(w: World, s: WorldStep)
    requires WorldInv(w) && s.JudgeNext? && Can(w, s)
    ensures CheckInv(Next(w, s))
  {
    var (c, c', first) := (w.check, Next(w, s).check, w.check.todo[0]);
    assert TodoFits(w.kv, c.snap, first);
    JudgeWork(w, s);
    assert c.snap[first].Record? ==> IsRecord(w.kv, first);
    forall key | key in c'.todo
      ensures TodoFits(w.kv, c.snap, key)
    {
      assert key in c.todo;
    }
    forall key | key in c'.deletes
      ensures IsRecord(w.kv, key)
    {
      assert key in c.deletes || key == first;
    }
    forall p | p in c'.puts
      ensures PutFits(w.kv, p)
    {
      assert p in c.puts || p.key == first == p.info.component;
    }
  }

  lemma JudgeOther(w: World, s: WorldStep, key: string)
    requires WorldInv(w) && s.JudgeNext? && Can(w, s) && key != w.check.todo[0]
    ensures Effective(Next(w, s), key) == Effective(w, key)
    ensures KindFor(Emits(w, s), key) == None
  {
    var first := w.check.todo[0];
    assert TodoFits(w.kv, w.check.snap, first);
    var verdict := Treat(first, w.check.snap[first], s.r, s.limits, w.stale);
    if verdict.Update? {
      PutForAppend(w.check.puts, Put(first, verdict.info), key);
    }
  }

  /** What a judgement decides for its own component, of which nothing was outstanding. */
  lemma JudgeDecides(w: World, s: WorldStep)
    requires WorldInv(w) && s.JudgeNext? && Can(w, s)
    ensures var key := w.check.todo[0];
            && Effective(w, key) == Lookup(w.kv, key)
            && Effective(Next(w, s), key) ==
               match Treat(key, w.check.snap[key], s.r, s.limits, w.stale)
               case Keep => Lookup(w.kv, key)
               case Update(info, _) => Some(Record(info))
               case Remove => None
  {
    var (snap, first) := (w.check.snap, w.check.todo[0]);
    assert first in multiset(w.check.todo);
    assert TodoFits(w.kv, snap, first);
    assert Work(w.check)[first] <= 1;
    PutForIsThere(w.check.puts, first);
    var verdict := Treat(first, snap[first], s.r, s.limits, w.stale);
    if verdict.Update? {
      PutForAppend(w.check.puts, Put(first, verdict.info), first);
    }
  }

  lemma JudgeFirst(w: World, s: WorldStep)
    requires WorldInv(w) && s.JudgeNext? && Can(w, s)
    ensures var key := w.check.todo[0];
            MovesPhase(PhaseIn(w, key), KindFor(Emits(w, s), key), PhaseIn(Next(w, s), key), w.stale)
  {
    var first := w.check.todo[0];
    JudgeDecides(w, s);
    assert TodoFits(w.kv, w.check.snap, first);
    ParamKeyOutOfRange();
    CheckMovesPhase(first, Lookup(w.check.snap, first), s.r, s.limits, w.stale);
  }

  lemma JudgeMoves(w: World, s: WorldStep, key: string)
    requires WorldInv(w) && s.JudgeNext? && Can(w, s)
    ensures MovesPhase(PhaseIn(w, key), KindFor(Emits(w, s), key), PhaseIn(Next(w, s), key), w.stale)
  {
    if key == w.check.todo[0] {
      JudgeFirst(w, s);
    } else {
      JudgeOther(w, s, key);
    }
  }

  /**
   Every step, wherever it falls in a running check, moves the phase of each
   component along the event automaton: by the event it emits, or not at all.
   */
  lemma StepMoves(w: World, s: WorldStep, key: string)
    requires WorldInv(w) && Can(w, s)
    ensures KeyedByComponent(Next(w, s).kv) && CheckInv(Next(w, s))
    ensures MovesPhase(PhaseIn(w, key), KindFor(Emits(w, s), key), PhaseIn(Next(w, s), key), w.stale)
  {
    match s
    case Arrive(_, _, _, _) => ArriveKeepsInv(w, s); ArriveMoves(w, s, key);
    case StartCheck(order) => StartKeepsInv(w, order);
    case JudgeNext(_, _) => JudgeKeepsInv(w, s); JudgeMoves(w, s, key);
    case ApplyNext =>
      if w.check.deletes != [] {
        DeleteKeepsInv(w);
        DeleteMoves(w, key);
      } else {
        StoreKeepsInv(w);
        StoreMoves(w, key);
      }
    case EndCheck =>
    case Reporter(_) =>
  }

  lemma StepKeepsWorldInv(w: World, s: WorldStep)
    requires WorldInv(w) && Can(w, s)
    ensures WorldInv(Next(w, s))
  {
    StepMoves(w, s, "");
    if s.Reporter? {
      StepKeepsInv(w.desk, s.s);
    } else if Emits(w, s).Some? {
      StepKeepsInv(w.desk, Notice(Emits(w, s).value));
    }
  }

  // ---------- HSM and the store agree ----------

  /** What HSM shows, or is about to be told, of a component in the given phase. */
  predicate Agrees(view: Option<View>, phase: Phase) {
    match phase
    case Absent => view == None || view == Some(View(Standby, Alert))
    case Alive => view == Some(View(Ready, OK))
    case Warned => view == Some(View(Ready, Warning))
    case Unreadable => true
  }

  ghost predicate Coupled(w: World, key: string) {
    Agrees(Overlay(w.desk, key), PhaseIn(w, key))
  }

  /** If the step closes a round, then one that spares the component. */
  ghost predicate SparingNext(w: World, s: WorldStep, key: string)
    requires Can(w, s)
  {
    s.Reporter? ==> SparingStep(w.desk, s.s, key)
  }

  lemma MovesAgree(before: Phase, view: Option<View>, event: Option<Kind>, stale: bool, after: Phase)
    requires Agrees(view, before) && MovesPhase(before, event, after, stale)
    ensures Agrees(if event.Some? then Some(KindView(event.value)) else view, after)
  {
  }

  /** The overlay follows the events, and nothing else. */
  lemma StepOverlay(w: World, s: WorldStep, key: string)
    requires DeskInv(w.desk) && Can(w, s) && SparingNext(w, s, key)
    ensures var event := KindFor(Emits(w, s), key);
            Overlay(Next(w, s).desk, key) == if event.Some? then Some(KindView(event.value)) else Overlay(w.desk, key)
  {
    if s.Reporter? {
      OverlayStep(w.desk, s.s, key);
    } else if Emits(w, s).Some? {
      OverlayStep(w.desk, Notice(Emits(w, s).value), key);
    }
  }

  lemma StepKeepsCoupled(w: World, s: WorldStep, key: string)
    requires WorldInv(w) && Coupled(w, key) && Can(w, s) && SparingNext(w, s, key)
    ensures Coupled(Next(w, s), key)
  {
    StepMoves(w, s, key);
    StepOverlay(w, s, key);
    MovesAgree(PhaseIn(w, key), Overlay(w.desk, key), KindFor(Emits(w, s), key), w.stale, PhaseIn(Next(w, s), key));
  }

  // ---------- runs ----------

  ghost predicate Feasible(w: World, steps: seq<WorldStep>)
    decreases |steps|
  {
    steps == [] || (Can(w, steps[0]) && Feasible(Next(w, steps[0]), steps[1..]))
  }

  ghost function End(w: World, steps: seq<WorldStep>): World
    requires Feasible(w, steps)
    decreases |steps|
  {
    if steps == [] then w else End(Next(w, steps[0]), steps[1..])
  }

  /** Every round that the run closes spares the component. */
  ghost predicate SparingSteps(w: World, steps: seq<WorldStep>, key: string)
    requires Feasible(w, steps)
    decreases |steps|
  {
    steps == [] || (SparingNext(w, steps[0], key) && SparingSteps(Next(w, steps[0]), steps[1..], key))
  }

  /** Every round that the run closes had all its PATCHes acknowledged, or none. */
  ghost predicate UniformSteps(w: World, steps: seq<WorldStep>)
    requires Feasible(w, steps)
    decreases |steps|
  {
    steps == [] ||
    (UniformStep(w, steps[0]) && UniformSteps(Next(w, steps[0]), steps[1..]))
  }

  ghost predicate UniformStep(w: World, s: WorldStep)
    requires Can(w, s)
  {
    s == Reporter(Close) ==>
      var acked := AckedKinds(w.desk.round.results);
      acked == {} || forall kind :: C.Needed(w.desk.q.local, kind) ==> kind in acked
  }

  lemma {:induction false} UniformRunsSpareAll(w: World, steps: seq<WorldStep>, key: string)
    requires Feasible(w, steps) && UniformSteps(w, steps)
    ensures SparingSteps(w, steps, key)
    decreases |steps|
  {
    if steps != [] {
      if steps[0] == Reporter(Close) {
        C.UniformRoundsAreClean(w.desk.q.local, AckedKinds(w.desk.round.results));
        C.CleanMeansAllSpared(w.desk.q, AckedKinds(w.desk.round.results));
      }
      UniformRunsSpareAll(Next(w, steps[0]), steps[1..], key);
    }
  }

  /**
   In every run, whatever the interleaving, HSM overlaid with what is queued fits
   what is stored of each component that was in agreement at the start and that
   every round of the run spared, whatever the rounds did to others.
   */
  lemma {:induction false} RunKeepsCoupled(w: World, steps: seq<WorldStep>, key: string)
    requires WorldInv(w) && Coupled(w, key) && Feasible(w, steps) && SparingSteps(w, steps, key)
    ensures WorldInv(End(w, steps)) && Coupled(End(w, steps), key)
    decreases |steps|
  {
    if steps != [] {
      StepKeepsWorldInv(w, steps[0]);
      StepKeepsCoupled(w, steps[0], key);
      RunKeepsCoupled(Next(w, steps[0]), steps[1..], key);
    }
  }

  /** Between checks that means: the records themselves fit. */
  lemma RecordsFitOutsideChecks(w: World, steps: seq<WorldStep>, key: string)
    requires WorldInv(w) && Coupled(w, key) && Feasible(w, steps) && SparingSteps(w, steps, key)
    requires End(w, steps).check.Idle?
    ensures Agrees(Overlay(End(w, steps).desk, key), PhaseOf(Lookup(End(w, steps).kv, key)))
  {
    RunKeepsCoupled(w, steps, key);
  }

  /**
   Once a round got through what was queued for the component and nothing new happened
   to it, HSM itself fits the store.
   */
  lemma HsmFitsOnceAcknowledged(w: World, steps: seq<WorldStep>, key: string)
    requires WorldInv(w) && Coupled(w, key) && Feasible(w, steps) && SparingSteps(w, steps, key)
    requires End(w, steps).check.Idle? && Enabled(End(w, steps).desk, Close) && GotThrough(End(w, steps).desk, key)
    ensures var w' := Next(End(w, steps), Reporter(Close));
            && Agrees(if key in w'.desk.hsm then Some(w'.desk.hsm[key]) else None, PhaseOf(Lookup(w'.kv, key)))
            && C.Pending(w'.desk.q, key).None?
  {
    RunKeepsCoupled(w, steps, key);
    AcknowledgedIsSettled(End(w, steps).desk, key);
  }

  /** The daemon started with an empty store and an HSM that knows nothing. */
  lemma FreshStartIsCoupled(stale: bool)
    ensures var w := World(map[], stale, Idle, EMPTY_DESK); WorldInv(w) && forall key :: Coupled(w, key)
  {
    EmptyDeskInv();
  }

  // ---------- the language of events ----------

  /** The events of the component, in this order, lead from one phase to another along the automaton. */
  ghost predicate Leads(from: Phase, events: seq<Event>, key: string, stale: bool, to: Phase)
    decreases |events|
  {
    if events == [] then from == to
    else if events[0].component != key then Leads(from, events[1..], key, stale, to)
    else Legal(from, events[0].kind, stale) && Leads(PhaseAfter(events[0].kind), events[1..], key, stale, to)
  }

  ghost function Emitted(w: World, steps: seq<WorldStep>): seq<Event>
    requires Feasible(w, steps)
    decreases |steps|
  {
    if steps == [] then []
    else OneEvent(Emits(w, steps[0])) + Emitted(Next(w, steps[0]), steps[1..])
  }

  lemma {:induction false} LeadsRelaxes(from: Phase, events: seq<Event>, key: string, to: Phase)
    requires Leads(from, events, key, false, to)
    ensures Leads(from, events, key, true, to)
    decreases |events|
  {
    if events != [] {
      LeadsRelaxes(if events[0].component == key then PhaseAfter(events[0].kind) else from, events[1..], key, to);
    }
  }

  /**
   For any clocks, limits, interleaving and PATCH outcomes: the events of each
   component form a path of the automaton, ending in the phase its record shows;
   a repeated warning is possible only while the gap of the start is not over.
   */
  lemma {:induction false} EventsFormAPath(w: World, steps: seq<WorldStep>, key: string)
    requires WorldInv(w) && Feasible(w, steps)
    ensures Leads(PhaseIn(w, key), Emitted(w, steps), key, w.stale, PhaseIn(End(w, steps), key))
    decreases |steps|
  {
    if steps != [] {
      var w1 := Next(w, steps[0]);
      StepKeepsWorldInv(w, steps[0]);
      StepMoves(w, steps[0], key);
      EventsFormAPath(w1, steps[1..], key);
      var rest := Emitted(w1, steps[1..]);
      var to := PhaseIn(End(w1, steps[1..]), key);
      if w.stale && !w1.stale {
        LeadsRelaxes(PhaseIn(w1, key), rest, key, to);
      }
      assert Leads(PhaseIn(w1, key), rest, key, w.stale, to);
      LeadsCons(PhaseIn(w, key), Emits(w, steps[0]), PhaseIn(w1, key), rest, key, w.stale, to);
    }
  }

  function OneEvent(event: Option<Event>): seq<Event> {
    if event.Some? then [event.value] else []
  }

  lemma LeadsCons(from: Phase, event: Option<Event>, mid: Phase, rest: seq<Event>, key: string, stale: bool, to: Phase)
    requires MovesPhase(from, KindFor(event, key), mid, stale) && Leads(mid, rest, key, stale, to)
    ensures Leads(from, OneEvent(event) + rest, key, stale, to)
  {
    assert (OneEvent(event) + rest)[|OneEvent(event)|..] == rest;
    if event.None? {
      assert OneEvent(event) + rest == rest;
    }
  }

  lemma StepLogs(w: World, s: WorldStep)
    requires Can(w, s)
    ensures Next(w, s).desk.log == w.desk.log + OneEvent(Emits(w, s))
    ensures Next(w, s).stale ==> w.stale
  {
  }

  /** The log is what the run emitted, and a gap that is over does not come back. */
  lemma {:induction false} LogIsWhatWasEmitted(w: World, steps: seq<WorldStep>)
    requires Feasible(w, steps)
    ensures End(w, steps).desk.log == w.desk.log + Emitted(w, steps)
    ensures End(w, steps).stale ==> w.stale
    decreases |steps|
  {
    if steps != [] {
      var w1 := Next(w, steps[0]);
      StepLogs(w, steps[0]);
      LogIsWhatWasEmitted(w1, steps[1..]);
      assert w.desk.log + OneEvent(Emits(w, steps[0])) + Emitted(w1, steps[1..]) == w.desk.log + Emitted(w, steps);
    }
  }

  // ---------- a check that nothing interrupts ----------

  /** The world after the first n entries were judged, each with its own readings of the clock. */
  ghost function AfterJudging(w: World, order: seq<string>, clock: Clock, limits: Limits, n: nat): World
    requires w.check.Idle? && Lists(order, w.kv) && n <= |order|
    ensures var w' := AfterJudging(w, order, clock, limits, n);
            && w'.kv == w.kv && w'.stale == w.stale && w'.check.Running?
            && w'.check.todo == order[n..] && w'.check.snap == w.kv
    decreases n
  {
    if n == 0 then Next(w, StartCheck(order))
    else Next(AfterJudging(w, order, clock, limits, n - 1), JudgeNext(clock(order[n - 1]), limits))
  }

  /** A turn of the loop does not depend on what the lists hold already. */
  lemma ExtendAppends(plan: Plan, key: string, st: Stored, r: Reading, limits: Limits, stale: bool)
    ensures var full := Extend(plan, key, st, r, limits, stale);
            var lone := Extend(Plan(plan.deletes, plan.puts, [], 0), key, st, r, limits, stale);
            && full.deletes == lone.deletes && full.puts == lone.puts
            && full.events == plan.events + lone.events && |lone.events| <= 1
  {
  }

  /** Telling the reporter `lone`, at most one event, after `events`. */
  lemma TellAppends(d: Desk, lone: seq<Event>, log: seq<Event>, q: C.Queue, events: seq<Event>)
    requires |lone| <= 1 && d.log == log + events && d.q == C.NotifyAll(q, events)
    ensures var d' := Tell(d, if lone == [] then None else Some(lone[0]));
            d'.log == log + (events + lone) && d'.q == C.NotifyAll(q, events + lone)
  {
    if lone == [] {
      assert events + lone == events;
    } else {
      assert (events + lone)[..|events|] == events;
      assert log + events + lone == log + (events + lone);
    }
  }

  /**
   If the lists so far are those of `plan`, one more turn makes them those of the
   extended plan, and tells the reporter the rest.
   */
  lemma JudgeExtends(w: World, r: Reading, limits: Limits, plan: Plan, log: seq<Event>, q: C.Queue)
    requires Can(w, JudgeNext(r, limits))
    requires w.check.deletes == plan.deletes && w.check.puts == plan.puts
    requires w.desk.log == log + plan.events && w.desk.q == C.NotifyAll(q, plan.events)
    ensures var key := w.check.todo[0];
            var plan' := Extend(plan, key, w.check.snap[key], r, limits, w.stale);
            var w' := Next(w, JudgeNext(r, limits));
            && w'.check.deletes == plan'.deletes && w'.check.puts == plan'.puts
            && w'.desk.log == log + plan'.events && w'.desk.q == C.NotifyAll(q, plan'.events)
  {
    var key := w.check.todo[0];
    ExtendAppends(plan, key, w.check.snap[key], r, limits, w.stale);
    TellAppends(w.desk, Judged(w, r, limits).events, log, q, plan.events);
  }

  lemma {:induction false} JudgingPlans(w: World, order: seq<string>, clock: Clock, limits: Limits, n: nat)
    requires w.check.Idle? && Lists(order, w.kv) && n <= |order|
    ensures var w' := AfterJudging(w, order, clock, limits, n);
            var plan := Planned(order[..n], w.kv, clock, limits, w.stale);
            && w'.check.deletes == plan.deletes && w'.check.puts == plan.puts
            && w'.desk.log == w.desk.log + plan.events && w'.desk.q == C.NotifyAll(w.desk.q, plan.events)
    decreases n
  {
    if n > 0 {
      JudgingPlans(w, order, clock, limits, n - 1);
      assert order[..n][..n - 1] == order[..n - 1];
      var before := AfterJudging(w, order, clock, limits, n - 1);
      assert before.check.todo[0] == order[n - 1];
      JudgeExtends(before, clock(order[n - 1]), limits, Planned(order[..n - 1], w.kv, clock, limits, w.stale),
          w.desk.log, w.desk.q);
    }
  }

  ghost function AfterDeleting(w: World, n: nat): World
    requires w.check.Running? && w.check.todo == [] && n <= |w.check.deletes|
    ensures var w' := AfterDeleting(w, n);
            && w'.stale == w.stale && w'.desk == w.desk
            && w'.check == w.check.(deletes := w.check.deletes[n..])
            && w'.kv == AfterDeletes(w.kv, w.check.deletes[..n])
    decreases n
  {
    if n == 0 then w
    else
      assert w.check.deletes[..n][..n - 1] == w.check.deletes[..n - 1];
      Next(AfterDeleting(w, n - 1), ApplyNext)
  }

  ghost function AfterStoring(w: World, n: nat): World
    requires w.check.Running? && w.check.todo == [] && w.check.deletes == [] && n <= |w.check.puts|
    ensures var w' := AfterStoring(w, n);
            && w'.stale == w.stale && w'.desk == w.desk
            && w'.check == w.check.(puts := w.check.puts[n..])
            && w'.kv == AfterPuts(w.kv, w.check.puts[..n])
    decreases n
  {
    if n == 0 then w
    else
      assert w.check.puts[..n][..n - 1] == w.check.puts[..n - 1];
      Next(AfterStoring(w, n - 1), ApplyNext)
  }

  ghost function AfterApplying(w: World): World
    requires w.check.Running? && w.check.todo == []
  {
    var deleted := AfterDeleting(w, |w.check.deletes|);
    AfterStoring(deleted, |deleted.check.puts|)
  }

  lemma ApplyingStores(w: World)
    requires w.check.Running? && w.check.todo == []
    ensures var w' := AfterApplying(w);
            && w'.kv == AfterPuts(AfterDeletes(w.kv, w.check.deletes), w.check.puts)
            && w'.desk == w.desk && Can(w', EndCheck)
  {
    var c := w.check;
    assert c.deletes[..|c.deletes|] == c.deletes && c.puts[..|c.puts|] == c.puts;
  }

  /**
   All the turns of a check together, nothing else happening: the store and the reporter
   are as the atomic check leaves them.
   */
  lemma AppliedIsSweep(w: World, order: seq<string>, clock: Clock, limits: Limits, judged: World)
    requires KeyedByComponent(w.kv) && w.check.Idle? && Lists(order, w.kv)
    requires judged == AfterJudging(w, order, clock, limits, |order|)
    ensures var (applied, plan) := (AfterApplying(judged), Planned(order, w.kv, clock, limits, w.stale));
            && Can(applied, EndCheck) && applied.kv == Sweep(w.kv, clock, limits, w.stale)
            && applied.desk.log == w.desk.log + plan.events
            && applied.desk.q == C.NotifyAll(w.desk.q, plan.events)
  {
    JudgingPlans(w, order, clock, limits, |order|);
    assert order[..|order|] == order;
    ApplyingStores(judged);
    PhasesAreSweep(order, w.kv, clock, limits, w.stale);
  }

  /** With nothing in between, the steps of a check end in exactly the atomic Sweep and emit exactly its events. */
  lemma UninterruptedCheckIsSweep(w: World, order: seq<string>, clock: Clock, limits: Limits)
    requires KeyedByComponent(w.kv) && w.check.Idle? && Lists(order, w.kv)
    ensures var applied := AfterApplying(AfterJudging(w, order, clock, limits, |order|));
            && Can(applied, EndCheck)
            && var w' := Next(applied, EndCheck);
            && w'.kv == Sweep(w.kv, clock, limits, w.stale)
            && w'.desk.log == w.desk.log + Planned(order, w.kv, clock, limits, w.stale).events
            && w'.desk.q == C.NotifyAll(w.desk.q, Planned(order, w.kv, clock, limits, w.stale).events)
            && !w'.stale
  {
    AppliedIsSweep(w, order, clock, limits, AfterJudging(w, order, clock, limits, |order|));
  }
}
