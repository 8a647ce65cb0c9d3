/**
 Heartbeats that land inside a running check. Flags and events stay right
 (module System), but the receive time does not: the check stores the record it
 judged, so a heartbeat that came meanwhile can be forgotten. Here is what becomes
 of such a heartbeat; module EarlyDeath says when its sender is still protected.
 */
module Overlap {
  import opened Basics
  import opened Heartbeats
  import opened SweepPhases
  import opened Reporting
  import opened System

  /** No heartbeat of the component, no further check. */
  ghost predicate Finishing(steps: seq<WorldStep>, key: string) {
    forall s :: s in steps ==> !s.StartCheck? && (s.Arrive? ==> s.key != key)
  }

  /**
   Once the component has been judged, the rest of the check decides exactly what
   is stored of it in the end: nothing if it is to be deleted, the judged record
   if it is to be stored, and what is stored now only otherwise.
   */
  lemma {:induction false} CheckEndsInEffective(w: World, steps: seq<WorldStep>, key: string)
    requires WorldInv(w) && Feasible(w, steps) && Finishing(steps, key)
    requires w.check.Running? ==> key !in w.check.todo
    ensures End(w, steps).check.Idle? ==> Lookup(End(w, steps).kv, key) == Effective(w, key)
    decreases |steps|
  {
    if steps != [] {
      var s, w1 := steps[0], Next(w, steps[0]);
      StepKeepsWorldInv(w, s);
      assert s in steps;
      OtherStepsKeepEffective(w, s, key);
      CheckEndsInEffective(w1, steps[1..], key);
    }
  }

  /**
   A heartbeat that arrives after its component was judged: its record stands at
   the end of the check if the check has nothing outstanding for the component;
   otherwise it is deleted, or replaced by the record that was judged.
   */
  lemma HeartbeatKeptOrForgotten(w: World, s: WorldStep, steps: seq<WorldStep>)
    requires WorldInv(w) && s.Arrive? && w.check.Running? && s.key !in w.check.todo
    requires Feasible(Next(w, s), steps) && Finishing(steps, s.key) && End(Next(w, s), steps).check.Idle?
    ensures var left := Lookup(End(Next(w, s), steps).kv, s.key);
            && (s.key !in Work(w.check) ==> left == BeatKey(s.key, Lookup(w.kv, s.key), s.timestamp, s.status, s.now).0)
            && (s.key in w.check.deletes ==> left == None)
            && (forall p :: p in w.check.puts && p.key == s.key ==> left == Some(Record(p.info)))
  {
    StepKeepsWorldInv(w, s);
    CheckEndsInEffective(Next(w, s), steps, s.key);
    BeatAt(w.kv, s, s.key);
    PutForIsThere(w.check.puts, s.key);
    forall p | p in w.check.puts && p.key == s.key
      ensures s.key !in w.check.deletes && PutFor(w.check.puts, s.key) == Some(p.info)
    {
      ListedPut(w.check.puts, p);
      assert Work(w.check)[s.key] <= 1;
      OnlyPut(w.check.puts, p);
    }
  }

  /**
   The check still has to judge the component, and by the same record; what is stored of
   it has not changed either.
   */
  ghost predicate Untouched(w: World, w': World, key: string) {
    && w.check.Running? && key in w.check.todo
    && w'.check.Running? && key in w'.check.todo
    && w'.check.snap == w.check.snap && w'.stale == w.stale && Lookup(w'.kv, key) == Lookup(w.kv, key)
  }

  lemma UntouchedByStep(w: World, s: WorldStep, key: string)
    requires WorldInv(w) && Can(w, s) && Finishing([s], key)
    ensures w.check.Running? && key in w.check.todo && !(s.JudgeNext? && w.check.todo[0] == key) ==>
              Untouched(w, Next(w, s), key)
    ensures (w.check.Idle? || key !in w.check.todo) || (s.JudgeNext? && w.check.todo[0] == key) ==>
              Next(w, s).check.Idle? || key !in Next(w, s).check.todo
  {
    assert s in [s];
    match s
    case Arrive(_, _, _, _) => BeatAt(w.kv, s, key);
    case JudgeNext(_, _) => TakenOnce(w.check, key);
    case _ =>
  }

  lemma TakenOnce(c: Check, key: string)
    requires c.Running? && c.todo != [] && OnceOnly(Work(c))
    ensures key in c.todo[1..] <==> key in c.todo && key != c.todo[0]
  {
    assert c.todo == [c.todo[0]] + c.todo[1..];
    assert multiset(c.todo) == multiset{c.todo[0]} + multiset(c.todo[1..]);
    assert Work(c)[c.todo[0]] <= 1;
  }

  lemma {:induction false} UntouchedUntilJudged(w: World, steps: seq<WorldStep>, key: string)
    requires WorldInv(w) && Feasible(w, steps) && Finishing(steps, key)
    requires End(w, steps).check.Running? && key in End(w, steps).check.todo
    ensures WorldInv(End(w, steps))
    ensures Untouched(w, End(w, steps), key)
    decreases |steps|
  {
    if steps != [] {
      var w1 := Next(w, steps[0]);
      assert steps[0] in steps;
      StepKeepsWorldInv(w, steps[0]);
      UntouchedUntilJudged(w1, steps[1..], key);
      UntouchedByStep(w, steps[0], key);
    }
  }

  /**
   A heartbeat that arrives after the check began and before its component is
   judged: the verdict goes by the record of the snapshot, and at the end of the
   check the heartbeat's record stands, is replaced, or is gone accordingly.
   */
  lemma HeartbeatBeforeVerdict(w: World, beat: WorldStep, before: seq<WorldStep>, judge: WorldStep,
      after: seq<WorldStep>)
    requires WorldInv(w) && beat.Arrive? && w.check.Running? && beat.key in w.check.todo
    requires Feasible(Next(w, beat), before) && Finishing(before, beat.key)
    requires var w1 := End(Next(w, beat), before);
             judge.JudgeNext? && Can(w1, judge) && w1.check.todo[0] == beat.key
             && Feasible(Next(w1, judge), after) && Finishing(after, beat.key)
    ensures var w2 := End(Next(End(Next(w, beat), before), judge), after);
            w2.check.Idle? ==>
              Lookup(w2.kv, beat.key) ==
              match Treat(beat.key, w.check.snap[beat.key], judge.r, judge.limits, w.stale)
              case Keep => BeatKey(beat.key, Lookup(w.kv, beat.key), beat.timestamp, beat.status, beat.now).0
              case Update(info, _) => Some(Record(info))
              case Remove => None
  {
    var w0, w1 := Next(w, beat), End(Next(w, beat), before);
    StepKeepsWorldInv(w, beat);
    BeatAt(w.kv, beat, beat.key);
    UntouchedUntilJudged(w0, before, beat.key);
    JudgeDecides(w1, judge);
    StepKeepsWorldInv(w1, judge);
    TakenOnce(w1.check, beat.key);
    CheckEndsInEffective(Next(w1, judge), after, beat.key);
  }

  lemma {:induction false} OnlyPut(puts: seq<Put>, p: Put)
    requires p in puts && PutKeys(puts)[p.key] <= 1
    ensures PutFor(puts, p.key) == Some(p.info)
    decreases |puts|
  {
    if puts[0] != p {
      ListedPut(puts[1..], p);
      OnlyPut(puts[1..], p);
    }
  }

  lemma OtherStepsKeepEffective(w: World, s: WorldStep, key: string)
    requires WorldInv(w) && Can(w, s) && !s.StartCheck? && (s.Arrive? ==> s.key != key)
    requires w.check.Running? ==> key !in w.check.todo
    ensures Effective(Next(w, s), key) == Effective(w, key)
    ensures Next(w, s).check.Running? ==> key !in Next(w, s).check.todo
  {
    match s
    case Arrive(_, _, _, _) => BeatAt(w.kv, s, key);
    case JudgeNext(r, limits) => JudgeOther(w, s, key);
    case ApplyNext => if w.check.deletes != [] { DeleteMoves(w, key); } else { StoreMoves(w, key); }
    case EndCheck =>
    case Reporter(_) =>
  }

  lemma {:induction false} EndConcat(w: World, a: seq<WorldStep>, b: seq<WorldStep>)
    requires Feasible(w, a) && Feasible(End(w, a), b)
    ensures Feasible(w, a + b) && End(w, a + b) == End(End(w, a), b)
    decreases |a|
  {
    if a == [] {
      assert a + b == b;
    } else {
      assert (a + b)[1..] == a[1..] + b;
      EndConcat(Next(w, a[0]), a[1..], b);
    }
  }

  lemma SingleStep(w: World, s: WorldStep)
    requires Can(w, s)
    ensures Feasible(w, [s]) && End(w, [s]) == Next(w, s)
  {
    assert [s][1..] == [];
  }

  lemma ThreeSteps(w: World, s1: WorldStep, w1: World, s2: WorldStep, w2: World, s3: WorldStep, w3: World)
    requires Can(w, s1) && Next(w, s1) == w1
    requires Can(w1, s2) && Next(w1, s2) == w2
    requires Can(w2, s3) && Next(w2, s3) == w3
    ensures Feasible(w, [s1, s2, s3]) && End(w, [s1, s2, s3]) == w3
  {
    SingleStep(w, s1);
    SingleStep(w1, s2);
    SingleStep(w2, s3);
    EndConcat(w, [s1], [s2]);
    EndConcat(w, [s1] + [s2], [s3]);
    assert [s1] + [s2] + [s3] == [s1, s2, s3];
  }

  // ---------- a component heard of shortly before is declared dead ----------

  function Heard(key: string, t: UnixTime, flag: WarnFlag): Info {
    Info(key, Stamp(t), "12:00", "OK", flag)
  }

  function Alone(key: string, info: Info): Store {
    map[key := Record(info)]
  }

  function JustHeard(key: string, d: Desk): World {
    World(Alone(key, Heard(key, 0, NoWarning)), false, Idle, d)
  }

  function WarnedThenHeard(key: string, limits: Limits): seq<WorldStep>
    requires 0 <= limits.warntime < TWO_63
  {
    [StartCheck([key]), JudgeNext(Reading(limits.warntime, limits.warntime), limits),
        Arrive(key, "12:00", "OK", limits.warntime)]
  }

  /**
   The check starts, warns, and then the heartbeat arrives: the record is fresh but the
   warned one is about to be stored.
   */
  lemma HeartbeatDuringCheck(key: string, d: Desk, limits: Limits)
    requires InRange(key) && 0 < limits.warntime < limits.errtime < TWO_63
    ensures var steps := WarnedThenHeard(key, limits);
            && Feasible(JustHeard(key, d), steps)
            && var w := End(JustHeard(key, d), steps);
            && w.kv == Alone(key, Heard(key, limits.warntime, NoWarning)) && !w.stale
            && w.check == Running([], Alone(key, Heard(key, 0, NoWarning)), [], [Put(key, Heard(key, 0, WarnNormal))])
  {
    ParamKeyOutOfRange();
    StampIsRead(Heard(key, 0, NoWarning), 0, limits.warntime);
    var s1, s2 := StartCheck([key]), JudgeNext(Reading(limits.warntime, limits.warntime), limits);
    var s3 := Arrive(key, "12:00", "OK", limits.warntime);
    var w0 := JustHeard(key, d);
    assert Lists([key], w0.kv);
    var w1 := Next(w0, s1);
    assert w1.check == Running([key], w0.kv, [], []);
    var w2 := Next(w1, s2);
    assert w2.check == Running([], w0.kv, [], [Put(key, Heard(key, 0, WarnNormal))]);
    var w3 := Next(w2, s3);
    assert w3.kv == Alone(key, Heard(key, limits.warntime, NoWarning));
    ThreeSteps(w0, s1, w1, s2, w2, s3, w3);
  }

  /** The check ends: the old receive time is back, and the next check finds the component dead. */
  lemma HeartbeatForgotten(key: string, w: World, limits: Limits)
    requires InRange(key) && 0 < limits.warntime < limits.errtime < TWO_63
    requires w.kv == Alone(key, Heard(key, limits.warntime, NoWarning)) && !w.stale
    requires w.check == Running([], Alone(key, Heard(key, 0, NoWarning)), [], [Put(key, Heard(key, 0, WarnNormal))])
    ensures var steps := [ApplyNext, EndCheck, StartCheck([key])];
            && Feasible(w, steps)
            && var w' := End(w, steps);
            && Can(w', JudgeNext(Reading(limits.errtime, limits.errtime), limits))
            && Emits(w', JudgeNext(Reading(limits.errtime, limits.errtime), limits)) == Some(Event(key, StopError))
  {
    ParamKeyOutOfRange();
    StampIsRead(Heard(key, 0, WarnNormal), 0, limits.errtime);
    var w1 := Next(w, ApplyNext);
    assert w1.kv == Alone(key, Heard(key, 0, WarnNormal)) && w1.check.puts == [];
    var w2 := Next(w1, EndCheck);
    assert Lists([key], w2.kv);
    var w3 := Next(w2, StartCheck([key]));
    ThreeSteps(w, ApplyNext, w1, EndCheck, w2, StartCheck([key]), w3);
  }

  /**
   So NoFalseAlarm does not survive overlapping: for any limits there is a run in
   which a component is declared dead at errtime although it was heard at warntime.
   */
  lemma FalseDeathWhenOverlapping(key: string, d: Desk, limits: Limits)
    requires InRange(key) && 0 < limits.warntime < limits.errtime < TWO_63
    ensures var heard := Arrive(key, "12:00", "OK", limits.warntime);
            var last := JudgeNext(Reading(limits.errtime, limits.errtime), limits);
            var steps := WarnedThenHeard(key, limits) + [ApplyNext, EndCheck, StartCheck([key])];
            && Feasible(JustHeard(key, d), steps)
            && var w := End(JustHeard(key, d), steps);
            && Can(w, last) && Emits(w, last) == Some(Event(key, StopError))
            && last.r.now - heard.now < limits.errtime
  {
    HeartbeatDuringCheck(key, d, limits);
    var a := WarnedThenHeard(key, limits);
    var w := End(JustHeard(key, d), a);
    HeartbeatForgotten(key, w, limits);
    EndConcat(JustHeard(key, d), a, [ApplyNext, EndCheck, StartCheck([key])]);
  }

  /**
   Worse still when the heartbeat comes after the check began and before its
   component is judged: it is declared dead in the same check, in the very second
   in which it was heard.
   */
  lemma FalseDeathInTheSameCheck(key: string, d: Desk, limits: Limits)
    requires InRange(key) && 0 < limits.errtime < TWO_63
    ensures var heard := Arrive(key, "12:00", "OK", limits.errtime);
            var last := JudgeNext(Reading(limits.errtime, limits.errtime), limits);
            var steps := [StartCheck([key]), heard];
            && Feasible(JustHeard(key, d), steps)
            && var w := End(JustHeard(key, d), steps);
            && Can(w, last) && Emits(w, last) == Some(Event(key, StopError))
            && last.r.now == heard.now
  {
    ParamKeyOutOfRange();
    StampIsRead(Heard(key, 0, NoWarning), 0, limits.errtime);
    var w0 := JustHeard(key, d);
    assert Lists([key], w0.kv);
    var w1 := Next(w0, StartCheck([key]));
    var heard := Arrive(key, "12:00", "OK", limits.errtime);
    SingleStep(w0, StartCheck([key]));
    SingleStep(w1, heard);
    EndConcat(w0, [StartCheck([key])], [heard]);
    assert [StartCheck([key])] + [heard] == [StartCheck([key]), heard];
  }
}
