/**
 When a heartbeat protects its sender. Over runs in which anything may happen
 between any two steps of a check, a component can still be declared dead less
 than errtime after a heartbeat, but only if the check that was running when the
 heartbeat came holds an older record of it. Module Timing has the bounds for
 checks that are one step; here is what remains of them, and exactly when.
 */
module EarlyDeath {
  import opened Basics
  import opened Heartbeats
  import opened SweepPhases
  import opened Reporting
  import opened System
  import opened Overlap

  /** The record counts as heard of at `t` or later. */
  predicate Young(info: Info, t: UnixTime) {
    Elapsed(info, t) <= 0
  }

  /** A young record ages by the clock, even where the subtraction wraps. */
  lemma YoungAges(info: Info, t: UnixTime, now: UnixTime)
    requires Young(info, t) && t <= now
    ensures Elapsed(info, now) <= now - t
  {
  }

  lemma StampedIsYoung(info: Info, at: UnixTime, t: UnixTime)
    requires info.lastRcv == Stamp(at) && t <= at
    ensures Young(info, t)
  {
    StampIsRead(info, at, t);
  }

  /**
   Judging the record cannot kill by an old receive time or bring it back: the record is
   young, or it carries the warning of a gap check and the gap is still being made up for.
   */
  predicate SafeToJudge(st: Stored, t: UnixTime, stale: bool) {
    st.Record? ==> Young(st.info, t) || (stale && st.info.warning == WarnGap)
  }

  /** The running check, if any, holds no older record of the component that it could kill it by or store. */
  ghost predicate Harmless(w: World, key: string, t: UnixTime) {
    w.check.Running? ==>
      && (key in w.check.todo && key in w.check.snap ==> SafeToJudge(w.check.snap[key], t, w.stale))
      && (forall p :: p in w.check.puts && p.key == key ==> Young(p.info, t))
  }

  /** Neither does the store. */
  ghost predicate Protected(w: World, key: string, t: UnixTime) {
    && (IsRecord(w.kv, key) ==> Young(w.kv[key].info, t))
    && Harmless(w, key, t)
  }

  /** Whatever the step reads from the clock is not before `t`. */
  predicate Later(s: WorldStep, t: UnixTime) {
    match s
    case Arrive(_, _, _, now) => t <= now
    case JudgeNext(r, _) => t <= r.now && t <= r.refresh
    case _ => true
  }

  ghost predicate AllLater(steps: seq<WorldStep>, t: UnixTime) {
    forall s :: s in steps ==> Later(s, t)
  }

  // ---------- a protected component stays so ----------

  lemma BeatProtects(w: World, s: WorldStep, key: string, t: UnixTime)
    requires s.Arrive? && s.key == key && t <= s.now && Harmless(w, key, t)
    ensures Protected(Next(w, s), key, t)
  {
    BeatAt(w.kv, s, key);
    var st := BeatKey(key, Lookup(w.kv, key), s.timestamp, s.status, s.now).0;
    if st.value.Record? {
      StampedIsYoung(st.value.info, s.now, t);
    }
  }

  /** What the judgement of a safe record puts on the list is young. */
  lemma VerdictIsYoung(key: string, st: Stored, r: Reading, limits: Limits, stale: bool, t: UnixTime)
    requires SafeToJudge(st, t, stale) && t <= r.refresh
    ensures var verdict := Treat(key, st, r, limits, stale); verdict.Update? ==> Young(verdict.info, t)
  {
    var verdict := Treat(key, st, r, limits, stale);
    if verdict.Update? && verdict.info.lastRcv == Stamp(r.refresh) {
      StampedIsYoung(verdict.info, r.refresh, t);
    } else if verdict.Update? {
      assert verdict.info.lastRcv == st.info.lastRcv;
    }
  }

  lemma JudgeKeepsProtected(w: World, s: WorldStep, key: string, t: UnixTime)
    requires WorldInv(w) && s.JudgeNext? && Can(w, s) && Later(s, t) && Protected(w, key, t)
    ensures Protected(Next(w, s), key, t)
  {
    var (c, c', first) := (w.check, Next(w, s).check, w.check.todo[0]);
    assert TodoFits(w.kv, c.snap, first);
    var verdict := Treat(first, c.snap[first], s.r, s.limits, w.stale);
    assert verdict.Update? ==> verdict.info.component == first;
    if first == key {
      VerdictIsYoung(key, c.snap[key], s.r, s.limits, w.stale, t);
    }
    assert c'.puts == if verdict.Update? then c.puts + [Put(first, verdict.info)] else c.puts;
  }

  lemma StepKeepsProtected(w: World, s: WorldStep, key: string, t: UnixTime)
    requires WorldInv(w) && Can(w, s) && Later(s, t) && Protected(w, key, t)
    ensures Protected(Next(w, s), key, t)
  {
    match s
    case Arrive(_, _, _, _) => if s.key == key { BeatProtects(w, s, key, t); } else { BeatAt(w.kv, s, key); }
    case StartCheck(_) =>
    case JudgeNext(_, _) => JudgeKeepsProtected(w, s, key, t);
    case ApplyNext =>
    case EndCheck =>
    case Reporter(_) =>
  }

  lemma {:induction false} RunKeepsProtected(w: World, steps: seq<WorldStep>, key: string, t: UnixTime)
    requires WorldInv(w) && Feasible(w, steps) && AllLater(steps, t) && Protected(w, key, t)
    ensures WorldInv(End(w, steps)) && Protected(End(w, steps), key, t)
    decreases |steps|
  {
    if steps != [] {
      assert steps[0] in steps;
      StepKeepsWorldInv(w, steps[0]);
      StepKeepsProtected(w, steps[0], key, t);
      RunKeepsProtected(Next(w, steps[0]), steps[1..], key, t);
    }
  }

  /** An alarm about a protected component is due. */
  lemma AlarmIsDue(w: World, s: WorldStep, key: string, t: UnixTime)
    requires WorldInv(w) && s.JudgeNext? && Can(w, s) && t <= s.r.now && Protected(w, key, t)
    ensures Emits(w, s) == Some(Event(key, StopError)) ==> s.r.now - t >= s.limits.errtime
    ensures Emits(w, s) == Some(Event(key, StopWarn)) && !w.stale ==> s.r.now - t >= s.limits.warntime
  {
    var first := w.check.todo[0];
    assert TodoFits(w.kv, w.check.snap, first);
    if first == key && w.check.snap[key].Record? && Young(w.check.snap[key].info, t) {
      YoungAges(w.check.snap[key].info, t, s.r.now);
    }
  }

  // ---------- the theorem ----------

  /** In no run after the heartbeat is its sender declared dead by a reading less than errtime after it. */
  ghost predicate NeverDiesEarly(w: World, beat: WorldStep)
    requires beat.Arrive?
  {
    forall steps, r, limits :: DeclaredDead(Next(w, beat), steps, r, limits, beat.key, beat.now) ==>
        r.now - beat.now >= limits.errtime
  }

  /** The component is declared dead by the judgement that follows the steps; the clock does not run back behind `t`. */
  ghost predicate DeclaredDead(w: World, steps: seq<WorldStep>, r: Reading, limits: Limits, key: string, t: UnixTime) {
    && Feasible(w, steps) && AllLater(steps, t) && Later(JudgeNext(r, limits), t)
    && Can(End(w, steps), JudgeNext(r, limits))
    && Emits(End(w, steps), JudgeNext(r, limits)) == Some(Event(key, StopError))
  }

  /**
   No false death, for any interleaving: a heartbeat that finds no older record of
   its sender in a running check protects it for errtime, and for warntime from
   warnings once no gap is being made up for.
   */
  lemma HarmlessBeatProtects(w: World, beat: WorldStep, steps: seq<WorldStep>, last: WorldStep)
    requires WorldInv(w) && beat.Arrive? && Harmless(w, beat.key, beat.now)
    requires Feasible(Next(w, beat), steps) && AllLater(steps, beat.now)
    requires last.JudgeNext? && Can(End(Next(w, beat), steps), last) && Later(last, beat.now)
    ensures Emits(End(Next(w, beat), steps), last) == Some(Event(beat.key, StopError)) ==>
              last.r.now - beat.now >= last.limits.errtime
    ensures Emits(End(Next(w, beat), steps), last) == Some(Event(beat.key, StopWarn))
            && !End(Next(w, beat), steps).stale ==>
              last.r.now - beat.now >= last.limits.warntime
  {
    StepKeepsWorldInv(w, beat);
    BeatProtects(w, beat, beat.key, beat.now);
    RunKeepsProtected(Next(w, beat), steps, beat.key, beat.now);
    AlarmIsDue(End(Next(w, beat), steps), last, beat.key, beat.now);
  }

  /** A check that has nothing to judge or to apply for the component holds nothing of it. */
  lemma OutsideItsCheckIsHarmless(w: World, key: string, t: UnixTime)
    requires w.check.Running? ==> key !in Work(w.check)
    ensures Harmless(w, key, t)
  {
    if w.check.Running? {
      forall p | p in w.check.puts
        ensures p.key in Work(w.check)
      {
        ListedPut(w.check.puts, p);
      }
    }
  }

  // ---------- an older record in the check kills ----------

  const ONE_SECOND := Limits(0, 1)

  /** A judgement at `t` itself. */
  function AtOnce(t: UnixTime, limits: Limits): WorldStep {
    JudgeNext(Reading(t, t), limits)
  }

  /** Steps that only work off the running check, with the clock standing at `t`. */
  ghost predicate WorksOff(steps: seq<WorldStep>, t: UnixTime) {
    forall s :: s in steps ==> s == AtOnce(t, ONE_SECOND) || s.ApplyNext? || s.EndCheck?
  }

  /** The component comes up for judgement. */
  lemma {:induction false} TurnComes(w: World, key: string, t: UnixTime) returns (steps: seq<WorldStep>)
    requires WorldInv(w) && w.check.Running? && key in w.check.todo
    ensures WorksOff(steps, t) && Feasible(w, steps)
    ensures var w' := End(w, steps);
            && WorldInv(w') && w'.kv == w.kv && w'.stale == w.stale
            && w'.check.Running? && w'.check.snap == w.check.snap && w'.check.todo != [] && w'.check.todo[0] == key
    decreases |w.check.todo|
  {
    if w.check.todo[0] == key {
      steps := [];
    } else {
      var s := AtOnce(t, ONE_SECOND);
      assert TodoFits(w.kv, w.check.snap, w.check.todo[0]);
      StepKeepsWorldInv(w, s);
      var rest := TurnComes(Next(w, s), key, t);
      assert ([s] + rest)[1..] == rest;
      steps := [s] + rest;
    }
  }

  function PutCount(c: Check): nat {
    if c.Idle? then 0 else 1 + |c.deletes| + |c.puts|
  }

  function TodoCount(c: Check): nat {
    if c.Idle? then 0 else |c.todo|
  }

  /** The next step of working off the check. */
  function NextOf(c: Check, t: UnixTime): WorldStep {
    if TodoCount(c) > 0 then AtOnce(t, ONE_SECOND) else if PutCount(c) > 1 then ApplyNext else EndCheck
  }

  lemma NextWorksOff(w: World, t: UnixTime)
    requires WorldInv(w) && w.check.Running?
    ensures var s := NextOf(w.check, t);
            && Can(w, s) && WorldInv(Next(w, s))
            && (Next(w, s).check.Running? || !Next(w, s).stale)
            && (TodoCount(Next(w, s).check) < TodoCount(w.check)
                || (TodoCount(Next(w, s).check) == TodoCount(w.check)
                     && PutCount(Next(w, s).check) < PutCount(w.check)))
  {
    if w.check.todo != [] {
      assert TodoFits(w.kv, w.check.snap, w.check.todo[0]);
    }
    StepKeepsWorldInv(w, NextOf(w.check, t));
  }

  /** Every check can be brought to its end. */
  lemma {:induction false} CheckEnds(w: World, t: UnixTime) returns (steps: seq<WorldStep>)
    requires WorldInv(w) && w.check.Running?
    ensures WorksOff(steps, t) && Feasible(w, steps)
    ensures WorldInv(End(w, steps)) && End(w, steps).check.Idle? && !End(w, steps).stale
    decreases TodoCount(w.check), PutCount(w.check)
  {
    var s := NextOf(w.check, t);
    NextWorksOff(w, t);
    var rest := [];
    if Next(w, s).check.Running? {
      rest := CheckEnds(Next(w, s), t);
    }
    assert ([s] + rest)[1..] == rest;
    steps := [s] + rest;
  }

  lemma {:induction false} KeysListed(keys: set<string>) returns (order: seq<string>)
    ensures forall i, j :: 0 <= i < j < |order| ==> order[i] != order[j]
    ensures forall key :: key in order <==> key in keys
    decreases |keys|
  {
    order := [];
    if keys != {} {
      var first :| first in keys;
      var rest := KeysListed(keys - {first});
      order := [first] + rest;
    }
  }

  /** The judgement of a record that is not young, without a gap, declares its component dead at once. */
  lemma OldRecordDies(w: World, key: string, t: UnixTime)
    requires WorldInv(w) && w.check.Running? && w.check.todo != [] && w.check.todo[0] == key && !w.stale
    requires key in w.check.snap && w.check.snap[key].Record? && !Young(w.check.snap[key].info, t)
    ensures DeclaredDead(w, [], Reading(t, t), ONE_SECOND, key, t)
  {
    ParamKeyOutOfRange();
    assert TodoFits(w.kv, w.check.snap, key);
  }

  /** A death after more steps is a death. */
  lemma DeathLater(w: World, steps: seq<WorldStep>, rest: seq<WorldStep>, key: string, t: UnixTime)
    requires Feasible(w, steps) && AllLater(steps, t)
    requires DeclaredDead(End(w, steps), rest, Reading(t, t), ONE_SECOND, key, t)
    ensures DeclaredDead(w, steps + rest, Reading(t, t), ONE_SECOND, key, t)
  {
    EndConcat(w, steps, rest);
  }

  lemma DeathNext(w: World, s: WorldStep, rest: seq<WorldStep>, key: string, t: UnixTime)
    requires Can(w, s) && Later(s, t)
    requires DeclaredDead(Next(w, s), rest, Reading(t, t), ONE_SECOND, key, t)
    ensures DeclaredDead(w, [s] + rest, Reading(t, t), ONE_SECOND, key, t)
  {
    SingleStep(w, s);
    DeathLater(w, [s], rest, key, t);
  }

  /** An old record among those to judge, when no gap is made up for. */
  lemma OldSnapshotKills(w: World, key: string, t: UnixTime) returns (steps: seq<WorldStep>)
    requires WorldInv(w) && w.check.Running? && key in w.check.todo && !w.stale
    requires w.check.snap[key].Record? && !Young(w.check.snap[key].info, t)
    ensures DeclaredDead(w, steps, Reading(t, t), ONE_SECOND, key, t)
  {
    steps := TurnComes(w, key, t);
    OldRecordDies(End(w, steps), key, t);
    DeathLater(w, steps, [], key, t);
    assert steps + [] == steps;
  }

  /** An old record in the store kills at the next check. */
  lemma OldStoredKills(w: World, key: string, t: UnixTime) returns (steps: seq<WorldStep>)
    requires WorldInv(w) && w.check.Idle? && !w.stale && InRange(key)
    requires IsRecord(w.kv, key) && !Young(w.kv[key].info, t)
    ensures DeclaredDead(w, steps, Reading(t, t), ONE_SECOND, key, t)
  {
    var order := KeysListed(set k | k in w.kv && InRange(k));
    var start := StartCheck(order);
    assert Lists(order, w.kv);
    StepKeepsWorldInv(w, start);
    var rest := OldSnapshotKills(Next(w, start), key, t);
    DeathNext(w, start, rest, key, t);
    steps := [start] + rest;
  }

  /** An old record about to be stored: it is back when the check ends. */
  lemma OldPutKills(w: World, p: Put, t: UnixTime) returns (steps: seq<WorldStep>)
    requires WorldInv(w) && w.check.Running? && p in w.check.puts && !Young(p.info, t)
    ensures DeclaredDead(w, steps, Reading(t, t), ONE_SECOND, p.key, t)
  {
    var finish := CheckEnds(w, t);
    var w1 := End(w, finish);
    PutIsEffective(w, p);
    CheckEndsInEffective(w, finish, p.key);
    var rest := OldStoredKills(w1, p.key, t);
    DeathLater(w, finish, rest, p.key, t);
    steps := finish + rest;
  }

  lemma PutIsEffective(w: World, p: Put)
    requires WorldInv(w) && w.check.Running? && p in w.check.puts
    ensures p.key !in w.check.todo && InRange(p.key) && Effective(w, p.key) == Some(Record(p.info))
  {
    assert PutFits(w.kv, p);
    ListedPut(w.check.puts, p);
    assert Work(w.check)[p.key] <= 1;
    OnlyPut(w.check.puts, p);
  }

  // Limits under which a gap check stores a record that it has warned of in the ordinary way, or not at all.
  function Disturbing(info: Info, t: UnixTime): Limits {
    Limits(if info.warning == NoWarning then 0 else Elapsed(info, t) + 1, Elapsed(info, t) + 1)
  }

  /** An old record to be judged by a gap check: the check stores it with its old receive time. */
  lemma OldSnapshotKillsAfterGap(w: World, key: string, t: UnixTime) returns (steps: seq<WorldStep>)
    requires WorldInv(w) && w.check.Running? && key in w.check.todo && w.stale
    requires !SafeToJudge(w.check.snap[key], t, true)
    ensures DeclaredDead(w, steps, Reading(t, t), ONE_SECOND, key, t)
  {
    var before := TurnComes(w, key, t);
    var rest := OldTurnKillsAfterGap(End(w, before), key, t);
    DeathLater(w, before, rest, key, t);
    steps := before + rest;
  }

  lemma OldTurnKillsAfterGap(w: World, key: string, t: UnixTime) returns (steps: seq<WorldStep>)
    requires WorldInv(w) && w.check.Running? && w.check.todo != [] && w.check.todo[0] == key && w.stale
    requires key in w.check.snap && !SafeToJudge(w.check.snap[key], t, true)
    ensures DeclaredDead(w, steps, Reading(t, t), ONE_SECOND, key, t)
  {
    var s := AtOnce(t, Disturbing(w.check.snap[key].info, t));
    var p := GapCheckStores(w, key, t);
    StepKeepsWorldInv(w, s);
    var rest := OldPutKills(Next(w, s), p, t);
    DeathNext(w, s, rest, key, t);
    steps := [s] + rest;
  }

  lemma GapCheckStores(w: World, key: string, t: UnixTime) returns (p: Put)
    requires WorldInv(w) && w.check.Running? && w.check.todo != [] && w.check.todo[0] == key && w.stale
    requires key in w.check.snap && !SafeToJudge(w.check.snap[key], t, true)
    ensures var s := AtOnce(t, Disturbing(w.check.snap[key].info, t));
            Can(w, s) && p.key == key && p in Next(w, s).check.puts && !Young(p.info, t)
  {
    ParamKeyOutOfRange();
    assert TodoFits(w.kv, w.check.snap, key);
    var info := w.check.snap[key].info;
    p := Put(key, info.(warning := if info.warning == NoWarning then WarnNormal else NoWarning));
  }

  /**
   The exact condition: a heartbeat protects its sender from an early death if and
   only if the running check, if any, holds no older record of it to judge or to store.
   */
  lemma NeverDiesEarlyIffHarmless(w: World, beat: WorldStep)
    requires WorldInv(w) && beat.Arrive?
    ensures NeverDiesEarly(w, beat) <==> Harmless(w, beat.key, beat.now)
  {
    var w1 := Next(w, beat);
    StepKeepsWorldInv(w, beat);
    if Harmless(w, beat.key, beat.now) {
      forall steps, r, limits | DeclaredDead(w1, steps, r, limits, beat.key, beat.now)
        ensures r.now - beat.now >= limits.errtime
      {
        HarmlessBeatProtects(w, beat, steps, JudgeNext(r, limits));
      }
    } else {
      var steps := HarmKills(w1, beat.key, beat.now);
      assert DeclaredDead(w1, steps, Reading(beat.now, beat.now), ONE_SECOND, beat.key, beat.now);
    }
  }

  lemma HarmKills(w: World, key: string, t: UnixTime) returns (steps: seq<WorldStep>)
    requires WorldInv(w) && !Harmless(w, key, t)
    ensures DeclaredDead(w, steps, Reading(t, t), ONE_SECOND, key, t)
  {
    if p :| p in w.check.puts && p.key == key && !Young(p.info, t) {
      steps := OldPutKills(w, p, t);
    } else if w.stale {
      steps := OldSnapshotKillsAfterGap(w, key, t);
    } else {
      steps := OldSnapshotKills(w, key, t);
    }
  }
}
