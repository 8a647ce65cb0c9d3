/**
 The time bounds of the tracker, over runs in which each check is one step
 (it may still read a different time for each record). `Start` and `Finish`
 are the first and last reading of the clock that concern the component.
 */
module Timing {
  import opened Basics
  import opened Heartbeats

  datatype Act =
    | Pulse(key: string, timestamp: string, status: string, now: UnixTime)
    | Audit(clock: Clock, limits: Limits)

  datatype Tracked = Tracked(kv: Store, stale: bool)

  ghost function Advance(t: Tracked, a: Act): Tracked {
    match a
    case Pulse(key, timestamp, status, now) => Tracked(Beat(t.kv, key, timestamp, status, now), t.stale)
    case Audit(clock, limits) => Tracked(Sweep(t.kv, clock, limits, t.stale), false)
  }

  /** What the step does to one component: its record afterwards and the event. */
  ghost function Effect(t: Tracked, a: Act, key: string): (Option<Stored>, Option<Kind>) {
    match a
    case Pulse(k, timestamp, status, now) =>
      if k == key then BeatKey(key, Lookup(t.kv, key), timestamp, status, now) else (Lookup(t.kv, key), None)
    case Audit(clock, limits) => CheckKey(key, Lookup(t.kv, key), clock(key), limits, t.stale)
  }

  lemma AdvanceIsPerKey(t: Tracked, a: Act, key: string)
    ensures Lookup(Advance(t, a).kv, key) == Effect(t, a, key).0
  {
  }

  ghost predicate History(ts: seq<Tracked>, acts: seq<Act>) {
    |ts| == |acts| + 1 && forall i :: 0 <= i < |acts| ==> ts[i + 1] == Advance(ts[i], acts[i])
  }

  function Start(a: Act, key: string): UnixTime {
    match a
    case Pulse(_, _, _, now) => now
    case Audit(clock, _) => clock(key).now
  }

  function Finish(a: Act, key: string): UnixTime {
    match a
    case Pulse(_, _, _, now) => now
    case Audit(clock, _) => clock(key).refresh
  }

  /** The clock does not run backwards. */
  ghost predicate Monotone(acts: seq<Act>, key: string) {
    && (forall i :: 0 <= i < |acts| ==> Start(acts[i], key) <= Finish(acts[i], key))
    && forall i, j :: 0 <= i < j < |acts| ==> Finish(acts[i], key) <= Start(acts[j], key)
  }

  lemma StartsInOrder(acts: seq<Act>, key: string, i: nat, j: nat)
    requires Monotone(acts, key) && i <= j < |acts|
    ensures Start(acts[i], key) <= Start(acts[j], key)
  {
    if i < j {
      assert Start(acts[i], key) <= Finish(acts[i], key);
      assert Finish(acts[i], key) <= Start(acts[j], key);
    }
  }

  ghost predicate IsPulse(a: Act, key: string) {
    a.Pulse? && a.key == key
  }

  function RecordOf(t: Tracked, key: string): Option<Stored> {
    Lookup(t.kv, key)
  }

  /** The stored time is one that the daemon may have written, and not before `lo`. */
  ghost predicate StampedFrom(st: Option<Stored>, lo: int) {
    st.Some? && st.value.Record? ==> lo <= RcvTime(st.value.info) < TWO_63
  }

  lemma ElapsedIsReal(info: Info, now: UnixTime)
    requires 0 <= RcvTime(info) < TWO_63
    ensures Elapsed(info, now) == now - RcvTime(info)
  {
  }

  // ---------- no false alarm ----------

  /** Stamps only grow: what is stamped from `lo` on stays so as long as the clock reads `lo` or more. */
  lemma {:induction false} StampsNeverGoBack(ts: seq<Tracked>, acts: seq<Act>, key: string, m: nat, i: nat, lo: nat)
    requires History(ts, acts) && m <= i < |ts|
    requires StampedFrom(RecordOf(ts[m], key), lo)
    requires forall x :: m <= x < i ==> lo <= Finish(acts[x], key)
    ensures StampedFrom(RecordOf(ts[i], key), lo)
    decreases i
  {
    if m < i {
      var t, a := ts[i - 1], acts[i - 1];
      StampsNeverGoBack(ts, acts, key, m, i - 1, lo);
      AdvanceIsPerKey(t, a, key);
      var st' := RecordOf(ts[i], key);
      if st'.Some? && st'.value.Record? && st' != RecordOf(t, key) && st'.value.info.lastRcv == Stamp(Finish(a, key)) {
        StampIsRead(st'.value.info, Finish(a, key), 0);
      }
    }
  }

  lemma AlarmNeedsElapsed(t: Tracked, a: Act, key: string, lo: nat)
    requires a.Audit? && StampedFrom(RecordOf(t, key), lo)
    ensures Effect(t, a, key).1 == Some(StopError) ==> Start(a, key) - lo >= a.limits.errtime
    ensures Effect(t, a, key).1 == Some(StopWarn) ==>
            Start(a, key) - lo >= if t.stale then Min(a.limits) else a.limits.warntime
  {
    if key in t.kv && t.kv[key].Record? {
      ElapsedIsReal(t.kv[key].info, Start(a, key));
    }
  }

  /** A component is declared dead, or warned about, only after that long without any heartbeat. */
  lemma NoFalseAlarm(ts: seq<Tracked>, acts: seq<Act>, key: string, i: nat, j: nat)
    requires History(ts, acts) && Monotone(acts, key)
    requires i < j < |acts| && IsPulse(acts[i], key) && acts[j].Audit?
    ensures Effect(ts[j], acts[j], key).1 == Some(StopError) ==>
            Start(acts[j], key) - acts[i].now >= acts[j].limits.errtime
    ensures Effect(ts[j], acts[j], key).1 == Some(StopWarn) ==>
              Start(acts[j], key) - acts[i].now >= if ts[j].stale then Min(acts[j].limits) else acts[j].limits.warntime
  {
    AdvanceIsPerKey(ts[i], acts[i], key);
    var st := RecordOf(ts[i + 1], key);
    if st.Some? && st.value.Record? {
      StampIsRead(st.value.info, acts[i].now, 0);
    }
    StampsNeverGoBack(ts, acts, key, i + 1, j, acts[i].now);
    AlarmNeedsElapsed(ts[j], acts[j], key, acts[i].now);
  }

  function Min(limits: Limits): int {
    if limits.warntime < limits.errtime then limits.warntime else limits.errtime
  }

  /**
   The first check after a monitoring gap removes nothing, and an overdue record gets
   its full time from the refresh on.
   */
  lemma GapGivesGrace(ts: seq<Tracked>, acts: seq<Act>, key: string, i: nat)
    requires History(ts, acts) && Monotone(acts, key)
    requires i < |acts| && acts[i].Audit? && ts[i].stale
    ensures key in ts[i].kv ==> key in ts[i + 1].kv
    ensures !ts[i + 1].stale
    ensures forall j :: i < j < |acts| && acts[j].Audit? && Effect(ts[i], acts[i], key).1 == Some(StopWarn)
              && RecordOf(ts[i + 1], key).value.info.warning == WarnGap
              && Effect(ts[j], acts[j], key).1 == Some(StopError)
              ==> Start(acts[j], key) - Finish(acts[i], key) >= acts[j].limits.errtime
  {
    AdvanceIsPerKey(ts[i], acts[i], key);
    forall j | i < j < |acts| && acts[j].Audit? && Effect(ts[i], acts[i], key).1 == Some(StopWarn)
              && RecordOf(ts[i + 1], key).value.info.warning == WarnGap
              && Effect(ts[j], acts[j], key).1 == Some(StopError)
      ensures Start(acts[j], key) - Finish(acts[i], key) >= acts[j].limits.errtime
    {
      StampIsRead(RecordOf(ts[i + 1], key).value.info, Finish(acts[i], key), 0);
      StampsNeverGoBack(ts, acts, key, i + 1, j, Finish(acts[i], key));
      AlarmNeedsElapsed(ts[j], acts[j], key, Finish(acts[i], key));
    }
  }

  // ---------- no restart without a heartbeat ----------

  /** After a warning at time `t`, with no heartbeat since, the record cannot look restarted. */
  ghost predicate StillWarned(st: Option<Stored>, t: int, warntime: int) {
    st.Some? && st.value.Record? ==>
      || st.value.info.warning == WarnGap
      || (st.value.info.warning == WarnNormal && 0 <= RcvTime(st.value.info) < TWO_63
           && t - RcvTime(st.value.info) >= warntime)
  }

  lemma {:induction false} WarningLasts(ts: seq<Tracked>, acts: seq<Act>, key: string, i: nat, x: nat,
      t: int, warntime: int)
    requires History(ts, acts) && i <= x < |ts|
    requires StillWarned(RecordOf(ts[i], key), t, warntime)
    requires forall y :: i <= y < x ==> !IsPulse(acts[y], key) && t <= Start(acts[y], key)
    requires forall y :: i <= y < x && acts[y].Audit? ==> acts[y].limits.warntime == warntime
    ensures StillWarned(RecordOf(ts[x], key), t, warntime)
    decreases x
  {
    if i < x {
      WarningLasts(ts, acts, key, i, x - 1, t, warntime);
      AdvanceIsPerKey(ts[x - 1], acts[x - 1], key);
    }
  }

  lemma WarningStarts(t: Tracked, a: Act, key: string)
    requires StampedFrom(RecordOf(t, key), 0) && Effect(t, a, key).1 == Some(StopWarn)
    ensures a.Audit? && StillWarned(RecordOf(Advance(t, a), key), Start(a, key), a.limits.warntime)
  {
    AdvanceIsPerKey(t, a, key);
    ElapsedIsReal(t.kv[key].info, Start(a, key));
  }

  lemma WarnedCannotRestart(t: Tracked, a: Act, key: string, at: int, warntime: int)
    requires StillWarned(RecordOf(t, key), at, warntime) && at <= Start(a, key)
    requires a.Audit? ==> a.limits.warntime == warntime
    ensures Effect(t, a, key).1 != Some(Restarted)
  {
    if key in t.kv && t.kv[key].Record? && t.kv[key].info.warning == WarnNormal {
      ElapsedIsReal(t.kv[key].info, Start(a, key));
    }
  }

  /** Between a warning and a restart there is a heartbeat, even when a gap check freshened the record in between. */
  lemma NoRestartWithoutHeartbeat(ts: seq<Tracked>, acts: seq<Act>, key: string, i: nat, j: nat, warntime: int)
    requires History(ts, acts) && Monotone(acts, key)
    requires i < j < |acts|
    requires StampedFrom(RecordOf(ts[i], key), 0)
    requires forall y :: i <= y <= j && acts[y].Audit? ==> acts[y].limits.warntime == warntime
    requires Effect(ts[i], acts[i], key).1 == Some(StopWarn)
    requires Effect(ts[j], acts[j], key).1 == Some(Restarted)
    ensures exists m :: i < m < j && IsPulse(acts[m], key)
  {
    if forall m :: i < m < j ==> !IsPulse(acts[m], key) {
      var t := Start(acts[i], key);
      WarningStarts(ts[i], acts[i], key);
      forall y | i < y <= j
        ensures t <= Start(acts[y], key)
      {
        StartsInOrder(acts, key, i, y);
      }
      WarningLasts(ts, acts, key, i + 1, j, t, warntime);
      WarnedCannotRestart(ts[j], acts[j], key, t, warntime);
      assert false;
    }
  }

  // ---------- the detection bound ----------

  /** A heartbeat at step m-1 and none of the component from m on; limits do not change. */
  ghost predicate Silent(ts: seq<Tracked>, acts: seq<Act>, key: string, m: nat, limits: Limits) {
    && History(ts, acts) && Monotone(acts, key) && InRange(key)
    && 0 < m <= |acts|
    && IsPulse(acts[m - 1], key) && PhaseOf(RecordOf(ts[m - 1], key)) != Unreadable
    && forall x :: m <= x < |acts| ==> !IsPulse(acts[x], key) && (acts[x].Audit? ==> acts[x].limits == limits)
  }

  /** And no gap is left to make up for. */
  ghost predicate SilentFrom(ts: seq<Tracked>, acts: seq<Act>, key: string, m: nat, limits: Limits) {
    Silent(ts, acts, key, m, limits) && !ts[m].stale
  }

  lemma {:induction false} GapStaysOver(ts: seq<Tracked>, acts: seq<Act>, m: nat, j: nat)
    requires History(ts, acts) && m <= j < |ts| && !ts[m].stale
    ensures !ts[j].stale
    decreases j
  {
    if m < j {
      GapStaysOver(ts, acts, m, j - 1);
      assert ts[j - 1 + 1] == Advance(ts[j - 1], acts[j - 1]);
    }
  }

  /** Not removed, nor refreshed by a gap check: the record of the last heartbeat, at time h. */
  ghost predicate Lingers(t: Tracked, key: string, h: UnixTime) {
    && key in t.kv && t.kv[key].Record? && RcvTime(t.kv[key].info) == h
    && t.kv[key].info.warning != WarnGap
  }

  lemma {:induction false} LingersUntilDue(ts: seq<Tracked>, acts: seq<Act>, key: string, m: nat, limits: Limits,
      x: nat)
    requires Silent(ts, acts, key, m, limits) && m <= x < |ts|
    requires forall y :: m <= y < x && acts[y].Audit? ==> Start(acts[y], key) < acts[m - 1].now + limits.errtime
    ensures Lingers(ts[x], key, acts[m - 1].now)
    decreases x
  {
    var h := acts[m - 1].now;
    AdvanceIsPerKey(ts[x - 1], acts[x - 1], key);
    if x == m {
      StampIsRead(ts[m].kv[key].info, h, 0);
    } else {
      LingersUntilDue(ts, acts, key, m, limits, x - 1);
      if acts[x - 1].Audit? {
        ElapsedIsReal(ts[x - 1].kv[key].info, Start(acts[x - 1], key));
      }
    }
  }

  /** The first check due for the component declares it dead and removes it. */
  lemma DiesWhenDue(ts: seq<Tracked>, acts: seq<Act>, key: string, m: nat, limits: Limits, j: nat)
    requires SilentFrom(ts, acts, key, m, limits)
    requires m <= j < |acts| && acts[j].Audit? && Start(acts[j], key) >= acts[m - 1].now + limits.errtime
    requires forall y :: m <= y < j && acts[y].Audit? ==> Start(acts[y], key) < acts[m - 1].now + limits.errtime
    ensures key in ts[j].kv && Effect(ts[j], acts[j], key).1 == Some(StopError) && key !in ts[j + 1].kv
  {
    ParamKeyOutOfRange();
    LingersUntilDue(ts, acts, key, m, limits, j);
    GapStaysOver(ts, acts, m, j);
    ElapsedIsReal(ts[j].kv[key].info, Start(acts[j], key));
    AdvanceIsPerKey(ts[j], acts[j], key);
  }

  /** The checks at i and j follow one another. */
  ghost predicate Consecutive(acts: seq<Act>, i: nat, j: nat) {
    i < j < |acts| && acts[i].Audit? && acts[j].Audit? && forall x :: i < x < j ==> acts[x].Pulse?
  }

  /** Consecutive checks are at most `interval` apart. */
  ghost predicate Periodic(acts: seq<Act>, key: string, interval: int) {
    forall i: nat, j: nat :: Consecutive(acts, i, j) ==> Start(acts[j], key) - Start(acts[i], key) <= interval
  }

  lemma {:induction false} FirstDue(acts: seq<Act>, key: string, from: nat, b: nat, due: int) returns (j: nat)
    requires from <= b < |acts| && acts[b].Audit? && Start(acts[b], key) >= due
    ensures from <= j <= b && acts[j].Audit? && Start(acts[j], key) >= due
    ensures forall y :: from <= y < j && acts[y].Audit? ==> Start(acts[y], key) < due
    decreases b - from
  {
    if acts[from].Audit? && Start(acts[from], key) >= due {
      j := from;
    } else {
      j := FirstDue(acts, key, from + 1, b, due);
    }
  }

  lemma CheckBefore(acts: seq<Act>, a: nat, j: nat) returns (p: nat)
    requires a < j < |acts| && acts[a].Audit? && acts[j].Audit?
    ensures a <= p && Consecutive(acts, p, j)
  {
    p := j - 1;
    while acts[p].Pulse?
      invariant a <= p < j && forall x :: p < x < j ==> acts[x].Pulse?
      decreases p
    {
      p := p - 1;
    }
  }

  /** The first check at or after `due`, and the check before it, which came in time to be within an interval. */
  lemma DueAfter(acts: seq<Act>, key: string, m: nat, a: nat, b: nat, due: int) returns (p: nat, j: nat)
    requires Monotone(acts, key)
    requires 0 < m <= b < |acts| && a < b && acts[a].Audit? && acts[b].Audit?
    requires acts[m - 1].Pulse? && Start(acts[b], key) >= due >= acts[m - 1].now
    requires a < m || Start(acts[a], key) < due
    ensures m <= j <= b && a <= p && Consecutive(acts, p, j) && due <= Start(acts[j], key)
    ensures forall y :: m <= y < j && acts[y].Audit? ==> Start(acts[y], key) < due
    ensures if due > acts[m - 1].now || m <= a then Start(acts[p], key) < due else Start(acts[p], key) <= due
  {
    j := FirstDue(acts, key, m, b, due);
    if j <= a {
      StartsInOrder(acts, key, j, a);
    }
    p := CheckBefore(acts, a, j);
    if p < m {
      StartsInOrder(acts, key, p, m - 1);
    }
  }

  /** The first check at or after `due` comes within an interval after it. */
  lemma DueInTime(acts: seq<Act>, key: string, m: nat, interval: int, a: nat, b: nat, due: int) returns (j: nat)
    requires Monotone(acts, key) && Periodic(acts, key, interval)
    requires 0 < m <= b < |acts| && a < b && acts[a].Audit? && acts[b].Audit?
    requires acts[m - 1].Pulse? && Start(acts[b], key) >= due >= acts[m - 1].now
    requires a < m || Start(acts[a], key) < due
    ensures m <= j <= b && acts[j].Audit? && due <= Start(acts[j], key) <= due + interval
    ensures forall y :: m <= y < j && acts[y].Audit? ==> Start(acts[y], key) < due
    ensures due > acts[m - 1].now || m <= a ==> Start(acts[j], key) < due + interval
  {
    var p;
    p, j := DueAfter(acts, key, m, a, b, due);
    assert Consecutive(acts, p, j);
  }

  /** A component silent since h is declared dead and removed within an interval of h + errtime, and not before. */
  lemma DetectionBound(ts: seq<Tracked>, acts: seq<Act>, key: string, m: nat, limits: Limits, interval: int,
      a: nat, b: nat) returns (j: nat)
    requires SilentFrom(ts, acts, key, m, limits) && Periodic(acts, key, interval) && limits.errtime >= 0
    requires a < b < |acts| && m <= b && acts[a].Audit? && acts[b].Audit?
    requires a < m || Start(acts[a], key) < acts[m - 1].now + limits.errtime
    requires Start(acts[b], key) >= acts[m - 1].now + limits.errtime
    ensures m <= j <= b && Effect(ts[j], acts[j], key).1 == Some(StopError) && key in ts[j].kv && key !in ts[j + 1].kv
    ensures acts[m - 1].now + limits.errtime <= Start(acts[j], key) <= acts[m - 1].now + limits.errtime + interval
    ensures limits.errtime > 0 ==> Start(acts[j], key) < acts[m - 1].now + limits.errtime + interval
  {
    j := DueInTime(acts, key, m, interval, a, b, acts[m - 1].now + limits.errtime);
    DiesWhenDue(ts, acts, key, m, limits, j);
  }

  // ---------- death is announced ----------

  /** A check between the two limits leaves the record warned. */
  lemma LateCheckWarns(t: Tracked, a: Act, key: string, h: UnixTime)
    requires Lingers(t, key, h) && InRange(key) && a.Audit?
    requires Start(a, key) < h + a.limits.errtime
    requires Start(a, key) >= h + a.limits.warntime
    ensures PhaseOf(RecordOf(Advance(t, a), key)) == Warned
  {
    ParamKeyOutOfRange();
    ElapsedIsReal(t.kv[key].info, Start(a, key));
    AdvanceIsPerKey(t, a, key);
  }

  lemma {:induction false} StaysWarned(ts: seq<Tracked>, acts: seq<Act>, key: string, m: nat, limits: Limits,
      w: nat, x: nat)
    requires Silent(ts, acts, key, m, limits) && m <= w < x < |ts|
    requires acts[w].Audit? && Start(acts[w], key) >= acts[m - 1].now + limits.warntime
    requires forall y :: m <= y < x && acts[y].Audit? ==> Start(acts[y], key) < acts[m - 1].now + limits.errtime
    ensures PhaseOf(RecordOf(ts[x], key)) == Warned
    decreases x
  {
    if acts[x - 1].Audit? {
      LingersUntilDue(ts, acts, key, m, limits, x - 1);
      StartsInOrder(acts, key, w, x - 1);
      LateCheckWarns(ts[x - 1], acts[x - 1], key, acts[m - 1].now);
    } else {
      StaysWarned(ts, acts, key, m, limits, w, x - 1);
      AdvanceIsPerKey(ts[x - 1], acts[x - 1], key);
    }
  }

  /**
   A check between the two limits, whether or not it makes up for a gap, warns of the
   silent component exactly if it does not stand warned yet, and leaves it warned.
   */
  lemma WarningIsReported(ts: seq<Tracked>, acts: seq<Act>, key: string, m: nat, limits: Limits, j: nat)
    requires Silent(ts, acts, key, m, limits) && m <= j < |acts| && acts[j].Audit?
    requires acts[m - 1].now + limits.warntime <= Start(acts[j], key) < acts[m - 1].now + limits.errtime
    ensures key in ts[j].kv && key in ts[j + 1].kv
    ensures Effect(ts[j], acts[j], key).1 == if PhaseOf(RecordOf(ts[j], key)) == Warned then None else Some(StopWarn)
    ensures PhaseOf(RecordOf(ts[j + 1], key)) == Warned
  {
    forall y | m <= y < j && acts[y].Audit?
      ensures Start(acts[y], key) < acts[m - 1].now + limits.errtime
    {
      StartsInOrder(acts, key, y, j);
    }
    LingersUntilDue(ts, acts, key, m, limits, j);
    LateCheckWarns(ts[j], acts[j], key, acts[m - 1].now);
    ParamKeyOutOfRange();
    ElapsedIsReal(ts[j].kv[key].info, Start(acts[j], key));
    AdvanceIsPerKey(ts[j], acts[j], key);
  }

  /** Under these intervals some check falls between the two limits. */
  lemma CheckInWarningTime(acts: seq<Act>, key: string, m: nat, limits: Limits, interval: int, a: nat, j: nat)
      returns (w: nat)
    requires Monotone(acts, key) && Periodic(acts, key, interval)
    requires 0 <= interval <= limits.errtime - limits.warntime && limits.warntime >= 0
    requires 0 < m <= j < |acts| && a < j && acts[a].Audit? && acts[j].Audit? && acts[m - 1].Pulse?
    requires Start(acts[a], key) < acts[m - 1].now + limits.warntime
    requires limits.warntime > 0 || m <= a
    requires Start(acts[j], key) >= acts[m - 1].now + limits.errtime
    ensures m <= w < j && acts[w].Audit?
    ensures acts[m - 1].now + limits.warntime <= Start(acts[w], key) < acts[m - 1].now + limits.errtime
  {
    w := DueInTime(acts, key, m, interval, a, j, acts[m - 1].now + limits.warntime);
  }

  lemma EffectMovesPhase(t: Tracked, a: Act, key: string)
    ensures MovesPhase(PhaseOf(RecordOf(t, key)), Effect(t, a, key).1, PhaseOf(RecordOf(Advance(t, a), key)), t.stale)
  {
    AdvanceIsPerKey(t, a, key);
    match a
    case Pulse(_, timestamp, status, now) => BeatMovesPhase(key, RecordOf(t, key), timestamp, status, now);
    case Audit(clock, limits) => CheckMovesPhase(key, RecordOf(t, key), clock(key), limits, t.stale);
  }

  /** No event of the component from step i up to, and without, step j. */
  ghost predicate QuietBetween(ts: seq<Tracked>, acts: seq<Act>, key: string, i: nat, j: nat)
    requires History(ts, acts) && j <= |acts|
  {
    forall y :: i <= y < j ==> Effect(ts[y], acts[y], key).1.None?
  }

  /** The step w warned about the component, and nothing was said of it since. */
  ghost predicate WarningStands(ts: seq<Tracked>, acts: seq<Act>, key: string, w: nat, j: nat)
    requires History(ts, acts) && j <= |acts|
  {
    w < j && Effect(ts[w], acts[w], key).1 == Some(StopWarn) && QuietBetween(ts, acts, key, w + 1, j)
  }

  /**
   What the events so far say of the component last is a warning; if they say nothing,
   it stood warned at the start.
   */
  ghost predicate LastSaidWarned(ts: seq<Tracked>, acts: seq<Act>, key: string, j: nat)
    requires History(ts, acts) && j <= |acts|
  {
    || (PhaseOf(RecordOf(ts[0], key)) == Warned && QuietBetween(ts, acts, key, 0, j))
    || exists w: nat :: WarningStands(ts, acts, key, w, j)
  }

  lemma LastSaidStep(ts: seq<Tracked>, acts: seq<Act>, key: string, i: nat, j: nat)
    requires History(ts, acts) && i < |acts| && j == i + 1
    ensures LastSaidWarned(ts, acts, key, j) <==>
            match Effect(ts[i], acts[i], key).1
            case Some(kind) => kind == StopWarn
            case None => LastSaidWarned(ts, acts, key, i)
  {
    var event := Effect(ts[i], acts[i], key).1;
    if event == Some(StopWarn) {
      assert WarningStands(ts, acts, key, i, j);
    } else {
      assert forall w: nat :: WarningStands(ts, acts, key, w, j) <==> event.None? && WarningStands(ts, acts, key, w, i);
    }
  }

  lemma WarnedStep(ts: seq<Tracked>, acts: seq<Act>, key: string, i: nat, j: nat)
    requires History(ts, acts) && i < |acts| && j == i + 1
    ensures PhaseOf(RecordOf(ts[j], key)) == Warned <==>
            match Effect(ts[i], acts[i], key).1
            case Some(kind) => kind == StopWarn
            case None => PhaseOf(RecordOf(ts[i], key)) == Warned
  {
    assert ts[j] == Advance(ts[i], acts[i]);
    EffectMovesPhase(ts[i], acts[i], key);
  }

  lemma NothingSaidYet(ts: seq<Tracked>, acts: seq<Act>, key: string)
    requires History(ts, acts)
    ensures LastSaidWarned(ts, acts, key, 0) <==> PhaseOf(RecordOf(ts[0], key)) == Warned
  {
  }

  /** A component stands warned exactly by an emitted warning that nothing followed, or as it did at the start. */
  lemma {:induction false} WarnedByAnEvent(ts: seq<Tracked>, acts: seq<Act>, key: string, j: nat)
    requires History(ts, acts) && j <= |acts|
    ensures PhaseOf(RecordOf(ts[j], key)) == Warned <==> LastSaidWarned(ts, acts, key, j)
    decreases j
  {
    if j == 0 {
      NothingSaidYet(ts, acts, key);
    } else {
      var i := j - 1;
      WarnedByAnEvent(ts, acts, key, i);
      WarnedStep(ts, acts, key, i, j);
      LastSaidStep(ts, acts, key, i, j);
    }
  }

  /**
   With checks at most errtime - warntime apart, and one of them before
   h + warntime, a component that is declared dead stands warned: by a warning
   that was emitted and that nothing took back, unless it stood so at the start
   of the history and nothing was said of it since.
   */
  lemma DeathIsAnnounced(ts: seq<Tracked>, acts: seq<Act>, key: string, m: nat, limits: Limits, interval: int,
      a: nat, j: nat)
    requires SilentFrom(ts, acts, key, m, limits) && Periodic(acts, key, interval)
    requires 0 <= interval <= limits.errtime - limits.warntime && limits.warntime >= 0
    requires a < j < |acts| && m <= j && acts[a].Audit? && acts[j].Audit?
    requires Start(acts[a], key) < acts[m - 1].now + limits.warntime
    requires limits.warntime > 0 || m <= a
    requires Start(acts[j], key) >= acts[m - 1].now + limits.errtime
    requires forall y :: m <= y < j && acts[y].Audit? ==> Start(acts[y], key) < acts[m - 1].now + limits.errtime
    ensures Effect(ts[j], acts[j], key).1 == Some(StopError)
    ensures PhaseOf(RecordOf(ts[j], key)) == Warned
    ensures LastSaidWarned(ts, acts, key, j)
  {
    DiesWhenDue(ts, acts, key, m, limits, j);
    var w := CheckInWarningTime(acts, key, m, limits, interval, a, j);
    StaysWarned(ts, acts, key, m, limits, w, j);
    WarnedByAnEvent(ts, acts, key, j);
  }

  // ---------- recovery is reported ----------

  /**
   A check that comes in time after a heartbeat, whether or not it makes up for a gap,
   reports the recovery of a component that stood warned, by either flag.
   */
  lemma RecoveryIsReported(ts: seq<Tracked>, acts: seq<Act>, key: string, m: nat, limits: Limits, j: nat)
    requires Silent(ts, acts, key, m, limits)
    requires m <= j < |acts| && acts[j].Audit? && forall y :: m <= y < j ==> acts[y].Pulse?
    requires Start(acts[j], key) < acts[m - 1].now + Min(limits)
    ensures Effect(ts[j], acts[j], key).1 ==
            if PhaseOf(RecordOf(ts[m - 1], key)) == Warned then Some(Restarted) else None
    ensures PhaseOf(RecordOf(ts[j + 1], key)) == Alive
  {
    ParamKeyOutOfRange();
    AdvanceIsPerKey(ts[m - 1], acts[m - 1], key);
    BeatMovesPhase(key, RecordOf(ts[m - 1], key), acts[m - 1].timestamp, acts[m - 1].status, acts[m - 1].now);
    SameUntouched(ts, acts, key, m, j);
    LingersUntilDue(ts, acts, key, m, limits, j);
    ElapsedIsReal(ts[j].kv[key].info, Start(acts[j], key));
    AdvanceIsPerKey(ts[j], acts[j], key);
  }

  lemma {:induction false} SameUntouched(ts: seq<Tracked>, acts: seq<Act>, key: string, m: nat, j: nat)
    requires History(ts, acts) && m <= j < |ts|
    requires forall y :: m <= y < j ==> acts[y].Pulse? && !IsPulse(acts[y], key)
    ensures RecordOf(ts[j], key) == RecordOf(ts[m], key)
    decreases j
  {
    if m < j {
      SameUntouched(ts, acts, key, m, j - 1);
      AdvanceIsPerKey(ts[j - 1], acts[j - 1], key);
    }
  }

  // ---------- what the sender said ----------

  /** However many checks follow, the record carries what its last heartbeat said. */
  lemma {:induction false} LastReportStands(ts: seq<Tracked>, acts: seq<Act>, key: string, m: nat, i: nat)
    requires History(ts, acts) && 0 < m <= i < |ts|
    requires IsPulse(acts[m - 1], key)
    requires forall y :: m <= y < i ==> !IsPulse(acts[y], key)
    ensures var st := RecordOf(ts[i], key);
            st.Some? && st.value.Record? ==>
                st.value.info.timestamp == acts[m - 1].timestamp && st.value.info.status == acts[m - 1].status
    decreases i
  {
    AdvanceIsPerKey(ts[i - 1], acts[i - 1], key);
    if m < i {
      LastReportStands(ts, acts, key, m, i - 1);
    }
  }

  // ---------- an example ----------

  function CheckAt(t: UnixTime, limits: Limits): Act {
    Audit(_ => Reading(t, t), limits)
  }

  ghost function Trace(t: Tracked, acts: seq<Act>): (ts: seq<Tracked>)
    ensures History(ts, acts) && ts[0] == t
    decreases |acts|
  {
    if acts == [] then [t]
    else
      var init := Trace(t, acts[..|acts| - 1]);
      init + [Advance(init[|acts| - 1], acts[|acts| - 1])]
  }

  function ExampleActs(key: string): seq<Act> {
    var limits := Limits(10, 20);
    [CheckAt(100, limits), Pulse(key, "12:00", "OK", 100), CheckAt(110, limits), CheckAt(120, limits)]
  }

  lemma ExampleIsSilent(key: string) returns (ts: seq<Tracked>)
    requires InRange(key)
    ensures SilentFrom(ts, ExampleActs(key), key, 2, Limits(10, 20)) && RecordOf(ts[1], key).None?
  {
    ts := Trace(Tracked(map[], false), ExampleActs(key));
    AdvanceIsPerKey(ts[0], ExampleActs(key)[0], key);
    assert !ts[1].stale && ts[2] == Advance(ts[1], ExampleActs(key)[1]);
  }

  /**
   The bounds are about something: one heartbeat, checks every 10 seconds, limits 10 and
   20. The component is warned, then declared dead.
   */
  lemma AnnouncedDeathHappens(key: string) returns (ts: seq<Tracked>, acts: seq<Act>)
    requires InRange(key)
    ensures SilentFrom(ts, acts, key, 2, Limits(10, 20)) && Periodic(acts, key, 10)
    ensures |acts| == 4 && Effect(ts[2], acts[2], key).1 == Some(StopWarn)
            && Effect(ts[3], acts[3], key).1 == Some(StopError)
  {
    acts := ExampleActs(key);
    ts := ExampleIsSilent(key);
    ParamKeyOutOfRange();
    LingersUntilDue(ts, acts, key, 2, Limits(10, 20), 2);
    ElapsedIsReal(ts[2].kv[key].info, 110);
    FirstRecordIsFresh(ts, acts, key);
    DiesWhenDue(ts, acts, key, 2, Limits(10, 20), 3);
  }

  lemma FirstRecordIsFresh(ts: seq<Tracked>, acts: seq<Act>, key: string)
    requires History(ts, acts) && |acts| > 1 && IsPulse(acts[1], key) && RecordOf(ts[1], key).None?
    ensures PhaseOf(RecordOf(ts[2], key)) == Alive
  {
    AdvanceIsPerKey(ts[1], acts[1], key);
  }
}
