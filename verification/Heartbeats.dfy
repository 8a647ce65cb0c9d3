/**
 What one heartbeat and one periodic check do to the records in the key/value
 store. The values are JSON texts there; here they are decoded, and `Corrupt`
 is a text that does not decode. The receive time stays the hexadecimal text
 that is stored.
 */
module Heartbeats {
  import opened Basics
  import opened Numerals
  import opened Positional

  // The Had_warning field: "", "WN" and "WG".
  datatype WarnFlag = NoWarning | WarnNormal | WarnGap

  datatype Info = Info(component: string, lastRcv: string, timestamp: string, status: string, warning: WarnFlag)
  datatype Stored = Record(info: Info) | Corrupt(text: string)
  type Store = map<string, Stored>

  // Seconds since 1970.
  type UnixTime = t: int | 0 <= t < TWO_63

  // The clock is read once to judge a record and once more to freshen it after a monitoring gap.
  datatype Reading = Reading(now: UnixTime, refresh: UnixTime)
  type Clock = string -> Reading

  datatype Limits = Limits(warntime: int, errtime: int)

  const PARAM_KEY := "params"
  const RANGE_START := "x0"
  const RANGE_END := "xz"

  /** Go's order on strings. */
  predicate LexLess(a: string, b: string)
    decreases |a|
  {
    b != [] && (a == [] || a[0] < b[0] || (a[0] == b[0] && LexLess(a[1..], b[1..])))
  }

  /** The keys that GetRange returns: from RANGE_START up to, and without, RANGE_END. */
  predicate InRange(key: string) {
    !LexLess(key, RANGE_START) && LexLess(key, RANGE_END)
  }

  /** The range holds the names that begin with x and a character from 0 up to, but not including, z. */
  lemma RangeIsXnames(key: string)
    ensures InRange(key) <==> |key| >= 2 && key[0] == 'x' && '0' <= key[1] < 'z'
  {
    LexLessOne(if key == [] then [] else key[1..], '0');
    LexLessOne(if key == [] then [] else key[1..], 'z');
    assert RANGE_START[0] == RANGE_END[0] == 'x';
    assert RANGE_START[1..] == ['0'] && RANGE_END[1..] == ['z'];
  }

  lemma LexLessOne(s: string, c: char)
    ensures LexLess(s, [c]) <==> s == [] || s[0] < c
  {
    assert [c][1..] == [];
  }

  /** The parameter entry is not in the range, so the check never meets it. */
  lemma ParamKeyOutOfRange()
    ensures !InRange(PARAM_KEY)
  {
    RangeIsXnames(PARAM_KEY);
  }

  function Lookup(kv: Store, key: string): Option<Stored> {
    if key in kv then Some(kv[key]) else None
  }

  /** Every record is stored under its own component name. */
  ghost predicate KeyedByComponent(kv: Store) {
    forall key :: key in kv && kv[key].Record? ==> kv[key].info.component == key
  }

  // ---------- elapsed time ----------

  /** Subtraction on int64 wraps. */
  function Wrap64(n: int): int {
    (n + TWO_63) % TWO_64 - TWO_63
  }

  function RcvTime(info: Info): int {
    ParseInt(info.lastRcv, 16).value
  }

  function Elapsed(info: Info, now: UnixTime): int {
    Wrap64(now - RcvTime(info))
  }

  function Stamp(t: UnixTime): string {
    FormatUint(t, 16)
  }

  /** The time that the daemon stores is the time that it reads, so elapsed times are real ones. */
  lemma StampIsRead(info: Info, t: UnixTime, now: UnixTime)
    requires info.lastRcv == Stamp(t)
    ensures RcvTime(info) == t && Elapsed(info, now) == now - t
  {
    HexTimeRoundTrip(t);
  }

  /** It is stored as its hexadecimal numeral. */
  lemma StampIsHexadecimal(t: UnixTime)
    ensures Canonical(Stamp(t), 16, t)
  {
    var ds := FormatIsCanonical(t, 16);
  }

  /**
   And whatever text is stored is read as hexadecimal, with an optional sign, or else as
   zero or the nearest bound.
   */
  lemma ReceiveTimeIsHexadecimal(info: Info, n: int)
    requires ReadsSigned(info.lastRcv, 16, n)
    ensures RcvTime(info) == if n >= TWO_63 then TWO_63 - 1 else if n < -TWO_63 then -TWO_63 else n
  {
    ParseIntMeans(info.lastRcv, 16, n);
  }

  // ---------- one record ----------

  datatype Verdict = Keep | Update(info: Info, kind: Kind) | Remove

  /** The decision of hb_checker on a decoded record. */
  function Judge(info: Info, r: Reading, limits: Limits, stale: bool): Verdict {
    var tdiff := Elapsed(info, r.now);
    if tdiff >= limits.errtime then
      if stale then Update(info.(lastRcv := Stamp(r.refresh), warning := WarnGap), StopWarn) else Remove
    else if tdiff >= limits.warntime then
      if info.warning == NoWarning then Update(info.(warning := WarnNormal), StopWarn) else Keep
    else
      if info.warning == WarnNormal then Update(info.(warning := NoWarning), Restarted) else Keep
  }

  /** The same for any entry of the list: the parameter entry and undecodable texts are skipped. */
  function Treat(key: string, st: Stored, r: Reading, limits: Limits, stale: bool): Verdict {
    if key == PARAM_KEY || st.Corrupt? then Keep else Judge(st.info, r, limits, stale)
  }

  /** The effect of a whole check on what is stored under `key`, and the event it emits. */
  function CheckKey(key: string, st: Option<Stored>, r: Reading, limits: Limits, stale: bool)
    : (Option<Stored>, Option<Kind>)
  {
    if st.None? || !InRange(key) then (st, None)
    else match Treat(key, st.value, r, limits, stale)
      case Keep => (st, None)
      case Update(info, kind) => (Some(Record(info)), Some(kind))
      case Remove => (None, Some(StopError))
  }

  /** The effect of updateHB on what is stored under `key`, and the event it emits. */
  function BeatKey(key: string, st: Option<Stored>, timestamp: string, status: string, now: UnixTime)
    : (Option<Stored>, Option<Kind>)
  {
    match st
    case None => (Some(Record(Info(key, Stamp(now), timestamp, status, NoWarning))), Some(Started))
    case Some(Corrupt(_)) => (st, None)
    case Some(Record(info)) =>
      var warning := if info.warning == WarnGap then WarnNormal else info.warning;
      (Some(Record(info.(lastRcv := Stamp(now), timestamp := timestamp, status := status, warning := warning))), None)
  }

  // ---------- the whole store ----------

  function Beat(kv: Store, key: string, timestamp: string, status: string, now: UnixTime): Store {
    kv[key := BeatKey(key, Lookup(kv, key), timestamp, status, now).0.value]
  }

  /** One check of the whole store, nothing else happening meanwhile. */
  ghost function Sweep(kv: Store, clock: Clock, limits: Limits, stale: bool): (kv': Store)
    ensures forall key :: Lookup(kv', key) == CheckKey(key, Lookup(kv, key), clock(key), limits, stale).0
  {
    map key | key in kv && CheckKey(key, Lookup(kv, key), clock(key), limits, stale).0.Some?
      :: CheckKey(key, Lookup(kv, key), clock(key), limits, stale).0.value
  }

  /** isHeartbeating; None is its error reply. */
  function Heartbeating(kv: Store, key: string, now: UnixTime, errtime: int): Option<bool> {
    match Lookup(kv, key)
    case None => Some(false)
    case Some(Corrupt(_)) => None
    case Some(Record(info)) => Some(Elapsed(info, now) < errtime)
  }

  // ---------- the phase of a component ----------

  datatype Phase = Absent | Alive | Warned | Unreadable

  function PhaseOf(st: Option<Stored>): Phase {
    match st
    case None => Absent
    case Some(Corrupt(_)) => Unreadable
    case Some(Record(info)) => if info.warning == NoWarning then Alive else Warned
  }

  function PhaseAfter(kind: Kind): Phase {
    match kind
    case Started => Alive
    case Restarted => Alive
    case StopWarn => Warned
    case StopError => Absent
  }

  /** The edges of the event automaton; only a sweep after a monitoring gap may warn again. */
  predicate Legal(from: Phase, kind: Kind, stale: bool) {
    match kind
    case Started => from == Absent
    case Restarted => from == Warned
    case StopWarn => from == Alive || (stale && from == Warned)
    case StopError => from == Alive || from == Warned
  }

  /** What an event has to do with the phase before and after it. */
  predicate MovesPhase(before: Phase, event: Option<Kind>, after: Phase, stale: bool) {
    match event
    case None => after == before
    case Some(kind) => Legal(before, kind, stale) && after == PhaseAfter(kind)
  }

  lemma CheckMovesPhase(key: string, st: Option<Stored>, r: Reading, limits: Limits, stale: bool)
    ensures var (st', event) := CheckKey(key, st, r, limits, stale);
            MovesPhase(PhaseOf(st), event, PhaseOf(st'), stale)
  {
  }

  lemma BeatMovesPhase(key: string, st: Option<Stored>, timestamp: string, status: string, now: UnixTime)
    ensures var (st', event) := BeatKey(key, st, timestamp, status, now);
            MovesPhase(PhaseOf(st), event, PhaseOf(st'), false)
  {
  }

  // ---------- what a check and a heartbeat do, case by case ----------

  /** The difference that int64 holds is the real one up to a multiple of 2^64. */
  lemma ElapsedWraps(info: Info, now: UnixTime)
    ensures -TWO_63 <= Elapsed(info, now) < TWO_63
    ensures (Elapsed(info, now) - (now - RcvTime(info))) % TWO_64 == 0
  {
  }

  /** Which event a check emits of a record, and what it leaves, by the age of the record. */
  lemma CheckDecides(key: string, info: Info, r: Reading, limits: Limits, stale: bool)
    requires InRange(key)
    ensures var (age, st) := (Elapsed(info, r.now), Some(Record(info)));
            var (st', event) := CheckKey(key, st, r, limits, stale);
            && (event == Some(StopError) <==> age >= limits.errtime && !stale)
            && (event == Some(Restarted) <==>
                 age < limits.errtime && age < limits.warntime && info.warning == WarnNormal)
            && (event == Some(StopWarn) <==>
                  || (age >= limits.errtime && stale)
                  || (limits.warntime <= age < limits.errtime && PhaseOf(st) == Alive))
            && event != Some(Started) && (event.None? ==> st' == st)
            && (event == Some(StopWarn) && age < limits.errtime ==> st' == Some(Record(info.(warning := WarnNormal))))
            && (event == Some(Restarted) ==> st' == Some(Record(info.(warning := NoWarning))))
  {
    ParamKeyOutOfRange();
  }

  /**
   After a gap an overdue record is kept: stamped anew, marked as warned of by a gap
   check, and otherwise as it was.
   */
  lemma OverdueIsRefreshed(key: string, info: Info, r: Reading, limits: Limits)
    requires InRange(key) && Elapsed(info, r.now) >= limits.errtime
    ensures var st' := CheckKey(key, Some(Record(info)), r, limits, true).0;
            && st'.Some? && st'.value.Record? && RcvTime(st'.value.info) == r.refresh
            && st'.value.info == info.(lastRcv := st'.value.info.lastRcv, warning := WarnGap)
  {
    ParamKeyOutOfRange();
    StampIsRead(info.(lastRcv := Stamp(r.refresh), warning := WarnGap), r.refresh, r.now);
  }

  /** A gap makes a difference to a check exactly where a record is overdue. */
  lemma GapMattersIffOverdue(key: string, st: Option<Stored>, r: Reading, limits: Limits)
    ensures CheckKey(key, st, r, limits, true) != CheckKey(key, st, r, limits, false) <==>
            InRange(key) && st.Some? && st.value.Record? && Elapsed(st.value.info, r.now) >= limits.errtime
  {
    ParamKeyOutOfRange();
  }

  /** What lies outside the range, or does not decode, is left alone. */
  lemma CheckSkips(key: string, st: Option<Stored>, r: Reading, limits: Limits, stale: bool)
    requires !InRange(key) || st.None? || st.value.Corrupt?
    ensures CheckKey(key, st, r, limits, stale) == (st, None)
  {
  }

  /**
   A heartbeat starts a component exactly if it has no entry, and leaves its own time
   and report in every readable record.
   */
  lemma BeatDecides(key: string, st: Option<Stored>, timestamp: string, status: string, now: UnixTime)
    ensures var (st', event) := BeatKey(key, st, timestamp, status, now);
            && event == (if st.None? then Some(Started) else None)
            && (PhaseOf(st) == Unreadable ==> st' == st)
            && (PhaseOf(st) != Unreadable ==>
                  && st'.Some? && st'.value.Record? && RcvTime(st'.value.info) == now
                  && st'.value.info.timestamp == timestamp && st'.value.info.status == status
                  && st'.value.info.component == (if st.None? then key else st.value.info.component)
                  && st'.value.info.warning == (if PhaseOf(st) == Warned then WarnNormal else NoWarning))
  {
    var st' := BeatKey(key, st, timestamp, status, now).0;
    if PhaseOf(st) != Unreadable {
      StampIsRead(st'.value.info, now, now);
    }
  }

  // ---------- the query ----------

  /** The query fails exactly for a text that does not decode, and is true exactly for records younger than errtime. */
  lemma QueryReplies(kv: Store, key: string, now: UnixTime, errtime: int)
    ensures Heartbeating(kv, key, now, errtime).None? <==> PhaseOf(Lookup(kv, key)) == Unreadable
    ensures Heartbeating(kv, key, now, errtime) == Some(true) <==>
            key in kv && kv[key].Record? && Elapsed(kv[key].info, now) < errtime
  {
  }

  /** Right after a check, stale or not, a query at the same instant says exactly which readable records are left. */
  lemma QueryAfterSweep(kv: Store, clock: Clock, limits: Limits, stale: bool, key: string)
    requires InRange(key) && limits.errtime > 0
    requires clock(key).now <= clock(key).refresh
    requires PhaseOf(Lookup(kv, key)) != Unreadable
    ensures var kv' := Sweep(kv, clock, limits, stale);
            Heartbeating(kv', key, clock(key).now, limits.errtime) == Some(key in kv')
  {
    ParamKeyOutOfRange();
    var kv' := Sweep(kv, clock, limits, stale);
    var r := clock(key);
    assert Lookup(kv', key) == CheckKey(key, Lookup(kv, key), r, limits, stale).0;
    if key in kv && stale && Elapsed(kv[key].info, r.now) >= limits.errtime {
      StampIsRead(kv'[key].info, r.refresh, r.now);
    }
  }

  /** Before a check that follows no gap, the query denies a record exactly when the check would declare it dead. */
  lemma QueryForetellsDeath(kv: Store, clock: Clock, limits: Limits, key: string)
    requires InRange(key) && key in kv && kv[key].Record?
    ensures Heartbeating(kv, key, clock(key).now, limits.errtime) == Some(false)
            <==> CheckKey(key, Lookup(kv, key), clock(key), limits, false) == (None, Some(StopError))
    ensures Heartbeating(kv, key, clock(key).now, limits.errtime) == Some(false)
            <==> key !in Sweep(kv, clock, limits, false)
  {
    ParamKeyOutOfRange();
    var kv' := Sweep(kv, clock, limits, false);
    assert Lookup(kv', key) == CheckKey(key, Lookup(kv, key), clock(key), limits, false).0;
  }
}
