/**
 The event collapser: four global maps filled by hb_update_notify and four
 persistent maps of the sender thread, each from component to the sequence
 number of its latest event of one kind. A missing key reads as 0.
 Together they stand for one map from component to its latest unsent event.
 */
module Collapser {
  import opened Basics

  type SeqMap = map<string, nat>

  function At(m: SeqMap, key: string): nat {
    if key in m then m[key] else 0
  }

  datatype SeqMaps = SeqMaps(start: SeqMap, restart: SeqMap, stopWarn: SeqMap, stopError: SeqMap) {
    function Of(kind: Kind): SeqMap {
      match kind
      case Started => start
      case Restarted => restart
      case StopWarn => stopWarn
      case StopError => stopError
    }

    function With(kind: Kind, m: SeqMap): SeqMaps {
      match kind
      case Started => this.(start := m)
      case Restarted => this.(restart := m)
      case StopWarn => this.(stopWarn := m)
      case StopError => this.(stopError := m)
    }

    function Num(kind: Kind, key: string): nat {
      At(Of(kind), key)
    }
  }

  const NO_MAPS := SeqMaps(map[], map[], map[], map[])

  datatype Queue = Queue(global: SeqMaps, local: SeqMaps, hbSeq: nat)

  // ---------- the operations ----------

  function Notify(q: Queue, e: Event): Queue {
    Queue(q.global.With(e.kind, q.global.Of(e.kind)[e.component := q.hbSeq + 1]), q.local, q.hbSeq + 1)
  }

  function NotifyAll(q: Queue, events: seq<Event>): Queue
    decreases |events|
  {
    if events == [] then q else Notify(NotifyAll(q, events[..|events| - 1]), events[|events| - 1])
  }

  function Pull(local: SeqMap, global: SeqMap): SeqMap {
    local + (map key | key in global && global[key] != 0 :: global[key])
  }

  function Drain(global: SeqMap): SeqMap {
    map key | key in global :: 0
  }

  /** groomCompLocalMapsPRE. */
  function Absorb(q: Queue): Queue {
    Queue(
      SeqMaps(Drain(q.global.start), Drain(q.global.restart), Drain(q.global.stopWarn), Drain(q.global.stopError)),
      SeqMaps(Pull(q.local.start, q.global.start), Pull(q.local.restart, q.global.restart),
              Pull(q.local.stopWarn, q.global.stopWarn), Pull(q.local.stopError, q.global.stopError)),
      q.hbSeq)
  }

  /** The category whose number is strictly the highest. */
  function Winner(m: SeqMaps, key: string): Option<Kind> {
    var start, restart, swarn, serr := At(m.start, key), At(m.restart, key), At(m.stopWarn, key), At(m.stopError, key);
    if start > restart && start > swarn && start > serr then Some(Started)
    else if restart > start && restart > swarn && restart > serr then Some(Restarted)
    else if swarn > start && swarn > restart && swarn > serr then Some(StopWarn)
    else if serr > start && serr > restart && serr > swarn then Some(StopError)
    else None
  }

  function Zeroed(m: SeqMap, keys: set<string>): SeqMap {
    m + map key | key in keys :: 0
  }

  /** groomCompLocalMapsPOST for one acknowledged category, and its map made new. */
  function ClearOne(m: SeqMaps, kind: Kind): SeqMaps {
    var keys := m.Of(kind).Keys;
    SeqMaps(Zeroed(m.start, keys), Zeroed(m.restart, keys),
            Zeroed(m.stopWarn, keys), Zeroed(m.stopError, keys)).With(kind, map[])
  }

  function ClearIf(m: SeqMaps, kind: Kind, acked: set<Kind>): SeqMaps {
    if kind in acked then ClearOne(m, kind) else m
  }

  /** The four conditional clearings, in the order of the code. */
  function Clear(m: SeqMaps, acked: set<Kind>): SeqMaps {
    ClearIf(ClearIf(ClearIf(ClearIf(m, Started, acked), Restarted, acked), StopWarn, acked), StopError, acked)
  }

  // ---------- one map of latest events ----------

  datatype Numbered = Numbered(kind: Kind, num: nat)

  function Top(m: SeqMaps, key: string): Option<Numbered> {
    match Winner(m, key)
    case None => None
    case Some(kind) => Some(Numbered(kind, m.Num(kind, key)))
  }

  function Pending(q: Queue, key: string): Option<Numbered> {
    if Top(q.global, key).Some? then Top(q.global, key) else Top(q.local, key)
  }

  function Keys(m: SeqMaps): set<string> {
    m.start.Keys + m.restart.Keys + m.stopWarn.Keys + m.stopError.Keys
  }

  /** The single map that the eight stand for. */
  function Latest(q: Queue): map<string, Numbered> {
    map key | key in Keys(q.global) + Keys(q.local) && Pending(q, key).Some? :: Pending(q, key).value
  }

  // ---------- the numbering invariant ----------

  /** Every nonzero number lies in (lo, hi] and is the position of exactly that event in the log. */
  ghost predicate Numbers(m: SeqMaps, log: seq<Event>, lo: nat, hi: nat) {
    forall kind: Kind, key: string {:trigger m.Num(kind, key)} :: m.Num(kind, key) != 0 ==>
      lo < m.Num(kind, key) <= hi <= |log| && log[m.Num(kind, key) - 1] == Event(key, kind)
  }

  /** `log` is every event so far and `mark` its length at the last absorption. */
  ghost predicate Sequenced(q: Queue, log: seq<Event>, mark: nat) {
    && mark <= |log| == q.hbSeq
    && Numbers(q.global, log, mark, |log|)
    && Numbers(q.local, log, 0, mark)
  }

  /** No event of the component comes after the first `num` events of log[..end]. */
  ghost predicate NoneSince(log: seq<Event>, key: string, num: nat, end: nat)
    requires end <= |log|
  {
    forall i :: num <= i < end ==> log[i].component != key
  }

  /** What is queued for a component is its latest event. */
  ghost predicate Current(q: Queue, log: seq<Event>, mark: nat)
    requires mark <= |log|
  {
    && (forall key {:trigger Top(q.global, key)} ::
         NoneSince(log, key, if Top(q.global, key).Some? then Top(q.global, key).value.num else mark, |log|))
    && (forall key {:trigger Top(q.local, key)} :: Top(q.local, key).Some? ==>
         NoneSince(log, key, Top(q.local, key).value.num, mark))
  }

  /** Numbers of different categories differ, so the strict maximum exists whenever anything is queued. */
  lemma TopIsMaximum(m: SeqMaps, log: seq<Event>, lo: nat, hi: nat, key: string)
    requires Numbers(m, log, lo, hi)
    ensures Winner(m, key).None? <==> forall kind :: m.Num(kind, key) == 0
    ensures Winner(m, key).Some? ==>
              var w := Winner(m, key).value;
              && lo < m.Num(w, key) <= hi <= |log|
              && log[m.Num(w, key) - 1] == Event(key, w)
              && forall kind :: kind != w ==> m.Num(kind, key) < m.Num(w, key)
  {
    var a, b, c, d := m.Num(Started, key), m.Num(Restarted, key), m.Num(StopWarn, key), m.Num(StopError, key);
    assert a != 0 ==> log[a - 1].kind == Started;
    assert b != 0 ==> log[b - 1].kind == Restarted;
    assert c != 0 ==> log[c - 1].kind == StopWarn;
    assert d != 0 ==> log[d - 1].kind == StopError;
    assert forall kind ::
        m.Num(kind, key) == match kind case Started => a case Restarted => b case StopWarn => c case StopError => d;
  }

  /** A number above all others of its component wins. */
  lemma HighestWins(m: SeqMaps, key: string, w: Kind)
    requires forall kind :: kind != w ==> m.Num(kind, key) < m.Num(w, key)
    ensures Winner(m, key) == Some(w)
  {
    var a, b, c, d := m.Num(Started, key), m.Num(Restarted, key), m.Num(StopWarn, key), m.Num(StopError, key);
    assert Started != w ==> a < m.Num(w, key);
    assert Restarted != w ==> b < m.Num(w, key);
    assert StopWarn != w ==> c < m.Num(w, key);
    assert StopError != w ==> d < m.Num(w, key);
  }

  /** Two queues with the same numbers for a component agree on its top. */
  lemma SameNumsSameTop(m: SeqMaps, n: SeqMaps, key: string)
    requires forall kind :: m.Num(kind, key) == n.Num(kind, key)
    ensures Top(m, key) == Top(n, key)
  {
    assert m.Num(Started, key) == n.Num(Started, key);
    assert m.Num(Restarted, key) == n.Num(Restarted, key);
    assert m.Num(StopWarn, key) == n.Num(StopWarn, key);
    assert m.Num(StopError, key) == n.Num(StopError, key);
  }

  lemma NothingQueued(m: SeqMaps, key: string)
    requires forall kind :: m.Num(kind, key) == 0
    ensures Top(m, key) == None
  {
    assert m.Num(Started, key) == 0 && m.Num(Restarted, key) == 0 && m.Num(StopWarn, key) == 0
        && m.Num(StopError, key) == 0;
  }

  /** The pending number is the highest of all eight. */
  lemma PendingIsHighest(q: Queue, log: seq<Event>, mark: nat, key: string)
    requires Sequenced(q, log, mark)
    ensures Pending(q, key).None? <==> forall kind :: q.global.Num(kind, key) == 0 && q.local.Num(kind, key) == 0
    ensures Pending(q, key).Some? ==>
              var p := Pending(q, key).value;
              && 0 < p.num <= |log| && log[p.num - 1] == Event(key, p.kind)
              && forall kind :: q.global.Num(kind, key) <= p.num && q.local.Num(kind, key) <= p.num
  {
    TopIsMaximum(q.global, log, mark, |log|, key);
    TopIsMaximum(q.local, log, 0, mark, key);
    forall kind: Kind
      ensures q.local.Num(kind, key) <= mark
    {
    }
  }

  // ---------- notify is an upsert ----------

  lemma NotifyNums(q: Queue, e: Event)
    ensures var q' := Notify(q, e);
            && q'.local == q.local
            && forall kind, key :: q'.global.Num(kind, key) ==
                 if kind == e.kind && key == e.component then q.hbSeq + 1 else q.global.Num(kind, key)
  {
  }

  lemma NotifyKeepsSequenced(q: Queue, e: Event, log: seq<Event>, mark: nat)
    requires Sequenced(q, log, mark)
    ensures Sequenced(Notify(q, e), log + [e], mark)
  {
    NotifyNums(q, e);
  }

  lemma NotifyTop(q: Queue, e: Event, log: seq<Event>, mark: nat, key: string)
    requires Sequenced(q, log, mark)
    ensures Top(Notify(q, e).global, key) ==
            if key == e.component then Some(Numbered(e.kind, q.hbSeq + 1)) else Top(q.global, key)
  {
    NotifyNums(q, e);
    var g' := Notify(q, e).global;
    if key == e.component {
      forall kind | kind != e.kind
        ensures g'.Num(kind, key) < g'.Num(e.kind, key)
      {
        assert g'.Num(kind, key) == q.global.Num(kind, key);
      }
      HighestWins(g', key, e.kind);
    } else {
      SameNumsSameTop(g', q.global, key);
    }
  }

  lemma NotifyKeepsCurrent(q: Queue, e: Event, log: seq<Event>, mark: nat)
    requires Sequenced(q, log, mark) && Current(q, log, mark)
    ensures Current(Notify(q, e), log + [e], mark)
  {
    var q', log' := Notify(q, e), log + [e];
    forall key
      ensures NoneSince(log', key, if Top(q'.global, key).Some? then Top(q'.global, key).value.num else mark, |log'|)
    {
      NotifyTop(q, e, log, mark, key);
      assert NoneSince(log, key, if Top(q.global, key).Some? then Top(q.global, key).value.num else mark, |log|);
    }
    forall key | Top(q'.local, key).Some?
      ensures NoneSince(log', key, Top(q'.local, key).value.num, mark)
    {
      assert NoneSince(log, key, Top(q.local, key).value.num, mark);
    }
  }

  /** hb_update_notify sets one entry of the single map and leaves the others. */
  lemma NotifyIsUpsert(q: Queue, e: Event, log: seq<Event>, mark: nat)
    requires Sequenced(q, log, mark)
    ensures Latest(Notify(q, e)) == Latest(q)[e.component := Numbered(e.kind, q.hbSeq + 1)]
  {
    var q' := Notify(q, e);
    forall key
      ensures Pending(q', key) == if key == e.component then Some(Numbered(e.kind, q.hbSeq + 1)) else Pending(q, key)
    {
      NotifyTop(q, e, log, mark, key);
    }
    PendingHasKeys(q);
    PendingHasKeys(q');
  }

  lemma PendingHasKeys(q: Queue)
    ensures forall key :: Pending(q, key).Some? ==> key in Keys(q.global) + Keys(q.local)
    ensures forall key :: key in Latest(q) <==> Pending(q, key).Some?
  {
  }

  // ---------- absorbing changes nothing in the single map ----------

  lemma AbsorbNums(q: Queue)
    ensures var q' := Absorb(q);
            && q'.hbSeq == q.hbSeq
            && (forall kind, key :: q'.global.Num(kind, key) == 0)
            && forall kind, key :: q'.local.Num(kind, key) ==
                 if q.global.Num(kind, key) != 0 then q.global.Num(kind, key) else q.local.Num(kind, key)
  {
    var q' := Absorb(q);
    forall kind: Kind, key: string
      ensures q'.global.Num(kind, key) == 0
      ensures q'.local.Num(kind, key) ==
                 if q.global.Num(kind, key) != 0 then q.global.Num(kind, key) else q.local.Num(kind, key)
    {
      match kind { case Started => case Restarted => case StopWarn => case StopError => }
    }
  }

  /**
   The keys that the persistent maps gain are those with something queued: a zero of a
   global map is not taken over.
   */
  lemma AbsorbKeys(q: Queue, kind: Kind, key: string)
    ensures key in Absorb(q).local.Of(kind) <==> key in q.local.Of(kind) || q.global.Num(kind, key) != 0
  {
    match kind { case Started => case Restarted => case StopWarn => case StopError => }
  }

  lemma AbsorbKeepsSequenced(q: Queue, log: seq<Event>, mark: nat)
    requires Sequenced(q, log, mark)
    ensures Sequenced(Absorb(q), log, |log|)
  {
    AbsorbNums(q);
  }

  lemma AbsorbTop(q: Queue, log: seq<Event>, mark: nat, key: string)
    requires Sequenced(q, log, mark)
    ensures Top(Absorb(q).global, key) == None
    ensures Top(Absorb(q).local, key) == Pending(q, key)
  {
    AbsorbNums(q);
    var q' := Absorb(q);
    NothingQueued(q'.global, key);
    TopIsMaximum(q.global, log, mark, |log|, key);
    if Top(q.global, key).Some? {
      var w := Winner(q.global, key).value;
      forall kind | kind != w
        ensures q'.local.Num(kind, key) < q'.local.Num(w, key)
      {
        assert q.local.Num(kind, key) <= mark < q.global.Num(w, key);
      }
      HighestWins(q'.local, key, w);
    } else {
      SameNumsSameTop(q'.local, q.local, key);
    }
  }

  lemma AbsorbKeepsCurrent(q: Queue, log: seq<Event>, mark: nat)
    requires Sequenced(q, log, mark) && Current(q, log, mark)
    ensures Current(Absorb(q), log, |log|)
  {
    var q' := Absorb(q);
    forall key
      ensures Top(q'.global, key).None?
      ensures Top(q'.local, key).Some? ==> NoneSince(log, key, Top(q'.local, key).value.num, |log|)
    {
      AbsorbTop(q, log, mark, key);
      assert NoneSince(log, key, if Top(q.global, key).Some? then Top(q.global, key).value.num else mark, |log|);
      if Top(q.global, key).None? && Top(q.local, key).Some? {
        assert NoneSince(log, key, Top(q.local, key).value.num, mark);
      }
    }
  }

  /** Moving the global entries into the persistent maps loses and invents nothing. */
  lemma AbsorbKeepsLatest(q: Queue, log: seq<Event>, mark: nat)
    requires Sequenced(q, log, mark)
    ensures Latest(Absorb(q)) == Latest(q)
  {
    forall key
      ensures Pending(Absorb(q), key) == Pending(q, key)
    {
      AbsorbTop(q, log, mark, key);
    }
    PendingHasKeys(q);
    PendingHasKeys(Absorb(q));
  }

  // ---------- the exact effect of clearing ----------

  /** A category acknowledged and holding an entry, of whatever value, of the component. */
  predicate Hits(m: SeqMaps, kind: Kind, acked: set<Kind>, key: string) {
    kind in acked && key in m.Of(kind)
  }

  ghost predicate Touched(m: SeqMaps, acked: set<Kind>, key: string) {
    exists kind :: Hits(m, kind, acked, key)
  }

  lemma ClearOneOf(m: SeqMaps, done: Kind, kind: Kind)
    ensures ClearOne(m, done).Of(kind) == if kind == done then map[] else Zeroed(m.Of(kind), m.Of(done).Keys)
  {
    match kind { case Started => case Restarted => case StopWarn => case StopError => }
  }

  lemma ClearOneAt(m: SeqMaps, done: Kind, key: string)
    ensures var m' := ClearOne(m, done);
            && (forall kind :: m'.Num(kind, key) == if key in m.Of(done) then 0 else m.Num(kind, key))
            && (forall kind :: key in m'.Of(kind) <==> kind != done && (key in m.Of(kind) || key in m.Of(done)))
  {
    forall kind
      ensures ClearOne(m, done).Num(kind, key) == if key in m.Of(done) then 0 else m.Num(kind, key)
      ensures key in ClearOne(m, done).Of(kind) <==> kind != done && (key in m.Of(kind) || key in m.Of(done))
    {
      ClearOneOf(m, done, kind);
    }
  }

  lemma ClearIfAt(m: SeqMaps, done: Kind, acked: set<Kind>, key: string)
    ensures var m' := ClearIf(m, done, acked);
            && (forall kind :: m'.Num(kind, key) == if Hits(m, done, acked, key) then 0 else m.Num(kind, key))
            && (Hits(m, done, acked, key)
                 || (forall kind :: kind != done ==> (key in m'.Of(kind) <==> key in m.Of(kind))))
  {
    ClearOneAt(m, done, key);
  }

  /** Once all numbers of a component are zero, clearing keeps them so. */
  lemma ClearIfKeepsZero(m: SeqMaps, done: Kind, acked: set<Kind>, key: string)
    requires forall kind :: m.Num(kind, key) == 0
    ensures forall kind :: ClearIf(m, done, acked).Num(kind, key) == 0
  {
    ClearIfAt(m, done, acked, key);
  }

  lemma TouchedCases(m: SeqMaps, acked: set<Kind>, key: string)
    ensures Touched(m, acked, key) <==>
            || Hits(m, Started, acked, key) || Hits(m, Restarted, acked, key)
            || Hits(m, StopWarn, acked, key) || Hits(m, StopError, acked, key)
  {
  }

  /**
   The four clearings together zero all numbers of a component or none, and zero
   them exactly when the component was a key of an acknowledged category's map.
   Keys that one clearing adds do not make a later one reach further.
   */
  lemma ClearIsExact(m: SeqMaps, acked: set<Kind>, key: string)
    ensures forall kind :: Clear(m, acked).Num(kind, key) == if Touched(m, acked, key) then 0 else m.Num(kind, key)
  {
    TouchedCases(m, acked, key);
    var m1 := ClearIf(m, Started, acked);
    var m2 := ClearIf(m1, Restarted, acked);
    var m3 := ClearIf(m2, StopWarn, acked);
    ClearIfAt(m, Started, acked, key);
    if Hits(m, Started, acked, key) {
      ClearIfKeepsZero(m1, Restarted, acked, key);
      ClearIfKeepsZero(m2, StopWarn, acked, key);
      ClearIfKeepsZero(m3, StopError, acked, key);
    } else {
      ClearIfAt(m1, Restarted, acked, key);
      if Hits(m, Restarted, acked, key) {
        ClearIfKeepsZero(m2, StopWarn, acked, key);
        ClearIfKeepsZero(m3, StopError, acked, key);
      } else {
        ClearIfAt(m2, StopWarn, acked, key);
        if Hits(m, StopWarn, acked, key) {
          ClearIfKeepsZero(m3, StopError, acked, key);
        } else {
          ClearIfAt(m3, StopError, acked, key);
        }
      }
    }
  }

  /** The acknowledged category that is cleared last. */
  function LastCleared(acked: set<Kind>): Option<Kind> {
    if StopError in acked then Some(StopError)
    else if StopWarn in acked then Some(StopWarn)
    else if Restarted in acked then Some(Restarted)
    else if Started in acked then Some(Started)
    else None
  }

  /**
   What the four clearings do to the keys: a component that is touched ends as a key
   of all the maps but the one cleared last, any other as a key of the maps it was in.
   */
  lemma ClearKeys(m: SeqMaps, acked: set<Kind>, kind: Kind, key: string)
    ensures key in Clear(m, acked).Of(kind) <==>
            if Touched(m, acked, key) then LastCleared(acked) != Some(kind) else key in m.Of(kind)
  {
    TouchedCases(m, acked, key);
    var m1 := ClearIf(m, Started, acked);
    var m2 := ClearIf(m1, Restarted, acked);
    var m3 := ClearIf(m2, StopWarn, acked);
    ClearIfKeys(m, Started, acked, key);
    ClearIfKeys(m1, Restarted, acked, key);
    ClearIfKeys(m2, StopWarn, acked, key);
    ClearIfKeys(m3, StopError, acked, key);
  }

  lemma ClearIfKeys(m: SeqMaps, done: Kind, acked: set<Kind>, key: string)
    ensures forall kind :: key in ClearIf(m, done, acked).Of(kind) <==>
              if Hits(m, done, acked, key) then kind != done else key in m.Of(kind)
  {
    ClearOneAt(m, done, key);
  }

  lemma ClearTop(m: SeqMaps, acked: set<Kind>, key: string)
    ensures Top(Clear(m, acked), key) == if Touched(m, acked, key) then None else Top(m, key)
  {
    ClearIsExact(m, acked, key);
    if Touched(m, acked, key) {
      NothingQueued(Clear(m, acked), key);
    } else {
      SameNumsSameTop(Clear(m, acked), m, key);
    }
  }

  function Finish(q: Queue, acked: set<Kind>): Queue {
    q.(local := Clear(q.local, acked))
  }

  lemma FinishKeepsSequenced(q: Queue, acked: set<Kind>, log: seq<Event>, mark: nat)
    requires Sequenced(q, log, mark)
    ensures Sequenced(Finish(q, acked), log, mark)
  {
    var m' := Clear(q.local, acked);
    forall kind: Kind, key: string | m'.Num(kind, key) != 0
      ensures m'.Num(kind, key) == q.local.Num(kind, key)
    {
      ClearIsExact(q.local, acked, key);
    }
  }

  lemma FinishKeepsCurrent(q: Queue, acked: set<Kind>, log: seq<Event>, mark: nat)
    requires Sequenced(q, log, mark) && Current(q, log, mark)
    ensures Current(Finish(q, acked), log, mark)
  {
    forall key | Top(Finish(q, acked).local, key).Some?
      ensures NoneSince(log, key, Top(Finish(q, acked).local, key).value.num, mark)
    {
      ClearTop(q.local, acked, key);
      assert NoneSince(log, key, Top(q.local, key).value.num, mark);
    }
    forall key
      ensures var top := Top(Finish(q, acked).global, key);
              NoneSince(log, key, if top.Some? then top.value.num else mark, |log|)
    {
      assert NoneSince(log, key, if Top(q.global, key).Some? then Top(q.global, key).value.num else mark, |log|);
    }
  }

  /** A round's effect on the single map, for any mix of outcomes: newer events stay, touched components go. */
  lemma FinishIsExact(q: Queue, acked: set<Kind>)
    ensures forall key :: Pending(Finish(q, acked), key) ==
              if Top(q.global, key).None? && Touched(q.local, acked, key) then None else Pending(q, key)
  {
    forall key
      ensures Pending(Finish(q, acked), key) ==
              if Top(q.global, key).None? && Touched(q.local, acked, key) then None else Pending(q, key)
    {
      ClearTop(q.local, acked, key);
    }
  }

  // ---------- when a round loses nothing ----------

  /** The categories that have something to send. */
  ghost predicate Needed(m: SeqMaps, kind: Kind) {
    exists key :: Winner(m, key) == Some(kind)
  }

  /** No component whose category failed has an entry in the map of a category that was acknowledged. */
  ghost predicate Clean(m: SeqMaps, acked: set<Kind>) {
    forall key {:trigger Touched(m, acked, key)} :: Touched(m, acked, key) && Winner(m, key).Some? ==>
        Winner(m, key).value in acked
  }

  /** Every event whose own PATCH was not acknowledged is still the one to send. */
  ghost predicate KeepsUnsent(m: SeqMaps, acked: set<Kind>) {
    forall key {:trigger Top(m, key)} :: Winner(m, key).Some? && Winner(m, key).value !in acked ==>
        Top(Clear(m, acked), key) == Top(m, key)
  }

  /** A round keeps every unsent event if and only if it is clean. */
  lemma KeepsUnsentIffClean(m: SeqMaps, acked: set<Kind>)
    ensures KeepsUnsent(m, acked) <==> Clean(m, acked)
  {
    forall key
      ensures Top(Clear(m, acked), key) == if Touched(m, acked, key) then None else Top(m, key)
    {
      ClearTop(m, acked, key);
    }
    if KeepsUnsent(m, acked) {
      forall key | Touched(m, acked, key) && Winner(m, key).Some?
        ensures Winner(m, key).value in acked
      {
        assert Top(m, key).Some?;
      }
    }
  }

  /** The round does not wipe an event of the component that it did not get through. */
  ghost predicate Spares(q: Queue, acked: set<Kind>, key: string) {
    Touched(q.local, acked, key) && Top(q.global, key).None? && Winner(q.local, key).Some? ==>
      Winner(q.local, key).value in acked
  }

  /**
   For one component: what was queued for it is queued after the round, unless it
   was acknowledged, if and only if the round spares it.
   */
  lemma QueuedSurvivesIffSpared(q: Queue, acked: set<Kind>, key: string)
    ensures Spares(q, acked, key) <==>
            Pending(Finish(q, acked), key) == Pending(q, key)
            || (Top(q.global, key).None? && Winner(q.local, key).Some? && Winner(q.local, key).value in acked)
  {
    FinishIsExact(q, acked);
  }

  /** A clean round spares every component, whatever else is queued; on an empty global queue only a clean one does. */
  lemma CleanMeansAllSpared(q: Queue, acked: set<Kind>)
    ensures Clean(q.local, acked) ==> forall key :: Spares(q, acked, key)
    ensures (forall key :: Top(q.global, key).None? && Spares(q, acked, key)) ==> Clean(q.local, acked)
  {
    if forall key :: Top(q.global, key).None? && Spares(q, acked, key) {
      forall key | Touched(q.local, acked, key) && Winner(q.local, key).Some?
        ensures Winner(q.local, key).value in acked
      {
        assert Spares(q, acked, key);
      }
    }
  }

  /** Rounds in which every needed PATCH succeeds, or none does, are clean. */
  lemma UniformRoundsAreClean(m: SeqMaps, acked: set<Kind>)
    requires acked == {} || forall kind :: Needed(m, kind) ==> kind in acked
    ensures Clean(m, acked)
  {
    forall key | Touched(m, acked, key) && Winner(m, key).Some?
      ensures Winner(m, key).value in acked
    {
      assert Needed(m, Winner(m, key).value);
    }
  }

  /** After a round in which every needed PATCH succeeds, the persistent maps hold nothing to send. */
  lemma FullRoundEmpties(m: SeqMaps, acked: set<Kind>, log: seq<Event>, mark: nat, key: string)
    requires Numbers(m, log, 0, mark)
    requires forall kind :: Needed(m, kind) ==> kind in acked
    ensures forall kind :: Clear(m, acked).Num(kind, key) == 0
  {
    ClearIsExact(m, acked, key);
    TopIsMaximum(m, log, 0, mark, key);
    if Winner(m, key).Some? {
      var w := Winner(m, key).value;
      assert Needed(m, w);
      assert m.Num(w, key) != 0;
      assert Hits(m, w, acked, key);
    }
  }
}
