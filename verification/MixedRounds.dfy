/**
 Rounds with mixed outcomes. A comment in send_sm_req promises that what failed
 is retained, but clearing goes by key: an acknowledged category wipes every
 component that has an entry in its map, even one whose own PATCH failed.
 The two witnesses hold for any two different components.
 */
module MixedRounds {
  import opened Basics
  import opened Collapser
  import opened Reporting

  ghost predicate Reaches(d: Desk, steps: seq<DeskStep>, d': Desk) {
    Possible(d, steps) && Run(d, steps) == d'
  }

  lemma {:induction false} Concat(d: Desk, a: seq<DeskStep>, mid: Desk, b: seq<DeskStep>, d': Desk)
    requires Reaches(d, a, mid) && Reaches(mid, b, d')
    ensures Reaches(d, a + b, d')
    decreases |a|
  {
    if a == [] {
      assert a + b == b;
    } else {
      assert (a + b)[1..] == a[1..] + b;
      Concat(Step(d, a[0]), a[1..], mid, b, d');
    }
  }

  lemma OneStep(d: Desk, s: DeskStep, d': Desk)
    requires Enabled(d, s) && Step(d, s) == d'
    ensures Reaches(d, [s], d')
  {
    assert [s][1..] == [];
  }

  lemma ThreeSteps(d: Desk, s1: DeskStep, d1: Desk, s2: DeskStep, d2: Desk, s3: DeskStep, d3: Desk)
    requires Enabled(d, s1) && Step(d, s1) == d1
    requires Enabled(d1, s2) && Step(d1, s2) == d2
    requires Enabled(d2, s3) && Step(d2, s3) == d3
    ensures Reaches(d, [s1, s2, s3], d3)
  {
    OneStep(d, s1, d1);
    OneStep(d1, s2, d2);
    OneStep(d2, s3, d3);
    Concat(d, [s1], d1, [s2], d2);
    Concat(d, [s1] + [s2], d2, [s3], d3);
    assert [s1] + [s2] + [s3] == [s1, s2, s3];
  }

  /** A component with nothing queued and no new event is never reported, whatever the outcomes. */
  lemma {:induction false} UnqueuedIsNeverSent(d: Desk, steps: seq<DeskStep>, key: string)
    requires DeskInv(d) && Possible(d, steps)
    requires Pending(d.q, key).None?
    requires forall s :: s in steps && s.Notice? ==> s.e.component != key
    ensures Overlay(Run(d, steps), key) == Overlay(d, key)
    ensures Pending(Run(d, steps).q, key).None?
    decreases |steps|
  {
    if steps != [] {
      var s, d1 := steps[0], Step(d, steps[0]);
      StepKeepsInv(d, s);
      match s {
        case Notice(e) => NotifyTop(d.q, e, d.log, d.mark, key);
        case Begin(_) => AbsorbTop(d.q, d.log, d.mark, key);
        case Land(_, _) =>
        case Close => FinishIsExact(d.q, AckedKinds(d.round.results));
      }
      UnqueuedIsNeverSent(d1, steps[1..], key);
    }
  }

  // ---------- small desks ----------

  lemma TwoNeeds(m: SeqMaps, k: string, j: string)
    requires forall kind :: m.Of(kind).Keys <= {k, j}
    requires Winner(m, k).Some? && Winner(m, j).Some?
    ensures forall kind :: Needed(m, kind) <==> Winner(m, k) == Some(kind) || Winner(m, j) == Some(kind)
  {
    forall kind | Needed(m, kind)
      ensures Winner(m, k) == Some(kind) || Winner(m, j) == Some(kind)
    {
      var key :| Winner(m, key) == Some(kind);
      WinnerHasKey(m, key);
      assert key in m.Of(kind);
    }
  }

  /** Absorbing into persistent maps `local` and opening a round. */
  lemma Opens(d: Desk, local: SeqMaps, kind: Kind)
    requires d.round.Waiting? && Absorb(d.q).local == local && Needed(local, kind)
    ensures Reaches(d, [Begin(true)], d.(q := Absorb(d.q), mark := |d.log|, round := Sending(map[])))
  {
    OneStep(d, Begin(true), Step(d, Begin(true)));
  }

  /** One category is acknowledged, the other fails outright, and the round closes. */
  lemma MixedRound(d: Desk, good: Kind, bad: Kind)
    requires d.round == Sending(map[]) && good != bad
    requires forall kind :: Needed(d.q.local, kind) <==> kind == good || kind == bad
    ensures var hsm := Patched(d.hsm, d.q.local, good, Acked);
            Reaches(d, [Land(good, Acked), Land(bad, Failed({})), Close],
                    d.(q := Finish(d.q, {good}), hsm := hsm, round := Waiting,
                       reports := d.reports + [Report(Sent(d.q.local), {good}, d.mark)]))
  {
    var hsm := Patched(d.hsm, d.q.local, good, Acked);
    var d1 := d.(hsm := hsm, round := Sending(map[good := Acked]));
    var d2 := d.(hsm := hsm, round := Sending(map[good := Acked, bad := Failed({})]));
    assert Patched(hsm, d.q.local, bad, Failed({})) == hsm;
    assert AckedKinds(d2.round.results) == {good};
    ThreeSteps(d, Land(good, Acked), d1, Land(bad, Failed({})), d2, Close, Step(d2, Close));
  }

  /** Right after absorbing, whatever is touched by an acknowledged category is gone. */
  lemma TouchedIsGone(q: Queue, acked: set<Kind>, kind: Kind, key: string)
    requires kind in acked && key in Absorb(q).local.Of(kind)
    ensures Pending(Finish(Absorb(q), acked), key) == None
  {
    assert Hits(Absorb(q).local, kind, acked, key);
    FinishIsExact(Absorb(q), acked);
    AbsorbNums(q);
    NothingQueued(Absorb(q).global, key);
  }

  // ---------- first witness ----------

  function FirstEvents(k: string, j: string): seq<DeskStep> {
    [Notice(Event(k, Started)), Notice(Event(k, StopWarn)), Notice(Event(j, Started))]
  }

  function FirstMaps(k: string, j: string): SeqMaps {
    SeqMaps(map[k := 1, j := 3], map[], map[k := 2], map[])
  }

  function FirstDesk(k: string, j: string): Desk {
    Desk(Queue(FirstMaps(k, j), NO_MAPS, 3), [Event(k, Started), Event(k, StopWarn), Event(j, Started)], 0, map[],
        Waiting, [])
  }

  lemma FirstReached(k: string, j: string)
    requires k != j
    ensures Reaches(EMPTY_DESK, FirstEvents(k, j), FirstDesk(k, j))
  {
    var s := FirstEvents(k, j);
    var d1 := Step(EMPTY_DESK, s[0]);
    var d2 := Step(d1, s[1]);
    ThreeSteps(EMPTY_DESK, s[0], d1, s[1], d2, s[2], FirstDesk(k, j));
  }

  lemma FirstAbsorbed(k: string, j: string)
    requires k != j
    ensures var m := Absorb(FirstDesk(k, j).q).local;
            && m == FirstMaps(k, j)
            && Winner(m, k) == Some(StopWarn) && Winner(m, j) == Some(Started)
            && forall kind :: Needed(m, kind) <==> kind == Started || kind == StopWarn
  {
    var m := Absorb(FirstDesk(k, j).q).local;
    assert m == FirstMaps(k, j);
    TwoNeeds(m, k, j);
  }

  lemma FirstPatched(k: string, j: string)
    requires k != j
    ensures Patched(map[], FirstMaps(k, j), Started, Acked) == map[j := KindView(Started)]
  {
    var m := FirstMaps(k, j);
    assert Winner(m, k) == Some(StopWarn) && Winner(m, j) == Some(Started);
    assert Keys(m) == {k, j};
  }

  lemma FirstLastKind(k: string, j: string)
    requires k != j
    ensures LastKind(FirstDesk(k, j).log, k) == Some(StopWarn)
  {
    assert FirstDesk(k, j).log[..2] == [Event(k, Started), Event(k, StopWarn)];
  }

  /** k warned, its PATCH failed, yet nothing of k is queued any more: another component's start was acknowledged. */
  lemma WarningIsLost(k: string, j: string)
    requires k != j
    ensures var steps := FirstEvents(k, j) + [Begin(true)] + [Land(Started, Acked), Land(StopWarn, Failed({})), Close];
            && Possible(EMPTY_DESK, steps)
            && var d := Run(EMPTY_DESK, steps);
            && LastKind(d.log, k) == Some(StopWarn)
            && Pending(d.q, k) == None
            && d.hsm == map[j := KindView(Started)]
  {
    var d := FirstDesk(k, j);
    FirstReached(k, j);
    FirstAbsorbed(k, j);
    FirstPatched(k, j);
    assert k in FirstMaps(k, j).Of(Started);
    TouchedIsGone(d.q, {Started}, Started, k);
    Opens(d, FirstMaps(k, j), Started);
    var sending := d.(q := Absorb(d.q), mark := |d.log|, round := Sending(map[]));
    MixedRound(sending, Started, StopWarn);
    var closed := Run(sending, [Land(Started, Acked), Land(StopWarn, Failed({})), Close]);
    Concat(EMPTY_DESK, FirstEvents(k, j), d, [Begin(true)], sending);
    Concat(EMPTY_DESK, FirstEvents(k, j) + [Begin(true)], sending,
        [Land(Started, Acked), Land(StopWarn, Failed({})), Close], closed);
    FirstLastKind(k, j);
  }

  // ---------- second witness ----------

  function StartBoth(k: string, j: string): seq<DeskStep> {
    [Notice(Event(k, Started)), Notice(Event(j, Started))]
  }

  function StopBoth(k: string, j: string): seq<DeskStep> {
    [Notice(Event(j, StopWarn)), Notice(Event(k, StopError))]
  }

  function Zeros(k: string, j: string): SeqMap {
    map[k := 0, j := 0]
  }

  lemma TwoNotices(d: Desk, e: Event, f: Event)
    ensures Reaches(d, [Notice(e), Notice(f)], d.(q := Notify(Notify(d.q, e), f), log := d.log + [e] + [f]))
  {
    OneStep(d, Notice(e), Step(d, Notice(e)));
    OneStep(Step(d, Notice(e)), Notice(f), Step(Step(d, Notice(e)), Notice(f)));
    Concat(d, [Notice(e)], Step(d, Notice(e)), [Notice(f)], Step(Step(d, Notice(e)), Notice(f)));
    assert [Notice(e)] + [Notice(f)] == [Notice(e), Notice(f)];
  }

  /** A round with a single needed category, acknowledged. */
  lemma GoodRound(d: Desk, good: Kind)
    requires d.round == Sending(map[])
    requires forall kind :: Needed(d.q.local, kind) <==> kind == good
    ensures var hsm := Patched(d.hsm, d.q.local, good, Acked);
            Reaches(d, [Land(good, Acked), Close],
                    d.(q := Finish(d.q, {good}), hsm := hsm, round := Waiting,
                       reports := d.reports + [Report(Sent(d.q.local), {good}, d.mark)]))
  {
    var d1 := Step(d, Land(good, Acked));
    assert AckedKinds(d1.round.results) == {good};
    OneStep(d, Land(good, Acked), d1);
    OneStep(d1, Close, Step(d1, Close));
    Concat(d, [Land(good, Acked)], d1, [Close], Step(d1, Close));
    assert [Land(good, Acked)] + [Close] == [Land(good, Acked), Close];
  }

  function BothStarted(k: string, j: string): SeqMaps {
    SeqMaps(map[k := 1, j := 2], map[], map[], map[])
  }

  lemma BothStartedNeeds(k: string, j: string)
    requires k != j
    ensures var q := Notify(Notify(EMPTY_DESK.q, Event(k, Started)), Event(j, Started));
            && q == Queue(BothStarted(k, j), NO_MAPS, 2)
            && Absorb(q).local == BothStarted(k, j)
            && Absorb(q).global == SeqMaps(Zeros(k, j), map[], map[], map[])
            && Winner(BothStarted(k, j), k) == Some(Started)
            && forall kind :: Needed(BothStarted(k, j), kind) <==> kind == Started
  {
    TwoNeeds(BothStarted(k, j), k, j);
  }

  lemma BothStartedCleared(k: string, j: string)
    requires k != j
    ensures Clear(BothStarted(k, j), {Started}) == SeqMaps(map[], Zeros(k, j), Zeros(k, j), Zeros(k, j))
    ensures var hsm := Patched(map[], BothStarted(k, j), Started, Acked); k in hsm && hsm[k] == View(Ready, OK)
  {
    var m := BothStarted(k, j);
    assert Winner(m, k) == Some(Started) && k in Keys(m);
    assert m.start.Keys == {k, j};
    assert Zeroed(map[], {k, j}) == Zeros(k, j);
  }

  function StartedSteps(k: string, j: string): seq<DeskStep> {
    StartBoth(k, j) + [Begin(true)] + [Land(Started, Acked), Close]
  }

  /** Both starts are acknowledged; what stays behind are zero entries in the other three maps. */
  lemma StartsLeaveZeros(k: string, j: string) returns (d: Desk)
    requires k != j
    ensures Reaches(EMPTY_DESK, StartedSteps(k, j), d)
    ensures d.q ==
            Queue(SeqMaps(Zeros(k, j), map[], map[], map[]), SeqMaps(map[], Zeros(k, j), Zeros(k, j), Zeros(k, j)), 2)
    ensures d.round.Waiting? && k in d.hsm && d.hsm[k] == View(Ready, OK)
  {
    TwoNotices(EMPTY_DESK, Event(k, Started), Event(j, Started));
    BothStartedNeeds(k, j);
    BothStartedCleared(k, j);
    var d1 := Run(EMPTY_DESK, StartBoth(k, j));
    Opens(d1, BothStarted(k, j), Started);
    var d2 := d1.(q := Absorb(d1.q), mark := |d1.log|, round := Sending(map[]));
    GoodRound(d2, Started);
    d := Run(d2, [Land(Started, Acked), Close]);
    Concat(EMPTY_DESK, StartBoth(k, j), d1, [Begin(true)], d2);
    Concat(EMPTY_DESK, StartBoth(k, j) + [Begin(true)], d2, [Land(Started, Acked), Close], d);
  }

  function Stopped(k: string, j: string): SeqMaps {
    SeqMaps(map[], Zeros(k, j), map[k := 0, j := 3], map[k := 4, j := 0])
  }

  lemma StopsAbsorbed(k: string, j: string, q: Queue)
    requires k != j
    requires q == Queue(SeqMaps(Zeros(k, j), map[], map[], map[]),
            SeqMaps(map[], Zeros(k, j), Zeros(k, j), Zeros(k, j)), 2)
    ensures Absorb(Notify(Notify(q, Event(j, StopWarn)), Event(k, StopError))).local == Stopped(k, j)
  {
    var q2 := Notify(Notify(q, Event(j, StopWarn)), Event(k, StopError));
    assert q2.global == SeqMaps(Zeros(k, j), map[], map[j := 3], map[k := 4]);
    assert Pull(map[], Zeros(k, j)) == map[];
    assert Pull(Zeros(k, j), map[j := 3]) == map[k := 0, j := 3];
    assert Pull(Zeros(k, j), map[k := 4]) == map[k := 4, j := 0];
  }

  lemma StopsNeeded(k: string, j: string)
    requires k != j
    ensures Winner(Stopped(k, j), k) == Some(StopError) && Winner(Stopped(k, j), j) == Some(StopWarn)
    ensures forall kind :: Needed(Stopped(k, j), kind) <==> kind == StopWarn || kind == StopError
  {
    TwoNeeds(Stopped(k, j), k, j);
  }

  /**
   A zero entry that an earlier clearing left behind does the same: k is declared
   dead, its PATCH fails, j's warning is acknowledged, and k stays Ready/OK in
   HSM with nothing queued. By UnqueuedIsNeverSent it stays so until k's next event.
   */
  lemma DeathIsLost(k: string, j: string)
    requires k != j
    ensures var steps := StartedSteps(k, j) + StopBoth(k, j) + [Begin(true)]
                         + [Land(StopWarn, Acked), Land(StopError, Failed({})), Close];
            && Possible(EMPTY_DESK, steps)
            && var d := Run(EMPTY_DESK, steps);
            && LastKind(d.log, k) == Some(StopError)
            && Pending(d.q, k) == None
            && k in d.hsm && d.hsm[k] == View(Ready, OK)
  {
    var d0 := StartsLeaveZeros(k, j);
    TwoNotices(d0, Event(j, StopWarn), Event(k, StopError));
    StopsAbsorbed(k, j, d0.q);
    StopsNeeded(k, j);
    var d1 := Run(d0, StopBoth(k, j));
    Opens(d1, Stopped(k, j), StopError);
    var d2 := d1.(q := Absorb(d1.q), mark := |d1.log|, round := Sending(map[]));
    MixedRound(d2, StopWarn, StopError);
    var last := [Land(StopWarn, Acked), Land(StopError, Failed({})), Close];
    var d3 := Run(d2, last);
    assert k in Stopped(k, j).Of(StopWarn);
    TouchedIsGone(d1.q, {StopWarn}, StopWarn, k);
    Concat(EMPTY_DESK, StartedSteps(k, j), d0, StopBoth(k, j), d1);
    Concat(EMPTY_DESK, StartedSteps(k, j) + StopBoth(k, j), d1, [Begin(true)], d2);
    Concat(EMPTY_DESK, StartedSteps(k, j) + StopBoth(k, j) + [Begin(true)], d2, last, d3);
  }
}
