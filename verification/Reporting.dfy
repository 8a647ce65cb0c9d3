/**
 The reporter as a protocol: events are noticed at any moment, a round absorbs
 the global maps, sends up to four PATCHes in parallel that land in any order,
 waits for all of them and clears. HSM keeps the last view it was given.
 */
module Reporting {
  import opened Basics
  import opened Collapser

  // A PATCH is acknowledged, or it fails although HSM may have taken over part of it.
  datatype Outcome = Acked | Failed(landed: set<string>)

  datatype Round = Waiting | Sending(results: map<Kind, Outcome>)

  // What a finished round reported, which categories were acknowledged, and how many events had
  // happened when it absorbed.
  datatype Report = Report(sent: map<string, Numbered>, acked: set<Kind>, seen: nat)

  datatype Desk = Desk(q: Queue, log: seq<Event>, mark: nat, hsm: map<string, View>, round: Round, reports: seq<Report>)

  datatype DeskStep = Notice(e: Event) | Begin(hsmReady: bool) | Land(kind: Kind, outcome: Outcome) | Close

  const EMPTY_DESK := Desk(Queue(NO_MAPS, NO_MAPS, 0), [], 0, map[], Waiting, [])

  function Sent(m: SeqMaps): map<string, Numbered> {
    map key | key in Keys(m) && Top(m, key).Some? :: Top(m, key).value
  }

  function AckedKinds(results: map<Kind, Outcome>): set<Kind> {
    set kind | kind in results && results[kind].Acked?
  }

  /** HSM after the PATCH of one category. */
  function Patched(hsm: map<string, View>, m: SeqMaps, kind: Kind, outcome: Outcome): map<string, View> {
    hsm + map key | key in Keys(m) && Winner(m, key) == Some(kind) && (outcome.Acked? || key in outcome.landed) ::
        KindView(kind)
  }

  ghost predicate Enabled(d: Desk, s: DeskStep) {
    match s
    case Notice(_) => true
    case Begin(_) => d.round.Waiting?
    case Land(kind, _) => d.round.Sending? && Needed(d.q.local, kind) && kind !in d.round.results
    case Close => d.round.Sending? && forall kind :: Needed(d.q.local, kind) ==> kind in d.round.results
  }

  ghost function Step(d: Desk, s: DeskStep): Desk
    requires Enabled(d, s)
  {
    match s
    case Notice(e) => d.(q := Notify(d.q, e), log := d.log + [e])
    case Begin(hsmReady) =>
      var q := Absorb(d.q);
      d.(q := q, mark := |d.log|,
         round := if hsmReady && exists kind :: Needed(q.local, kind) then Sending(map[]) else Waiting)
    case Land(kind, outcome) =>
      d.(hsm := Patched(d.hsm, d.q.local, kind, outcome), round := Sending(d.round.results[kind := outcome]))
    case Close =>
      var acked := AckedKinds(d.round.results);
      d.(q := Finish(d.q, acked), round := Waiting, reports := d.reports + [Report(Sent(d.q.local), acked, d.mark)])
  }

  /** What HSM shows or is about to be told. */
  function Overlay(d: Desk, key: string): Option<View> {
    match Pending(d.q, key)
    case Some(p) => Some(KindView(p.kind))
    case None => if key in d.hsm then Some(d.hsm[key]) else None
  }

  // ---------- invariants ----------

  /** Whatever an acknowledged PATCH of the open round carried, HSM has. */
  ghost predicate AcksLanded(d: Desk) {
    d.round.Sending? ==>
      && (forall kind :: kind in d.round.results ==> Needed(d.q.local, kind))
      && forall key {:trigger Winner(d.q.local, key)} ::
           Winner(d.q.local, key).Some? && Winner(d.q.local, key).value in AckedKinds(d.round.results) ==>
           key in d.hsm && d.hsm[key] == KindView(Winner(d.q.local, key).value)
  }

  /** `t` is not older than what the report said of the component, and newer if that was acknowledged. */
  ghost predicate NotOlder(report: Report, key: string, t: Numbered) {
    key in report.sent ==>
      && report.sent[key].num <= t.num
      && (report.sent[key].kind in report.acked ==> report.sent[key].num < t.num)
  }

  /** The report named, of each component, the latest event at the time the round absorbed. */
  ghost predicate Truthful(report: Report, log: seq<Event>) {
    report.seen <= |log| &&
    forall key {:trigger report.sent[key]} :: key in report.sent ==>
      var n := report.sent[key];
      && 0 < n.num <= report.seen
      && log[n.num - 1] == Event(key, n.kind)
      && NoneSince(log, key, n.num, report.seen)
  }

  ghost predicate ReportsInOrder(reports: seq<Report>) {
    forall i, j, key {:trigger NotOlder(reports[i], key, reports[j].sent[key])} ::
      0 <= i < j < |reports| && key in reports[j].sent ==> NotOlder(reports[i], key, reports[j].sent[key])
  }

  ghost predicate QueueIsNewer(reports: seq<Report>, local: SeqMaps) {
    forall i, key {:trigger NotOlder(reports[i], key, Top(local, key).value)} ::
      0 <= i < |reports| && Top(local, key).Some? ==> NotOlder(reports[i], key, Top(local, key).value)
  }

  ghost predicate ReportsFit(d: Desk) {
    && (forall i :: 0 <= i < |d.reports| ==> Truthful(d.reports[i], d.log) && d.reports[i].seen <= d.mark)
    && ReportsInOrder(d.reports)
    && QueueIsNewer(d.reports, d.q.local)
  }

  ghost predicate DeskInv(d: Desk) {
    && Sequenced(d.q, d.log, d.mark)
    && Current(d.q, d.log, d.mark)
    && AcksLanded(d)
    && ReportsFit(d)
  }

  lemma EmptyDeskInv()
    ensures DeskInv(EMPTY_DESK)
    ensures forall key :: Overlay(EMPTY_DESK, key) == None
  {
  }

  // ---------- every step keeps the invariants ----------

  lemma NoticeKeepsInv(d: Desk, e: Event)
    requires DeskInv(d)
    ensures DeskInv(Step(d, Notice(e)))
  {
    NotifyKeepsSequenced(d.q, e, d.log, d.mark);
    NotifyKeepsCurrent(d.q, e, d.log, d.mark);
    var d' := Step(d, Notice(e));
    forall i | 0 <= i < |d.reports|
      ensures Truthful(d.reports[i], d'.log)
    {
      assert Truthful(d.reports[i], d.log);
      forall key | key in d.reports[i].sent
        ensures NoneSince(d'.log, key, d.reports[i].sent[key].num, d.reports[i].seen)
      {
        assert NoneSince(d.log, key, d.reports[i].sent[key].num, d.reports[i].seen);
      }
    }
  }

  lemma BeginKeepsInv(d: Desk, hsmReady: bool)
    requires DeskInv(d) && Enabled(d, Begin(hsmReady))
    ensures DeskInv(Step(d, Begin(hsmReady)))
  {
    AbsorbKeepsSequenced(d.q, d.log, d.mark);
    AbsorbKeepsCurrent(d.q, d.log, d.mark);
    var d' := Step(d, Begin(hsmReady));
    forall i, key | 0 <= i < |d.reports| && Top(d'.q.local, key).Some?
      ensures NotOlder(d.reports[i], key, Top(d'.q.local, key).value)
    {
      AbsorbTop(d.q, d.log, d.mark, key);
      TopIsMaximum(d.q.global, d.log, d.mark, |d.log|, key);
      assert Truthful(d.reports[i], d.log);
      if Top(d.q.global, key).None? {
        assert NotOlder(d.reports[i], key, Top(d.q.local, key).value);
      }
    }
  }

  lemma LandKeepsInv(d: Desk, kind: Kind, outcome: Outcome)
    requires DeskInv(d) && Enabled(d, Land(kind, outcome))
    ensures DeskInv(Step(d, Land(kind, outcome)))
  {
    var d' := Step(d, Land(kind, outcome));
    var m := d.q.local;
    forall key | Winner(m, key).Some? && Winner(m, key).value in AckedKinds(d'.round.results)
      ensures key in d'.hsm && d'.hsm[key] == KindView(Winner(m, key).value)
    {
      WinnerHasKey(m, key);
      if Winner(m, key) != Some(kind) {
        assert Winner(m, key).value in AckedKinds(d.round.results);
      }
    }
  }

  lemma WinnerHasKey(m: SeqMaps, key: string)
    ensures Winner(m, key).Some? ==> key in Keys(m) && key in m.Of(Winner(m, key).value)
    ensures Top(m, key).Some? <==> key in Sent(m)
  {
  }

  lemma CloseKeepsInv(d: Desk)
    requires DeskInv(d) && Enabled(d, Close)
    ensures DeskInv(Step(d, Close))
  {
    var acked := AckedKinds(d.round.results);
    FinishKeepsSequenced(d.q, acked, d.log, d.mark);
    FinishKeepsCurrent(d.q, acked, d.log, d.mark);
    ReportIsTruthful(d);
    CloseKeepsOrder(d);
  }

  lemma ReportIsTruthful(d: Desk)
    requires Sequenced(d.q, d.log, d.mark) && Current(d.q, d.log, d.mark)
    ensures forall acked :: Truthful(Report(Sent(d.q.local), acked, d.mark), d.log)
  {
    forall key | key in Sent(d.q.local)
      ensures var n := Sent(d.q.local)[key];
              && 0 < n.num <= d.mark
              && d.log[n.num - 1] == Event(key, n.kind)
              && NoneSince(d.log, key, n.num, d.mark)
    {
      TopIsMaximum(d.q.local, d.log, 0, d.mark, key);
      assert NoneSince(d.log, key, Top(d.q.local, key).value.num, d.mark);
    }
  }

  lemma CloseKeepsOrder(d: Desk)
    requires DeskInv(d) && Enabled(d, Close)
    ensures ReportsInOrder(Step(d, Close).reports)
    ensures QueueIsNewer(Step(d, Close).reports, Step(d, Close).q.local)
  {
    var d' := Step(d, Close);
    var acked := AckedKinds(d.round.results);
    var last := |d.reports|;
    forall i, j, key | 0 <= i < j < |d'.reports| && key in d'.reports[j].sent
      ensures NotOlder(d'.reports[i], key, d'.reports[j].sent[key])
    {
      if j == last {
        assert NotOlder(d.reports[i], key, Top(d.q.local, key).value);
      } else {
        assert NotOlder(d.reports[i], key, d.reports[j].sent[key]);
      }
    }
    forall i, key | 0 <= i < |d'.reports| && Top(d'.q.local, key).Some?
      ensures NotOlder(d'.reports[i], key, Top(d'.q.local, key).value)
    {
      ClearTop(d.q.local, acked, key);
      if i == last {
        WinnerHasKey(d.q.local, key);
        var w := Winner(d.q.local, key).value;
        assert w in acked ==> Hits(d.q.local, w, acked, key);
      } else {
        assert NotOlder(d.reports[i], key, Top(d.q.local, key).value);
      }
    }
  }

  lemma StepKeepsInv(d: Desk, s: DeskStep)
    requires DeskInv(d) && Enabled(d, s)
    ensures DeskInv(Step(d, s))
  {
    match s
    case Notice(e) => NoticeKeepsInv(d, e);
    case Begin(hsmReady) => BeginKeepsInv(d, hsmReady);
    case Land(kind, outcome) => LandKeepsInv(d, kind, outcome);
    case Close => CloseKeepsInv(d);
  }

  // ---------- what HSM shows or will be told ----------

  /** The round that the step closes, if any, spares the component. */
  ghost predicate SparingStep(d: Desk, s: DeskStep, key: string)
    requires Enabled(d, s)
  {
    s.Close? ==> Spares(d.q, AckedKinds(d.round.results), key)
  }

  /**
   Only an event changes what HSM shows or will be told of a component, and it
   changes it to the event's own view, unless a round wipes that component.
   */
  lemma OverlayStep(d: Desk, s: DeskStep, key: string)
    requires DeskInv(d) && Enabled(d, s) && SparingStep(d, s, key)
    ensures Overlay(Step(d, s), key) ==
            if s.Notice? && s.e.component == key then Some(KindView(s.e.kind)) else Overlay(d, key)
  {
    match s
    case Notice(e) =>
      NotifyTop(d.q, e, d.log, d.mark, key);
    case Begin(_) =>
      AbsorbTop(d.q, d.log, d.mark, key);
    case Land(kind, outcome) =>
      if Top(d.q.local, key).None? {
        assert key !in Sent(d.q.local);
      }
    case Close =>
      var acked := AckedKinds(d.round.results);
      FinishIsExact(d.q, acked);
      if Touched(d.q.local, acked, key) && Top(d.q.global, key).None? && Top(d.q.local, key).Some? {
        assert Winner(d.q.local, key).value in acked;
      }
  }

  /**
   A round that finds HSM not ready sends nothing, and like one that fails altogether it
   keeps the latest event of every component.
   */
  lemma FailureKeepsLatest(d: Desk)
    requires DeskInv(d)
    ensures Enabled(d, Begin(false)) ==>
              var d' := Step(d, Begin(false)); d'.round == Waiting && d'.hsm == d.hsm && Latest(d'.q) == Latest(d.q)
    ensures Enabled(d, Close) && AckedKinds(d.round.results) == {} ==> Latest(Step(d, Close).q) == Latest(d.q)
  {
    AbsorbKeepsLatest(d.q, d.log, d.mark);
    if Enabled(d, Close) && AckedKinds(d.round.results) == {} {
      assert Finish(d.q, {}) == d.q;
    }
  }

  /** The four lists are disjoint, so it does not matter in which order the PATCHes land. */
  lemma LandingsCommute(hsm: map<string, View>, m: SeqMaps, k1: Kind, o1: Outcome, k2: Kind, o2: Outcome)
    requires k1 != k2
    ensures Patched(Patched(hsm, m, k1, o1), m, k2, o2) == Patched(Patched(hsm, m, k2, o2), m, k1, o1)
  {
    var a, b := Patched(Patched(hsm, m, k1, o1), m, k2, o2), Patched(Patched(hsm, m, k2, o2), m, k1, o1);
    forall key
      ensures key in a <==> key in b
      ensures key in a ==> a[key] == b[key]
    {
      PatchedAt(hsm, m, k1, o1, key);
      PatchedAt(hsm, m, k2, o2, key);
      PatchedAt(Patched(hsm, m, k1, o1), m, k2, o2, key);
      PatchedAt(Patched(hsm, m, k2, o2), m, k1, o1, key);
    }
  }

  lemma PatchedAt(hsm: map<string, View>, m: SeqMaps, kind: Kind, outcome: Outcome, key: string)
    ensures var hsm' := Patched(hsm, m, kind, outcome);
            if Winner(m, key) == Some(kind) && (outcome.Acked? || key in outcome.landed) then
              key in hsm' && hsm'[key] == KindView(kind)
            else (key in hsm' <==> key in hsm) && (key in hsm ==> hsm'[key] == hsm[key])
  {
    WinnerHasKey(m, key);
  }

  /**
   The open round got through what was queued for the component, if anything was, and
   nothing happened to it since.
   */
  ghost predicate GotThrough(d: Desk, key: string)
    requires d.round.Sending?
  {
    && Top(d.q.global, key).None?
    && (Winner(d.q.local, key).Some? ==> Winner(d.q.local, key).value in AckedKinds(d.round.results))
  }

  /**
   Such a component is settled by the round, whatever becomes of the others: HSM is
   exact and nothing is queued for it.
   */
  lemma AcknowledgedIsSettled(d: Desk, key: string)
    requires DeskInv(d) && Enabled(d, Close) && GotThrough(d, key)
    ensures var d' := Step(d, Close);
            && Pending(d'.q, key).None?
            && (if key in d'.hsm then Some(d'.hsm[key]) else None) == Overlay(d, key)
  {
    var acked := AckedKinds(d.round.results);
    if Winner(d.q.local, key).Some? {
      WinnerHasKey(d.q.local, key);
      assert Hits(d.q.local, Winner(d.q.local, key).value, acked, key);
    }
    FinishIsExact(d.q, acked);
    OverlayStep(d, Close, key);
  }

  /** A turn of the sender opens a round exactly if HSM is ready and something is queued for some component. */
  lemma RoundOpensIff(d: Desk, hsmReady: bool)
    requires DeskInv(d) && Enabled(d, Begin(hsmReady))
    ensures Step(d, Begin(hsmReady)).round.Sending? <==> hsmReady && exists key :: Pending(d.q, key).Some?
  {
    var m := Absorb(d.q).local;
    forall key
      ensures Top(m, key) == Pending(d.q, key)
    {
      AbsorbTop(d.q, d.log, d.mark, key);
    }
    if key :| Pending(d.q, key).Some? {
      assert Top(m, key).Some? && Needed(m, Winner(m, key).value);
    }
    if kind :| Needed(m, kind) {
      var key :| Winner(m, key) == Some(kind);
      assert Top(m, key).Some?;
    }
  }

  /** A finished round has reported every component that was queued when it absorbed, by its latest event then. */
  lemma RoundReportsAll(d: Desk, key: string)
    requires DeskInv(d) && Enabled(d, Close)
    ensures var report := Step(d, Close).reports[|d.reports|];
            && report.seen == d.mark && report.acked == AckedKinds(d.round.results)
            && (key in report.sent <==> exists kind :: d.q.local.Num(kind, key) != 0)
            && (key in report.sent ==> forall kind :: d.q.local.Num(kind, key) <= report.sent[key].num)
            && (key in report.sent ==> report.sent[key].kind in d.round.results)
  {
    WinnerHasKey(d.q.local, key);
    TopIsMaximum(d.q.local, d.log, 0, d.mark, key);
    if Top(d.q.local, key).Some? {
      assert Needed(d.q.local, Winner(d.q.local, key).value);
      assert d.q.local.Num(Winner(d.q.local, key).value, key) != 0;
    }
  }

  // ---------- runs ----------

  ghost predicate Possible(d: Desk, steps: seq<DeskStep>)
    decreases |steps|
  {
    steps == [] || (Enabled(d, steps[0]) && Possible(Step(d, steps[0]), steps[1..]))
  }

  ghost function Run(d: Desk, steps: seq<DeskStep>): Desk
    requires Possible(d, steps)
    decreases |steps|
  {
    if steps == [] then d else Run(Step(d, steps[0]), steps[1..])
  }

  ghost predicate SparingRun(d: Desk, steps: seq<DeskStep>, key: string)
    requires Possible(d, steps)
    decreases |steps|
  {
    steps == [] || (SparingStep(d, steps[0], key) && SparingRun(Step(d, steps[0]), steps[1..], key))
  }

  /** The last event of the component, if it has one. */
  function LastKind(log: seq<Event>, key: string): Option<Kind>
    decreases |log|
  {
    if log == [] then None
    else if log[|log| - 1].component == key then Some(log[|log| - 1].kind)
    else LastKind(log[..|log| - 1], key)
  }

  lemma {:induction false} LastKindAppend(log: seq<Event>, more: seq<Event>, key: string)
    ensures LastKind(log + more, key) == if LastKind(more, key).Some? then LastKind(more, key) else LastKind(log, key)
    decreases |more|
  {
    if more == [] {
      assert log + more == log;
    } else {
      var init := more[..|more| - 1];
      assert (log + more)[..|log + more| - 1] == log + init;
      LastKindAppend(log, init, key);
    }
  }

  function Noticed(steps: seq<DeskStep>): seq<Event>
    decreases |steps|
  {
    if steps == [] then []
    else (if steps[0].Notice? then [steps[0].e] else []) + Noticed(steps[1..])
  }

  /**
   Over any run whatever the outcomes: reports name the latest event of the time,
   their numbers never go back, and an acknowledged number is never sent again.
   */
  lemma {:induction false} RunKeepsInv(d: Desk, steps: seq<DeskStep>)
    requires DeskInv(d) && Possible(d, steps)
    ensures DeskInv(Run(d, steps))
    ensures Run(d, steps).log == d.log + Noticed(steps)
    decreases |steps|
  {
    if steps != [] {
      StepKeepsInv(d, steps[0]);
      RunKeepsInv(Step(d, steps[0]), steps[1..]);
    }
  }

  /** Over any run whose rounds spare the component, HSM overlaid with what is queued shows its last event. */
  lemma {:induction false} OverlayIsLastEvent(d: Desk, steps: seq<DeskStep>, key: string)
    requires DeskInv(d) && Possible(d, steps) && SparingRun(d, steps, key)
    ensures Overlay(Run(d, steps), key) ==
            match LastKind(Noticed(steps), key)
            case Some(kind) => Some(KindView(kind))
            case None => Overlay(d, key)
    decreases |steps|
  {
    if steps != [] {
      var s, d1 := steps[0], Step(d, steps[0]);
      StepKeepsInv(d, s);
      OverlayStep(d, s, key);
      OverlayIsLastEvent(d1, steps[1..], key);
      if s.Notice? {
        LastKindAppend([s.e], Noticed(steps[1..]), key);
        assert [s.e][..0] == [];
      } else {
        assert Noticed(steps) == Noticed(steps[1..]);
      }
    }
  }

  /**
   Two finished rounds of any run: what the later one sent of a component is not older,
   and newer if the earlier one was acknowledged.
   */
  lemma ReportsNeverGoBack(steps: seq<DeskStep>, i: nat, j: nat, key: string)
    requires Possible(EMPTY_DESK, steps)
    requires i < j < |Run(EMPTY_DESK, steps).reports|
    requires key in Run(EMPTY_DESK, steps).reports[i].sent && key in Run(EMPTY_DESK, steps).reports[j].sent
    ensures var d := Run(EMPTY_DESK, steps);
            var earlier, later := d.reports[i], d.reports[j];
            && earlier.sent[key].num <= later.sent[key].num
            && (earlier.sent[key].kind in earlier.acked ==> earlier.sent[key].num < later.sent[key].num)
            && Truthful(later, d.log)
  {
    EmptyDeskInv();
    RunKeepsInv(EMPTY_DESK, steps);
    var d := Run(EMPTY_DESK, steps);
    assert NotOlder(d.reports[i], key, d.reports[j].sent[key]);
    assert Truthful(d.reports[j], d.log);
  }
}
