/**
 Which components are keys of the persistent maps. Clearing goes by key, so this
 decides what an acknowledged PATCH wipes; the numbers alone do not.
 */
module Entries {
  import opened Basics
  import opened Collapser
  import opened Reporting

  /** A key of the persistent map of this kind, or about to become one. */
  ghost predicate Entered(d: Desk, kind: Kind, key: string) {
    key in d.q.local.Of(kind) || d.q.global.Num(kind, key) != 0
  }

  /** Exactly what each step of the reporter does to the keys of the persistent maps and to the global numbers. */
  lemma EntryStep(d: Desk, s: DeskStep, kind: Kind, key: string)
    requires Enabled(d, s)
    ensures key in Step(d, s).q.local.Of(kind) <==>
            match s
            case Begin(_) => Entered(d, kind, key)
            case Close =>
              var acked := AckedKinds(d.round.results);
              if Touched(d.q.local, acked, key) then LastCleared(acked) != Some(kind) else key in d.q.local.Of(kind)
            case _ => key in d.q.local.Of(kind)
    ensures Step(d, s).q.global.Num(kind, key) ==
            match s
            case Begin(_) => 0
            case Notice(e) => if e == Event(key, kind) then d.q.hbSeq + 1 else d.q.global.Num(kind, key)
            case _ => d.q.global.Num(kind, key)
  {
    match s
    case Notice(e) => NotifyNums(d.q, e);
    case Begin(_) =>
      AbsorbKeys(d.q, kind, key);
      AbsorbNums(d.q);
    case Land(_, _) =>
    case Close => ClearKeys(d.q.local, AckedKinds(d.round.results), kind, key);
  }

  /** The round that the step closes, if any, acknowledges no category that has the component as a key. */
  ghost predicate UntouchingStep(d: Desk, s: DeskStep, key: string)
    requires Enabled(d, s)
  {
    s.Close? ==> !Touched(d.q.local, AckedKinds(d.round.results), key)
  }

  ghost predicate UntouchingRun(d: Desk, steps: seq<DeskStep>, key: string)
    requires Possible(d, steps)
    decreases |steps|
  {
    steps == [] || (UntouchingStep(d, steps[0], key) && UntouchingRun(Step(d, steps[0]), steps[1..], key))
  }

  /**
   As long as no acknowledgement touches it, a component enters a map by an event of
   that kind and in no other way.
   */
  lemma {:induction false} EntryOverRun(d: Desk, steps: seq<DeskStep>, kind: Kind, key: string)
    requires Possible(d, steps) && UntouchingRun(d, steps, key)
    ensures Entered(Run(d, steps), kind, key) <==> Entered(d, kind, key) || Notice(Event(key, kind)) in steps
    decreases |steps|
  {
    if steps != [] {
      var s, rest := steps[0], steps[1..];
      EntryStep(d, s, kind, key);
      EntryOverRun(Step(d, s), rest, kind, key);
      assert Notice(Event(key, kind)) in steps <==> s == Notice(Event(key, kind)) || Notice(Event(key, kind)) in rest;
    }
  }

  /**
   After a round, the component is left as a key of an acknowledged category exactly if
   a later clearing put it back.
   */
  lemma LeftBehindIff(d: Desk, kind: Kind, key: string)
    requires Enabled(d, Close) && kind in AckedKinds(d.round.results)
    ensures var acked := AckedKinds(d.round.results);
            key in Step(d, Close).q.local.Of(kind) <==>
                Touched(d.q.local, acked, key) && LastCleared(acked) != Some(kind)
  {
    EntryStep(d, Close, kind, key);
    var acked := AckedKinds(d.round.results);
    assert !Touched(d.q.local, acked, key) ==> !Hits(d.q.local, kind, acked, key);
  }

  /**
   A round acknowledges a category and leaves no entry of the component behind in
   it. As long as there is no new event of that kind and no acknowledgement touches
   the component, the next acknowledgement of that category cannot wipe it:
   whatever is queued of it stays queued.
   */
  lemma AcknowledgedIsNotWiped(d: Desk, steps: seq<DeskStep>, kind: Kind, key: string)
    requires Enabled(d, Close) && kind in AckedKinds(d.round.results)
    requires Touched(d.q.local, AckedKinds(d.round.results), key) ==>
            LastCleared(AckedKinds(d.round.results)) == Some(kind)
    requires d.q.global.Num(kind, key) == 0
    requires Possible(Step(d, Close), steps) && UntouchingRun(Step(d, Close), steps, key)
    requires Notice(Event(key, kind)) !in steps
    ensures var d' := Run(Step(d, Close), steps);
            && key !in d'.q.local.Of(kind)
            && (Enabled(d', Close) && AckedKinds(d'.round.results) == {kind} ==>
                  Pending(Step(d', Close).q, key) == Pending(d'.q, key))
  {
    LeftBehindIff(d, kind, key);
    EntryStep(d, Close, kind, key);
    EntryOverRun(Step(d, Close), steps, kind, key);
    var d' := Run(Step(d, Close), steps);
    FinishIsExact(d'.q, {kind});
  }
}
