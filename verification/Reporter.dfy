/**
 hb_update_notify and send_sm_req on the maps themselves. `Reporter.State()` is
 the queue of module Collapser; what a round does to what HSM sees is proved
 about that queue.
 */
module Reporters {
  import opened Basics
  import opened Collapser

  datatype BulkLists = BulkLists(start: seq<string>, restart: seq<string>, stopWarn: seq<string>,
      stopError: seq<string>) {
    function Of(kind: Kind): seq<string> {
      match kind
      case Started => start
      case Restarted => restart
      case StopWarn => stopWarn
      case StopError => stopError
    }
  }

  ghost predicate NoDuplicates(list: seq<string>) {
    forall i, j :: 0 <= i < j < |list| ==> list[i] != list[j]
  }

  /** The lists hold, once each, exactly the components that the category wins. */
  ghost predicate ListsWinners(lists: BulkLists, m: SeqMaps, among: set<string>) {
    forall kind ::
      && NoDuplicates(lists.Of(kind))
      && forall key :: key in lists.Of(kind) <==> key in among && Winner(m, key) == Some(kind)
  }

  // ---------- the loops over one map ----------

  function Nonzero(m: SeqMap, done: set<string>): set<string> {
    set key | key in done && key in m && m[key] != 0
  }

  function PulledSoFar(local: SeqMap, global: SeqMap, done: set<string>): SeqMap {
    local + map key | key in done && key in global && global[key] != 0 :: global[key]
  }

  function DrainedSoFar(global: SeqMap, done: set<string>): SeqMap {
    map key | key in global :: if key in done then 0 else global[key]
  }

  lemma PullsAnother(local: SeqMap, global: SeqMap, done: set<string>, key: string)
    requires key in global
    ensures PulledSoFar(local, global, done + {key}) ==
            if global[key] != 0 then PulledSoFar(local, global, done)[key := global[key]]
            else PulledSoFar(local, global, done)
    ensures DrainedSoFar(global, done + {key}) == DrainedSoFar(global, done)[key := 0]
  {
  }

  lemma NamesAnother(m: SeqMap, done: set<string>, key: string)
    requires key in m
    ensures Nonzero(m, done + {key}) == if m[key] != 0 then Nonzero(m, done) + {key} else Nonzero(m, done)
  {
  }

  lemma ZeroesAnother(m: SeqMap, done: set<string>, key: string)
    ensures Zeroed(m, done + {key}) == Zeroed(m, done)[key := 0]
  {
  }

  lemma PulledAll(local: SeqMap, global: SeqMap)
    ensures PulledSoFar(local, global, global.Keys) == Pull(local, global)
    ensures DrainedSoFar(global, global.Keys) == Drain(global)
    ensures Nonzero(local, local.Keys) + Nonzero(global, global.Keys) ==
            Nonzero(Pull(local, global), Pull(local, global).Keys)
  {
  }

  /** The first of each pair of loops of groomCompLocalMapsPRE: name what is still queued. */
  method NameQueued(all: set<string>, local: SeqMap) returns (all': set<string>)
    ensures all' == all + Nonzero(local, local.Keys)
  {
    all' := all;
    var rest := local.Keys;
    ghost var done := {};
    while rest != {}
      invariant rest + done == local.Keys
      invariant all' == all + Nonzero(local, done)
      decreases rest
    {
      var key :| key in rest;
      if local[key] != 0 {
        all' := all' + {key};
      }
      NamesAnother(local, done, key);
      rest, done := rest - {key}, done + {key};
    }
  }

  /** The second: take over what is new, name it, and zero it. */
  method TakeOver(all: set<string>, local: SeqMap, global: SeqMap)
      returns (all': set<string>, local': SeqMap, global': SeqMap)
    ensures local' == Pull(local, global) && global' == Drain(global)
    ensures all' == all + Nonzero(global, global.Keys)
  {
    all', local', global' := all, local, global;
    var rest := global.Keys;
    ghost var done := {};
    assert DrainedSoFar(global, done) == global;
    while rest != {}
      invariant rest + done == global.Keys && rest !! done
      invariant local' == PulledSoFar(local, global, done)
      invariant global' == DrainedSoFar(global, done)
      invariant all' == all + Nonzero(global, done)
      decreases rest
    {
      var key :| key in rest;
      if global[key] != 0 {
        local' := local'[key := global[key]];
        global' := global'[key := 0];
        all' := all' + {key};
      }
      PullsAnother(local, global, done, key);
      NamesAnother(global, done, key);
      assert global[key] == 0 ==> DrainedSoFar(global, done + {key}) == DrainedSoFar(global, done);
      rest, done := rest - {key}, done + {key};
    }
    PulledAll(local, global);
  }

  method PullOne(all: set<string>, local: SeqMap, global: SeqMap)
      returns (all': set<string>, local': SeqMap, global': SeqMap)
    ensures local' == Pull(local, global) && global' == Drain(global)
    ensures all' == all + Nonzero(local', local'.Keys)
  {
    all' := NameQueued(all, local);
    all', local', global' := TakeOver(all', local, global);
    PulledAll(local, global);
  }

  /** The loop of groomCompLocalMapsPOST. */
  method ZeroOthers(map1: SeqMap, map2: SeqMap, map3: SeqMap, map4: SeqMap) returns (m2: SeqMap, m3: SeqMap, m4: SeqMap)
    ensures m2 == Zeroed(map2, map1.Keys) && m3 == Zeroed(map3, map1.Keys) && m4 == Zeroed(map4, map1.Keys)
  {
    m2, m3, m4 := map2, map3, map4;
    var rest := map1.Keys;
    ghost var done := {};
    assert Zeroed(map2, done) == map2 && Zeroed(map3, done) == map3 && Zeroed(map4, done) == map4;
    while rest != {}
      invariant rest + done == map1.Keys
      invariant m2 == Zeroed(map2, done) && m3 == Zeroed(map3, done) && m4 == Zeroed(map4, done)
      decreases rest
    {
      var key :| key in rest;
      ZeroesAnother(map2, done, key);
      ZeroesAnother(map3, done, key);
      ZeroesAnother(map4, done, key);
      m2, m3, m4 := m2[key := 0], m3[key := 0], m4[key := 0];
      rest, done := rest - {key}, done + {key};
    }
    assert done == map1.Keys;
  }

  class Reporter {
    var startMap: SeqMap
    var restartMap: SeqMap
    var stopWarnMap: SeqMap
    var stopErrorMap: SeqMap
    var cpStartMap: SeqMap
    var cpRestartMap: SeqMap
    var cpStopWarnMap: SeqMap
    var cpStopErrorMap: SeqMap
    var hbSeq: nat

    function State(): Queue
      reads this
    {
      Queue(SeqMaps(startMap, restartMap, stopWarnMap, stopErrorMap),
            SeqMaps(cpStartMap, cpRestartMap, cpStopWarnMap, cpStopErrorMap), hbSeq)
    }

    constructor ()
      ensures State() == Queue(NO_MAPS, NO_MAPS, 0)
    {
      startMap, restartMap, stopWarnMap, stopErrorMap := map[], map[], map[], map[];
      cpStartMap, cpRestartMap, cpStopWarnMap, cpStopErrorMap := map[], map[], map[], map[];
      hbSeq := 0;
    }

    /** hb_update_notify. */
    method HbUpdateNotify(component: string, toState: Kind)
      modifies this
      ensures State() == Notify(old(State()), Event(component, toState))
    {
      hbSeq := hbSeq + 1;
      match toState {
        case Started => startMap := startMap[component := hbSeq];
        case Restarted => restartMap := restartMap[component := hbSeq];
        case StopWarn => stopWarnMap := stopWarnMap[component := hbSeq];
        case StopError => stopErrorMap := stopErrorMap[component := hbSeq];
      }
    }

    /**
     groomCompLocalMapsPRE: all globals move into the persistent maps, and every
     component with something queued is named.
     */
    method GroomPre() returns (allComps: set<string>)
      modifies this
      ensures State() == Absorb(old(State()))
      ensures forall key :: key in allComps <==> exists kind :: State().local.Num(kind, key) != 0
    {
      var n1, l1, g1 := PullOne({}, cpStartMap, startMap);
      var n2, l2, g2 := PullOne(n1, cpRestartMap, restartMap);
      var n3, l3, g3 := PullOne(n2, cpStopWarnMap, stopWarnMap);
      var n4, l4, g4 := PullOne(n3, cpStopErrorMap, stopErrorMap);
      cpStartMap, cpRestartMap, cpStopWarnMap, cpStopErrorMap := l1, l2, l3, l4;
      startMap, restartMap, stopWarnMap, stopErrorMap := g1, g2, g3, g4;
      allComps := n4;
      NamedAreQueued(SeqMaps(l1, l2, l3, l4), n4);
    }

    /** The loop of send_sm_req that puts each component into the list of its latest category. */
    method Collapse(allComps: set<string>) returns (lists: BulkLists)
      ensures ListsWinners(lists, State().local, allComps)
    {
      lists := BulkLists([], [], [], []);
      var rest := allComps;
      ghost var m := State().local;
      while rest != {}
        invariant rest <= allComps
        invariant ListsWinners(lists, m, allComps - rest)
        decreases rest
      {
        var k :| k in rest;
        var start, restart, swarn, serr :=
            At(cpStartMap, k), At(cpRestartMap, k), At(cpStopWarnMap, k), At(cpStopErrorMap, k);
        ghost var before := lists;
        if start > restart && start > swarn && start > serr {
          lists := lists.(start := lists.start + [k]);
        } else if restart > start && restart > swarn && restart > serr {
          lists := lists.(restart := lists.restart + [k]);
        } else if swarn > start && swarn > restart && swarn > serr {
          lists := lists.(stopWarn := lists.stopWarn + [k]);
        } else if serr > start && serr > restart && serr > swarn {
          lists := lists.(stopError := lists.stopError + [k]);
        }
        assert forall kind ::
            lists.Of(kind) == if Winner(m, k) == Some(kind) then before.Of(kind) + [k] else before.Of(kind);
        assert forall kind :: k !in before.Of(kind);
        Appended(before, lists, m, allComps - rest, k);
        rest := rest - {k};
        assert allComps - rest == (allComps - (rest + {k})) + {k};
      }
      assert allComps - rest == allComps;
    }

    /** Zero the other three maps at the keys of this one, and make this one new. */
    method ClearCategory(kind: Kind)
      modifies this
      ensures State() == old(State()).(local := ClearOne(old(State()).local, kind))
    {
      match kind {
        case Started =>
          cpRestartMap, cpStopWarnMap, cpStopErrorMap :=
              ZeroOthers(cpStartMap, cpRestartMap, cpStopWarnMap, cpStopErrorMap);
          cpStartMap := map[];
        case Restarted =>
          cpStartMap, cpStopWarnMap, cpStopErrorMap :=
              ZeroOthers(cpRestartMap, cpStartMap, cpStopWarnMap, cpStopErrorMap);
          cpRestartMap := map[];
        case StopWarn =>
          cpStartMap, cpRestartMap, cpStopErrorMap :=
              ZeroOthers(cpStopWarnMap, cpStartMap, cpRestartMap, cpStopErrorMap);
          cpStopWarnMap := map[];
        case StopError =>
          cpStartMap, cpRestartMap, cpStopWarnMap :=
              ZeroOthers(cpStopErrorMap, cpStartMap, cpRestartMap, cpStopWarnMap);
          cpStopErrorMap := map[];
      }
    }

    /** What send_sm_req does under the lock once all its PATCHes have returned. */
    method ClearAcknowledged(sentOK: set<Kind>)
      modifies this
      ensures State() == Finish(old(State()), sentOK)
    {
      if Started in sentOK {
        ClearCategory(Started);
      }
      if Restarted in sentOK {
        ClearCategory(Restarted);
      }
      if StopWarn in sentOK {
        ClearCategory(StopWarn);
      }
      if StopError in sentOK {
        ClearCategory(StopError);
      }
    }

    /** Events noticed while the lock is free. */
    method LetIn(arriving: seq<Event>)
      modifies this
      ensures State() == NotifyAll(old(State()), arriving)
    {
      for i := 0 to |arriving|
        invariant State() == NotifyAll(old(State()), arriving[..i])
      {
        HbUpdateNotify(arriving[i].component, arriving[i].kind);
        assert arriving[..i + 1][..i] == arriving[..i];
      }
      assert arriving[..|arriving|] == arriving;
    }

    /**
     One turn of send_sm_req. `arriving` are the events noticed between its two
     critical sections, `patchOK` is the outcome each PATCH would have, `acked`
     are the categories whose PATCH was sent and succeeded.
     */
    method SendRound(hsmReady: bool, patchOK: set<Kind>, arriving: seq<Event>)
        returns (lists: BulkLists, acked: set<Kind>)
      modifies this
      ensures forall kind, key :: key in lists.Of(kind) <==> Winner(Absorb(old(State())).local, key) == Some(kind)
      ensures forall kind :: NoDuplicates(lists.Of(kind))
      ensures forall kind :: kind in acked <==> hsmReady && kind in patchOK && Needed(Absorb(old(State())).local, kind)
      ensures State() == Finish(NotifyAll(Absorb(old(State())), arriving), acked)
    {
      acked := {};
      var allComps := GroomPre();
      lists := Collapse(allComps);
      ghost var m := State().local;
      forall kind, key
        ensures key in lists.Of(kind) <==> Winner(m, key) == Some(kind)
      {
        WinnerIsQueued(m, key);
      }
      assert forall kind :: Needed(m, kind) <==> lists.Of(kind) != [] by {
        forall kind
          ensures Needed(m, kind) <==> lists.Of(kind) != []
        {
          if lists.Of(kind) != [] {
            assert lists.Of(kind)[0] in lists.Of(kind);
          }
        }
      }
      LetIn(arriving);
      if !hsmReady {
        return;
      }
      var needSend := set kind | kind in {Started, Restarted, StopWarn, StopError} && lists.Of(kind) != [];
      if needSend == {} {
        assert forall kind :: Needed(m, kind) ==> kind in needSend;
        return;
      }
      acked := needSend * patchOK;
      ClearAcknowledged(acked);
    }
  }

  lemma NamedAreQueued(m: SeqMaps, named: set<string>)
    requires named == {} + Nonzero(m.start, m.start.Keys) + Nonzero(m.restart, m.restart.Keys)
                      + Nonzero(m.stopWarn, m.stopWarn.Keys) + Nonzero(m.stopError, m.stopError.Keys)
    ensures forall key :: key in named <==> exists kind :: m.Num(kind, key) != 0
  {
    forall key
      ensures key in named <==> exists kind :: m.Num(kind, key) != 0
    {
      assert key in named <==>
             || m.Num(Started, key) != 0 || m.Num(Restarted, key) != 0
             || m.Num(StopWarn, key) != 0 || m.Num(StopError, key) != 0;
    }
  }

  lemma Appended(before: BulkLists, after: BulkLists, m: SeqMaps, among: set<string>, k: string)
    requires ListsWinners(before, m, among) && k !in among
    requires forall kind ::
            after.Of(kind) == if Winner(m, k) == Some(kind) then before.Of(kind) + [k] else before.Of(kind)
    ensures ListsWinners(after, m, among + {k})
  {
    forall kind
      ensures NoDuplicates(after.Of(kind))
      ensures forall key :: key in after.Of(kind) <==> key in among + {k} && Winner(m, key) == Some(kind)
    {
      assert NoDuplicates(before.Of(kind));
      assert k !in before.Of(kind);
    }
  }

  lemma WinnerIsQueued(m: SeqMaps, key: string)
    ensures Winner(m, key).Some? ==> exists kind :: m.Num(kind, key) != 0
  {
    if Winner(m, key).Some? {
      assert m.Num(Winner(m, key).value, key) != 0;
    }
  }
}
