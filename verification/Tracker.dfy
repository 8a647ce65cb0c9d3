/**
 updateHB, hb_checker and isHeartbeating on the store itself. A check is a series
 of turns, and each turn is one step of module System from whatever state it
 finds, so heartbeats may come in between any two; `Tracker.HbChecker` is the
 check into which none comes.
 */
module Trackers {
  import opened Basics
  import opened Heartbeats
  import opened SweepPhases
  import S = System
  import C = Collapser
  import R = Reporters

  datatype Kv = Kv(key: string, value: Stored)

  ghost function KeysOf(list: seq<Kv>): seq<string> {
    seq(|list|, i requires 0 <= i < |list| => list[i].key)
  }

  lemma PlannedNext(order: seq<string>, i: nat, snap: Store, clock: Clock, limits: Limits, stale: bool)
    requires i < |order| && forall key :: key in order ==> key in snap
    ensures Planned(order[..i + 1], snap, clock, limits, stale) ==
            Extend(Planned(order[..i], snap, clock, limits, stale), order[i], snap[order[i]], clock(order[i]), limits,
                stale)
  {
    assert order[..i + 1][..i] == order[..i];
  }

  lemma OneMoreCounted(order: seq<string>, i: nat, snap: Store, clock: Clock, limits: Limits, stale: bool, before: int)
    requires i < |order| && forall key :: key in order ==> key in snap
    requires before == Planned(order[..i], snap, clock, limits, stale).ncomp
    ensures before + CountOf(order[i], snap[order[i]], clock(order[i]), limits, stale) ==
            Planned(order[..i + 1], snap, clock, limits, stale).ncomp
  {
    PlannedNext(order, i, snap, clock, limits, stale);
    ExtendCounts(Planned(order[..i], snap, clock, limits, stale), order[i], snap[order[i]], clock(order[i]), limits,
        stale);
  }

  // What a verdict adds to the lists and what it lets the reporter know.

  function DeletesOf(key: string, verdict: Verdict): seq<string> {
    if verdict.Remove? then [key] else []
  }

  function PutsOf(verdict: Verdict): seq<Put> {
    if verdict.Update? then [Put(verdict.info.component, verdict.info)] else []
  }

  function EventOf(st: Stored, verdict: Verdict): Option<Event> {
    match verdict
    case Keep => None
    case Update(info, kind) => Some(Event(info.component, kind))
    case Remove => if st.Record? then Some(Event(st.info.component, StopError)) else None
  }

  function Told(q: C.Queue, event: Option<Event>): C.Queue {
    if event.Some? then C.Notify(q, event.value) else q
  }

  lemma JudgeByVerdict(w: S.World, r: Reading, limits: Limits)
    requires S.Can(w, S.JudgeNext(r, limits))
    ensures var (c, w') := (w.check, S.Next(w, S.JudgeNext(r, limits)));
            var (key, st) := (c.todo[0], c.snap[c.todo[0]]);
            var verdict := Treat(key, st, r, limits, w.stale);
            && w'.kv == w.kv && w'.stale == w.stale && w'.desk.q == Told(w.desk.q, EventOf(st, verdict))
            && w'.check == S.Running(c.todo[1..], c.snap, c.deletes + DeletesOf(key, verdict), c.puts + PutsOf(verdict))
  {
  }

  function CountOf(key: string, st: Stored, r: Reading, limits: Limits, stale: bool): int {
    if key != PARAM_KEY && !Treat(key, st, r, limits, stale).Remove? then 1 else 0
  }

  /** The turns of a check, put together. */
  lemma CheckIsSweep(w: S.World, order: seq<string>, clock: Clock, limits: Limits,
      judged: S.World, stored: S.World)
    requires KeyedByComponent(w.kv) && w.check.Idle? && Lists(order, w.kv)
    requires judged == S.AfterJudging(w, order, clock, limits, |order|) && stored == S.AfterApplying(judged)
    ensures stored.kv == Sweep(w.kv, clock, limits, w.stale)
    ensures stored.desk.q == C.NotifyAll(w.desk.q, Planned(order, w.kv, clock, limits, w.stale).events)
    ensures Planned(order, w.kv, clock, limits, w.stale).ncomp == |Counted(stored.kv)|
  {
    S.AppliedIsSweep(w, order, clock, limits, judged);
    NcompIsWhatIsLeft(order, w.kv, clock, limits, w.stale);
  }

  class Tracker {
    var kv: Store
    var staleKeys: bool
    var sgNcomp: int
    const reporter: R.Reporter

    // The variables of hb_checker, while it runs. `nhb` is shared by all turns of the judging loop.
    var running: bool
    var kvlist: seq<Kv>
    var nhb: Info
    var deleteKeys: seq<string>
    var updateKeys: seq<Put>
    var ncomp: int

    ghost predicate Valid()
      reads this
    {
      KeyedByComponent(kv) && forall p :: p in updateKeys ==> p.info.component == p.key
    }

    /** The tracker and the reporter's queue are those of the world. */
    ghost predicate Shows(w: S.World)
      reads this, reporter
    {
      && w.kv == kv && w.stale == staleKeys && w.desk.q == reporter.State()
      && w.check.Running? == running
      && (running ==>
            && w.check.todo == KeysOf(kvlist) && w.check.deletes == deleteKeys && w.check.puts == updateKeys
            && forall e :: e in kvlist ==> e.key in w.check.snap && w.check.snap[e.key] == e.value)
    }

    constructor (kv: Store, staleKeys: bool, reporter: R.Reporter)
      requires KeyedByComponent(kv)
      ensures Valid() && this.kv == kv && this.staleKeys == staleKeys && this.reporter == reporter && !running
    {
      this.kv, this.staleKeys, this.sgNcomp, this.reporter := kv, staleKeys, 0, reporter;
      running, kvlist, deleteKeys, updateKeys, ncomp := false, [], [], [], 0;
      nhb := Info("", "", "", "", NoWarning);
    }

    /**
     A heartbeat of component `xname`, whether or not a check is running. The
     reply is false when the stored text does not decode. `w` is any world that
     shows the tracker.
     */
    method UpdateHB(xname: string, timestamp: string, status: string, now: UnixTime, ghost w: S.World)
        returns (ok: bool)
      requires Valid() && Shows(w)
      modifies this`kv, reporter
      ensures Valid() && Shows(S.Next(w, S.Arrive(xname, timestamp, status, now)))
      ensures ok <==> PhaseOf(Lookup(old(kv), xname)) != Unreadable
      ensures kv == Beat(old(kv), xname, timestamp, status, now)
      ensures reporter.State() ==
              if xname in old(kv) then old(reporter.State()) else C.Notify(old(reporter.State()), Event(xname, Started))
    {
      var hbb := Info("", "", "", "", NoWarning);
      var newkey := false;
      if xname !in kv {
        newkey := true;
        hbb := hbb.(component := xname);
      } else {
        match kv[xname] {
          case Corrupt(_) =>
            assert kv == kv[xname := kv[xname]];
            return false;
          case Record(info) =>
            hbb := info;
        }
      }
      hbb := hbb.(lastRcv := Stamp(now), timestamp := timestamp, status := status);
      if hbb.warning == WarnGap {
        hbb := hbb.(warning := WarnNormal);
      }
      kv := kv[xname := Record(hbb)];
      if newkey {
        reporter.HbUpdateNotify(hbb.component, Started);
      }
      ok := true;
    }

    /** The entries of the range, in no particular order. */
    method GetRange() returns (kvlist: seq<Kv>)
      ensures Lists(KeysOf(kvlist), kv)
      ensures forall e :: e in kvlist ==> e.key in kv && kv[e.key] == e.value
    {
      kvlist := [];
      var rest := set key | key in kv && InRange(key);
      ghost var all := rest;
      while rest != {}
        invariant rest <= all
        invariant Lists(KeysOf(kvlist), map key | key in all - rest :: kv[key])
        invariant forall e :: e in kvlist ==> e.key in kv && kv[e.key] == e.value
        decreases rest
      {
        var key :| key in rest;
        ghost var before := KeysOf(kvlist);
        assert key !in before;
        kvlist := kvlist + [Kv(key, kv[key])];
        assert KeysOf(kvlist) == before + [key];
        rest := rest - {key};
      }
    }

    // ---------- the turns of a check ----------

    method BeginCheck(ghost w: S.World) returns (ghost order: seq<string>)
      requires Valid() && Shows(w) && !running
      modifies this`running, this`kvlist, this`deleteKeys, this`updateKeys, this`ncomp
      ensures Valid() && running && ncomp == 0
      ensures S.Can(w, S.StartCheck(order)) && Shows(S.Next(w, S.StartCheck(order)))
    {
      var entries := GetRange();
      running, kvlist, deleteKeys, updateKeys, ncomp := true, entries, [], [], 0;
      order := KeysOf(kvlist);
    }

    /** One turn of the judging loop. */
    method JudgeTurn(r: Reading, limits: Limits, ghost w: S.World)
      requires Valid() && Shows(w) && running && kvlist != []
      modifies this`kvlist, this`nhb, this`deleteKeys, this`updateKeys, this`ncomp, reporter
      ensures Valid() && S.Can(w, S.JudgeNext(r, limits)) && Shows(S.Next(w, S.JudgeNext(r, limits)))
      ensures ncomp == old(ncomp) + CountOf(old(kvlist)[0].key, old(kvlist)[0].value, r, limits, staleKeys)
    {
      var e := kvlist[0];
      assert KeysOf(kvlist) == [e.key] + KeysOf(kvlist[1..]);
      kvlist := kvlist[1..];
      JudgeByVerdict(w, r, limits);
      JudgeEntry(e, r, limits);
    }

    /** The body of the loop, on the entry just taken. */
    method JudgeEntry(e: Kv, r: Reading, limits: Limits)
      modifies this`nhb, this`deleteKeys, this`updateKeys, this`ncomp, reporter
      ensures var verdict := Treat(e.key, e.value, r, limits, staleKeys);
              && deleteKeys == old(deleteKeys) + DeletesOf(e.key, verdict)
              && updateKeys == old(updateKeys) + PutsOf(verdict)
              && reporter.State() == Told(old(reporter.State()), EventOf(e.value, verdict))
              && ncomp == old(ncomp) + CountOf(e.key, e.value, r, limits, staleKeys)
    {
      if e.key == PARAM_KEY {
        return;
      }
      var storeit := false;
      ncomp := ncomp + 1;
      match e.value {
        case Corrupt(_) =>
          nhb := *;  // whatever a failed decoding left behind
          return;
        case Record(info) =>
          nhb := info;
      }
      var tdiff := Elapsed(nhb, r.now);
      if tdiff >= limits.errtime {
        if staleKeys {
          nhb := nhb.(lastRcv := Stamp(r.refresh));
          nhb := nhb.(warning := WarnGap);
          reporter.HbUpdateNotify(nhb.component, StopWarn);
          storeit := true;
        } else {
          reporter.HbUpdateNotify(nhb.component, StopError);
          deleteKeys := deleteKeys + [e.key];
          ncomp := ncomp - 1;
          return;
        }
      } else if tdiff >= limits.warntime {
        if nhb.warning == NoWarning {
          nhb := nhb.(warning := WarnNormal);
          reporter.HbUpdateNotify(nhb.component, StopWarn);
          storeit := true;
        }
      } else {
        if nhb.warning == WarnNormal {
          nhb := nhb.(warning := NoWarning);
          storeit := true;
          reporter.HbUpdateNotify(nhb.component, Restarted);
        }
      }
      if storeit {
        updateKeys := updateKeys + [Put(nhb.component, nhb)];
      }
    }

    /** One delete. */
    method DeleteTurn(ghost w: S.World)
      requires Valid() && Shows(w) && running && kvlist == [] && deleteKeys != []
      modifies this`kv, this`deleteKeys
      ensures Valid() && S.Can(w, S.ApplyNext) && Shows(S.Next(w, S.ApplyNext))
    {
      kv := kv - {deleteKeys[0]};
      deleteKeys := deleteKeys[1..];
    }

    /** One store. */
    method StoreTurn(ghost w: S.World)
      requires Valid() && Shows(w) && running && kvlist == [] && deleteKeys == [] && updateKeys != []
      modifies this`kv, this`updateKeys
      ensures Valid() && S.Can(w, S.ApplyNext) && Shows(S.Next(w, S.ApplyNext))
    {
      kv := kv[updateKeys[0].key := Record(updateKeys[0].info)];
      updateKeys := updateKeys[1..];
    }

    method FinishCheck(ghost w: S.World)
      requires Valid() && Shows(w) && running && kvlist == [] && deleteKeys == [] && updateKeys == []
      modifies this`running, this`staleKeys, this`sgNcomp
      ensures Valid() && S.Can(w, S.EndCheck) && Shows(S.Next(w, S.EndCheck)) && sgNcomp == ncomp
    {
      if ncomp != sgNcomp {
        sgNcomp := ncomp;
      }
      staleKeys := false;
      running := false;
    }

    // ---------- the check as a whole ----------

    /**
     The periodic check. Without the lock, or when the store cannot be read, it
     does nothing; otherwise it is the Sweep of the store, its events go to the
     reporter, and the monitoring gap is over. `w` is any world that shows the
     tracker.
     */
    method HbChecker(gotLock: bool, canFetch: bool, clock: Clock, limits: Limits, ghost w: S.World)
        returns (ghost order: seq<string>)
      requires Valid() && Shows(w) && !running
      modifies this, reporter
      ensures Valid() && !running
      ensures !(gotLock && canFetch) ==> unchanged(this) && unchanged(reporter)
      ensures gotLock && canFetch ==>
                && Lists(order, old(kv))
                && kv == Sweep(old(kv), clock, limits, old(staleKeys))
                && reporter.State() ==
                     C.NotifyAll(old(reporter.State()), Planned(order, old(kv), clock, limits, old(staleKeys)).events)
                && sgNcomp == |Counted(kv)|
                && !staleKeys
    {
      order := [];
      if !gotLock || !canFetch {
        return;
      }
      order := BeginCheck(w);
      ghost var judged := JudgeAll(clock, limits, w, order);
      ghost var deleted := DeleteAll(judged);
      ghost var stored := StoreAll(deleted);
      FinishCheck(stored);
      CheckIsSweep(w, order, clock, limits, judged, stored);
    }

    /** The judging loop. */
    method JudgeAll(clock: Clock, limits: Limits, ghost w: S.World, ghost order: seq<string>)
        returns (ghost judged: S.World)
      requires Valid() && running && ncomp == 0
      requires S.Can(w, S.StartCheck(order)) && Shows(S.Next(w, S.StartCheck(order)))
      modifies this`kvlist, this`nhb, this`deleteKeys, this`updateKeys, this`ncomp, reporter
      ensures Valid() && kvlist == [] && Shows(judged)
      ensures judged == S.AfterJudging(w, order, clock, limits, |order|)
      ensures ncomp == Planned(order, w.kv, clock, limits, w.stale).ncomp
    {
      judged := S.Next(w, S.StartCheck(order));
      ghost var n := 0;
      while kvlist != []
        invariant n <= |order| && Valid() && Shows(judged) && judged == S.AfterJudging(w, order, clock, limits, n)
        invariant ncomp == Planned(order[..n], w.kv, clock, limits, w.stale).ncomp
        decreases |kvlist|
      {
        var e := kvlist[0];
        assert e in kvlist && KeysOf(kvlist)[0] == e.key == order[n];
        JudgeTurn(clock(e.key), limits, judged);
        OneMoreCounted(order, n, w.kv, clock, limits, w.stale, Planned(order[..n], w.kv, clock, limits, w.stale).ncomp);
        judged, n := S.Next(judged, S.JudgeNext(clock(e.key), limits)), n + 1;
      }
      assert order[..n] == order;
    }

    method DeleteAll(ghost judged: S.World) returns (ghost deleted: S.World)
      requires Valid() && running && kvlist == [] && Shows(judged)
      modifies this`kv, this`deleteKeys
      ensures Valid() && deleteKeys == [] && Shows(deleted)
      ensures deleted == S.AfterDeleting(judged, |judged.check.deletes|)
    {
      deleted := judged;
      ghost var n := 0;
      while deleteKeys != []
        invariant n <= |judged.check.deletes| && Valid() && Shows(deleted) && deleted == S.AfterDeleting(judged, n)
        decreases |deleteKeys|
      {
        DeleteTurn(deleted);
        deleted, n := S.Next(deleted, S.ApplyNext), n + 1;
      }
    }

    method StoreAll(ghost deleted: S.World) returns (ghost stored: S.World)
      requires Valid() && running && kvlist == [] && deleteKeys == [] && Shows(deleted)
      modifies this`kv, this`updateKeys
      ensures Valid() && updateKeys == [] && Shows(stored)
      ensures stored == S.AfterStoring(deleted, |deleted.check.puts|)
    {
      stored := deleted;
      ghost var n := 0;
      while updateKeys != []
        invariant n <= |deleted.check.puts| && Valid() && Shows(stored) && stored == S.AfterStoring(deleted, n)
        decreases |updateKeys|
      {
        StoreTurn(stored);
        stored, n := S.Next(stored, S.ApplyNext), n + 1;
      }
    }

    /** None is the error reply for a text that does not decode. */
    method IsHeartbeating(xname: string, now: UnixTime, errtime: int) returns (reply: Option<bool>)
      ensures reply == Heartbeating(kv, xname, now, errtime)
    {
      if xname !in kv {
        return Some(false);
      }
      match kv[xname] {
        case Corrupt(_) =>
          return None;
        case Record(info) =>
          var tdiff := Elapsed(info, now);
          if tdiff >= errtime {
            return Some(false);
          }
          return Some(true);
      }
    }
  }
}
