/**
 The phases of hb_checker: judge every entry of a snapshot while collecting
 keys to delete and records to store, then delete, then store. Together they
 change the store exactly as one independent step per key would.
 */
module SweepPhases {
  import opened Basics
  import opened Heartbeats

  datatype Put = Put(key: string, info: Info)

  /** The list holds each key of the range once, in any order. */
  ghost predicate Lists(order: seq<string>, kv: Store) {
    && (forall i, j :: 0 <= i < j < |order| ==> order[i] != order[j])
    && (forall key :: key in order <==> key in kv && InRange(key))
  }

  /** What the judging loop has collected after the entries of `order`. */
  datatype Plan = Plan(deletes: seq<string>, puts: seq<Put>, events: seq<Event>, ncomp: int)

  ghost function Planned(order: seq<string>, snap: Store, clock: Clock, limits: Limits, stale: bool): Plan
    requires forall key :: key in order ==> key in snap
    decreases |order|
  {
    if order == [] then Plan([], [], [], 0)
    else
      var key := order[|order| - 1];
      Extend(Planned(order[..|order| - 1], snap, clock, limits, stale), key, snap[key], clock(key), limits, stale)
  }

  /** One turn of the loop. The events and puts go by the component inside the record, the deletes by the key. */
  function Extend(plan: Plan, key: string, st: Stored, r: Reading, limits: Limits, stale: bool): Plan {
    var n := if key == PARAM_KEY then plan.ncomp else plan.ncomp + 1;
    match Treat(key, st, r, limits, stale)
    case Keep => plan.(ncomp := n)
    case Update(info, kind) =>
      plan.(puts := plan.puts + [Put(info.component, info)],
            events := plan.events + [Event(info.component, kind)], ncomp := n)
    case Remove =>
      plan.(deletes := plan.deletes + [key],
            events := plan.events + [Event(st.info.component, StopError)], ncomp := n - 1)
  }

  function AfterDeletes(kv: Store, deletes: seq<string>): Store {
    if deletes == [] then kv else AfterDeletes(kv, deletes[..|deletes| - 1]) - {deletes[|deletes| - 1]}
  }

  function AfterPuts(kv: Store, puts: seq<Put>): Store {
    if puts == [] then kv
    else AfterPuts(kv, puts[..|puts| - 1])[puts[|puts| - 1].key := Record(puts[|puts| - 1].info)]
  }

  /** The keys that a check counts. */
  ghost function Counted(kv: Store): set<string> {
    set key | key in kv && InRange(key) && key != PARAM_KEY
  }

  // ---------- what the two applying phases do to each key ----------

  lemma {:induction false} DeletesAt(kv: Store, deletes: seq<string>, key: string)
    ensures Lookup(AfterDeletes(kv, deletes), key) == if key in deletes then None else Lookup(kv, key)
    decreases |deletes|
  {
    if deletes != [] {
      var init := deletes[..|deletes| - 1];
      assert deletes == init + [deletes[|deletes| - 1]];
      DeletesAt(kv, init, key);
    }
  }

  ghost predicate PutOnce(puts: seq<Put>) {
    forall i, j :: 0 <= i < j < |puts| ==> puts[i].key != puts[j].key
  }

  lemma {:induction false} PutsAt(kv: Store, puts: seq<Put>, key: string)
    ensures (forall p :: p in puts ==> p.key != key) ==> Lookup(AfterPuts(kv, puts), key) == Lookup(kv, key)
    ensures PutOnce(puts) ==> forall p :: p in puts && p.key == key ==>
            Lookup(AfterPuts(kv, puts), key) == Some(Record(p.info))
    decreases |puts|
  {
    if puts != [] {
      var init := puts[..|puts| - 1];
      assert puts == init + [puts[|puts| - 1]];
      PutsAt(kv, init, key);
    }
  }

  // ---------- what the plan says about each key ----------

  ghost predicate PlanFits(plan: Plan, order: seq<string>, snap: Store, clock: Clock, limits: Limits, stale: bool)
    requires forall key :: key in order ==> key in snap
  {
    && (forall key :: key in plan.deletes <==> key in order && Treat(key, snap[key], clock(key), limits, stale).Remove?)
    && (forall p :: p in plan.puts <==>
          p.key in order && Treat(p.key, snap[p.key], clock(p.key), limits, stale).Update?
          && p.info == Treat(p.key, snap[p.key], clock(p.key), limits, stale).info)
    && PutOnce(plan.puts)
  }

  lemma {:induction false} PlanIsPerKey(order: seq<string>, snap: Store, clock: Clock, limits: Limits, stale: bool)
    requires forall i, j :: 0 <= i < j < |order| ==> order[i] != order[j]
    requires forall key :: key in order ==> key in snap
    requires KeyedByComponent(snap)
    ensures PlanFits(Planned(order, snap, clock, limits, stale), order, snap, clock, limits, stale)
    decreases |order|
  {
    if order != [] {
      var init, key := order[..|order| - 1], order[|order| - 1];
      assert order == init + [key];
      assert key !in init;
      PlanIsPerKey(init, snap, clock, limits, stale);
      var before := Planned(init, snap, clock, limits, stale);
      var plan := Planned(order, snap, clock, limits, stale);
      assert plan == Extend(before, key, snap[key], clock(key), limits, stale);
      var verdict := Treat(key, snap[key], clock(key), limits, stale);
      assert verdict.Update? ==> verdict.info.component == key;
      assert forall k :: k in plan.deletes <==> k in before.deletes || (verdict.Remove? && k == key);
      assert forall p :: p in plan.puts <==> p in before.puts || (verdict.Update? && p == Put(key, verdict.info));
    }
  }

  /** The deferred phases together are one independent step per key: the refinement of hb_checker. */
  lemma PhasesAreSweep(order: seq<string>, kv: Store, clock: Clock, limits: Limits, stale: bool)
    requires Lists(order, kv) && KeyedByComponent(kv)
    ensures var plan := Planned(order, kv, clock, limits, stale);
            AfterPuts(AfterDeletes(kv, plan.deletes), plan.puts) == Sweep(kv, clock, limits, stale)
  {
    PlanIsPerKey(order, kv, clock, limits, stale);
    var plan := Planned(order, kv, clock, limits, stale);
    var applied := AfterPuts(AfterDeletes(kv, plan.deletes), plan.puts);
    var swept := Sweep(kv, clock, limits, stale);
    forall key
      ensures Lookup(applied, key) == Lookup(swept, key)
    {
      DeletesAt(kv, plan.deletes, key);
      PutsAt(AfterDeletes(kv, plan.deletes), plan.puts, key);
      if key in order {
        var verdict := Treat(key, kv[key], clock(key), limits, stale);
        if verdict.Update? {
          assert Put(key, verdict.info) in plan.puts;
        }
      }
    }
    SameLookups(applied, swept);
  }

  lemma SameLookups(a: Store, b: Store)
    requires forall key :: Lookup(a, key) == Lookup(b, key)
    ensures a == b
  {
    forall key
      ensures key in a <==> key in b
      ensures key in a ==> a[key] == b[key]
    {
      assert Lookup(a, key) == Lookup(b, key);
    }
  }

  lemma SweepKeepsKeys(kv: Store, clock: Clock, limits: Limits, stale: bool)
    requires KeyedByComponent(kv)
    ensures KeyedByComponent(Sweep(kv, clock, limits, stale))
  {
    var kv' := Sweep(kv, clock, limits, stale);
    forall key | key in kv' && kv'[key].Record?
      ensures kv'[key].info.component == key
    {
      assert Lookup(kv', key) == CheckKey(key, Lookup(kv, key), clock(key), limits, stale).0;
    }
  }

  // ---------- the events of a check ----------

  lemma ExtendEvents(plan: Plan, key: string, st: Stored, r: Reading, limits: Limits, stale: bool, e: Event)
    requires InRange(key) && (st.Record? ==> st.info.component == key)
    ensures multiset(Extend(plan, key, st, r, limits, stale).events)[e] ==
            multiset(plan.events)[e] +
            if e.component == key && CheckKey(key, Some(st), r, limits, stale).1 == Some(e.kind) then 1 else 0
  {
    var events := Extend(plan, key, st, r, limits, stale).events;
    if events != plan.events {
      assert events == plan.events + [events[|plan.events|]];
    }
  }

  /** The event list says of each component exactly what its own step says, and at most once. */
  lemma {:induction false} EventsArePerKey(order: seq<string>, snap: Store, clock: Clock, limits: Limits,
      stale: bool, e: Event)
    requires forall i, j :: 0 <= i < j < |order| ==> order[i] != order[j]
    requires forall key :: key in order ==> key in snap && InRange(key)
    requires KeyedByComponent(snap)
    ensures var events := Planned(order, snap, clock, limits, stale).events;
            var event := CheckKey(e.component, Lookup(snap, e.component), clock(e.component), limits, stale).1;
            multiset(events)[e] == if e.component in order && event == Some(e.kind) then 1 else 0
    decreases |order|
  {
    if order != [] {
      var init, key := order[..|order| - 1], order[|order| - 1];
      assert order == init + [key];
      assert key !in init;
      EventsArePerKey(init, snap, clock, limits, stale, e);
      var before := Planned(init, snap, clock, limits, stale);
      var plan := Planned(order, snap, clock, limits, stale);
      assert plan == Extend(before, key, snap[key], clock(key), limits, stale);
      ExtendEvents(before, key, snap[key], clock(key), limits, stale, e);
    }
  }

  // ---------- the count ----------

  ghost function CountedIn(order: seq<string>, snap: Store, clock: Clock, limits: Limits, stale: bool): set<string>
    requires forall key :: key in order ==> key in snap
  {
    set key | key in order && key != PARAM_KEY && !Treat(key, snap[key], clock(key), limits, stale).Remove?
  }

  lemma ExtendCounts(plan: Plan, key: string, st: Stored, r: Reading, limits: Limits, stale: bool)
    ensures Extend(plan, key, st, r, limits, stale).ncomp ==
            plan.ncomp + if key != PARAM_KEY && !Treat(key, st, r, limits, stale).Remove? then 1 else 0
  {
  }

  lemma {:induction false} NcompCounts(order: seq<string>, snap: Store, clock: Clock, limits: Limits, stale: bool)
    requires forall i, j :: 0 <= i < j < |order| ==> order[i] != order[j]
    requires forall key :: key in order ==> key in snap
    ensures Planned(order, snap, clock, limits, stale).ncomp == |CountedIn(order, snap, clock, limits, stale)|
    decreases |order|
  {
    if order != [] {
      var init, key := order[..|order| - 1], order[|order| - 1];
      assert order == init + [key];
      assert key !in init;
      NcompCounts(init, snap, clock, limits, stale);
      var before := Planned(init, snap, clock, limits, stale);
      assert Planned(order, snap, clock, limits, stale) == Extend(before, key, snap[key], clock(key), limits, stale);
      ExtendCounts(before, key, snap[key], clock(key), limits, stale);
      var rest := CountedIn(init, snap, clock, limits, stale);
      var all := CountedIn(order, snap, clock, limits, stale);
      if key != PARAM_KEY && !Treat(key, snap[key], clock(key), limits, stale).Remove? {
        assert all == rest + {key};
      } else {
        assert all == rest;
      }
    }
  }

  /** `ncomp` ends as the number of records the check leaves in the range. */
  lemma NcompIsWhatIsLeft(order: seq<string>, kv: Store, clock: Clock, limits: Limits, stale: bool)
    requires Lists(order, kv)
    ensures Planned(order, kv, clock, limits, stale).ncomp == |Counted(Sweep(kv, clock, limits, stale))|
  {
    NcompCounts(order, kv, clock, limits, stale);
    var kv' := Sweep(kv, clock, limits, stale);
    forall key
      ensures key in Counted(kv') <==> key in CountedIn(order, kv, clock, limits, stale)
    {
      assert Lookup(kv', key) == CheckKey(key, Lookup(kv, key), clock(key), limits, stale).0;
    }
    assert Counted(kv') == CountedIn(order, kv, clock, limits, stale);
  }
}
