/**
 * The comparison schedule of both passes: which cross matches, cleanings and reference-list updates the
 * driver asks for, counted over the whole pass. Every scheduled call is made exactly once, and no other.
 */
module Schedule {
  import opened Catalog
  import opened Membership
  import opened Ledger
  import opened Linking

  /** The calls a step makes whatever the state of the bridging array: all but `Build*List`. */
  predicate IsStepEvent(e: Event)
  {
    e.CrossMatch? || e.CleanCrossMatch? || e.UpdateRef?
  }

  /** A step event or a bridge-building call: what the calls of a step record. */
  predicate IsCallEvent(e: Event)
  {
    IsStepEvent(e) || e.BuildBridge?
  }

  /** The step depth a step event belongs to. */
  function EvStep(e: Event): int
    requires IsStepEvent(e)
  {
    match e
    case CrossMatch(_, _, _, step, _) => step
    case CleanCrossMatch(dir, snap, other, _) => StepOf(dir, snap, other)
    case UpdateRef(_, _, step, _) => step
  }

  /**
   * Snapshot `i` is compared with the snapshot `s` steps away: it is local and has halos, it is not the
   * snapshot without neighbours, `1 <= s <= numsteps`, and the neighbour is local (lines 139-155, 266-273).
   */
  predicate Scheduled(c: Config, pht: seq<Snapshot>, rd: Reading, dir: Dir, i: int, s: int)
  {
    && Local(c, i) && i < |pht| && NumHalos(pht, i) > 0
    && !Frontier(c, rd, dir, i)
    && 1 <= s <= c.numsteps && Local(c, Toward(dir, i, s))
  }

  /** The step events of one step, in order: the cross match, its cleaning, the reference-list update. */
  function StepEvents(c: Config, pht: seq<Snapshot>, upd: set<(int, int)>, rd: Reading, dir: Dir, i: int, s: int)
      : seq<Event>
    requires Fits(c, pht) && Local(c, Toward(dir, i, s))
  {
    var o := Toward(dir, i, s);
    [CrossMatch(dir, i, o, s, Index(pht[o], c))] + CleanPart(c, upd, rd, dir, i, s) + UpdatePart(upd, dir, i, s)
  }

  function CleanPart(c: Config, upd: set<(int, int)>, rd: Reading, dir: Dir, i: int, s: int): seq<Event>
  {
    var o := Toward(dir, i, s);
    if !Cleans(c, dir) then []
    else if s == 1 then [CleanCrossMatch(dir, i, o, ReferenceList)]
    else if (i, s) in upd then [CleanCrossMatch(dir, i, o, DeepClean(rd, dir))]
    else []
  }

  function UpdatePart(upd: set<(int, int)>, dir: Dir, i: int, s: int): seq<Event>
  {
    if s != 1 && (i, s) in upd then [UpdateRef(dir, i, s, dir == Progenitor)] else []
  }

  /** The cross match of a step is recorded once by it. */
  lemma CrossInStep(c: Config, pht: seq<Snapshot>, upd: set<(int, int)>, rd: Reading, dir: Dir, i: int, s: int,
                    d: Dir, o: int, idx: seq<u32>)
    requires Fits(c, pht) && Local(c, Toward(dir, i, s))
    ensures Count(StepEvents(c, pht, upd, rd, dir, i, s), CrossMatch(d, i, o, s, idx))
         == if d == dir && o == Toward(dir, i, s) && idx == Index(pht[o], c) then 1 else 0
  {
    var e := CrossMatch(d, i, o, s, idx);
    var cross := [CrossMatch(dir, i, Toward(dir, i, s), s, Index(pht[Toward(dir, i, s)], c))];
    CountAppend(cross, CleanPart(c, upd, rd, dir, i, s), e);
    CountAppend(cross + CleanPart(c, upd, rd, dir, i, s), UpdatePart(upd, dir, i, s), e);
    CountOutside(CleanPart(c, upd, rd, dir, i, s), e);
    CountOutside(UpdatePart(upd, dir, i, s), e);
  }

  /** The cleaning part of a step holds the cleaning it asks for, once. */
  lemma CleanPartCount(c: Config, upd: set<(int, int)>, rd: Reading, dir: Dir, i: int, s: int, d: Dir, o: int, h: Held)
    requires o == Toward(d, i, s)
    ensures Count(CleanPart(c, upd, rd, dir, i, s), CleanCrossMatch(d, i, o, h))
         == if && d == dir && Cleans(c, dir)
               && (if s == 1 then h == ReferenceList else (i, s) in upd && h == DeepClean(rd, dir))
            then 1 else 0
  {
    var e := CleanCrossMatch(d, i, o, h);
    var part := CleanPart(c, upd, rd, dir, i, s);
    if !Cleans(c, dir) || (s != 1 && (i, s) !in upd) {
      assert part == [];
    } else {
      var h' := if s == 1 then ReferenceList else DeepClean(rd, dir);
      assert part == [CleanCrossMatch(dir, i, Toward(dir, i, s), h')];
      CountSingle(part[0], e);
    }
  }

  /** The cleaning of a step is recorded once by it when the pass cleans. */
  lemma CleanInStep(c: Config, pht: seq<Snapshot>, upd: set<(int, int)>, rd: Reading, dir: Dir, i: int, s: int,
                    d: Dir, o: int, h: Held)
    requires Fits(c, pht) && Local(c, Toward(dir, i, s)) && o == Toward(d, i, s)
    ensures Count(StepEvents(c, pht, upd, rd, dir, i, s), CleanCrossMatch(d, i, o, h))
         == if && d == dir && Cleans(c, dir)
               && (if s == 1 then h == ReferenceList else (i, s) in upd && h == DeepClean(rd, dir))
            then 1 else 0
  {
    var e := CleanCrossMatch(d, i, o, h);
    var cross := [CrossMatch(dir, i, Toward(dir, i, s), s, Index(pht[Toward(dir, i, s)], c))];
    var part := CleanPart(c, upd, rd, dir, i, s);
    var up := UpdatePart(upd, dir, i, s);
    assert StepEvents(c, pht, upd, rd, dir, i, s) == cross + part + up;
    CountAppend(cross, part, e);
    CountAppend(cross + part, up, e);
    CountOutside(cross, e);
    CountOutside(up, e);
    CleanPartCount(c, upd, rd, dir, i, s, d, o, h);
  }

  /** The reference-list update of a step is recorded once by a deeper step with new candidates. */
  lemma UpdateInStep(c: Config, pht: seq<Snapshot>, upd: set<(int, int)>, rd: Reading, dir: Dir, i: int, s: int,
                     d: Dir, b: bool)
    requires Fits(c, pht) && Local(c, Toward(dir, i, s))
    ensures Count(StepEvents(c, pht, upd, rd, dir, i, s), UpdateRef(d, i, s, b))
         == if d == dir && s != 1 && (i, s) in upd && b == (dir == Progenitor) then 1 else 0
  {
    var e := UpdateRef(d, i, s, b);
    var o := Toward(dir, i, s);
    var cross := [CrossMatch(dir, i, o, s, Index(pht[o], c))];
    var cl := CleanPart(c, upd, rd, dir, i, s);
    var up := UpdatePart(upd, dir, i, s);
    assert StepEvents(c, pht, upd, rd, dir, i, s) == cross + cl + up;
    CountAppend(cross, cl, e);
    CountAppend(cross + cl, up, e);
    CountOutside(cross, e);
    CountOutside(cl, e);
    UpdatePartCount(upd, dir, i, s, d, b);
  }

  lemma UpdatePartCount(upd: set<(int, int)>, dir: Dir, i: int, s: int, d: Dir, b: bool)
    ensures Count(UpdatePart(upd, dir, i, s), UpdateRef(d, i, s, b))
         == if d == dir && s != 1 && (i, s) in upd && b == (dir == Progenitor) then 1 else 0
  {
    if s != 1 && (i, s) in upd {
      CountSingle(UpdateRef(dir, i, s, dir == Progenitor), UpdateRef(d, i, s, b));
    }
  }

  /** Every event of a step belongs to that step. */
  lemma StepEventsOf(c: Config, pht: seq<Snapshot>, upd: set<(int, int)>, rd: Reading, dir: Dir, i: int, s: int,
                     e: Event)
    requires Fits(c, pht) && Local(c, Toward(dir, i, s))
    requires IsStepEvent(e) && !(e.snap == i && EvStep(e) == s)
    ensures Count(StepEvents(c, pht, upd, rd, dir, i, s), e) == 0
  {
    var ev := StepEvents(c, pht, upd, rd, dir, i, s);
    forall k | 0 <= k < |ev| ensures ev[k] != e {
      assert ev[k].snap == i && EvStep(ev[k]) == s;
    }
    CountOutside(ev, e);
  }

  /** Deleting a slot records no step event and no bridge-building call. */
  lemma DeletedCounts<T>(dir: Dir, store: Store, i: int, p: Slot<T>, e: Event)
    requires IsCallEvent(e)
    ensures Count(Deleted(dir, store, i, p), e) == 0
  {
    CountOutside(Deleted(dir, store, i, p), e);
  }

  lemma FinalStepCounts(c: Config, rd: Reading, dir: Dir, st: PassState, i: int, e: Event)
    requires Shaped(c, st) && c.numsteps > 1 && 0 <= i < c.numsnapshots
    requires IsCallEvent(e)
    ensures Count(FinalStep(c, rd, dir, st, i).log, e) == Count(st.log, e)
  {
    var r := FinalStep(c, rd, dir, st, i);
    if c.startSnap <= i < c.endSnap - 1 && !st.bridges[i].Null? {
      var clean := [CleanUsingBridge(dir, i, st.bridges[i].Live?)];
      var d := Deleted(dir, Bridges, i, st.bridges[i]);
      var log := st.log + clean + d;
      DeletedCounts(dir, Bridges, i, st.bridges[i], e);
      CountOutside(clean, e);
      CountAppend(st.log, clean, e);
      CountAppend(st.log + clean, d, e);
      assert Count(log, e) == Count(st.log, e);
      if Sound(rd, dir) {
        assert r.log == log;
      } else {
        CountOutside([StrayNull(i)], e);
        CountAppend(log, [StrayNull(i)], e);
        assert r.log == log + [StrayNull(i)];
      }
    } else {
      assert r == st;
    }
  }

  /** The bridge-building call a step makes after its step events, if any. */
  function BridgeEvents(c: Config, upd: set<(int, int)>, dir: Dir, bridges: seq<Slot<nat>>, i: int, s: int)
      : seq<Event>
  {
    var o := Toward(dir, i, s);
    var live := 0 <= o < |bridges| && bridges[o].Live?;
    if s == 1 then (if c.numsteps > 1 then [BuildBridge(dir, i, o, 1, live)] else [])
    else if (i, s) in upd then [BuildBridge(dir, i, o, s, live)]
    else []
  }

  /** A step appends its step events, then its bridge-building call. */
  lemma LinkLog(c: Config, pht: seq<Snapshot>, upd: set<(int, int)>, rd: Reading, dir: Dir, st: PassState,
                i: int, step: int)
    requires Fits(c, pht) && Shaped(c, st)
    requires Local(c, i) && Local(c, Toward(dir, i, step)) && 1 <= step
    ensures Link(c, pht, upd, rd, dir, st, i, step).log
         == st.log + StepEvents(c, pht, upd, rd, dir, i, step) + BridgeEvents(c, upd, dir, st.bridges, i, step)
  {
  }

  /** The log after steps `1..t` of snapshot `i` from `log`, given the bridging array they all see. */
  function StepsRecord(c: Config, pht: seq<Snapshot>, upd: set<(int, int)>, rd: Reading, dir: Dir,
                       bridges: seq<Slot<nat>>, log: seq<Event>, i: int, t: nat): seq<Event>
    requires Fits(c, pht)
  {
    if t == 0 then log
    else if Local(c, Toward(dir, i, t)) then
      StepsRecord(c, pht, upd, rd, dir, bridges, log, i, t - 1)
        + StepEvents(c, pht, upd, rd, dir, i, t) + BridgeEvents(c, upd, dir, bridges, i, t)
    else StepsRecord(c, pht, upd, rd, dir, bridges, log, i, t - 1)
  }

  /** Steps `1..t` leave the log `StepsRecord` describes. */
  lemma {:induction false} StepsLog(c: Config, pht: seq<Snapshot>, upd: set<(int, int)>, rd: Reading, dir: Dir,
                                    st: PassState, i: int, t: nat)
    requires Fits(c, pht) && Shaped(c, st) && Local(c, i)
    ensures Steps(c, pht, upd, rd, dir, st, i, t).log == StepsRecord(c, pht, upd, rd, dir, st.bridges, st.log, i, t)
  {
    if t > 0 {
      StepsLog(c, pht, upd, rd, dir, st, i, t - 1);
      var prev := Steps(c, pht, upd, rd, dir, st, i, t - 1);
      if Local(c, Toward(dir, i, t)) {
        LinkLog(c, pht, upd, rd, dir, prev, i, t);
        assert prev.bridges == st.bridges;
        assert Steps(c, pht, upd, rd, dir, st, i, t) == Link(c, pht, upd, rd, dir, prev, i, t);
      } else {
        assert Steps(c, pht, upd, rd, dir, st, i, t) == prev;
      }
    }
  }

  /** Appending some events and then some that are not `e` adds the count of the first part. */
  lemma CountTail(log: seq<Event>, ev: seq<Event>, rest: seq<Event>, e: Event)
    requires forall k :: 0 <= k < |rest| ==> rest[k] != e
    ensures Count(log + ev + rest, e) == Count(log, e) + Count(ev, e)
  {
    CountOutside(rest, e);
    CountAppend(log, ev, e);
    CountAppend(log + ev, rest, e);
  }

  /** How often steps `1..t` of snapshot `i` record the step event `e`. */
  function StepsExpect(c: Config, pht: seq<Snapshot>, upd: set<(int, int)>, rd: Reading, dir: Dir, i: int, t: nat,
                       e: Event): nat
    requires Fits(c, pht) && IsStepEvent(e)
  {
    if e.snap == i && 1 <= EvStep(e) <= t && Local(c, Toward(dir, i, EvStep(e)))
    then Count(StepEvents(c, pht, upd, rd, dir, i, EvStep(e)), e) else 0
  }

  /** Step `t` adds to the expected count exactly what step `t` records of `e`. */
  lemma ExpectStep(c: Config, pht: seq<Snapshot>, upd: set<(int, int)>, rd: Reading, dir: Dir, i: int, t: nat,
                   e: Event)
    requires Fits(c, pht) && IsStepEvent(e) && t > 0
    ensures StepsExpect(c, pht, upd, rd, dir, i, t, e)
         == StepsExpect(c, pht, upd, rd, dir, i, t - 1, e)
            + if Local(c, Toward(dir, i, t)) then Count(StepEvents(c, pht, upd, rd, dir, i, t), e) else 0
  {
    if !(e.snap == i && EvStep(e) == t) && Local(c, Toward(dir, i, t)) {
      StepEventsOf(c, pht, upd, rd, dir, i, t, e);
    }
  }

  /** Step `t`, when taken, adds its own step events to the log. */
  lemma RecordStep(c: Config, pht: seq<Snapshot>, upd: set<(int, int)>, rd: Reading, dir: Dir,
                   bridges: seq<Slot<nat>>, log: seq<Event>, i: int, t: nat, e: Event)
    requires Fits(c, pht) && IsStepEvent(e) && t > 0
    ensures Count(StepsRecord(c, pht, upd, rd, dir, bridges, log, i, t), e)
         == Count(StepsRecord(c, pht, upd, rd, dir, bridges, log, i, t - 1), e)
            + if Local(c, Toward(dir, i, t)) then Count(StepEvents(c, pht, upd, rd, dir, i, t), e) else 0
  {
    if Local(c, Toward(dir, i, t)) {
      CountTail(StepsRecord(c, pht, upd, rd, dir, bridges, log, i, t - 1), StepEvents(c, pht, upd, rd, dir, i, t),
                BridgeEvents(c, upd, dir, bridges, i, t), e);
    }
  }

  /** Steps `1..t` add each step event as often as its own step, when taken, records it. */
  lemma {:induction false} RecordCounts(c: Config, pht: seq<Snapshot>, upd: set<(int, int)>, rd: Reading, dir: Dir,
                                        bridges: seq<Slot<nat>>, log: seq<Event>, i: int, t: nat, e: Event)
    requires Fits(c, pht) && IsStepEvent(e)
    ensures Count(StepsRecord(c, pht, upd, rd, dir, bridges, log, i, t), e)
         == Count(log, e) + StepsExpect(c, pht, upd, rd, dir, i, t, e)
  {
    if t > 0 {
      RecordCounts(c, pht, upd, rd, dir, bridges, log, i, t - 1, e);
      RecordStep(c, pht, upd, rd, dir, bridges, log, i, t, e);
      ExpectStep(c, pht, upd, rd, dir, i, t, e);
    }
  }

  /** Steps `1..t` of snapshot `i` add, for each step event, the events of its own step when that step is taken. */
  lemma StepsCounts(c: Config, pht: seq<Snapshot>, upd: set<(int, int)>, rd: Reading, dir: Dir,
                    st: PassState, i: int, t: nat, e: Event)
    requires Fits(c, pht) && Shaped(c, st) && Local(c, i)
    requires IsStepEvent(e)
    ensures Count(Steps(c, pht, upd, rd, dir, st, i, t).log, e)
         == Count(st.log, e) + StepsExpect(c, pht, upd, rd, dir, i, t, e)
  {
    StepsLog(c, pht, upd, rd, dir, st, i, t);
    RecordCounts(c, pht, upd, rd, dir, st.bridges, st.log, i, t, e);
  }

  /** Allocation records no step event and no bridge-building call. */
  lemma {:induction false} AllocsCounts(c: Config, pht: seq<Snapshot>, dir: Dir, st: PassState, i: int, t: nat, e: Event)
    requires Fits(c, pht) && Shaped(c, st) && c.numsteps > 1
    requires IsCallEvent(e)
    ensures Count(Allocs(c, pht, dir, st, i, t).log, e) == Count(st.log, e)
  {
    if t > 0 {
      AllocsCounts(c, pht, dir, st, i, t - 1, e);
      AllocStepCounts(c, pht, dir, Allocs(c, pht, dir, st, i, t - 1), Toward(dir, i, t), e);
    }
  }

  /** One on-demand allocation records no step event and no bridge-building call. */
  lemma AllocStepCounts(c: Config, pht: seq<Snapshot>, dir: Dir, st: PassState, s: int, e: Event)
    requires Fits(c, pht) && Shaped(c, st) && c.numsteps > 1
    requires IsCallEvent(e)
    ensures Count(AllocStep(c, pht, dir, st, s).log, e) == Count(st.log, e)
  {
    if Local(c, s) && st.bridges[s] == Null && NumHalos(pht, s) > 0 {
      CountAppend(st.log, [Alloc(dir, s)], e);
    }
  }

  /** The window release records no step event and no bridge-building call. */
  lemma ReleaseCounts(c: Config, pht: seq<Snapshot>, dir: Dir, st: PassState, i: int, e: Event)
    requires Fits(c, pht) && Shaped(c, st) && 0 <= i < c.numsnapshots
    requires IsCallEvent(e)
    ensures Count(Release(c, pht, dir, st, i).log, e) == Count(st.log, e)
  {
    var r := Release(c, pht, dir, st, i);
    if c.numsteps > 1 && NumHalos(pht, i) > 0 && InWindow(c, i) {
      var clean := [CleanUsingBridge(dir, i, st.bridges[i].Live?)];
      var d := Deleted(dir, Bridges, i, st.bridges[i]);
      DeletedCounts(dir, Bridges, i, st.bridges[i], e);
      CountOutside(clean, e);
      CountAppend(st.log, clean, e);
      CountAppend(st.log + clean, d, e);
      assert r.log == st.log + clean + d;
    } else {
      assert r == st;
    }
  }

  /** One turn of the snapshot loop adds exactly the step events of the steps scheduled for it. */
  lemma IterCounts(c: Config, pht: seq<Snapshot>, upd: set<(int, int)>, rd: Reading, dir: Dir, st: PassState,
                   k: int, e: Event)
    requires Fits(c, pht) && Shaped(c, st) && 0 <= k < c.numsnapshots
    requires IsStepEvent(e)
    ensures Count(Iter(c, pht, upd, rd, dir, st, k).log, e)
         == Count(st.log, e)
            + if e.snap == k && Scheduled(c, pht, rd, dir, k, EvStep(e))
              then Count(StepEvents(c, pht, upd, rd, dir, k, EvStep(e)), e) else 0
  {
    var r := Iter(c, pht, upd, rd, dir, st, k);
    if !Local(c, k) || NumHalos(pht, k) == 0 {
      assert r.log == st.log;
      assert !Scheduled(c, pht, rd, dir, k, EvStep(e));
    } else {
      var st1 := if c.numsteps > 1 && LazyAlloc(rd, dir) then Allocs(c, pht, dir, st, k, c.numsteps) else st;
      if c.numsteps > 1 && LazyAlloc(rd, dir) {
        AllocsCounts(c, pht, dir, st, k, c.numsteps, e);
      }
      assert Count(st1.log, e) == Count(st.log, e);
      var st2 := if Frontier(c, rd, dir, k) then st1.(lists := st1.lists[k := Live(Empty(NumHalos(pht, k)))])
                 else Steps(c, pht, upd, rd, dir, st1, k, c.numsteps);
      if Frontier(c, rd, dir, k) {
        assert st2.log == st1.log;
        assert !Scheduled(c, pht, rd, dir, k, EvStep(e));
      } else {
        StepsCounts(c, pht, upd, rd, dir, st1, k, c.numsteps, e);
        assert StepsExpect(c, pht, upd, rd, dir, k, c.numsteps, e)
            == if e.snap == k && Scheduled(c, pht, rd, dir, k, EvStep(e))
               then Count(StepEvents(c, pht, upd, rd, dir, k, EvStep(e)), e) else 0;
      }
      ReleaseCounts(c, pht, dir, st2, k, e);
      assert r == Release(c, pht, dir, st2, k);
    }
  }

  /** The set-up records no step event and no bridge-building call. */
  lemma SetupCounts(c: Config, pht: seq<Snapshot>, rd: Reading, dir: Dir, e: Event)
    requires Fits(c, pht) && IsCallEvent(e)
    ensures Count(Setup(c, pht, rd, dir).log, e) == 0
  {
    var log := Setup(c, pht, rd, dir).log;
    if c.numsteps == 1 {
      assert log == [];
    } else {
      assert log == [Alloc(dir, Anchor(c, dir))];
    }
    CountOutside(log, e);
  }

  /** Turn `m` adds the step events scheduled for the snapshot it visits. */
  lemma LoopStep(c: Config, pht: seq<Snapshot>, upd: set<(int, int)>, rd: Reading, dir: Dir, m: nat, e: Event)
    requires Fits(c, pht) && 0 < m <= c.numsnapshots
    requires IsStepEvent(e)
    ensures Count(Loop(c, pht, upd, rd, dir, m).log, e)
         == Count(Loop(c, pht, upd, rd, dir, m - 1).log, e)
            + if e.snap == Order(c, dir, m - 1) && Scheduled(c, pht, rd, dir, e.snap, EvStep(e))
              then Count(StepEvents(c, pht, upd, rd, dir, e.snap, EvStep(e)), e) else 0
  {
    var prev := Loop(c, pht, upd, rd, dir, m - 1);
    IterCounts(c, pht, upd, rd, dir, prev, Order(c, dir, m - 1), e);
    assert Loop(c, pht, upd, rd, dir, m) == Iter(c, pht, upd, rd, dir, prev, Order(c, dir, m - 1));
  }

  /** After `m` turns, each step event occurs once if its step is scheduled for a visited snapshot. */
  lemma {:induction false} LoopCounts(c: Config, pht: seq<Snapshot>, upd: set<(int, int)>, rd: Reading, dir: Dir,
                                      m: nat, e: Event)
    requires Fits(c, pht) && m <= c.numsnapshots
    requires IsStepEvent(e)
    ensures Count(Loop(c, pht, upd, rd, dir, m).log, e)
         == if Visited(c, dir, m, e.snap) && Scheduled(c, pht, rd, dir, e.snap, EvStep(e))
            then Count(StepEvents(c, pht, upd, rd, dir, e.snap, EvStep(e)), e) else 0
  {
    if m == 0 {
      SetupCounts(c, pht, rd, dir, e);
    } else {
      LoopCounts(c, pht, upd, rd, dir, m - 1, e);
      LoopStep(c, pht, upd, rd, dir, m, e);
      var k := Order(c, dir, m - 1);
      if e.snap == k {
        assert Visited(c, dir, m, k) && !Visited(c, dir, m - 1, k);
      } else {
        assert Visited(c, dir, m, e.snap) == Visited(c, dir, m - 1, e.snap);
      }
    }
  }

  /** The final pass records no step event and no bridge-building call. */
  lemma {:induction false} FinalCounts(c: Config, rd: Reading, dir: Dir, st: PassState, m: nat, e: Event)
    requires Shaped(c, st) && c.numsteps > 1 && m <= c.numsnapshots
    requires IsCallEvent(e)
    ensures Count(Final(c, rd, dir, st, m).log, e) == Count(st.log, e)
  {
    if m > 0 {
      FinalCounts(c, rd, dir, st, m - 1, e);
      FinalStepCounts(c, rd, dir, Final(c, rd, dir, st, m - 1), Order(c, dir, m - 1), e);
    }
  }

  /** Over a whole pass, each step event occurs once if its step is scheduled, and never otherwise. */
  lemma PassCounts(c: Config, pht: seq<Snapshot>, upd: set<(int, int)>, rd: Reading, dir: Dir, e: Event)
    requires Fits(c, pht)
    requires IsStepEvent(e)
    ensures Count(Pass(c, pht, upd, rd, dir).log, e)
         == if Scheduled(c, pht, rd, dir, e.snap, EvStep(e))
            then Count(StepEvents(c, pht, upd, rd, dir, e.snap, EvStep(e)), e) else 0
  {
    LoopCounts(c, pht, upd, rd, dir, c.numsnapshots, e);
    if c.numsteps > 1 {
      FinalCounts(c, rd, dir, Loop(c, pht, upd, rd, dir, c.numsnapshots), c.numsnapshots, e);
    }
  }

  /**
   * Snapshot `i` is cross-matched with `o` at step `s` exactly once when that step is scheduled and
   * `o` is `s` steps away, and then with the membership index of `o`; never otherwise.
   */
  lemma ScheduleCrossMatch(c: Config, pht: seq<Snapshot>, upd: set<(int, int)>, rd: Reading, dir: Dir,
                           d: Dir, i: int, o: int, s: int, idx: seq<u32>)
    requires Fits(c, pht)
    ensures Count(Pass(c, pht, upd, rd, dir).log, CrossMatch(d, i, o, s, idx))
         == if d == dir && Scheduled(c, pht, rd, dir, i, s) && o == Toward(dir, i, s) && idx == Index(pht[o], c)
            then 1 else 0
  {
    PassCounts(c, pht, upd, rd, dir, CrossMatch(d, i, o, s, idx));
    if Scheduled(c, pht, rd, dir, i, s) {
      CrossInStep(c, pht, upd, rd, dir, i, s, d, o, idx);
    }
  }

  /**
   * The reference list of `i` is updated at step `s` exactly when a scheduled deeper step reports candidates;
   * only the progenitor update is handed the bridging array (line 186; line 302 is not).
   */
  lemma ScheduleUpdate(c: Config, pht: seq<Snapshot>, upd: set<(int, int)>, rd: Reading, dir: Dir,
                       d: Dir, i: int, s: int, b: bool)
    requires Fits(c, pht)
    ensures Count(Pass(c, pht, upd, rd, dir).log, UpdateRef(d, i, s, b))
         == if d == dir && Scheduled(c, pht, rd, dir, i, s) && s >= 2 && (i, s) in upd && b == (dir == Progenitor)
            then 1 else 0
  {
    PassCounts(c, pht, upd, rd, dir, UpdateRef(d, i, s, b));
    if Scheduled(c, pht, rd, dir, i, s) {
      UpdateInStep(c, pht, upd, rd, dir, i, s, d, b);
    }
  }

  /**
   * A cross match of `i` with `o` is cleaned exactly once when the pass cleans and the step is scheduled:
   * step 1 cleans the reference list, a deeper step with new candidates cleans `DeepClean` (lines 176, 185,
   * 294, 301).
   */
  lemma ScheduleClean(c: Config, pht: seq<Snapshot>, upd: set<(int, int)>, rd: Reading, dir: Dir,
                      d: Dir, i: int, o: int, h: Held)
    requires Fits(c, pht)
    ensures Count(Pass(c, pht, upd, rd, dir).log, CleanCrossMatch(d, i, o, h))
         == if && d == dir && Cleans(c, dir) && Scheduled(c, pht, rd, dir, i, StepOf(dir, i, o))
               && (if StepOf(dir, i, o) == 1 then h == ReferenceList
                   else (i, StepOf(dir, i, o)) in upd && h == DeepClean(rd, dir))
            then 1 else 0
  {
    var e := CleanCrossMatch(d, i, o, h);
    PassCounts(c, pht, upd, rd, dir, e);
    if Scheduled(c, pht, rd, dir, i, EvStep(e)) {
      CleanInStep(c, pht, upd, rd, dir, i, EvStep(e), d, o, h);
    }
  }

  /**
   * Step `s` of snapshot `i` ends with a bridge-building call: step 1 whenever there are deeper steps
   * (lines 177, 295), a deeper step when it reported new candidates (lines 187, 303).
   */
  predicate BuildsAt(c: Config, upd: set<(int, int)>, i: int, s: int)
  {
    if s == 1 then c.numsteps > 1 else (i, s) in upd
  }

  /** How often `log` records the call building the bridge of `i` toward `o` at step `s`, whatever the target slot held. */
  function BuildCalls(log: seq<Event>, d: Dir, i: int, o: int, s: int): nat
  {
    Count(log, BuildBridge(d, i, o, s, true)) + Count(log, BuildBridge(d, i, o, s, false))
  }

  lemma BuildCallsAppend(a: seq<Event>, b: seq<Event>, d: Dir, i: int, o: int, s: int)
    ensures BuildCalls(a + b, d, i, o, s) == BuildCalls(a, d, i, o, s) + BuildCalls(b, d, i, o, s)
  {
    CountAppend(a, b, BuildBridge(d, i, o, s, true));
    CountAppend(a, b, BuildBridge(d, i, o, s, false));
  }

  /** The step events of a step contain no bridge-building call. */
  lemma StepCallsNone(c: Config, pht: seq<Snapshot>, upd: set<(int, int)>, rd: Reading, dir: Dir, i: int, t: int,
                      d: Dir, j: int, o: int, s: int)
    requires Fits(c, pht) && Local(c, Toward(dir, i, t))
    ensures BuildCalls(StepEvents(c, pht, upd, rd, dir, i, t), d, j, o, s) == 0
  {
    var ev := StepEvents(c, pht, upd, rd, dir, i, t);
    forall k | 0 <= k < |ev| ensures !ev[k].BuildBridge? {
      assert IsStepEvent(ev[k]);
    }
    CountOutside(ev, BuildBridge(d, j, o, s, true));
    CountOutside(ev, BuildBridge(d, j, o, s, false));
  }

  /** A step makes the bridge-building call its step number and its candidates call for, toward its own neighbour. */
  lemma BridgeCalls(c: Config, upd: set<(int, int)>, dir: Dir, bridges: seq<Slot<nat>>, i: int, t: int,
                    d: Dir, j: int, o: int, s: int)
    ensures BuildCalls(BridgeEvents(c, upd, dir, bridges, i, t), d, j, o, s)
         == if d == dir && j == i && s == t && o == Toward(dir, i, t) && BuildsAt(c, upd, i, t) then 1 else 0
  {
    var ev := BridgeEvents(c, upd, dir, bridges, i, t);
    if BuildsAt(c, upd, i, t) {
      assert ev == [ev[0]];
      CountSingle(ev[0], BuildBridge(d, j, o, s, true));
      CountSingle(ev[0], BuildBridge(d, j, o, s, false));
    } else {
      assert ev == [];
    }
  }

  /** Steps `1..t` of snapshot `i` make each bridge-building call once when its step is taken and builds. */
  lemma {:induction false} RecordCalls(c: Config, pht: seq<Snapshot>, upd: set<(int, int)>, rd: Reading, dir: Dir,
                                       bridges: seq<Slot<nat>>, log: seq<Event>, i: int, t: nat,
                                       d: Dir, j: int, o: int, s: int)
    requires Fits(c, pht)
    ensures BuildCalls(StepsRecord(c, pht, upd, rd, dir, bridges, log, i, t), d, j, o, s)
         == BuildCalls(log, d, j, o, s)
            + if && d == dir && j == i && 1 <= s <= t && Local(c, Toward(dir, i, s)) && o == Toward(dir, i, s)
                 && BuildsAt(c, upd, i, s)
              then 1 else 0
  {
    if t > 0 {
      RecordCalls(c, pht, upd, rd, dir, bridges, log, i, t - 1, d, j, o, s);
      if Local(c, Toward(dir, i, t)) {
        var prev := StepsRecord(c, pht, upd, rd, dir, bridges, log, i, t - 1);
        var ev := StepEvents(c, pht, upd, rd, dir, i, t);
        StepCallsNone(c, pht, upd, rd, dir, i, t, d, j, o, s);
        BuildCallsAppend(prev, ev, d, j, o, s);
        BuildCallsAppend(prev + ev, BridgeEvents(c, upd, dir, bridges, i, t), d, j, o, s);
        BridgeCalls(c, upd, dir, bridges, i, t, d, j, o, s);
      }
    }
  }

  /** One turn of the snapshot loop makes the bridge-building calls of the steps scheduled for it, and no other. */
  lemma IterCalls(c: Config, pht: seq<Snapshot>, upd: set<(int, int)>, rd: Reading, dir: Dir, st: PassState,
                  k: int, d: Dir, i: int, o: int, s: int)
    requires Fits(c, pht) && Shaped(c, st) && 0 <= k < c.numsnapshots
    ensures BuildCalls(Iter(c, pht, upd, rd, dir, st, k).log, d, i, o, s)
         == BuildCalls(st.log, d, i, o, s)
            + if && d == dir && i == k && Scheduled(c, pht, rd, dir, k, s) && o == Toward(dir, k, s)
                 && BuildsAt(c, upd, k, s)
              then 1 else 0
  {
    var e1 := BuildBridge(d, i, o, s, true);
    var e0 := BuildBridge(d, i, o, s, false);
    var r := Iter(c, pht, upd, rd, dir, st, k);
    if !Local(c, k) || NumHalos(pht, k) == 0 {
      assert r.log == st.log;
    } else {
      var st1 := if c.numsteps > 1 && LazyAlloc(rd, dir) then Allocs(c, pht, dir, st, k, c.numsteps) else st;
      if c.numsteps > 1 && LazyAlloc(rd, dir) {
        AllocsCounts(c, pht, dir, st, k, c.numsteps, e1);
        AllocsCounts(c, pht, dir, st, k, c.numsteps, e0);
      }
      var st2 := if Frontier(c, rd, dir, k) then st1.(lists := st1.lists[k := Live(Empty(NumHalos(pht, k)))])
                 else Steps(c, pht, upd, rd, dir, st1, k, c.numsteps);
      if Frontier(c, rd, dir, k) {
        assert st2.log == st1.log;
      } else {
        StepsLog(c, pht, upd, rd, dir, st1, k, c.numsteps);
        RecordCalls(c, pht, upd, rd, dir, st1.bridges, st1.log, k, c.numsteps, d, i, o, s);
      }
      ReleaseCounts(c, pht, dir, st2, k, e1);
      ReleaseCounts(c, pht, dir, st2, k, e0);
      assert r == Release(c, pht, dir, st2, k);
    }
  }

  /** After `m` turns, each bridge-building call occurs once if its step is scheduled for a visited snapshot and builds. */
  lemma {:induction false} LoopCalls(c: Config, pht: seq<Snapshot>, upd: set<(int, int)>, rd: Reading, dir: Dir,
                                     m: nat, d: Dir, i: int, o: int, s: int)
    requires Fits(c, pht) && m <= c.numsnapshots
    ensures BuildCalls(Loop(c, pht, upd, rd, dir, m).log, d, i, o, s)
         == if && d == dir && Visited(c, dir, m, i) && Scheduled(c, pht, rd, dir, i, s) && o == Toward(dir, i, s)
               && BuildsAt(c, upd, i, s)
            then 1 else 0
  {
    if m == 0 {
      SetupCounts(c, pht, rd, dir, BuildBridge(d, i, o, s, true));
      SetupCounts(c, pht, rd, dir, BuildBridge(d, i, o, s, false));
    } else {
      var k := Order(c, dir, m - 1);
      var prev := Loop(c, pht, upd, rd, dir, m - 1);
      LoopCalls(c, pht, upd, rd, dir, m - 1, d, i, o, s);
      IterCalls(c, pht, upd, rd, dir, prev, k, d, i, o, s);
      assert Loop(c, pht, upd, rd, dir, m) == Iter(c, pht, upd, rd, dir, prev, k);
      if i == k {
        assert Visited(c, dir, m, k) && !Visited(c, dir, m - 1, k);
      } else {
        assert Visited(c, dir, m, i) == Visited(c, dir, m - 1, i);
      }
    }
  }

  /**
   * Over a whole pass, the bridge of `i` toward `o` is built at step `s` exactly once when that step is
   * scheduled, `o` is `s` steps away and the step builds; never otherwise.
   */
  lemma ScheduleBuild(c: Config, pht: seq<Snapshot>, upd: set<(int, int)>, rd: Reading, dir: Dir,
                      d: Dir, i: int, o: int, s: int)
    requires Fits(c, pht)
    ensures BuildCalls(Pass(c, pht, upd, rd, dir).log, d, i, o, s)
         == if d == dir && Scheduled(c, pht, rd, dir, i, s) && o == Toward(dir, i, s) && BuildsAt(c, upd, i, s)
            then 1 else 0
  {
    LoopCalls(c, pht, upd, rd, dir, c.numsnapshots, d, i, o, s);
    if c.numsteps > 1 {
      var l := Loop(c, pht, upd, rd, dir, c.numsnapshots);
      FinalCounts(c, rd, dir, l, c.numsnapshots, BuildBridge(d, i, o, s, true));
      FinalCounts(c, rd, dir, l, c.numsnapshots, BuildBridge(d, i, o, s, false));
    }
  }
}
