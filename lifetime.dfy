/**
 * The lifetime of the step-bridging records (`pprogendescen` / `pdescenprogen`): per slot, how often a record
 * is allocated, cleaned with, freed, or deleted through an unassigned pointer, stage by stage over a pass and
 * the release of memory at the end of the program.
 */
module Lifetime {
  import opened Catalog
  import opened Membership
  import opened Ledger
  import opened Linking
  import opened Schedule

  /** What the events of a log do to bridging slot `slot`: how often it is allocated, cleaned with, freed, or deleted unassigned. */
  datatype Tally = Tally(slot: int, alloc: nat, clean: nat, free: nat, unset: nat)

  function Nothing(s: int): Tally
  {
    Tally(s, 0, 0, 0, 0)
  }

  function Plus(a: Tally, b: Tally): Tally
  {
    Tally(a.slot, a.alloc + b.alloc, a.clean + b.clean, a.free + b.free, a.unset + b.unset)
  }

  /** What a log does to bridging slot `s` of the pass in direction `dir`: the events naming the slot, by kind. */
  function TallyOf(log: seq<Event>, dir: Dir, s: int): Tally
  {
    Tally(s, Count(log, Alloc(dir, s)),
          Count(log, CleanUsingBridge(dir, s, true)) + Count(log, CleanUsingBridge(dir, s, false)),
          Count(log, Free(dir, Bridges, s)),
          Count(log, FreeUnset(dir, Bridges, s)))
  }

  /** An event does something to slot `s`. */
  predicate Touches(e: Event, dir: Dir, s: int)
  {
    || e == Alloc(dir, s) || e == CleanUsingBridge(dir, s, true) || e == CleanUsingBridge(dir, s, false)
    || e == Free(dir, Bridges, s) || e == FreeUnset(dir, Bridges, s)
  }

  lemma TallyAppend(a: seq<Event>, b: seq<Event>, dir: Dir, s: int)
    ensures TallyOf(a + b, dir, s) == Plus(TallyOf(a, dir, s), TallyOf(b, dir, s))
  {
    CountAppend(a, b, Alloc(dir, s));
    CountAppend(a, b, CleanUsingBridge(dir, s, true));
    CountAppend(a, b, CleanUsingBridge(dir, s, false));
    CountAppend(a, b, Free(dir, Bridges, s));
    CountAppend(a, b, FreeUnset(dir, Bridges, s));
  }

  lemma TallyNone(log: seq<Event>, dir: Dir, s: int)
    requires forall k :: 0 <= k < |log| ==> !Touches(log[k], dir, s)
    ensures TallyOf(log, dir, s) == Nothing(s)
  {
    CountOutside(log, Alloc(dir, s));
    CountOutside(log, CleanUsingBridge(dir, s, true));
    CountOutside(log, CleanUsingBridge(dir, s, false));
    CountOutside(log, Free(dir, Bridges, s));
    CountOutside(log, FreeUnset(dir, Bridges, s));
  }

  /** What `delete[]` on a bridging slot does to slot `s`. */
  function DeleteTally<T>(p: Slot<T>, s: int): Tally
  {
    match p
    case Live(_) => Tally(s, 0, 0, 1, 0)
    case Null => Nothing(s)
    case Unset => Tally(s, 0, 0, 0, 1)
  }

  lemma DeletedTally<T>(dir: Dir, store: Store, i: int, p: Slot<T>, s: int)
    ensures TallyOf(Deleted(dir, store, i, p), dir, s)
         == if store == Bridges && i == s then DeleteTally(p, s) else Nothing(s)
  {
    var d := Deleted(dir, store, i, p);
    if p.Null? {
      assert d == [];
    } else {
      assert d == [d[0]];
      TallySingle(d[0], dir, s);
    }
  }

  /** What one event does to slot `s`. */
  lemma TallySingle(x: Event, dir: Dir, s: int)
    ensures TallyOf([x], dir, s)
         == Tally(s, if x == Alloc(dir, s) then 1 else 0,
                  if x == CleanUsingBridge(dir, s, true) || x == CleanUsingBridge(dir, s, false) then 1 else 0,
                  if x == Free(dir, Bridges, s) then 1 else 0,
                  if x == FreeUnset(dir, Bridges, s) then 1 else 0)
  {
    CountSingle(x, Alloc(dir, s));
    CountSingle(x, CleanUsingBridge(dir, s, true));
    CountSingle(x, CleanUsingBridge(dir, s, false));
    CountSingle(x, Free(dir, Bridges, s));
    CountSingle(x, FreeUnset(dir, Bridges, s));
  }

  /** Cleaning with slot `i` and deleting it: one cleaning of `i`, and the delete. */
  lemma ReleaseTally<T>(log: seq<Event>, dir: Dir, i: int, p: Slot<T>, s: int)
    ensures TallyOf(log + [CleanUsingBridge(dir, i, p.Live?)] + Deleted(dir, Bridges, i, p), dir, s)
         == Plus(TallyOf(log, dir, s), if i == s then Plus(Tally(s, 0, 1, 0, 0), DeleteTally(p, s)) else Nothing(s))
  {
    var clean := [CleanUsingBridge(dir, i, p.Live?)];
    var d := Deleted(dir, Bridges, i, p);
    TallyAppend(log, clean, dir, s);
    TallyAppend(log + clean, d, dir, s);
    DeletedTally(dir, Bridges, i, p, s);
    CleanTally(dir, i, p.Live?, s);
    PlusAssoc(TallyOf(log, dir, s), TallyOf(clean, dir, s), TallyOf(d, dir, s));
    PlusUnit(TallyOf(log, dir, s));
  }

  lemma PlusAssoc(a: Tally, b: Tally, c: Tally)
    ensures Plus(Plus(a, b), c) == Plus(a, Plus(b, c))
  {
  }

  lemma PlusUnit(a: Tally)
    ensures Plus(a, Nothing(a.slot)) == a && Plus(Nothing(a.slot), a) == a
  {
  }

  lemma AllocTally(dir: Dir, i: int, s: int)
    ensures TallyOf([Alloc(dir, i)], dir, s) == Tally(s, if i == s then 1 else 0, 0, 0, 0)
  {
    var e := Alloc(dir, i);
    CountSingle(e, Alloc(dir, s));
    CountSingle(e, CleanUsingBridge(dir, s, true));
    CountSingle(e, CleanUsingBridge(dir, s, false));
    CountSingle(e, Free(dir, Bridges, s));
    CountSingle(e, FreeUnset(dir, Bridges, s));
  }

  lemma StrayTally(dir: Dir, i: int, s: int)
    ensures TallyOf([StrayNull(i)], dir, s) == Nothing(s)
  {
    TallyNone([StrayNull(i)], dir, s);
  }

  lemma CleanTally(dir: Dir, i: int, live: bool, s: int)
    ensures TallyOf([CleanUsingBridge(dir, i, live)], dir, s) == if i == s then Tally(s, 0, 1, 0, 0) else Nothing(s)
  {
    var e := CleanUsingBridge(dir, i, live);
    CountSingle(e, Alloc(dir, s));
    CountSingle(e, CleanUsingBridge(dir, s, true));
    CountSingle(e, CleanUsingBridge(dir, s, false));
    CountSingle(e, Free(dir, Bridges, s));
    CountSingle(e, FreeUnset(dir, Bridges, s));
  }

  /**
   * Lines 120-132 and 251-263: only the anchor is allocated at set-up, whatever its halo count; every other
   * bridging slot is NULL, except that as written the descendant initialisation leaves the last one unassigned.
   */
  lemma SetupSlot(c: Config, pht: seq<Snapshot>, rd: Reading, dir: Dir, s: int)
    requires Fits(c, pht) && c.numsteps > 1 && 0 <= s < c.numsnapshots
    ensures Setup(c, pht, rd, dir).bridges[s]
         == if s == Anchor(c, dir) then Live(NumHalos(pht, s))
            else if !Sound(rd, dir) && s == c.numsnapshots - 1 then Unset else Null
    ensures TallyOf(Setup(c, pht, rd, dir).log, dir, s) == Tally(s, if s == Anchor(c, dir) then 1 else 0, 0, 0, 0)
  {
    var log := Setup(c, pht, rd, dir).log;
    assert log == [Alloc(dir, Anchor(c, dir))];
    AllocTally(dir, Anchor(c, dir), s);
  }

  /** Slot `s` is claimed by the on-demand allocation of snapshot `k`'s first `t` steps. */
  predicate Grabs(c: Config, pht: seq<Snapshot>, dir: Dir, st: PassState, k: int, t: int, s: int)
    requires Fits(c, pht)
  {
    && 0 <= s < |st.bridges| && st.bridges[s] == Null
    && Local(c, s) && NumHalos(pht, s) > 0 && 1 <= StepOf(dir, k, s) <= t
  }

  /** Line 148 for one slot: what it does to slot `s`. */
  lemma AllocStepSlot(c: Config, pht: seq<Snapshot>, dir: Dir, st: PassState, t: int, s: int)
    requires Fits(c, pht) && Shaped(c, st) && c.numsteps > 1 && 0 <= s < c.numsnapshots
    ensures AllocStep(c, pht, dir, st, t).bridges[s]
         == if s == t && st.bridges[s] == Null && Local(c, s) && NumHalos(pht, s) > 0 then Live(NumHalos(pht, s))
            else st.bridges[s]
    ensures TallyOf(AllocStep(c, pht, dir, st, t).log, dir, s)
         == Plus(TallyOf(st.log, dir, s),
                 Tally(s, if s == t && st.bridges[s] == Null && Local(c, s) && NumHalos(pht, s) > 0 then 1 else 0, 0, 0, 0))
  {
    if Local(c, t) && st.bridges[t] == Null && NumHalos(pht, t) > 0 {
      var a := [Alloc(dir, t)];
      TallyAppend(st.log, a, dir, s);
      AllocTally(dir, t, s);
    }
  }

  /** Lines 147-148: the slots up to `t` steps ahead that are NULL, local and have halos are allocated, once. */
  lemma {:induction false} AllocsSlot(c: Config, pht: seq<Snapshot>, dir: Dir, st: PassState, k: int, t: nat, s: int)
    requires Fits(c, pht) && Shaped(c, st) && c.numsteps > 1 && 0 <= s < c.numsnapshots
    ensures Allocs(c, pht, dir, st, k, t).bridges[s]
         == if Grabs(c, pht, dir, st, k, t, s) then Live(NumHalos(pht, s)) else st.bridges[s]
    ensures TallyOf(Allocs(c, pht, dir, st, k, t).log, dir, s)
         == Plus(TallyOf(st.log, dir, s), Tally(s, if Grabs(c, pht, dir, st, k, t, s) then 1 else 0, 0, 0, 0))
  {
    if t > 0 {
      var prev := Allocs(c, pht, dir, st, k, t - 1);
      AllocsSlot(c, pht, dir, st, k, t - 1, s);
      AllocStepSlot(c, pht, dir, prev, Toward(dir, k, t), s);
      if s == Toward(dir, k, t) {
        assert !Grabs(c, pht, dir, st, k, t - 1, s);
      } else {
        assert Grabs(c, pht, dir, st, k, t, s) == Grabs(c, pht, dir, st, k, t - 1, s);
      }
      assert Allocs(c, pht, dir, st, k, t) == AllocStep(c, pht, dir, prev, Toward(dir, k, t));
    }
  }

  /** The calls a step makes are step events and bridge-building calls, and nothing else. */
  lemma StepEventsOther(c: Config, pht: seq<Snapshot>, upd: set<(int, int)>, rd: Reading, dir: Dir,
                        bridges: seq<Slot<nat>>, i: int, t: int, e: Event)
    requires Fits(c, pht) && Local(c, Toward(dir, i, t)) && !IsStepEvent(e) && !e.BuildBridge?
    ensures Count(StepEvents(c, pht, upd, rd, dir, i, t) + BridgeEvents(c, upd, dir, bridges, i, t), e) == 0
  {
    var ev := StepEvents(c, pht, upd, rd, dir, i, t) + BridgeEvents(c, upd, dir, bridges, i, t);
    forall k | 0 <= k < |ev| ensures ev[k] != e {
      assert IsStepEvent(ev[k]) || ev[k].BuildBridge?;
    }
    CountOutside(ev, e);
  }

  /** Step `t` of the record adds no event other than its calls. */
  lemma RecordOtherStep(c: Config, pht: seq<Snapshot>, upd: set<(int, int)>, rd: Reading, dir: Dir,
                        bridges: seq<Slot<nat>>, log: seq<Event>, i: int, t: nat, e: Event)
    requires Fits(c, pht) && t > 0 && !IsStepEvent(e) && !e.BuildBridge?
    ensures Count(StepsRecord(c, pht, upd, rd, dir, bridges, log, i, t), e)
         == Count(StepsRecord(c, pht, upd, rd, dir, bridges, log, i, t - 1), e)
  {
    if Local(c, Toward(dir, i, t)) {
      var prev := StepsRecord(c, pht, upd, rd, dir, bridges, log, i, t - 1);
      var ev := StepEvents(c, pht, upd, rd, dir, i, t);
      var bb := BridgeEvents(c, upd, dir, bridges, i, t);
      assert prev + ev + bb == prev + (ev + bb);
      StepEventsOther(c, pht, upd, rd, dir, bridges, i, t, e);
      CountAppend(prev, ev + bb, e);
    }
  }

  /** The record of the steps adds no event other than their calls. */
  lemma {:induction false} RecordOther(c: Config, pht: seq<Snapshot>, upd: set<(int, int)>, rd: Reading, dir: Dir,
                                       bridges: seq<Slot<nat>>, log: seq<Event>, i: int, t: nat, e: Event)
    requires Fits(c, pht) && !IsStepEvent(e) && !e.BuildBridge?
    ensures Count(StepsRecord(c, pht, upd, rd, dir, bridges, log, i, t), e) == Count(log, e)
  {
    if t > 0 {
      RecordOther(c, pht, upd, rd, dir, bridges, log, i, t - 1, e);
      RecordOtherStep(c, pht, upd, rd, dir, bridges, log, i, t, e);
    }
  }

  lemma RecordTally(c: Config, pht: seq<Snapshot>, upd: set<(int, int)>, rd: Reading, dir: Dir,
                    bridges: seq<Slot<nat>>, log: seq<Event>, i: int, t: nat, s: int)
    requires Fits(c, pht)
    ensures TallyOf(StepsRecord(c, pht, upd, rd, dir, bridges, log, i, t), dir, s) == TallyOf(log, dir, s)
  {
    RecordOther(c, pht, upd, rd, dir, bridges, log, i, t, Alloc(dir, s));
    RecordOther(c, pht, upd, rd, dir, bridges, log, i, t, CleanUsingBridge(dir, s, true));
    RecordOther(c, pht, upd, rd, dir, bridges, log, i, t, CleanUsingBridge(dir, s, false));
    RecordOther(c, pht, upd, rd, dir, bridges, log, i, t, Free(dir, Bridges, s));
    RecordOther(c, pht, upd, rd, dir, bridges, log, i, t, FreeUnset(dir, Bridges, s));
  }

  /** The steps of a snapshot leave the bridging array and its tallies alone. */
  lemma StepsSlot(c: Config, pht: seq<Snapshot>, upd: set<(int, int)>, rd: Reading, dir: Dir, st: PassState,
                  i: int, t: nat, s: int)
    requires Fits(c, pht) && Shaped(c, st) && Local(c, i)
    ensures TallyOf(Steps(c, pht, upd, rd, dir, st, i, t).log, dir, s) == TallyOf(st.log, dir, s)
  {
    StepsLog(c, pht, upd, rd, dir, st, i, t);
    RecordTally(c, pht, upd, rd, dir, st.bridges, st.log, i, t, s);
  }

  /** Snapshot `k`'s turn ends with the window release of its own slot. */
  predicate Releases(c: Config, pht: seq<Snapshot>, k: int)
    requires Fits(c, pht)
  {
    Local(c, k) && NumHalos(pht, k) > 0 && c.numsteps > 1 && InWindow(c, k)
  }

  /** Lines 211-216 and 324-329 for slot `s`. */
  lemma ReleaseSlot(c: Config, pht: seq<Snapshot>, dir: Dir, st: PassState, k: int, s: int)
    requires Fits(c, pht) && Shaped(c, st) && c.numsteps > 1 && 0 <= k < c.numsnapshots && 0 <= s < c.numsnapshots
    requires Local(c, k)
    ensures Release(c, pht, dir, st, k).bridges[s] == if Releases(c, pht, k) && s == k then Null else st.bridges[s]
    ensures TallyOf(Release(c, pht, dir, st, k).log, dir, s)
         == Plus(TallyOf(st.log, dir, s),
                 if Releases(c, pht, k) && s == k then Plus(Tally(s, 0, 1, 0, 0), DeleteTally(st.bridges[s], s)) else Nothing(s))
  {
    if Releases(c, pht, k) {
      ReleaseTally(st.log, dir, k, st.bridges[k], s);
    }
  }

  /** The allocation part of snapshot `k`'s turn claims slot `s`. */
  predicate TurnGrabs(c: Config, pht: seq<Snapshot>, rd: Reading, dir: Dir, st: PassState, k: int, s: int)
    requires Fits(c, pht) && 0 <= k < c.numsnapshots
  {
    Local(c, k) && NumHalos(pht, k) > 0 && c.numsteps > 1 && LazyAlloc(rd, dir)
    && Grabs(c, pht, dir, st, k, c.numsteps, s)
  }

  /** The turn of a snapshot that is not local or has no halos only marks its list NULL. */
  lemma IterSkipSlot(c: Config, pht: seq<Snapshot>, upd: set<(int, int)>, rd: Reading, dir: Dir, st: PassState,
                     k: int)
    requires Fits(c, pht) && Shaped(c, st) && 0 <= k < c.numsnapshots
    requires !Local(c, k) || NumHalos(pht, k) == 0
    ensures Iter(c, pht, upd, rd, dir, st, k).bridges == st.bridges
    ensures Iter(c, pht, upd, rd, dir, st, k).log == st.log
  {
  }

  /** The bridging slot `s` after the turn of a local snapshot with halos. */
  lemma IterTurnBridge(c: Config, pht: seq<Snapshot>, upd: set<(int, int)>, rd: Reading, dir: Dir, st: PassState,
                 k: int, s: int)
    requires Fits(c, pht) && Shaped(c, st) && c.numsteps > 1
    requires 0 <= k < c.numsnapshots && 0 <= s < c.numsnapshots
    requires Local(c, k) && NumHalos(pht, k) > 0
    ensures Iter(c, pht, upd, rd, dir, st, k).bridges[s]
         == if Releases(c, pht, k) && s == k then Null
            else if TurnGrabs(c, pht, rd, dir, st, k, s) then Live(NumHalos(pht, s))
            else st.bridges[s]
  {
    var st1 := if LazyAlloc(rd, dir) then Allocs(c, pht, dir, st, k, c.numsteps) else st;
    if LazyAlloc(rd, dir) {
      AllocsSlot(c, pht, dir, st, k, c.numsteps, s);
    }
    var st2 := if Frontier(c, rd, dir, k) then st1.(lists := st1.lists[k := Live(Empty(NumHalos(pht, k)))])
               else Steps(c, pht, upd, rd, dir, st1, k, c.numsteps);
    if !Frontier(c, rd, dir, k) {
      StepsSlot(c, pht, upd, rd, dir, st1, k, c.numsteps, s);
    }
    ReleaseSlot(c, pht, dir, st2, k, s);
    assert !(TurnGrabs(c, pht, rd, dir, st, k, s) && s == k);
    assert Iter(c, pht, upd, rd, dir, st, k).bridges == Release(c, pht, dir, st2, k).bridges;
  }

  /** The events on slot `s` of the turn of a local snapshot with halos. */
  lemma IterTurnTally(c: Config, pht: seq<Snapshot>, upd: set<(int, int)>, rd: Reading, dir: Dir, st: PassState,
                 k: int, s: int)
    requires Fits(c, pht) && Shaped(c, st) && c.numsteps > 1
    requires 0 <= k < c.numsnapshots && 0 <= s < c.numsnapshots
    requires Local(c, k) && NumHalos(pht, k) > 0
    ensures TallyOf(Iter(c, pht, upd, rd, dir, st, k).log, dir, s)
         == Plus(TallyOf(st.log, dir, s),
                 if Releases(c, pht, k) && s == k then Plus(Tally(s, 0, 1, 0, 0), DeleteTally(st.bridges[s], s))
                 else Tally(s, if TurnGrabs(c, pht, rd, dir, st, k, s) then 1 else 0, 0, 0, 0))
  {
    var st1 := if LazyAlloc(rd, dir) then Allocs(c, pht, dir, st, k, c.numsteps) else st;
    if LazyAlloc(rd, dir) {
      AllocsSlot(c, pht, dir, st, k, c.numsteps, s);
    }
    var st2 := if Frontier(c, rd, dir, k) then st1.(lists := st1.lists[k := Live(Empty(NumHalos(pht, k)))])
               else Steps(c, pht, upd, rd, dir, st1, k, c.numsteps);
    if !Frontier(c, rd, dir, k) {
      StepsSlot(c, pht, upd, rd, dir, st1, k, c.numsteps, s);
    }
    ReleaseSlot(c, pht, dir, st2, k, s);
    assert !(TurnGrabs(c, pht, rd, dir, st, k, s) && s == k);
    assert Iter(c, pht, upd, rd, dir, st, k).log == Release(c, pht, dir, st2, k).log;
    var grab := Tally(s, if TurnGrabs(c, pht, rd, dir, st, k, s) then 1 else 0, 0, 0, 0);
    var rel := if Releases(c, pht, k) && s == k then Plus(Tally(s, 0, 1, 0, 0), DeleteTally(st.bridges[s], s)) else Nothing(s);
    PlusAssoc(TallyOf(st.log, dir, s), grab, rel);
    PlusUnit(grab);
    PlusUnit(rel);
  }

  /** One turn of the snapshot loop (lines 139-219, 266-332) for slot `s`. */
  lemma IterSlot(c: Config, pht: seq<Snapshot>, upd: set<(int, int)>, rd: Reading, dir: Dir, st: PassState,
                 k: int, s: int)
    requires Fits(c, pht) && Shaped(c, st) && c.numsteps > 1
    requires 0 <= k < c.numsnapshots && 0 <= s < c.numsnapshots
    ensures Iter(c, pht, upd, rd, dir, st, k).bridges[s]
         == if Releases(c, pht, k) && s == k then Null
            else if TurnGrabs(c, pht, rd, dir, st, k, s) then Live(NumHalos(pht, s))
            else st.bridges[s]
    ensures TallyOf(Iter(c, pht, upd, rd, dir, st, k).log, dir, s)
         == Plus(TallyOf(st.log, dir, s),
                 if Releases(c, pht, k) && s == k then Plus(Tally(s, 0, 1, 0, 0), DeleteTally(st.bridges[s], s))
                 else Tally(s, if TurnGrabs(c, pht, rd, dir, st, k, s) then 1 else 0, 0, 0, 0))
  {
    if !Local(c, k) || NumHalos(pht, k) == 0 {
      IterSkipSlot(c, pht, upd, rd, dir, st, k);
    } else {
      IterTurnBridge(c, pht, upd, rd, dir, st, k, s);
      IterTurnTally(c, pht, upd, rd, dir, st, k, s);
    }
  }

  /** What cleaning with slot `i` and deleting it does to slot `s`. */
  function Released<T>(p: Slot<T>, i: int, s: int): Tally
  {
    if i == s then Plus(Tally(s, 0, 1, 0, 0), DeleteTally(p, s)) else Nothing(s)
  }

  /** The final pass reaches slot `i` with a record or an unassigned pointer in it. */
  predicate FinalHit(c: Config, st: PassState, i: int)
    requires Shaped(c, st) && c.numsteps > 1 && 0 <= i < c.numsnapshots
  {
    c.startSnap <= i < c.endSnap - 1 && !st.bridges[i].Null?
  }

  /** Lines 233-240 and 343-350 on the array: as written, the descendant pass leaves its own slot set. */
  lemma FinalStepBridges(c: Config, rd: Reading, dir: Dir, st: PassState, i: int, s: int)
    requires Shaped(c, st) && c.numsteps > 1 && 0 <= i < c.numsnapshots && 0 <= s < c.numsnapshots
    ensures FinalStep(c, rd, dir, st, i).bridges[s]
         == if FinalHit(c, st, i) && s == i && Sound(rd, dir) then Null else st.bridges[s]
  {
  }

  /** Lines 233-240 and 343-350 on the log, for a slot holding a record or an unassigned pointer. */
  lemma FinalHitTally(c: Config, rd: Reading, dir: Dir, st: PassState, i: int, s: int)
    requires Shaped(c, st) && c.numsteps > 1 && 0 <= i < c.numsnapshots && 0 <= s < c.numsnapshots
    requires FinalHit(c, st, i)
    ensures TallyOf(FinalStep(c, rd, dir, st, i).log, dir, s) == Plus(TallyOf(st.log, dir, s), Released(st.bridges[i], i, s))
  {
    var r := FinalStep(c, rd, dir, st, i);
    var log := st.log + [CleanUsingBridge(dir, i, st.bridges[i].Live?)] + Deleted(dir, Bridges, i, st.bridges[i]);
    ReleaseTally(st.log, dir, i, st.bridges[i], s);
    if Sound(rd, dir) {
      assert r.log == log;
    } else {
      var stray := [StrayNull(i)];
      TallyAppend(log, stray, dir, s);
      StrayTally(dir, i, s);
      PlusUnit(TallyOf(log, dir, s));
      assert r.log == log + stray;
    }
  }

  /** Lines 233-240 and 343-350 on the log: slot `i` is cleaned with and deleted, whatever the reading. */
  lemma FinalStepTally(c: Config, rd: Reading, dir: Dir, st: PassState, i: int, s: int)
    requires Shaped(c, st) && c.numsteps > 1 && 0 <= i < c.numsnapshots && 0 <= s < c.numsnapshots
    ensures TallyOf(FinalStep(c, rd, dir, st, i).log, dir, s)
         == Plus(TallyOf(st.log, dir, s), if FinalHit(c, st, i) then Released(st.bridges[i], i, s) else Nothing(s))
  {
    if FinalHit(c, st, i) {
      FinalHitTally(c, rd, dir, st, i, s);
    } else {
      assert FinalStep(c, rd, dir, st, i).log == st.log;
    }
  }

  /** The final pass has touched slot `s` within its first `m` slots. */
  predicate FinalReached(c: Config, dir: Dir, st: PassState, m: nat, s: int)
    requires Shaped(c, st) && c.numsteps > 1 && 0 <= s < c.numsnapshots
  {
    Visited(c, dir, m, s) && FinalHit(c, st, s)
  }

  /** The final pass's `m`-th slot, on the array, given what its first `m-1` did. */
  lemma FinalBridgesStep(c: Config, rd: Reading, dir: Dir, st: PassState, prev: PassState, m: nat, s: int)
    requires Shaped(c, st) && Shaped(c, prev) && c.numsteps > 1 && 0 < m <= c.numsnapshots && 0 <= s < c.numsnapshots
    requires prev.bridges[s] == if FinalReached(c, dir, st, m - 1, s) && Sound(rd, dir) then Null else st.bridges[s]
    ensures FinalStep(c, rd, dir, prev, Order(c, dir, m - 1)).bridges[s]
         == if FinalReached(c, dir, st, m, s) && Sound(rd, dir) then Null else st.bridges[s]
  {
    var i := Order(c, dir, m - 1);
    FinalStepBridges(c, rd, dir, prev, i, s);
    if s == i {
      assert Visited(c, dir, m, s) && !Visited(c, dir, m - 1, s);
      assert prev.bridges[s] == st.bridges[s];
    } else {
      assert Visited(c, dir, m, s) == Visited(c, dir, m - 1, s);
    }
  }

  /** The final pass's `m`-th slot is `s` itself. */
  lemma FinalTallyOwn(c: Config, rd: Reading, dir: Dir, st: PassState, prev: PassState, m: nat, s: int)
    requires Shaped(c, st) && Shaped(c, prev) && c.numsteps > 1 && 0 < m <= c.numsnapshots && 0 <= s < c.numsnapshots
    requires !FinalReached(c, dir, st, m - 1, s) ==> prev.bridges[s] == st.bridges[s]
    requires TallyOf(prev.log, dir, s)
          == Plus(TallyOf(st.log, dir, s), if FinalReached(c, dir, st, m - 1, s) then Released(st.bridges[s], s, s) else Nothing(s))
    requires s == Order(c, dir, m - 1)
    ensures TallyOf(FinalStep(c, rd, dir, prev, Order(c, dir, m - 1)).log, dir, s)
         == Plus(TallyOf(st.log, dir, s), if FinalReached(c, dir, st, m, s) then Released(st.bridges[s], s, s) else Nothing(s))
  {
    FinalStepTally(c, rd, dir, prev, s, s);
    assert Visited(c, dir, m, s) && !Visited(c, dir, m - 1, s);
    assert TallyOf(prev.log, dir, s) == TallyOf(st.log, dir, s);
    assert FinalHit(c, prev, s) == FinalReached(c, dir, st, m, s);
  }

  /** The final pass's `m`-th slot is another one. */
  lemma FinalTallyOther(c: Config, rd: Reading, dir: Dir, st: PassState, prev: PassState, m: nat, s: int)
    requires Shaped(c, st) && Shaped(c, prev) && c.numsteps > 1 && 0 < m <= c.numsnapshots && 0 <= s < c.numsnapshots
    requires !FinalReached(c, dir, st, m - 1, s) ==> prev.bridges[s] == st.bridges[s]
    requires TallyOf(prev.log, dir, s)
          == Plus(TallyOf(st.log, dir, s), if FinalReached(c, dir, st, m - 1, s) then Released(st.bridges[s], s, s) else Nothing(s))
    requires s != Order(c, dir, m - 1)
    ensures TallyOf(FinalStep(c, rd, dir, prev, Order(c, dir, m - 1)).log, dir, s)
         == Plus(TallyOf(st.log, dir, s), if FinalReached(c, dir, st, m, s) then Released(st.bridges[s], s, s) else Nothing(s))
  {
    var i := Order(c, dir, m - 1);
    FinalStepTally(c, rd, dir, prev, i, s);
    assert Visited(c, dir, m, s) == Visited(c, dir, m - 1, s);
    assert FinalHit(c, prev, i) ==> Released(prev.bridges[i], i, s) == Nothing(s);
  }

  /** The final pass's `m`-th slot, on the log, given what its first `m-1` did. */
  lemma FinalTallyStep(c: Config, rd: Reading, dir: Dir, st: PassState, prev: PassState, m: nat, s: int)
    requires Shaped(c, st) && Shaped(c, prev) && c.numsteps > 1 && 0 < m <= c.numsnapshots && 0 <= s < c.numsnapshots
    requires !FinalReached(c, dir, st, m - 1, s) ==> prev.bridges[s] == st.bridges[s]
    requires TallyOf(prev.log, dir, s)
          == Plus(TallyOf(st.log, dir, s), if FinalReached(c, dir, st, m - 1, s) then Released(st.bridges[s], s, s) else Nothing(s))
    ensures TallyOf(FinalStep(c, rd, dir, prev, Order(c, dir, m - 1)).log, dir, s)
         == Plus(TallyOf(st.log, dir, s), if FinalReached(c, dir, st, m, s) then Released(st.bridges[s], s, s) else Nothing(s))
  {
    if s == Order(c, dir, m - 1) {
      FinalTallyOwn(c, rd, dir, st, prev, m, s);
    } else {
      FinalTallyOther(c, rd, dir, st, prev, m, s);
    }
  }

  /** The final pass (lines 230-241, 340-351) touches slot `s` once, when its turn comes. */
  lemma {:induction false} FinalSlot(c: Config, rd: Reading, dir: Dir, st: PassState, m: nat, s: int)
    requires Shaped(c, st) && c.numsteps > 1 && m <= c.numsnapshots && 0 <= s < c.numsnapshots
    ensures Final(c, rd, dir, st, m).bridges[s]
         == if FinalReached(c, dir, st, m, s) && Sound(rd, dir) then Null else st.bridges[s]
    ensures TallyOf(Final(c, rd, dir, st, m).log, dir, s)
         == Plus(TallyOf(st.log, dir, s), if FinalReached(c, dir, st, m, s) then Released(st.bridges[s], s, s) else Nothing(s))
  {
    if m > 0 {
      var prev := Final(c, rd, dir, st, m - 1);
      assert Final(c, rd, dir, st, m) == FinalStep(c, rd, dir, prev, Order(c, dir, m - 1));
      FinalSlot(c, rd, dir, st, m - 1, s);
      FinalBridgesStep(c, rd, dir, st, prev, m, s);
      FinalTallyStep(c, rd, dir, st, prev, m, s);
    }
  }

  /** Deleting a list names no bridging slot. */
  lemma FreeListStep(prev: seq<Event>, dir: Dir, i: int, p: Slot<LinkList>, s: int)
    requires TallyOf(prev, dir, s) == Nothing(s)
    ensures TallyOf(prev + Deleted(dir, Lists, i, p), dir, s) == Nothing(s)
  {
    TallyAppend(prev, Deleted(dir, Lists, i, p), dir, s);
    DeletedTally(dir, Lists, i, p, s);
  }

  /** Deleting the lists names no bridging slot. */
  lemma {:induction false} FreeListsTally(lists: seq<Slot<LinkList>>, dir: Dir, m: nat, s: int)
    requires m <= |lists|
    ensures TallyOf(FreeLists(lists, dir, m), dir, s) == Nothing(s)
  {
    if m > 0 {
      var prev := FreeLists(lists, dir, m - 1);
      assert FreeLists(lists, dir, m) == prev + Deleted(dir, Lists, m - 1, lists[m - 1]);
      FreeListsTally(lists, dir, m - 1, s);
      FreeListStep(prev, dir, m - 1, lists[m - 1], s);
    }
  }

  /** The `m`-th turn visits exactly the snapshot `Order(c, dir, m - 1)`, which the earlier turns did not. */
  lemma VisitStep(c: Config, dir: Dir, m: nat, s: int)
    requires 0 < m <= c.numsnapshots
    ensures Visited(c, dir, m, s) == (Visited(c, dir, m - 1, s) || s == Order(c, dir, m - 1))
    ensures !(Visited(c, dir, m - 1, s) && s == Order(c, dir, m - 1))
  {
  }

  /** The teardown's tally of a slot, one turn further on. */
  lemma FreeSlotValue(s: int, before: Tally, own: Tally, visited: bool, now: bool, mine: bool, local: bool, del: Tally)
    requires del.slot == s
    requires before == if visited && local then del else Nothing(s)
    requires own == if mine && local then del else Nothing(s)
    requires now == (visited || mine) && !(visited && mine)
    ensures Plus(before, own) == if now && local then del else Nothing(s)
  {
  }

  /** One more slot of the bridging teardown, in visiting order. */
  lemma FreeBridgeStep(c: Config, bridges: seq<Slot<nat>>, dir: Dir, m: nat, s: int, prev: seq<Event>, d: seq<Event>)
    requires |bridges| == c.numsnapshots && 0 < m <= c.numsnapshots && 0 <= s < c.numsnapshots
    requires d == if Local(c, Order(c, dir, m - 1))
                  then Deleted(dir, Bridges, Order(c, dir, m - 1), bridges[Order(c, dir, m - 1)]) else []
    requires TallyOf(prev, dir, s) == if Visited(c, dir, m - 1, s) && Local(c, s) then DeleteTally(bridges[s], s) else Nothing(s)
    ensures TallyOf(prev + d, dir, s) == if Visited(c, dir, m, s) && Local(c, s) then DeleteTally(bridges[s], s) else Nothing(s)
  {
    var i := Order(c, dir, m - 1);
    TallyAppend(prev, d, dir, s);
    if Local(c, i) {
      DeletedTally(dir, Bridges, i, bridges[i], s);
    } else {
      assert d == [];
    }
    assert TallyOf(d, dir, s) == if i == s && Local(c, s) then DeleteTally(bridges[s], s) else Nothing(s);
    VisitStep(c, dir, m, s);
    FreeSlotValue(s, TallyOf(prev, dir, s), TallyOf(d, dir, s), Visited(c, dir, m - 1, s), Visited(c, dir, m, s),
                  i == s, Local(c, s), DeleteTally(bridges[s], s));
  }

  /** Lines 388-397 and 404-413 delete slot `s` once, if it is local, when its turn comes. */
  lemma {:induction false} FreeBridgesTally(c: Config, bridges: seq<Slot<nat>>, dir: Dir, m: nat, s: int)
    requires |bridges| == c.numsnapshots && m <= c.numsnapshots && 0 <= s < c.numsnapshots
    ensures TallyOf(FreeBridges(c, bridges, dir, m), dir, s)
         == if Visited(c, dir, m, s) && Local(c, s) then DeleteTally(bridges[s], s) else Nothing(s)
  {
    if m > 0 {
      var i := Order(c, dir, m - 1);
      var d := if Local(c, i) then Deleted(dir, Bridges, i, bridges[i]) else [];
      FreeBridgesTally(c, bridges, dir, m - 1, s);
      FreeBridgeStep(c, bridges, dir, m, s, FreeBridges(c, bridges, dir, m - 1), d);
    }
  }

  /** Lines 383-415 for slot `s`: a local slot still set is deleted once. */
  lemma TeardownSlot(c: Config, dir: Dir, st: PassState, s: int)
    requires Shaped(c, st) && c.numsteps > 1 && 0 <= s < c.numsnapshots
    ensures TallyOf(Teardown(c, dir, st), dir, s) == if Local(c, s) then DeleteTally(st.bridges[s], s) else Nothing(s)
  {
    FreeListsTally(st.lists, dir, |st.lists|, s);
    FreeBridgesTally(c, st.bridges, dir, c.numsnapshots, s);
    TallyAppend(FreeLists(st.lists, dir, |st.lists|), FreeBridges(c, st.bridges, dir, c.numsnapshots), dir, s);
    assert Visited(c, dir, c.numsnapshots, s);
  }

  /** The bridging slot's own record counts one if it is still held. */
  function Held(b: Slot<nat>): nat
  {
    if b.Live? then 1 else 0
  }

  /**
   * What the snapshot loop keeps true of a bridging slot holding `b` with tally `t`, given whether the slot's
   * own turn has come, whether that turn releases it, whether it is local and whether it is the anchor: the
   * slot is never left unassigned, a record is allocated at most once and is freed or still held, and the slot
   * is cleaned with, at most once, exactly when its own turn released it.
   */
  predicate SlotKept(b: Slot<nat>, alloc: int, clean: int, free: int, unset: int,
                     visited: bool, released: bool, local: bool, anchor: bool)
  {
    && b != Unset && unset == 0
    && alloc == free + Held(b) && alloc <= 1
    && 0 <= free <= clean <= 1
    && (clean == 1 <==> visited && released)
    && (clean == 1 ==> b == Null)
    && (b.Live? ==> local)
    && (anchor ==> alloc == 1)
  }

  /** `SlotKept` for slot `s` once `m` snapshots are visited. */
  predicate Kept(c: Config, pht: seq<Snapshot>, dir: Dir, m: nat, s: int, b: Slot<nat>, t: Tally)
    requires Fits(c, pht) && 0 <= s < c.numsnapshots
  {
    SlotKept(b, t.alloc, t.clean, t.free, t.unset, Visited(c, dir, m, s), Releases(c, pht, s), Local(c, s),
             s == Anchor(c, dir))
  }

  /** A slot claimed on demand lies ahead of the snapshot whose turn claims it. */
  lemma AheadUnvisited(c: Config, dir: Dir, m: nat, s: int)
    requires 0 < m <= c.numsnapshots && 1 <= StepOf(dir, Order(c, dir, m - 1), s)
    ensures !Visited(c, dir, m - 1, s) && !Visited(c, dir, m, s)
  {
  }

  /** Snapshot `s` is the `m`-th visited. */
  lemma TurnOf(c: Config, dir: Dir, m: nat, s: int)
    requires 0 < m <= c.numsnapshots && s == Order(c, dir, m - 1)
    ensures !Visited(c, dir, m - 1, s) && Visited(c, dir, m, s)
  {
  }

  /** Any other slot's visit status is unchanged by the `m`-th turn. */
  lemma TurnOther(c: Config, dir: Dir, m: nat, s: int)
    requires 0 < m <= c.numsnapshots && s != Order(c, dir, m - 1)
    ensures Visited(c, dir, m, s) == Visited(c, dir, m - 1, s)
  {
  }

  /** The slot's own turn releases it: it was never cleaned with, so it held at most its one record. */
  lemma KeptRelease(b: Slot<nat>, alloc: int, clean: int, free: int, unset: int, local: bool, anchor: bool)
    requires SlotKept(b, alloc, clean, free, unset, false, true, local, anchor)
    ensures SlotKept(Null, alloc, clean + 1, free + Held(b), unset, true, true, local, anchor)
  {
  }

  /** A turn claims a NULL slot ahead of it, which had no record yet. */
  lemma KeptGrab(b: Slot<nat>, alloc: int, clean: int, free: int, unset: int, released: bool, anchor: bool,
                 size: nat)
    requires SlotKept(b, alloc, clean, free, unset, false, released, true, anchor) && b == Null
    ensures SlotKept(Live(size), alloc + 1, clean, free, unset, false, released, true, anchor)
  {
  }

  /** A turn that leaves the slot alone, possibly its own turn when that does not release it. */
  lemma KeptStill(b: Slot<nat>, alloc: int, clean: int, free: int, unset: int, visited: bool, visited2: bool,
                  released: bool, local: bool, anchor: bool)
    requires SlotKept(b, alloc, clean, free, unset, visited, released, local, anchor)
    requires visited ==> visited2
    requires visited2 && !visited ==> !released
    ensures SlotKept(b, alloc, clean, free, unset, visited2, released, local, anchor)
  {
  }

  /** Deleting a slot that is not unassigned frees its record, if it holds one. */
  lemma DeleteHeld(b: Slot<nat>, s: int)
    requires b != Unset
    ensures DeleteTally(b, s) == Tally(s, 0, 0, Held(b), 0)
  {
  }

  /** Lines 120-132 and, mirrored, 251-263 start every slot in `Kept`. */
  lemma SetupKept(c: Config, pht: seq<Snapshot>, rd: Reading, dir: Dir, s: int)
    requires Fits(c, pht) && c.numsteps > 1 && Sound(rd, dir) && 0 <= s < c.numsnapshots
    ensures Kept(c, pht, dir, 0, s, Setup(c, pht, rd, dir).bridges[s], TallyOf(Setup(c, pht, rd, dir).log, dir, s))
  {
    SetupSlot(c, pht, rd, dir, s);
  }

  /** `IterSlot` field by field, for a slot that is not unassigned. */
  lemma IterFields(c: Config, pht: seq<Snapshot>, upd: set<(int, int)>, rd: Reading, dir: Dir, st: PassState,
                   k: int, s: int)
    requires Fits(c, pht) && Shaped(c, st) && c.numsteps > 1
    requires 0 <= k < c.numsnapshots && 0 <= s < c.numsnapshots && st.bridges[s] != Unset
    ensures !(Releases(c, pht, k) && s == k && TurnGrabs(c, pht, rd, dir, st, k, s))
    ensures Iter(c, pht, upd, rd, dir, st, k).bridges[s]
         == if Releases(c, pht, k) && s == k then Null
            else if TurnGrabs(c, pht, rd, dir, st, k, s) then Live(NumHalos(pht, s))
            else st.bridges[s]
    ensures TallyOf(Iter(c, pht, upd, rd, dir, st, k).log, dir, s).alloc
         == TallyOf(st.log, dir, s).alloc + if TurnGrabs(c, pht, rd, dir, st, k, s) then 1 else 0
    ensures TallyOf(Iter(c, pht, upd, rd, dir, st, k).log, dir, s).clean
         == TallyOf(st.log, dir, s).clean + if Releases(c, pht, k) && s == k then 1 else 0
    ensures TallyOf(Iter(c, pht, upd, rd, dir, st, k).log, dir, s).free
         == TallyOf(st.log, dir, s).free + if Releases(c, pht, k) && s == k then Held(st.bridges[s]) else 0
    ensures TallyOf(Iter(c, pht, upd, rd, dir, st, k).log, dir, s).unset == TallyOf(st.log, dir, s).unset
  {
    IterSlot(c, pht, upd, rd, dir, st, k, s);
    DeleteHeld(st.bridges[s], s);
  }

  /** One turn of the loop keeps every slot in `Kept`. */
  lemma IterKept(c: Config, pht: seq<Snapshot>, upd: set<(int, int)>, rd: Reading, dir: Dir, st: PassState, m: nat,
                 s: int)
    requires Fits(c, pht) && Shaped(c, st) && c.numsteps > 1 && Sound(rd, dir)
    requires 0 < m <= c.numsnapshots && 0 <= s < c.numsnapshots
    requires Kept(c, pht, dir, m - 1, s, st.bridges[s], TallyOf(st.log, dir, s))
    ensures Kept(c, pht, dir, m, s, Iter(c, pht, upd, rd, dir, st, Order(c, dir, m - 1)).bridges[s],
                 TallyOf(Iter(c, pht, upd, rd, dir, st, Order(c, dir, m - 1)).log, dir, s))
  {
    var k := Order(c, dir, m - 1);
    var b, t := st.bridges[s], TallyOf(st.log, dir, s);
    var rel, local, anchor := Releases(c, pht, s), Local(c, s), s == Anchor(c, dir);
    IterFields(c, pht, upd, rd, dir, st, k, s);
    if Releases(c, pht, k) && s == k {
      TurnOf(c, dir, m, s);
      KeptRelease(b, t.alloc, t.clean, t.free, t.unset, local, anchor);
    } else if TurnGrabs(c, pht, rd, dir, st, k, s) {
      AheadUnvisited(c, dir, m, s);
      KeptGrab(b, t.alloc, t.clean, t.free, t.unset, rel, anchor, NumHalos(pht, s));
    } else if s == k {
      TurnOf(c, dir, m, s);
      KeptStill(b, t.alloc, t.clean, t.free, t.unset, false, true, rel, local, anchor);
    } else {
      TurnOther(c, dir, m, s);
      KeptStill(b, t.alloc, t.clean, t.free, t.unset, Visited(c, dir, m - 1, s), Visited(c, dir, m, s), rel, local, anchor);
    }
  }

  /** The snapshot loop (lines 137-220, 265-333) keeps every slot in `Kept`. */
  lemma {:induction false} LoopKept(c: Config, pht: seq<Snapshot>, upd: set<(int, int)>, rd: Reading, dir: Dir,
                                    m: nat, s: int)
    requires Fits(c, pht) && c.numsteps > 1 && Sound(rd, dir) && m <= c.numsnapshots && 0 <= s < c.numsnapshots
    ensures Kept(c, pht, dir, m, s, Loop(c, pht, upd, rd, dir, m).bridges[s], TallyOf(Loop(c, pht, upd, rd, dir, m).log, dir, s))
  {
    if m == 0 {
      SetupKept(c, pht, rd, dir, s);
    } else {
      var prev := Loop(c, pht, upd, rd, dir, m - 1);
      assert Loop(c, pht, upd, rd, dir, m) == Iter(c, pht, upd, rd, dir, prev, Order(c, dir, m - 1));
      LoopKept(c, pht, upd, rd, dir, m - 1, s);
      IterKept(c, pht, upd, rd, dir, prev, m, s);
    }
  }

  /** The final pass and the teardown for slot `s`, field by field, under a sound reading. */
  lemma EndFields(c: Config, rd: Reading, dir: Dir, looped: PassState, s: int)
    requires Shaped(c, looped) && c.numsteps > 1 && Sound(rd, dir) && 0 <= s < c.numsnapshots
    requires looped.bridges[s] != Unset
    ensures var st := Final(c, rd, dir, looped, c.numsnapshots);
            var b, t := looped.bridges[s], TallyOf(looped.log, dir, s);
            var hit := FinalReached(c, dir, looped, c.numsnapshots, s);
            var total := TallyOf(st.log + Teardown(c, dir, st), dir, s);
            && (hit ==> !b.Null?)
            && total.alloc == t.alloc
            && total.clean == t.clean + (if hit then 1 else 0)
            && total.free == t.free + (if hit then Held(b) else 0) + (if Local(c, s) && !hit then Held(b) else 0)
            && total.unset == t.unset
  {
    var n := c.numsnapshots;
    var st := Final(c, rd, dir, looped, n);
    FinalSlot(c, rd, dir, looped, n, s);
    TeardownSlot(c, dir, st, s);
    TallyAppend(st.log, Teardown(c, dir, st), dir, s);
    DeleteHeld(looped.bridges[s], s);
    DeleteHeld(st.bridges[s], s);
  }

  /** The final pass and the teardown, given what the loop left in a slot whose turn has come. */
  lemma KeptEnd(b: Slot<nat>, alloc: int, clean: int, free: int, unset: int, released: bool, local: bool,
                anchor: bool, hit: bool)
    requires SlotKept(b, alloc, clean, free, unset, true, released, local, anchor)
    requires hit ==> !b.Null?
    ensures alloc == free + (if hit then Held(b) else 0) + (if local && !hit then Held(b) else 0) <= 1
    ensures unset == 0 && clean + (if hit then 1 else 0) <= 1
    ensures anchor ==> alloc == 1
  {
  }

  /**
   * Under the progenitor pass and the intended descendant pass, every step-bridging record is allocated at most
   * once and freed exactly as often as it is allocated, the anchor's is always allocated, nothing is deleted
   * through an unassigned pointer, and each slot is cleaned with at most once.
   */
  lemma BridgesBalanced(c: Config, pht: seq<Snapshot>, upd: set<(int, int)>, rd: Reading, dir: Dir, s: int)
    requires Fits(c, pht) && c.numsteps > 1 && Sound(rd, dir) && 0 <= s < c.numsnapshots
    ensures Count(Run(c, pht, upd, rd, dir), Alloc(dir, s)) == Count(Run(c, pht, upd, rd, dir), Free(dir, Bridges, s)) <= 1
    ensures Count(Run(c, pht, upd, rd, dir), FreeUnset(dir, Bridges, s)) == 0
    ensures Count(Run(c, pht, upd, rd, dir), CleanUsingBridge(dir, s, true))
            + Count(Run(c, pht, upd, rd, dir), CleanUsingBridge(dir, s, false)) <= 1
    ensures s == Anchor(c, dir) ==> Count(Run(c, pht, upd, rd, dir), Alloc(dir, s)) == 1
  {
    var n := c.numsnapshots;
    var looped := Loop(c, pht, upd, rd, dir, n);
    assert Pass(c, pht, upd, rd, dir) == Final(c, rd, dir, looped, n);
    LoopKept(c, pht, upd, rd, dir, n, s);
    assert Visited(c, dir, n, s);
    var b, t := looped.bridges[s], TallyOf(looped.log, dir, s);
    EndFields(c, rd, dir, looped, s);
    KeptEnd(b, t.alloc, t.clean, t.free, t.unset, Releases(c, pht, s), Local(c, s), s == Anchor(c, dir),
            FinalReached(c, dir, looped, n, s));
  }
}
