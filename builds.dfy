/**
 * The bridge-building calls (`BuildProgenitorBasedDescendantList`, lines 178 and 189; mirrored
 * `BuildDescendantBasedProgenitorList`, lines 295 and 303) write into the bridging record of the snapshot
 * compared with. Whether that record exists when the call is made is decided by the allocation policy: the
 * progenitor pass allocates it on demand (lines 147-148), the descendant pass as written never does.
 */
module Builds {
  import opened Catalog
  import opened Membership
  import opened Ledger
  import opened Linking
  import opened Schedule
  import opened Lifetime

  /** The pass allocates records on demand and snapshot `o` has halos, so a call building into slot `o` finds its record. */
  predicate TargetHeld(pht: seq<Snapshot>, rd: Reading, dir: Dir, o: int)
  {
    LazyAlloc(rd, dir) && 0 <= o < |pht| && NumHalos(pht, o) > 0
  }

  /** Every bridge-building call of `log` finds a record in its target slot exactly when `TargetHeld` says so. */
  predicate BuildsHeld(pht: seq<Snapshot>, rd: Reading, dir: Dir, log: seq<Event>)
  {
    forall k :: 0 <= k < |log| && log[k].BuildBridge? ==> log[k].targetLive == TargetHeld(pht, rd, dir, log[k].other)
  }

  lemma BuildsConcat(pht: seq<Snapshot>, rd: Reading, dir: Dir, a: seq<Event>, b: seq<Event>)
    requires BuildsHeld(pht, rd, dir, a) && BuildsHeld(pht, rd, dir, b)
    ensures BuildsHeld(pht, rd, dir, a + b)
  {
    forall k | 0 <= k < |a + b| && (a + b)[k].BuildBridge?
      ensures (a + b)[k].targetLive == TargetHeld(pht, rd, dir, (a + b)[k].other)
    {
      if k < |a| {
        assert (a + b)[k] == a[k];
      } else {
        assert (a + b)[k] == b[k - |a|];
      }
    }
  }

  /** What a bridging slot may hold: a record only at the anchor or where `TargetHeld`, and, soundly, never an unassigned pointer. */
  predicate SlotFits(c: Config, pht: seq<Snapshot>, rd: Reading, dir: Dir, s: int, b: Slot<nat>)
  {
    && (b.Live? ==> s == Anchor(c, dir) || TargetHeld(pht, rd, dir, s))
    && (Sound(rd, dir) ==> b != Unset)
  }

  /** The snapshot loop keeps every bridging slot in `SlotFits`. */
  lemma {:induction false} LoopFits(c: Config, pht: seq<Snapshot>, upd: set<(int, int)>, rd: Reading, dir: Dir,
                                    m: nat, s: int)
    requires Fits(c, pht) && c.numsteps > 1 && m <= c.numsnapshots && 0 <= s < c.numsnapshots
    ensures SlotFits(c, pht, rd, dir, s, Loop(c, pht, upd, rd, dir, m).bridges[s])
  {
    if m == 0 {
      SetupSlot(c, pht, rd, dir, s);
    } else {
      var k := Order(c, dir, m - 1);
      var prev := Loop(c, pht, upd, rd, dir, m - 1);
      assert Loop(c, pht, upd, rd, dir, m) == Iter(c, pht, upd, rd, dir, prev, k);
      LoopFits(c, pht, upd, rd, dir, m - 1, s);
      if !Local(c, k) || NumHalos(pht, k) == 0 {
        IterSkipSlot(c, pht, upd, rd, dir, prev, k);
      } else {
        IterTurnBridge(c, pht, upd, rd, dir, prev, k, s);
      }
    }
  }

  /** The bridging array seen by the steps of snapshot `i` holds a record in each local target exactly when `TargetHeld`. */
  predicate SeesTargets(c: Config, pht: seq<Snapshot>, rd: Reading, dir: Dir, bridges: seq<Slot<nat>>, i: int)
  {
    forall u :: 1 <= u <= c.numsteps && Local(c, Toward(dir, i, u)) ==>
      (0 <= Toward(dir, i, u) < |bridges| && bridges[Toward(dir, i, u)].Live?) == TargetHeld(pht, rd, dir, Toward(dir, i, u))
  }

  /** After the on-demand allocation of a turn, the turn's targets hold records exactly where `TargetHeld`. */
  lemma TurnSeesTargets(c: Config, pht: seq<Snapshot>, rd: Reading, dir: Dir, st: PassState, k: int)
    requires Fits(c, pht) && Shaped(c, st) && c.numsteps > 1 && Local(c, k)
    requires forall s :: 0 <= s < c.numsnapshots ==> SlotFits(c, pht, rd, dir, s, st.bridges[s])
    ensures SeesTargets(c, pht, rd, dir, (if LazyAlloc(rd, dir) then Allocs(c, pht, dir, st, k, c.numsteps) else st).bridges, k)
  {
    var st1 := if LazyAlloc(rd, dir) then Allocs(c, pht, dir, st, k, c.numsteps) else st;
    forall u | 1 <= u <= c.numsteps && Local(c, Toward(dir, k, u))
      ensures (0 <= Toward(dir, k, u) < |st1.bridges| && st1.bridges[Toward(dir, k, u)].Live?)
           == TargetHeld(pht, rd, dir, Toward(dir, k, u))
    {
      var o := Toward(dir, k, u);
      assert o != Anchor(c, dir) && StepOf(dir, k, o) == u;
      assert SlotFits(c, pht, rd, dir, o, st.bridges[o]);
      if LazyAlloc(rd, dir) {
        AllocsSlot(c, pht, dir, st, k, c.numsteps, o);
      }
    }
  }

  /** The calls of steps `1..t` keep `BuildsHeld` when the array they see `SeesTargets`. */
  lemma {:induction false} RecordBuilds(c: Config, pht: seq<Snapshot>, upd: set<(int, int)>, rd: Reading, dir: Dir,
                                        bridges: seq<Slot<nat>>, log: seq<Event>, i: int, t: nat)
    requires Fits(c, pht) && t <= c.numsteps && SeesTargets(c, pht, rd, dir, bridges, i)
    requires BuildsHeld(pht, rd, dir, log)
    ensures BuildsHeld(pht, rd, dir, StepsRecord(c, pht, upd, rd, dir, bridges, log, i, t))
  {
    if t > 0 {
      var prev := StepsRecord(c, pht, upd, rd, dir, bridges, log, i, t - 1);
      RecordBuilds(c, pht, upd, rd, dir, bridges, log, i, t - 1);
      if Local(c, Toward(dir, i, t)) {
        var ev := StepEvents(c, pht, upd, rd, dir, i, t);
        forall k | 0 <= k < |ev| ensures !ev[k].BuildBridge? {
          assert IsStepEvent(ev[k]);
        }
        BuildsConcat(pht, rd, dir, prev, ev);
        BuildsConcat(pht, rd, dir, prev + ev, BridgeEvents(c, upd, dir, bridges, i, t));
      }
    }
  }

  /** On-demand allocation only adds allocations. */
  lemma {:induction false} AllocsBuilds(c: Config, pht: seq<Snapshot>, rd: Reading, dir: Dir, st: PassState, i: int, t: nat)
    requires Fits(c, pht) && Shaped(c, st) && c.numsteps > 1 && BuildsHeld(pht, rd, dir, st.log)
    ensures BuildsHeld(pht, rd, dir, Allocs(c, pht, dir, st, i, t).log)
  {
    if t > 0 {
      var prev := Allocs(c, pht, dir, st, i, t - 1);
      AllocsBuilds(c, pht, rd, dir, st, i, t - 1);
      BuildsConcat(pht, rd, dir, prev.log, [Alloc(dir, Toward(dir, i, t))]);
    }
  }

  /** Cleaning with a slot and deleting it adds no bridge-building call. */
  lemma ReleaseBuilds<T>(pht: seq<Snapshot>, rd: Reading, dir: Dir, log: seq<Event>, i: int, p: Slot<T>)
    requires BuildsHeld(pht, rd, dir, log)
    ensures BuildsHeld(pht, rd, dir, log + [CleanUsingBridge(dir, i, p.Live?)] + Deleted(dir, Bridges, i, p))
    ensures BuildsHeld(pht, rd, dir, log + [CleanUsingBridge(dir, i, p.Live?)] + Deleted(dir, Bridges, i, p) + [StrayNull(i)])
  {
    var clean := [CleanUsingBridge(dir, i, p.Live?)];
    var d := Deleted(dir, Bridges, i, p);
    BuildsConcat(pht, rd, dir, log, clean);
    BuildsConcat(pht, rd, dir, log + clean, d);
    BuildsConcat(pht, rd, dir, log + clean + d, [StrayNull(i)]);
  }

  /** One turn of the snapshot loop keeps `BuildsHeld`. */
  lemma IterBuilds(c: Config, pht: seq<Snapshot>, upd: set<(int, int)>, rd: Reading, dir: Dir, st: PassState, k: int)
    requires Fits(c, pht) && Shaped(c, st) && c.numsteps > 1 && 0 <= k < c.numsnapshots
    requires forall s :: 0 <= s < c.numsnapshots ==> SlotFits(c, pht, rd, dir, s, st.bridges[s])
    requires BuildsHeld(pht, rd, dir, st.log)
    ensures BuildsHeld(pht, rd, dir, Iter(c, pht, upd, rd, dir, st, k).log)
  {
    if Local(c, k) && NumHalos(pht, k) > 0 {
      var st1 := if LazyAlloc(rd, dir) then Allocs(c, pht, dir, st, k, c.numsteps) else st;
      if LazyAlloc(rd, dir) {
        AllocsBuilds(c, pht, rd, dir, st, k, c.numsteps);
      }
      var st2 := if Frontier(c, rd, dir, k) then st1.(lists := st1.lists[k := Live(Empty(NumHalos(pht, k)))])
                 else Steps(c, pht, upd, rd, dir, st1, k, c.numsteps);
      if !Frontier(c, rd, dir, k) {
        TurnSeesTargets(c, pht, rd, dir, st, k);
        StepsLog(c, pht, upd, rd, dir, st1, k, c.numsteps);
        RecordBuilds(c, pht, upd, rd, dir, st1.bridges, st1.log, k, c.numsteps);
      }
      if Releases(c, pht, k) {
        ReleaseBuilds(pht, rd, dir, st2.log, k, st2.bridges[k]);
      }
      assert Iter(c, pht, upd, rd, dir, st, k) == Release(c, pht, dir, st2, k);
    }
  }

  /** The snapshot loop keeps `BuildsHeld`. */
  lemma {:induction false} LoopBuilds(c: Config, pht: seq<Snapshot>, upd: set<(int, int)>, rd: Reading, dir: Dir, m: nat)
    requires Fits(c, pht) && c.numsteps > 1 && m <= c.numsnapshots
    ensures BuildsHeld(pht, rd, dir, Loop(c, pht, upd, rd, dir, m).log)
  {
    if m > 0 {
      var prev := Loop(c, pht, upd, rd, dir, m - 1);
      LoopBuilds(c, pht, upd, rd, dir, m - 1);
      forall s | 0 <= s < c.numsnapshots ensures SlotFits(c, pht, rd, dir, s, prev.bridges[s]) {
        LoopFits(c, pht, upd, rd, dir, m - 1, s);
      }
      IterBuilds(c, pht, upd, rd, dir, prev, Order(c, dir, m - 1));
    }
  }

  /** The final pass keeps `BuildsHeld`. */
  lemma {:induction false} FinalBuilds(c: Config, rd: Reading, dir: Dir, pht: seq<Snapshot>, st: PassState, m: nat)
    requires Shaped(c, st) && c.numsteps > 1 && m <= c.numsnapshots && BuildsHeld(pht, rd, dir, st.log)
    ensures BuildsHeld(pht, rd, dir, Final(c, rd, dir, st, m).log)
  {
    if m > 0 {
      var prev := Final(c, rd, dir, st, m - 1);
      var i := Order(c, dir, m - 1);
      FinalBuilds(c, rd, dir, pht, st, m - 1);
      if c.startSnap <= i < c.endSnap - 1 && !prev.bridges[i].Null? {
        ReleaseBuilds(pht, rd, dir, prev.log, i, prev.bridges[i]);
      }
    }
  }

  /**
   * Over a whole pass, a bridge-building call finds a record in the target slot exactly when the pass
   * allocates records on demand and the target snapshot has halos.
   */
  lemma PassBuilds(c: Config, pht: seq<Snapshot>, upd: set<(int, int)>, rd: Reading, dir: Dir)
    requires Fits(c, pht) && c.numsteps > 1
    ensures BuildsHeld(pht, rd, dir, Pass(c, pht, upd, rd, dir).log)
  {
    LoopBuilds(c, pht, upd, rd, dir, c.numsnapshots);
    FinalBuilds(c, rd, dir, pht, Loop(c, pht, upd, rd, dir, c.numsnapshots), c.numsnapshots);
  }

  /**
   * Each bridge-building call the schedule calls for is made once over a pass, and it finds a record in its
   * target slot exactly when `TargetHeld`: no call is missed, repeated, or made with the other outcome.
   */
  lemma BuildOnce(c: Config, pht: seq<Snapshot>, upd: set<(int, int)>, rd: Reading, dir: Dir,
                  d: Dir, i: int, o: int, s: int, live: bool)
    requires Fits(c, pht)
    ensures Count(Pass(c, pht, upd, rd, dir).log, BuildBridge(d, i, o, s, live))
         == if && d == dir && Scheduled(c, pht, rd, dir, i, s) && o == Toward(dir, i, s) && BuildsAt(c, upd, i, s)
               && live == TargetHeld(pht, rd, dir, o)
            then 1 else 0
  {
    ScheduleBuild(c, pht, upd, rd, dir, d, i, o, s);
    if c.numsteps > 1 {
      var log := Pass(c, pht, upd, rd, dir).log;
      var other := BuildBridge(d, i, o, s, !TargetHeld(pht, rd, dir, o));
      PassBuilds(c, pht, upd, rd, dir);
      forall k | 0 <= k < |log| ensures log[k] != other {
      }
      CountOutside(log, other);
    }
  }
}
