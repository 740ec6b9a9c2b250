/**
 * The progenitor pass of the driver (main.cxx:114-244) as the imperative code it is: the membership buffer
 * `pfofp` is allocated and zeroed once, snapshots are visited from the last to the first, and the pointer
 * arrays `pprogen` and `pprogendescen` are assigned slot by slot. Each method is proved to produce the state
 * the corresponding function of `Linking` describes.
 */
module Progenitors {
  import opened Catalog
  import opened Membership
  import opened Ledger
  import opened Linking

  /** Lines 114-244, with `upd` the outcome of the update-mode cross matches. */
  method ProgenitorPass(c: Config, pht: seq<Snapshot>, upd: set<(int, int)>)
      returns (pprogen: array<Slot<LinkList>>, pprogendescen: array<Slot<nat>>, log: seq<Event>)
    requires ValidInput(c, pht)
    ensures PassState(pprogen[..], pprogendescen[..], log) == Pass(c, pht, upd, AsWritten, Progenitor)
  {
    var n := c.numsnapshots;
    var pfofp := new u32[c.maxID];
    ZeroBuffer(pfofp);
    pprogen, pprogendescen, log := Allocate(c, pht);
    for i := n downto 0
      invariant forall id :: 0 <= id < pfofp.Length ==> pfofp[id] == 0
      invariant PassState(pprogen[..], pprogendescen[..], log) == Loop(c, pht, upd, AsWritten, Progenitor, n - i)
    {
      ghost var prev := PassState(pprogen[..], pprogendescen[..], log);
      log := Visit(c, pht, upd, pfofp, pprogen, pprogendescen, log, i);
      assert Loop(c, pht, upd, AsWritten, Progenitor, n - i) == Iter(c, pht, upd, AsWritten, Progenitor, prev, i);
    }
    ghost var looped := Loop(c, pht, upd, AsWritten, Progenitor, n);
    assert PassState(pprogen[..], pprogendescen[..], log) == looped;
    if c.numsteps > 1 {
      log := FinalPass(c, pprogen, pprogendescen, log);
      assert PassState(pprogen[..], pprogendescen[..], log) == Final(c, AsWritten, Progenitor, looped, n);
    }
  }

  /** Lines 120-132: the pointer arrays, with only the last local snapshot's bridging record allocated. */
  method Allocate(c: Config, pht: seq<Snapshot>)
      returns (pprogen: array<Slot<LinkList>>, pprogendescen: array<Slot<nat>>, log: seq<Event>)
    requires ValidInput(c, pht)
    ensures fresh(pprogen) && fresh(pprogendescen)
    ensures PassState(pprogen[..], pprogendescen[..], log) == Setup(c, pht, AsWritten, Progenitor)
  {
    var n := c.numsnapshots;
    pprogen := new Slot<LinkList>[n](_ => Unset);
    if c.numsteps == 1 {
      pprogendescen := new Slot<nat>[0];
      log := [];
    } else {
      pprogendescen := new Slot<nat>[n](_ => Null);
      pprogendescen[c.endSnap - 1] := Live(NumHalos(pht, c.endSnap - 1));
      log := [Alloc(Progenitor, c.endSnap - 1)];
    }
  }

  /** Lines 230-241: every remaining non-NULL slot of `[StartSnap, EndSnap-1)` is cleaned with and released. */
  method FinalPass(c: Config, pprogen: array<Slot<LinkList>>, pprogendescen: array<Slot<nat>>, log0: seq<Event>)
      returns (log: seq<Event>)
    requires c.numsteps > 1 && Shaped(c, PassState(pprogen[..], pprogendescen[..], log0))
    modifies pprogendescen
    ensures PassState(pprogen[..], pprogendescen[..], log)
         == Final(c, AsWritten, Progenitor, PassState(pprogen[..], old(pprogendescen[..]), log0), c.numsnapshots)
  {
    var n := c.numsnapshots;
    ghost var looped := PassState(pprogen[..], pprogendescen[..], log0);
    log := log0;
    var i: int := n - 1;
    while i >= 0
      invariant -1 <= i < n
      invariant PassState(pprogen[..], pprogendescen[..], log) == Final(c, AsWritten, Progenitor, looped, n - 1 - i)
    {
      ghost var prev := PassState(pprogen[..], pprogendescen[..], log);
      assert Order(c, Progenitor, n - 1 - i) == i;
      if c.startSnap <= i < c.endSnap - 1 && pprogendescen[i] != Null {
        log := log + [CleanUsingBridge(Progenitor, i, pprogendescen[i].Live?)]
               + Deleted(Progenitor, Bridges, i, pprogendescen[i]);
        pprogendescen[i] := Null;
      }
      assert PassState(pprogen[..], pprogendescen[..], log) == FinalStep(c, AsWritten, Progenitor, prev, i);
      i := i - 1;
    }
  }

  /** One turn of the snapshot loop, lines 139-219. */
  method Visit(c: Config, pht: seq<Snapshot>, upd: set<(int, int)>, pfofp: array<u32>,
               pprogen: array<Slot<LinkList>>, pprogendescen: array<Slot<nat>>, log0: seq<Event>, i: int)
      returns (log: seq<Event>)
    requires ValidInput(c, pht) && 0 <= i < c.numsnapshots
    requires pfofp.Length == c.maxID && forall id :: 0 <= id < pfofp.Length ==> pfofp[id] == 0
    requires Shaped(c, PassState(pprogen[..], pprogendescen[..], log0))
    modifies pfofp, pprogen, pprogendescen
    ensures forall id :: 0 <= id < pfofp.Length ==> pfofp[id] == 0
    ensures PassState(pprogen[..], pprogendescen[..], log)
         == Iter(c, pht, upd, AsWritten, Progenitor, PassState(old(pprogen[..]), old(pprogendescen[..]), log0), i)
  {
    log := log0;
    if !(c.startSnap <= i < c.endSnap) || NumHalos(pht, i) == 0 {
      pprogen[i] := Null;
      return;
    }
    if c.numsteps > 1 {
      log := AllocAhead(c, pht, pprogen, pprogendescen, log, i);
    }
    if i > c.startSnap {
      log := StepLoop(c, pht, upd, pfofp, pprogen, pprogendescen, log, i);
    } else {
      pprogen[i] := Live(Empty(NumHalos(pht, i)));
    }
    if c.numsteps > 1 && NumHalos(pht, i) > 0 && InWindow(c, i) {
      log := log + [CleanUsingBridge(Progenitor, i, pprogendescen[i].Live?)]
             + Deleted(Progenitor, Bridges, i, pprogendescen[i]);
      pprogendescen[i] := Null;
    }
  }

  /** Lines 147-148: allocate the bridging slots up to `numsteps` steps ahead that are NULL and have halos. */
  method AllocAhead(c: Config, pht: seq<Snapshot>, pprogen: array<Slot<LinkList>>, pprogendescen: array<Slot<nat>>,
                    log0: seq<Event>, i: int) returns (log: seq<Event>)
    requires Fits(c, pht) && c.numsteps > 1 && Local(c, i)
    requires Shaped(c, PassState(pprogen[..], pprogendescen[..], log0))
    modifies pprogendescen
    ensures PassState(pprogen[..], pprogendescen[..], log)
         == Allocs(c, pht, Progenitor, PassState(pprogen[..], old(pprogendescen[..]), log0), i, c.numsteps)
  {
    ghost var st0 := PassState(pprogen[..], pprogendescen[..], log0);
    log := log0;
    for j := 1 to c.numsteps + 1
      invariant PassState(pprogen[..], pprogendescen[..], log) == Allocs(c, pht, Progenitor, st0, i, j - 1)
    {
      if i - j >= c.startSnap && pprogendescen[i - j] == Null && NumHalos(pht, i - j) > 0 {
        pprogendescen[i - j] := Live(NumHalos(pht, i - j));
        log := log + [Alloc(Progenitor, i - j)];
      }
    }
  }

  /** Lines 153-198: the steps `1..numsteps` of snapshot `i` that reach a local snapshot. */
  method StepLoop(c: Config, pht: seq<Snapshot>, upd: set<(int, int)>, pfofp: array<u32>,
                  pprogen: array<Slot<LinkList>>, pprogendescen: array<Slot<nat>>, log0: seq<Event>, i: int)
      returns (log: seq<Event>)
    requires ValidInput(c, pht) && Local(c, i)
    requires pfofp.Length == c.maxID && forall id :: 0 <= id < pfofp.Length ==> pfofp[id] == 0
    requires Shaped(c, PassState(pprogen[..], pprogendescen[..], log0))
    modifies pfofp, pprogen
    ensures forall id :: 0 <= id < pfofp.Length ==> pfofp[id] == 0
    ensures PassState(pprogen[..], pprogendescen[..], log)
         == Steps(c, pht, upd, AsWritten, Progenitor, PassState(old(pprogen[..]), pprogendescen[..], log0), i, c.numsteps)
  {
    ghost var st1 := PassState(pprogen[..], pprogendescen[..], log0);
    log := log0;
    for istep := 1 to c.numsteps + 1
      invariant forall id :: 0 <= id < pfofp.Length ==> pfofp[id] == 0
      invariant PassState(pprogen[..], pprogendescen[..], log) == Steps(c, pht, upd, AsWritten, Progenitor, st1, i, istep - 1)
    {
      if i - istep >= c.startSnap {
        log := LinkStep(c, pht, upd, pfofp, pprogen, pprogendescen, log, i, istep);
      }
    }
  }

  /**
   * One step of lines 156-196: build the index of `i-step` into the zeroed `pfofp`, make the calls with it, and
   * reset it to zero.
   */
  method LinkStep(c: Config, pht: seq<Snapshot>, upd: set<(int, int)>, pfofp: array<u32>,
                  pprogen: array<Slot<LinkList>>, pprogendescen: array<Slot<nat>>, log0: seq<Event>, i: int, step: int)
      returns (log: seq<Event>)
    requires ValidInput(c, pht)
    requires pfofp.Length == c.maxID && forall id :: 0 <= id < pfofp.Length ==> pfofp[id] == 0
    requires Shaped(c, PassState(pprogen[..], pprogendescen[..], log0))
    requires c.startSnap <= i < c.endSnap && 1 <= step && i - step >= c.startSnap
    modifies pfofp, pprogen
    ensures forall id :: 0 <= id < pfofp.Length ==> pfofp[id] == 0
    ensures PassState(pprogen[..], pprogendescen[..], log)
         == Link(c, pht, upd, AsWritten, Progenitor, PassState(old(pprogen[..]), pprogendescen[..], log0), i, step)
  {
    var o := i - step;
    BuildIndex(pfofp, pht[o], c);
    var live := o < pprogendescen.Length && pprogendescen[o].Live?;
    log := log0 + [CrossMatch(Progenitor, i, o, step, pfofp[..])];
    if step == 1 {
      pprogen[i] := Live(Linked(NumHalos(pht, i), [1]));
      log := log + [CleanCrossMatch(Progenitor, i, o, ReferenceList)];
      if c.numsteps > 1 {
        log := log + [BuildBridge(Progenitor, i, o, 1, live)];
      }
    } else if (i, step) in upd {
      log := log + [CleanCrossMatch(Progenitor, i, o, CandidateList), UpdateRef(Progenitor, i, step, true)];
      pprogen[i] := Merge(pprogen[i], step);
      log := log + [BuildBridge(Progenitor, i, o, step, live)];
    }
    ClearIndex(pfofp, pht[o], c);
  }
}
