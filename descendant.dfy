/**
 * The descendant pass of the driver (main.cxx:248-355) as imperative code, under either reading of it. With
 * `AsWritten` the methods do what lines 248-355 do; with `Intended` they are the mirror image of the progenitor
 * pass, which departs from the code in five places: the initialisation loop of line 258 covers every slot,
 * slots ahead are allocated on demand as in lines 147-148, the test of line 271 is `i<EndSnap-1`, a deeper
 * step cleans the temporary list (not `pdescen[i]`, line 301), and the final pass NULLs `pdescenprogen[i]`
 * (not `pprogendescen[i]`, line 348). `Findings` states what each departure does.
 */
module Descendants {
  import opened Catalog
  import opened Membership
  import opened Ledger
  import opened Linking

  /** Lines 248-355 under reading `rd`, with `upd` the outcome of the update-mode cross matches. */
  method DescendantPass(c: Config, pht: seq<Snapshot>, upd: set<(int, int)>, rd: Reading)
      returns (pdescen: array<Slot<LinkList>>, pdescenprogen: array<Slot<nat>>, log: seq<Event>)
    requires ValidInput(c, pht)
    ensures PassState(pdescen[..], pdescenprogen[..], log) == Pass(c, pht, upd, rd, Descendant)
  {
    var n := c.numsnapshots;
    var pfofd := new u32[c.maxID];
    ZeroBuffer(pfofd);
    pdescen, pdescenprogen, log := Allocate(c, pht, rd);
    for i := 0 to n
      invariant forall id :: 0 <= id < pfofd.Length ==> pfofd[id] == 0
      invariant PassState(pdescen[..], pdescenprogen[..], log) == Loop(c, pht, upd, rd, Descendant, i)
    {
      log := Visit(c, pht, upd, rd, pfofd, pdescen, pdescenprogen, log, i);
    }
    if c.numsteps > 1 {
      log := FinalPass(c, rd, pdescen, pdescenprogen, log);
    }
  }

  /**
   * Lines 251-263: the pointer arrays, with only the first local snapshot's bridging record allocated. The
   * loop of line 258 sets the bridging slots to NULL, as written all but the last one.
   */
  method Allocate(c: Config, pht: seq<Snapshot>, rd: Reading)
      returns (pdescen: array<Slot<LinkList>>, pdescenprogen: array<Slot<nat>>, log: seq<Event>)
    requires ValidInput(c, pht)
    ensures fresh(pdescen) && fresh(pdescenprogen)
    ensures PassState(pdescen[..], pdescenprogen[..], log) == Setup(c, pht, rd, Descendant)
  {
    var n := c.numsnapshots;
    pdescen := new Slot<LinkList>[n](_ => Unset);
    if c.numsteps == 1 {
      pdescenprogen := new Slot<nat>[0];
      log := [];
    } else {
      pdescenprogen := new Slot<nat>[n](_ => Unset);
      var last := if rd == AsWritten then n - 1 else n;
      for i := 0 to last
        invariant forall k :: 0 <= k < n ==> pdescenprogen[k] == if k < i then Null else Unset
        modifies pdescenprogen
      {
        pdescenprogen[i] := Null;
      }
      assert pdescenprogen[..] == seq(n, k => if !Sound(rd, Descendant) && k == n - 1 then Unset else Null);
      pdescenprogen[c.startSnap] := Live(NumHalos(pht, c.startSnap));
      log := [Alloc(Descendant, c.startSnap)];
    }
  }

  /**
   * Lines 340-351: every remaining non-NULL slot of `[StartSnap, EndSnap-1)` is cleaned with and released. As
   * written, line 348 then NULLs `pprogendescen[i]` and the deleted pointer stays in `pdescenprogen[i]`.
   */
  method FinalPass(c: Config, rd: Reading, pdescen: array<Slot<LinkList>>, pdescenprogen: array<Slot<nat>>,
                   log0: seq<Event>) returns (log: seq<Event>)
    requires c.numsteps > 1 && Shaped(c, PassState(pdescen[..], pdescenprogen[..], log0))
    modifies pdescenprogen
    ensures PassState(pdescen[..], pdescenprogen[..], log)
         == Final(c, rd, Descendant, PassState(pdescen[..], old(pdescenprogen[..]), log0), c.numsnapshots)
  {
    ghost var looped := PassState(pdescen[..], pdescenprogen[..], log0);
    log := log0;
    for i := 0 to c.numsnapshots
      invariant PassState(pdescen[..], pdescenprogen[..], log) == Final(c, rd, Descendant, looped, i)
    {
      ghost var prev := PassState(pdescen[..], pdescenprogen[..], log);
      if c.startSnap <= i < c.endSnap - 1 && pdescenprogen[i] != Null {
        log := log + [CleanUsingBridge(Descendant, i, pdescenprogen[i].Live?)]
               + Deleted(Descendant, Bridges, i, pdescenprogen[i]);
        if rd == Intended {
          pdescenprogen[i] := Null;
        } else {
          log := log + [StrayNull(i)];
        }
      }
      assert PassState(pdescen[..], pdescenprogen[..], log) == FinalStep(c, rd, Descendant, prev, i);
    }
  }

  /**
   * One turn of the snapshot loop, lines 266-332. As written, no bridging slot is allocated on demand and the
   * test of line 271 holds for every local snapshot, so the `else` of line 315 is never taken; as intended,
   * the slots ahead are allocated as in lines 147-148 and the last local snapshot gets an empty list.
   */
  method Visit(c: Config, pht: seq<Snapshot>, upd: set<(int, int)>, rd: Reading, pfofd: array<u32>,
               pdescen: array<Slot<LinkList>>, pdescenprogen: array<Slot<nat>>, log0: seq<Event>, i: int)
      returns (log: seq<Event>)
    requires ValidInput(c, pht) && 0 <= i < c.numsnapshots
    requires pfofd.Length == c.maxID && forall id :: 0 <= id < pfofd.Length ==> pfofd[id] == 0
    requires Shaped(c, PassState(pdescen[..], pdescenprogen[..], log0))
    modifies pfofd, pdescen, pdescenprogen
    ensures forall id :: 0 <= id < pfofd.Length ==> pfofd[id] == 0
    ensures PassState(pdescen[..], pdescenprogen[..], log)
         == Iter(c, pht, upd, rd, Descendant, PassState(old(pdescen[..]), old(pdescenprogen[..]), log0), i)
  {
    log := log0;
    if !(c.startSnap <= i < c.endSnap) || NumHalos(pht, i) == 0 {
      pdescen[i] := Null;
      return;
    }
    if c.numsteps > 1 && rd == Intended {
      log := AllocAhead(c, pht, pdescen, pdescenprogen, log, i);
    }
    if if rd == AsWritten then i <= c.endSnap else i < c.endSnap - 1 {
      log := StepLoop(c, pht, upd, rd, pfofd, pdescen, pdescenprogen, log, i);
    } else {
      pdescen[i] := Live(Empty(NumHalos(pht, i)));
    }
    if c.numsteps > 1 && NumHalos(pht, i) > 0 && InWindow(c, i) {
      log := log + [CleanUsingBridge(Descendant, i, pdescenprogen[i].Live?)]
             + Deleted(Descendant, Bridges, i, pdescenprogen[i]);
      pdescenprogen[i] := Null;
    }
  }

  /**
   * The intended counterpart of lines 147-148, which the descendant pass lacks: allocate the bridging slots up
   * to `numsteps` steps ahead that are NULL and have halos.
   */
  method AllocAhead(c: Config, pht: seq<Snapshot>, pdescen: array<Slot<LinkList>>, pdescenprogen: array<Slot<nat>>,
                    log0: seq<Event>, i: int) returns (log: seq<Event>)
    requires Fits(c, pht) && c.numsteps > 1 && Local(c, i)
    requires Shaped(c, PassState(pdescen[..], pdescenprogen[..], log0))
    modifies pdescenprogen
    ensures PassState(pdescen[..], pdescenprogen[..], log)
         == Allocs(c, pht, Descendant, PassState(pdescen[..], old(pdescenprogen[..]), log0), i, c.numsteps)
  {
    ghost var st0 := PassState(pdescen[..], pdescenprogen[..], log0);
    log := log0;
    for j := 1 to c.numsteps + 1
      invariant PassState(pdescen[..], pdescenprogen[..], log) == Allocs(c, pht, Descendant, st0, i, j - 1)
    {
      if i + j < c.endSnap && pdescenprogen[i + j] == Null && NumHalos(pht, i + j) > 0 {
        pdescenprogen[i + j] := Live(NumHalos(pht, i + j));
        log := log + [Alloc(Descendant, i + j)];
      }
    }
  }

  /** Lines 272-312: the steps `1..numsteps` of snapshot `i` that reach a local snapshot. */
  method StepLoop(c: Config, pht: seq<Snapshot>, upd: set<(int, int)>, rd: Reading, pfofd: array<u32>,
                  pdescen: array<Slot<LinkList>>, pdescenprogen: array<Slot<nat>>, log0: seq<Event>, i: int)
      returns (log: seq<Event>)
    requires ValidInput(c, pht) && Local(c, i)
    requires pfofd.Length == c.maxID && forall id :: 0 <= id < pfofd.Length ==> pfofd[id] == 0
    requires Shaped(c, PassState(pdescen[..], pdescenprogen[..], log0))
    modifies pfofd, pdescen
    ensures forall id :: 0 <= id < pfofd.Length ==> pfofd[id] == 0
    ensures PassState(pdescen[..], pdescenprogen[..], log)
         == Steps(c, pht, upd, rd, Descendant, PassState(old(pdescen[..]), pdescenprogen[..], log0), i, c.numsteps)
  {
    ghost var st1 := PassState(pdescen[..], pdescenprogen[..], log0);
    log := log0;
    for istep := 1 to c.numsteps + 1
      invariant forall id :: 0 <= id < pfofd.Length ==> pfofd[id] == 0
      invariant PassState(pdescen[..], pdescenprogen[..], log) == Steps(c, pht, upd, rd, Descendant, st1, i, istep - 1)
    {
      if i + istep < c.endSnap {
        log := LinkStep(c, pht, upd, rd, pfofd, pdescen, pdescenprogen, log, i, istep);
      }
    }
  }

  /**
   * One step of lines 275-310: build the index of `i+step` into the zeroed `pfofd`, make the calls with it
   * (cleaning only for a graph), and reset it to zero. A deeper step cleans `pdescen[i]` as written (line 301),
   * the temporary list as intended.
   */
  method LinkStep(c: Config, pht: seq<Snapshot>, upd: set<(int, int)>, rd: Reading, pfofd: array<u32>,
                  pdescen: array<Slot<LinkList>>, pdescenprogen: array<Slot<nat>>, log0: seq<Event>, i: int, step: int)
      returns (log: seq<Event>)
    requires ValidInput(c, pht)
    requires pfofd.Length == c.maxID && forall id :: 0 <= id < pfofd.Length ==> pfofd[id] == 0
    requires Shaped(c, PassState(pdescen[..], pdescenprogen[..], log0))
    requires c.startSnap <= i && 1 <= step && i + step < c.endSnap
    modifies pfofd, pdescen
    ensures forall id :: 0 <= id < pfofd.Length ==> pfofd[id] == 0
    ensures PassState(pdescen[..], pdescenprogen[..], log)
         == Link(c, pht, upd, rd, Descendant, PassState(old(pdescen[..]), pdescenprogen[..], log0), i, step)
  {
    var o := i + step;
    BuildIndex(pfofd, pht[o], c);
    var live := o < pdescenprogen.Length && pdescenprogen[o].Live?;
    log := log0 + [CrossMatch(Descendant, i, o, step, pfofd[..])];
    if step == 1 {
      pdescen[i] := Live(Linked(NumHalos(pht, i), [1]));
      if c.catalog == Graph {
        log := log + [CleanCrossMatch(Descendant, i, o, ReferenceList)];
      }
      if c.numsteps > 1 {
        log := log + [BuildBridge(Descendant, i, o, 1, live)];
      }
    } else if (i, step) in upd {
      if c.catalog == Graph {
        log := log + [CleanCrossMatch(Descendant, i, o, if rd == AsWritten then ReferenceList else CandidateList)];
      }
      log := log + [UpdateRef(Descendant, i, step, false)];
      pdescen[i] := Merge(pdescen[i], step);
      log := log + [BuildBridge(Descendant, i, o, step, live)];
    }
    ClearIndex(pfofd, pht[o], c);
  }
}
