/**
 * The two linking passes of the driver (main.cxx:114-244 for progenitors, 248-355 for descendants) and the
 * release of what they leave behind (main.cxx:383-415), given stage by stage as functions on a `PassState`.
 *
 * Both passes run the same schedule in opposite directions: the progenitor pass visits snapshots from the last
 * to the first and compares snapshot `i` with `i-1 .. i-numsteps`, the descendant pass visits them from the
 * first to the last and compares `i` with `i+1 .. i+numsteps`. The descendant code differs from its mirror
 * image in five places; `Reading` selects the code as written or its evident intent there.
 */
module Linking {
  import opened Catalog
  import opened Membership
  import opened Ledger

  /** The descendant pass as the source has it, or mirrored exactly from the progenitor pass. */
  datatype Reading = AsWritten | Intended

  /** The readings whose bookkeeping is the progenitor pass's: the progenitor pass itself, and intent. */
  predicate Sound(rd: Reading, dir: Dir)
  {
    dir == Progenitor || rd == Intended
  }

  /** The snapshot `step` steps away from `i` in the pass's direction. */
  function Toward(dir: Dir, i: int, step: int): int
  {
    if dir == Progenitor then i - step else i + step
  }

  /** How many steps apart `i` and `o` lie in the pass's direction. */
  function StepOf(dir: Dir, i: int, o: int): int
  {
    if dir == Progenitor then i - o else o - i
  }

  /** Snapshot `o` is loaded by this process: the range tests of lines 139, 155 and 266, 273. */
  predicate Local(c: Config, o: int)
  {
    c.startSnap <= o < c.endSnap
  }

  /** The bridging slot allocated at set-up: `EndSnap-1` (line 131) or `StartSnap` (line 262). */
  function Anchor(c: Config, dir: Dir): int
  {
    if dir == Progenitor then c.endSnap - 1 else c.startSnap
  }

  /**
   * The snapshot that has nothing to compare with and gets an empty list: `StartSnap` (line 201). As written,
   * the descendant test `i<=EndSnap` (line 271) always holds there, so its `else` (line 315) never runs.
   */
  predicate Frontier(c: Config, rd: Reading, dir: Dir, i: int)
  {
    if dir == Progenitor then i == c.startSnap else rd == Intended && i == c.endSnap - 1
  }

  /** Bridging slots are allocated on demand (lines 147-148); as written the descendant pass never does. */
  predicate LazyAlloc(rd: Reading, dir: Dir)
  {
    Sound(rd, dir)
  }

  /** The progenitor pass always cleans the cross match (lines 176, 185); the descendant pass only for a graph. */
  predicate Cleans(c: Config, dir: Dir)
  {
    dir == Progenitor || c.catalog == Graph
  }

  /** The list a deeper step cleans: the temporary list (line 185), or as written `pdescen[i]` (line 301). */
  function DeepClean(rd: Reading, dir: Dir): Held
  {
    if dir == Descendant && rd == AsWritten then ReferenceList else CandidateList
  }

  /** The lists slot array has one slot per snapshot; the bridging array has none unless `numsteps > 1`. */
  predicate Shaped(c: Config, st: PassState)
  {
    && |st.lists| == c.numsnapshots
    && |st.bridges| == (if c.numsteps > 1 then c.numsnapshots else 0)
  }

  /**
   * Lines 116-132 and 251-263: an unassigned list array and, when several steps are used, a bridging array
   * that is NULL everywhere except at the anchor, whose record is allocated unconditionally. As written, the
   * descendant initialisation loop stops before the last slot (line 258).
   */
  function Setup(c: Config, pht: seq<Snapshot>, rd: Reading, dir: Dir): (r: PassState)
    requires Fits(c, pht)
    ensures Shaped(c, r)
  {
    var n := c.numsnapshots;
    var lists := seq(n, _ => Unset);
    if c.numsteps == 1 then PassState(lists, [], [])
    else
      var cleared := seq(n, s => if !Sound(rd, dir) && s == n - 1 then Unset else Null);
      PassState(lists, cleared[Anchor(c, dir) := Live(NumHalos(pht, Anchor(c, dir)))], [Alloc(dir, Anchor(c, dir))])
  }

  /** Line 148 for one slot `s`: allocate it if it is local, still NULL and its snapshot has halos. */
  function AllocStep(c: Config, pht: seq<Snapshot>, dir: Dir, st: PassState, s: int): (r: PassState)
    requires Fits(c, pht) && Shaped(c, st) && c.numsteps > 1
    ensures Shaped(c, r) && r.lists == st.lists
  {
    if Local(c, s) && st.bridges[s] == Null && NumHalos(pht, s) > 0 then
      st.(bridges := st.bridges[s := Live(NumHalos(pht, s))], log := st.log + [Alloc(dir, s)])
    else st
  }

  /** Lines 147-148 for the slots `1..t` steps away from `i`. */
  function Allocs(c: Config, pht: seq<Snapshot>, dir: Dir, st: PassState, i: int, t: nat): (r: PassState)
    requires Fits(c, pht) && Shaped(c, st) && c.numsteps > 1
    ensures Shaped(c, r) && r.lists == st.lists
  {
    if t == 0 then st else AllocStep(c, pht, dir, Allocs(c, pht, dir, st, i, t - 1), Toward(dir, i, t))
  }

  /**
   * Lines 157-196 (progenitors) and 275-310 (descendants) for one step: the cross match of snapshot `i` with
   * `o`, made with the membership index of `o`. Step 1 creates the list of `i`; a deeper step merges into it
   * only when the update-mode match reported new candidates, `(i, step) in upd` standing for `ilistupdated > 0`.
   */
  function Link(c: Config, pht: seq<Snapshot>, upd: set<(int, int)>, rd: Reading, dir: Dir, st: PassState,
                i: int, step: int): (r: PassState)
    requires Fits(c, pht) && Shaped(c, st)
    requires Local(c, i) && Local(c, Toward(dir, i, step)) && 1 <= step
    ensures Shaped(c, r) && r.bridges == st.bridges
  {
    var o := Toward(dir, i, step);
    var live := o < |st.bridges| && st.bridges[o].Live?;
    var cross := [CrossMatch(dir, i, o, step, Index(pht[o], c))];
    if step == 1 then
      st.(lists := st.lists[i := Live(Linked(NumHalos(pht, i), [1]))],
          log := st.log + cross
                 + (if Cleans(c, dir) then [CleanCrossMatch(dir, i, o, ReferenceList)] else [])
                 + (if c.numsteps > 1 then [BuildBridge(dir, i, o, 1, live)] else []))
    else if (i, step) in upd then
      st.(lists := st.lists[i := Merge(st.lists[i], step)],
          log := st.log + cross
                 + (if Cleans(c, dir) then [CleanCrossMatch(dir, i, o, DeepClean(rd, dir))] else [])
                 + [UpdateRef(dir, i, step, dir == Progenitor), BuildBridge(dir, i, o, step, live)])
    else
      st.(log := st.log + cross)
  }

  /** Lines 153-198 and 272-312 for steps `1..t`: only steps reaching a local snapshot are taken. */
  function Steps(c: Config, pht: seq<Snapshot>, upd: set<(int, int)>, rd: Reading, dir: Dir, st: PassState,
                 i: int, t: nat): (r: PassState)
    requires Fits(c, pht) && Shaped(c, st) && Local(c, i)
    ensures Shaped(c, r) && r.bridges == st.bridges
  {
    if t == 0 then st
    else
      var prev := Steps(c, pht, upd, rd, dir, st, i, t - 1);
      if Local(c, Toward(dir, i, t)) then Link(c, pht, upd, rd, dir, prev, i, t) else prev
  }

  /** The sliding window of lines 211 and 324: far enough from both ends of the local range. */
  predicate InWindow(c: Config, i: int)
  {
    c.startSnap + 2 * c.numsteps < i < c.endSnap - 2 * c.numsteps
  }

  /** Lines 211-216 and 324-329: inside the window, clean with slot `i`, delete it and set it to NULL. */
  function Release(c: Config, pht: seq<Snapshot>, dir: Dir, st: PassState, i: int): (r: PassState)
    requires Fits(c, pht) && Shaped(c, st) && 0 <= i < c.numsnapshots
    ensures Shaped(c, r) && r.lists == st.lists
  {
    if c.numsteps > 1 && NumHalos(pht, i) > 0 && InWindow(c, i) then
      st.(bridges := st.bridges[i := Null],
          log := st.log + [CleanUsingBridge(dir, i, st.bridges[i].Live?)] + Deleted(dir, Bridges, i, st.bridges[i]))
    else st
  }

  /** Lines 139-219 and 266-332: one turn of the snapshot loop. */
  function Iter(c: Config, pht: seq<Snapshot>, upd: set<(int, int)>, rd: Reading, dir: Dir, st: PassState,
                i: int): (r: PassState)
    requires Fits(c, pht) && Shaped(c, st) && 0 <= i < c.numsnapshots
    ensures Shaped(c, r)
  {
    if !Local(c, i) || NumHalos(pht, i) == 0 then st.(lists := st.lists[i := Null])
    else
      var st1 := if c.numsteps > 1 && LazyAlloc(rd, dir) then Allocs(c, pht, dir, st, i, c.numsteps) else st;
      var st2 := if Frontier(c, rd, dir, i) then st1.(lists := st1.lists[i := Live(Empty(NumHalos(pht, i)))])
                 else Steps(c, pht, upd, rd, dir, st1, i, c.numsteps);
      Release(c, pht, dir, st2, i)
  }

  /** The `m`-th snapshot visited: downward for progenitors (line 137), upward for descendants (line 265). */
  function Order(c: Config, dir: Dir, m: int): int
  {
    if dir == Progenitor then c.numsnapshots - 1 - m else m
  }

  /** Snapshot `s` is among the first `m` visited. */
  predicate Visited(c: Config, dir: Dir, m: int, s: int)
  {
    if dir == Progenitor then c.numsnapshots - m <= s < c.numsnapshots else 0 <= s < m
  }

  /** The state once the first `m` snapshots have been visited. */
  function Loop(c: Config, pht: seq<Snapshot>, upd: set<(int, int)>, rd: Reading, dir: Dir, m: nat): (r: PassState)
    requires Fits(c, pht) && m <= c.numsnapshots
    ensures Shaped(c, r)
  {
    if m == 0 then Setup(c, pht, rd, dir)
    else Iter(c, pht, upd, rd, dir, Loop(c, pht, upd, rd, dir, m - 1), Order(c, dir, m - 1))
  }

  /**
   * Lines 233-240 and 343-350 for one slot: a remaining non-NULL bridging slot in `[StartSnap, EndSnap-1)` is
   * cleaned with, deleted and set to NULL. As written, the descendant pass NULLs `pprogendescen[i]` instead
   * (line 348), so its own slot keeps the deleted pointer.
   */
  function FinalStep(c: Config, rd: Reading, dir: Dir, st: PassState, i: int): (r: PassState)
    requires Shaped(c, st) && c.numsteps > 1 && 0 <= i < c.numsnapshots
    ensures Shaped(c, r) && r.lists == st.lists
  {
    if c.startSnap <= i < c.endSnap - 1 && !st.bridges[i].Null? then
      var log := st.log + [CleanUsingBridge(dir, i, st.bridges[i].Live?)] + Deleted(dir, Bridges, i, st.bridges[i]);
      if Sound(rd, dir) then st.(bridges := st.bridges[i := Null], log := log)
      else st.(log := log + [StrayNull(i)])
    else st
  }

  /** Lines 230-241 and 340-351: the final pass over the first `m` slots in visiting order. */
  function Final(c: Config, rd: Reading, dir: Dir, st: PassState, m: nat): (r: PassState)
    requires Shaped(c, st) && c.numsteps > 1 && m <= c.numsnapshots
    ensures Shaped(c, r) && r.lists == st.lists
  {
    if m == 0 then st else FinalStep(c, rd, dir, Final(c, rd, dir, st, m - 1), Order(c, dir, m - 1))
  }

  /** One whole pass: lines 114-244 for progenitors, 248-355 for descendants. */
  function Pass(c: Config, pht: seq<Snapshot>, upd: set<(int, int)>, rd: Reading, dir: Dir): (r: PassState)
    requires Fits(c, pht)
    ensures Shaped(c, r)
  {
    var st := Loop(c, pht, upd, rd, dir, c.numsnapshots);
    if c.numsteps > 1 then Final(c, rd, dir, st, c.numsnapshots) else st
  }

  /** Lines 384 and 401 for the first `m` slots: every non-NULL list is deleted. */
  function FreeLists(lists: seq<Slot<LinkList>>, dir: Dir, m: nat): (r: seq<Event>)
    requires m <= |lists|
  {
    if m == 0 then [] else FreeLists(lists, dir, m - 1) + Deleted(dir, Lists, m - 1, lists[m - 1])
  }

  /** Lines 388-397 and 404-413 for the first `m` slots in visiting order: every non-NULL local bridging slot. */
  function FreeBridges(c: Config, bridges: seq<Slot<nat>>, dir: Dir, m: nat): (r: seq<Event>)
    requires |bridges| == c.numsnapshots && m <= c.numsnapshots
  {
    if m == 0 then []
    else
      var i := Order(c, dir, m - 1);
      FreeBridges(c, bridges, dir, m - 1) + (if Local(c, i) then Deleted(dir, Bridges, i, bridges[i]) else [])
  }

  /** Lines 383-415 for one pass's arrays: the deletes performed when the program releases its memory. */
  function Teardown(c: Config, dir: Dir, st: PassState): (r: seq<Event>)
    requires Shaped(c, st)
  {
    FreeLists(st.lists, dir, |st.lists|)
      + (if c.numsteps > 1 then FreeBridges(c, st.bridges, dir, c.numsnapshots) else [])
  }

  /** A pass followed by the release of its arrays at the end of the program. */
  function Run(c: Config, pht: seq<Snapshot>, upd: set<(int, int)>, rd: Reading, dir: Dir): seq<Event>
    requires Fits(c, pht)
  {
    var st := Pass(c, pht, upd, rd, dir);
    st.log + Teardown(c, dir, st)
  }
}
