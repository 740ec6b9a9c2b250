/**
 * The link lists `pprogen` / `pdescen` a pass leaves behind: which slots are NULL, which hold an empty list,
 * which hold a list built by the cross matches (and with which step depths merged into it), and which are
 * never assigned at all; and what the release of memory at the end of the program then deletes.
 */
module Lists {
  import opened Catalog
  import opened Membership
  import opened Ledger
  import opened Linking

  /** Step `u` of snapshot `s`, among steps `1..t`, goes into its list: step 1 creates it, a deeper local step merges new candidates. */
  predicate Merges(c: Config, upd: set<(int, int)>, dir: Dir, s: int, t: int, u: int)
  {
    1 <= u <= t && Local(c, Toward(dir, s, u)) && (u == 1 || (s, u) in upd)
  }

  predicate Increasing(d: seq<nat>)
  {
    forall a, b :: 0 <= a < b < |d| ==> d[a] < d[b]
  }

  /** A list of snapshot `s` made by its steps `1..t`: the cross-match list with every merged step depth, in order. */
  predicate LinkedBy(c: Config, pht: seq<Snapshot>, upd: set<(int, int)>, dir: Dir, s: int, t: int, p: Slot<LinkList>)
    requires 0 <= s < |pht|
  {
    && p.Live? && p.item.Linked? && p.item.size == NumHalos(pht, s) && Increasing(p.item.depths)
    && (forall k :: 0 <= k < |p.item.depths| ==> 1 <= p.item.depths[k] <= t)
    && forall u: int :: 1 <= u <= t ==> (u in p.item.depths <==> Merges(c, upd, dir, s, t, u))
  }

  /**
   * The list slot `s` ends up with: NULL for a snapshot that is not local or has no halos, an empty list for
   * the snapshot without neighbours, otherwise the list its steps build. A local snapshot with halos which is
   * not the frontier but has no local neighbour either is never assigned.
   */
  predicate ListFor(c: Config, pht: seq<Snapshot>, upd: set<(int, int)>, rd: Reading, dir: Dir, s: int, p: Slot<LinkList>)
    requires Fits(c, pht) && 0 <= s < c.numsnapshots
  {
    if !Local(c, s) || NumHalos(pht, s) == 0 then p == Null
    else if Frontier(c, rd, dir, s) then p == Live(Empty(NumHalos(pht, s)))
    else if !Local(c, Toward(dir, s, 1)) then p == Unset
    else LinkedBy(c, pht, upd, dir, s, c.numsteps, p)
  }

  /** What one cross match (lines 170-193, 288-307) does to the list of its snapshot. */
  lemma LinkOwnList(c: Config, pht: seq<Snapshot>, upd: set<(int, int)>, rd: Reading, dir: Dir, st: PassState,
                    i: int, step: int)
    requires Fits(c, pht) && Shaped(c, st)
    requires Local(c, i) && Local(c, Toward(dir, i, step)) && 1 <= step
    ensures Link(c, pht, upd, rd, dir, st, i, step).lists[i]
         == if step == 1 then Live(Linked(NumHalos(pht, i), [1]))
            else if (i, step) in upd then Merge(st.lists[i], step) else st.lists[i]
  {
  }

  /** A list made by steps `1..t-1` is one made by steps `1..t` once step `t` is merged into it when it merges. */
  lemma LinkedByStep(c: Config, pht: seq<Snapshot>, upd: set<(int, int)>, dir: Dir, i: int, t: int, p: Slot<LinkList>)
    requires 0 <= i < |pht| && t >= 2 && LinkedBy(c, pht, upd, dir, i, t - 1, p)
    ensures LinkedBy(c, pht, upd, dir, i, t, if Merges(c, upd, dir, i, t, t) then Merge(p, t) else p)
  {
    var d := p.item.depths;
    forall u: int | 1 <= u <= t ensures Merges(c, upd, dir, i, t, u) <==> Merges(c, upd, dir, i, t - 1, u) || (u == t && Merges(c, upd, dir, i, t, t)) {
    }
    if Merges(c, upd, dir, i, t, t) {
      assert Merge(p, t) == Live(Linked(p.item.size, d + [t]));
      forall a, b | 0 <= a < b < |d + [t]| ensures (d + [t])[a] < (d + [t])[b] {
        if b == |d| {
          assert d[a] in d;
        }
      }
    }
  }

  /** Steps `1..t` of a snapshot whose first neighbour is local build its list (lines 170-193, 288-307). */
  lemma {:induction false} StepsOwnList(c: Config, pht: seq<Snapshot>, upd: set<(int, int)>, rd: Reading, dir: Dir,
                                        st: PassState, i: int, t: nat)
    requires Fits(c, pht) && Shaped(c, st) && Local(c, i) && Local(c, Toward(dir, i, 1)) && t >= 1
    ensures LinkedBy(c, pht, upd, dir, i, t, Steps(c, pht, upd, rd, dir, st, i, t).lists[i])
  {
    var prev := Steps(c, pht, upd, rd, dir, st, i, t - 1);
    var r := Steps(c, pht, upd, rd, dir, st, i, t);
    if t == 1 {
      LinkOwnList(c, pht, upd, rd, dir, prev, i, 1);
      var d := r.lists[i].item.depths;
      assert d == [1];
      forall u: int | 1 <= u <= t ensures u in d <==> Merges(c, upd, dir, i, t, u) {
      }
    } else {
      StepsOwnList(c, pht, upd, rd, dir, st, i, t - 1);
      LinkedByStep(c, pht, upd, dir, i, t, prev.lists[i]);
      if Local(c, Toward(dir, i, t)) {
        LinkOwnList(c, pht, upd, rd, dir, prev, i, t);
      }
    }
  }

  /** The steps of snapshot `i` assign only its own list. */
  lemma {:induction false} StepsOtherList(c: Config, pht: seq<Snapshot>, upd: set<(int, int)>, rd: Reading, dir: Dir,
                                          st: PassState, i: int, t: nat, j: int)
    requires Fits(c, pht) && Shaped(c, st) && Local(c, i) && 0 <= j < c.numsnapshots && j != i
    ensures Steps(c, pht, upd, rd, dir, st, i, t).lists[j] == st.lists[j]
  {
    if t > 0 {
      StepsOtherList(c, pht, upd, rd, dir, st, i, t - 1, j);
    }
  }

  /** A snapshot whose first neighbour is not local reaches no local neighbour, so its steps do nothing. */
  lemma {:induction false} StepsNoNeighbour(c: Config, pht: seq<Snapshot>, upd: set<(int, int)>, rd: Reading, dir: Dir,
                                            st: PassState, i: int, t: nat)
    requires Fits(c, pht) && Shaped(c, st) && Local(c, i) && !Local(c, Toward(dir, i, 1))
    ensures Steps(c, pht, upd, rd, dir, st, i, t).lists == st.lists
  {
    if t > 0 {
      StepsNoNeighbour(c, pht, upd, rd, dir, st, i, t - 1);
      assert !Local(c, Toward(dir, i, t));
    }
  }

  /** A turn of the snapshot loop assigns only its own snapshot's list. */
  lemma IterOtherList(c: Config, pht: seq<Snapshot>, upd: set<(int, int)>, rd: Reading, dir: Dir, st: PassState,
                      k: int, s: int)
    requires Fits(c, pht) && Shaped(c, st) && 0 <= k < c.numsnapshots && 0 <= s < c.numsnapshots && s != k
    ensures Iter(c, pht, upd, rd, dir, st, k).lists[s] == st.lists[s]
  {
    if Local(c, k) && NumHalos(pht, k) > 0 {
      var st1 := if c.numsteps > 1 && LazyAlloc(rd, dir) then Allocs(c, pht, dir, st, k, c.numsteps) else st;
      StepsOtherList(c, pht, upd, rd, dir, st1, k, c.numsteps, s);
    }
  }

  /** The turn of snapshot `k`, whose list is still unassigned, leaves it with the list `ListFor` describes. */
  lemma IterOwnList(c: Config, pht: seq<Snapshot>, upd: set<(int, int)>, rd: Reading, dir: Dir, st: PassState, k: int)
    requires Fits(c, pht) && Shaped(c, st) && 0 <= k < c.numsnapshots && st.lists[k] == Unset
    ensures ListFor(c, pht, upd, rd, dir, k, Iter(c, pht, upd, rd, dir, st, k).lists[k])
  {
    if Local(c, k) && NumHalos(pht, k) > 0 && !Frontier(c, rd, dir, k) {
      var st1 := if c.numsteps > 1 && LazyAlloc(rd, dir) then Allocs(c, pht, dir, st, k, c.numsteps) else st;
      var st2 := Steps(c, pht, upd, rd, dir, st1, k, c.numsteps);
      assert Iter(c, pht, upd, rd, dir, st, k).lists == st2.lists;
      if Local(c, Toward(dir, k, 1)) {
        StepsOwnList(c, pht, upd, rd, dir, st1, k, c.numsteps);
      } else {
        StepsNoNeighbour(c, pht, upd, rd, dir, st1, k, c.numsteps);
      }
    }
  }

  /** Once `m` snapshots are visited, each visited slot holds its `ListFor` list and the others are unassigned. */
  lemma {:induction false} LoopLists(c: Config, pht: seq<Snapshot>, upd: set<(int, int)>, rd: Reading, dir: Dir,
                                     m: nat, s: int)
    requires Fits(c, pht) && m <= c.numsnapshots && 0 <= s < c.numsnapshots
    ensures Visited(c, dir, m, s) ==> ListFor(c, pht, upd, rd, dir, s, Loop(c, pht, upd, rd, dir, m).lists[s])
    ensures !Visited(c, dir, m, s) ==> Loop(c, pht, upd, rd, dir, m).lists[s] == Unset
  {
    if m > 0 {
      var k := Order(c, dir, m - 1);
      var prev := Loop(c, pht, upd, rd, dir, m - 1);
      assert Loop(c, pht, upd, rd, dir, m) == Iter(c, pht, upd, rd, dir, prev, k);
      LoopLists(c, pht, upd, rd, dir, m - 1, s);
      if s == k {
        LoopLists(c, pht, upd, rd, dir, m - 1, k);
        assert !Visited(c, dir, m - 1, k);
        IterOwnList(c, pht, upd, rd, dir, prev, k);
      } else {
        IterOtherList(c, pht, upd, rd, dir, prev, k, s);
        assert Visited(c, dir, m, s) == Visited(c, dir, m - 1, s);
      }
    }
  }

  /** Every list slot of a finished pass holds the list `ListFor` describes (lines 137-244, 265-355). */
  lemma PassLists(c: Config, pht: seq<Snapshot>, upd: set<(int, int)>, rd: Reading, dir: Dir, s: int)
    requires Fits(c, pht) && 0 <= s < c.numsnapshots
    ensures ListFor(c, pht, upd, rd, dir, s, Pass(c, pht, upd, rd, dir).lists[s])
  {
    LoopLists(c, pht, upd, rd, dir, c.numsnapshots, s);
    assert Visited(c, dir, c.numsnapshots, s);
  }

  /** Deleting list slot `j` frees list `s` exactly when `j == s` holds a list. */
  lemma DeletedListFree(dir: Dir, j: int, p: Slot<LinkList>, s: int)
    ensures Count(Deleted(dir, Lists, j, p), Free(dir, Lists, s)) == if j == s && p.Live? then 1 else 0
  {
    if !p.Null? {
      CountSingle(Deleted(dir, Lists, j, p)[0], Free(dir, Lists, s));
    }
  }

  /** Deleting list slot `j` deletes an indeterminate pointer of slot `s` exactly when `j == s` is unassigned. */
  lemma DeletedListUnset(dir: Dir, j: int, p: Slot<LinkList>, s: int)
    ensures Count(Deleted(dir, Lists, j, p), FreeUnset(dir, Lists, s)) == if j == s && p == Unset then 1 else 0
  {
    if !p.Null? {
      CountSingle(Deleted(dir, Lists, j, p)[0], FreeUnset(dir, Lists, s));
    }
  }

  /** The list loop (lines 384, 401) over its first `m` slots frees slot `s` once if it holds a list. */
  lemma {:induction false} FreeListsLive(lists: seq<Slot<LinkList>>, dir: Dir, m: nat, s: int)
    requires m <= |lists| && 0 <= s < |lists|
    ensures Count(FreeLists(lists, dir, m), Free(dir, Lists, s)) == if s < m && lists[s].Live? then 1 else 0
  {
    if m > 0 {
      FreeListsLive(lists, dir, m - 1, s);
      CountAppend(FreeLists(lists, dir, m - 1), Deleted(dir, Lists, m - 1, lists[m - 1]), Free(dir, Lists, s));
      DeletedListFree(dir, m - 1, lists[m - 1], s);
    }
  }

  /** The list loop (lines 384, 401) over its first `m` slots deletes slot `s` once if it was never assigned. */
  lemma {:induction false} FreeListsUnset(lists: seq<Slot<LinkList>>, dir: Dir, m: nat, s: int)
    requires m <= |lists| && 0 <= s < |lists|
    ensures Count(FreeLists(lists, dir, m), FreeUnset(dir, Lists, s)) == if s < m && lists[s] == Unset then 1 else 0
  {
    if m > 0 {
      FreeListsUnset(lists, dir, m - 1, s);
      CountAppend(FreeLists(lists, dir, m - 1), Deleted(dir, Lists, m - 1, lists[m - 1]), FreeUnset(dir, Lists, s));
      DeletedListUnset(dir, m - 1, lists[m - 1], s);
    }
  }

  /** Deleting one bridging slot names no list. */
  lemma DeletedNoList(dir: Dir, i: int, p: Slot<nat>, e: Event)
    requires (e.Free? || e.FreeUnset?) && e.store == Lists
    ensures Count(Deleted(dir, Bridges, i, p), e) == 0
  {
    var d := Deleted(dir, Bridges, i, p);
    if !p.Null? {
      assert d == [d[0]];
      CountSingle(d[0], e);
    }
  }

  /** The deletes of the bridging array name no list. */
  lemma {:induction false} FreeBridgesNoList(c: Config, bridges: seq<Slot<nat>>, dir: Dir, m: nat, e: Event)
    requires |bridges| == c.numsnapshots && m <= c.numsnapshots && (e.Free? || e.FreeUnset?) && e.store == Lists
    ensures Count(FreeBridges(c, bridges, dir, m), e) == 0
  {
    if m > 0 {
      var i := Order(c, dir, m - 1);
      var prev := FreeBridges(c, bridges, dir, m - 1);
      var d := if Local(c, i) then Deleted(dir, Bridges, i, bridges[i]) else [];
      FreeBridgesNoList(c, bridges, dir, m - 1, e);
      CountAppend(prev, d, e);
      if Local(c, i) {
        DeletedNoList(dir, i, bridges[i], e);
      }
    }
  }

  /** Lines 383-415 delete a list slot holding a list once, and an unassigned one once through its indeterminate pointer. */
  lemma TeardownLists(c: Config, dir: Dir, st: PassState, s: int)
    requires Shaped(c, st) && 0 <= s < c.numsnapshots
    ensures Count(Teardown(c, dir, st), Free(dir, Lists, s)) == if st.lists[s].Live? then 1 else 0
    ensures Count(Teardown(c, dir, st), FreeUnset(dir, Lists, s)) == if st.lists[s] == Unset then 1 else 0
  {
    var fl := FreeLists(st.lists, dir, |st.lists|);
    var fb := if c.numsteps > 1 then FreeBridges(c, st.bridges, dir, c.numsnapshots) else [];
    FreeListsLive(st.lists, dir, |st.lists|, s);
    FreeListsUnset(st.lists, dir, |st.lists|, s);
    CountAppend(fl, fb, Free(dir, Lists, s));
    CountAppend(fl, fb, FreeUnset(dir, Lists, s));
    if c.numsteps > 1 {
      FreeBridgesNoList(c, st.bridges, dir, c.numsnapshots, Free(dir, Lists, s));
      FreeBridgesNoList(c, st.bridges, dir, c.numsnapshots, FreeUnset(dir, Lists, s));
    }
  }
}
