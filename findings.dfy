/**
 * Where the descendant pass (main.cxx:248-355) departs from the mirror image of the progenitor pass, what
 * its code as written does, and what the mirror image does instead.
 */
module Findings {
  import opened Catalog
  import opened Membership
  import opened Ledger
  import opened Linking
  import opened Schedule
  import opened Lifetime
  import opened Lists
  import opened Builds

  /**
   * As written, the descendant pass allocates no bridging record on demand, so a slot its window does not
   * release keeps what the initialisation put there until the final pass.
   */
  lemma {:induction false} AsWrittenSlot(c: Config, pht: seq<Snapshot>, upd: set<(int, int)>, m: nat, s: int)
    requires Fits(c, pht) && c.numsteps > 1 && m <= c.numsnapshots && 0 <= s < c.numsnapshots
    requires !Releases(c, pht, s)
    ensures Loop(c, pht, upd, AsWritten, Descendant, m).bridges[s] == Setup(c, pht, AsWritten, Descendant).bridges[s]
    ensures TallyOf(Loop(c, pht, upd, AsWritten, Descendant, m).log, Descendant, s)
         == TallyOf(Setup(c, pht, AsWritten, Descendant).log, Descendant, s)
  {
    if m > 0 {
      var prev := Loop(c, pht, upd, AsWritten, Descendant, m - 1);
      var k := Order(c, Descendant, m - 1);
      var r := Loop(c, pht, upd, AsWritten, Descendant, m);
      assert r.bridges == Iter(c, pht, upd, AsWritten, Descendant, prev, k).bridges;
      assert r.log == Iter(c, pht, upd, AsWritten, Descendant, prev, k).log;
      AsWrittenSlot(c, pht, upd, m - 1, s);
      AsWrittenTurn(c, pht, upd, prev, k, s);
    }
  }

  /** One turn of the descendant loop as written leaves a slot its window does not release alone. */
  lemma AsWrittenTurn(c: Config, pht: seq<Snapshot>, upd: set<(int, int)>, st: PassState, k: int, s: int)
    requires Fits(c, pht) && Shaped(c, st) && c.numsteps > 1 && 0 <= k < c.numsnapshots && 0 <= s < c.numsnapshots
    requires !Releases(c, pht, s)
    ensures Iter(c, pht, upd, AsWritten, Descendant, st, k).bridges[s] == st.bridges[s]
    ensures TallyOf(Iter(c, pht, upd, AsWritten, Descendant, st, k).log, Descendant, s) == TallyOf(st.log, Descendant, s)
  {
    IterSlot(c, pht, upd, AsWritten, Descendant, st, k, s);
    assert !TurnGrabs(c, pht, AsWritten, Descendant, st, k, s);
    PlusUnit(TallyOf(st.log, Descendant, s));
  }

  /**
   * Line 348 NULLs `pprogendescen[i]` where `pdescenprogen[i]` was deleted, so the release of memory (line 409)
   * deletes the first local snapshot's record a second time: it is allocated once (line 262) and freed twice.
   */
  lemma DoubleFree(c: Config, pht: seq<Snapshot>, upd: set<(int, int)>)
    requires Fits(c, pht) && c.numsteps > 1 && c.startSnap < c.endSnap - 1
    ensures Count(Run(c, pht, upd, AsWritten, Descendant), Alloc(Descendant, c.startSnap)) == 1
    ensures Count(Run(c, pht, upd, AsWritten, Descendant), Free(Descendant, Bridges, c.startSnap)) == 2
  {
    var n, s := c.numsnapshots, c.startSnap;
    var looped := Loop(c, pht, upd, AsWritten, Descendant, n);
    var st := Final(c, AsWritten, Descendant, looped, n);
    assert Pass(c, pht, upd, AsWritten, Descendant) == st;
    SetupSlot(c, pht, AsWritten, Descendant, s);
    AsWrittenSlot(c, pht, upd, n, s);
    assert Visited(c, Descendant, n, s);
    FinalSlot(c, AsWritten, Descendant, looped, n, s);
    TeardownSlot(c, Descendant, st, s);
    TallyAppend(st.log, Teardown(c, Descendant, st), Descendant, s);
  }

  /** As written, the last bridging slot leaves the descendant pass unassigned, never allocated, cleaned or deleted. */
  lemma UnsetAfterPass(c: Config, pht: seq<Snapshot>, upd: set<(int, int)>)
    requires Fits(c, pht) && c.numsteps > 1 && c.endSnap == c.numsnapshots && c.startSnap < c.endSnap - 1
    ensures Pass(c, pht, upd, AsWritten, Descendant).bridges[c.numsnapshots - 1] == Unset
    ensures TallyOf(Pass(c, pht, upd, AsWritten, Descendant).log, Descendant, c.numsnapshots - 1)
         == Tally(c.numsnapshots - 1, 0, 0, 0, 0)
  {
    var n := c.numsnapshots;
    var s := n - 1;
    var looped := Loop(c, pht, upd, AsWritten, Descendant, n);
    SetupSlot(c, pht, AsWritten, Descendant, s);
    AsWrittenSlot(c, pht, upd, n, s);
    FinalSlot(c, AsWritten, Descendant, looped, n, s);
    PlusUnit(TallyOf(looped.log, Descendant, s));
  }

  /**
   * Line 258 leaves the last bridging slot unassigned; when it is local and not the first local snapshot,
   * nothing assigns it later, and the release of memory (line 409) deletes its indeterminate pointer.
   */
  lemma UnsetDelete(c: Config, pht: seq<Snapshot>, upd: set<(int, int)>)
    requires Fits(c, pht) && c.numsteps > 1 && c.endSnap == c.numsnapshots && c.startSnap < c.endSnap - 1
    ensures Pass(c, pht, upd, AsWritten, Descendant).bridges[c.numsnapshots - 1] == Unset
    ensures Count(Run(c, pht, upd, AsWritten, Descendant), FreeUnset(Descendant, Bridges, c.numsnapshots - 1)) == 1
  {
    var s := c.numsnapshots - 1;
    var st := Pass(c, pht, upd, AsWritten, Descendant);
    UnsetAfterPass(c, pht, upd);
    TeardownSlot(c, Descendant, st, s);
    TallyAppend(st.log, Teardown(c, Descendant, st), Descendant, s);
  }

  /**
   * Line 271 tests `i<=EndSnap`, which every local snapshot passes, so the `else` of line 315 never runs: the
   * last local snapshot, which has no local snapshot after it, never gets a list, and the release of memory
   * (line 401) deletes its indeterminate pointer.
   */
  lemma LastListUnset(c: Config, pht: seq<Snapshot>, upd: set<(int, int)>)
    requires Fits(c, pht) && NumHalos(pht, c.endSnap - 1) > 0
    ensures Pass(c, pht, upd, AsWritten, Descendant).lists[c.endSnap - 1] == Unset
    ensures Count(Teardown(c, Descendant, Pass(c, pht, upd, AsWritten, Descendant)),
                  FreeUnset(Descendant, Lists, c.endSnap - 1)) == 1
  {
    PassLists(c, pht, upd, AsWritten, Descendant, c.endSnap - 1);
    TeardownLists(c, Descendant, Pass(c, pht, upd, AsWritten, Descendant), c.endSnap - 1);
  }

  /**
   * In the progenitor pass and the intended descendant pass every list slot is assigned: it holds a list
   * exactly when its snapshot is local and has halos, the snapshot without neighbours gets an empty one
   * (line 201, and what line 315 was meant to do), and the release of memory deletes each list once and
   * never an indeterminate pointer.
   */
  lemma ListsAssigned(c: Config, pht: seq<Snapshot>, upd: set<(int, int)>, rd: Reading, dir: Dir, s: int)
    requires Fits(c, pht) && Sound(rd, dir) && 0 <= s < c.numsnapshots
    ensures Pass(c, pht, upd, rd, dir).lists[s] != Unset
    ensures Pass(c, pht, upd, rd, dir).lists[s].Live? <==> Local(c, s) && NumHalos(pht, s) > 0
    ensures Frontier(c, rd, dir, s) && NumHalos(pht, s) > 0 ==> Pass(c, pht, upd, rd, dir).lists[s] == Live(Empty(NumHalos(pht, s)))
    ensures Count(Teardown(c, dir, Pass(c, pht, upd, rd, dir)), Free(dir, Lists, s))
         == if Local(c, s) && NumHalos(pht, s) > 0 then 1 else 0
    ensures Count(Teardown(c, dir, Pass(c, pht, upd, rd, dir)), FreeUnset(dir, Lists, s)) == 0
  {
    PassLists(c, pht, upd, rd, dir, s);
    TeardownLists(c, dir, Pass(c, pht, upd, rd, dir), s);
  }

  /**
   * Line 301 cleans `pdescen[i]`, the reference list, where the progenitor pass cleans the temporary
   * candidates (line 185): a deeper step with new candidates cleans the reference list, never the candidates.
   */
  lemma DeepCleanReference(c: Config, pht: seq<Snapshot>, upd: set<(int, int)>, i: int, s: int)
    requires Fits(c, pht) && c.catalog == Graph && s >= 2 && (i, s) in upd
    requires Scheduled(c, pht, AsWritten, Descendant, i, s)
    ensures Count(Pass(c, pht, upd, AsWritten, Descendant).log, CleanCrossMatch(Descendant, i, i + s, ReferenceList)) == 1
    ensures Count(Pass(c, pht, upd, AsWritten, Descendant).log, CleanCrossMatch(Descendant, i, i + s, CandidateList)) == 0
  {
    ScheduleClean(c, pht, upd, AsWritten, Descendant, Descendant, i, i + s, ReferenceList);
    ScheduleClean(c, pht, upd, AsWritten, Descendant, Descendant, i, i + s, CandidateList);
  }

  /** In the progenitor pass and the intended descendant pass, a deeper step with new candidates cleans the candidates. */
  lemma DeepCleanCandidates(c: Config, pht: seq<Snapshot>, upd: set<(int, int)>, rd: Reading, dir: Dir, i: int, s: int)
    requires Fits(c, pht) && Sound(rd, dir) && Cleans(c, dir) && s >= 2 && (i, s) in upd
    requires Scheduled(c, pht, rd, dir, i, s)
    ensures Count(Pass(c, pht, upd, rd, dir).log, CleanCrossMatch(dir, i, Toward(dir, i, s), CandidateList)) == 1
    ensures Count(Pass(c, pht, upd, rd, dir).log, CleanCrossMatch(dir, i, Toward(dir, i, s), ReferenceList)) == 0
  {
    ScheduleClean(c, pht, upd, rd, dir, dir, i, Toward(dir, i, s), CandidateList);
    ScheduleClean(c, pht, upd, rd, dir, dir, i, Toward(dir, i, s), ReferenceList);
  }

  /**
   * The descendant pass has no counterpart of lines 147-148, so every bridge-building call (lines 295, 303)
   * writes into a slot that holds no record.
   */
  lemma BuildsIntoNull(c: Config, pht: seq<Snapshot>, upd: set<(int, int)>)
    requires Fits(c, pht) && c.numsteps > 1
    ensures var log := Pass(c, pht, upd, AsWritten, Descendant).log;
            forall k :: 0 <= k < |log| && log[k].BuildBridge? ==> !log[k].targetLive
  {
    PassBuilds(c, pht, upd, AsWritten, Descendant);
  }

  /**
   * With on-demand allocation, a bridge-building call finds a record in its target slot exactly when the
   * target snapshot has halos.
   */
  lemma BuildsIntoRecords(c: Config, pht: seq<Snapshot>, upd: set<(int, int)>, rd: Reading, dir: Dir)
    requires Fits(c, pht) && c.numsteps > 1 && Sound(rd, dir)
    ensures var log := Pass(c, pht, upd, rd, dir).log;
            forall k :: 0 <= k < |log| && log[k].BuildBridge? ==>
              (log[k].targetLive <==> 0 <= log[k].other < |pht| && NumHalos(pht, log[k].other) > 0)
  {
    PassBuilds(c, pht, upd, rd, dir);
  }
}
