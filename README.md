# TreeFrog linking driver

TreeFrog builds halo merger trees and graphs out of per-snapshot halo catalogues. Its driver (`main` in
`stf/analysis/treefrog/main.cxx`) runs up to two linking passes over the snapshots:

- a **progenitor pass** (lines 114-244) visits the snapshots from the last to the first, comparing snapshot
  `i` with snapshots `i-1 .. i-numsteps`;
- a **descendant pass** (lines 248-355) visits them from the first to the last, comparing `i` with
  `i+1 .. i+numsteps`.

At the end of the program the driver releases what the passes left behind (lines 383-415).

The model covers three things the driver does itself.

1. **Membership index.** This is the flat buffer `pfofp` / `pfofd`, indexed by particle ID. Before each
   comparison, the driver writes `j+1` for every particle of halo `j` of the neighbour snapshot. With core
   weighting (`0 < particle_frac < 1`), it then writes `j+1+numhalos` over the first
   `newnp = min(n, max((Int_t)(n*particle_frac), min_numpart))` particles. The product is modelled exactly, not
   in floating point (see "Left out"). Afterwards it writes 0 back.
   Module `Membership` covers this, with `array<u32>` buffers and write-loop methods. They are proved to build
   exactly the index function `Index`, to decode back to the owning halo, and to return the buffer to all
   zero.
2. **Comparison schedule.** This is which cross matches, cleanings and reference-list updates each pass
   requests, with which membership index, and how often. The calls into the merit code become events in a
   log.
   - Module `Linking` gives every stage of a pass as a function on a `PassState`: set-up, on-demand
     allocation, the steps, the sliding window, the final pass and the release of memory.
   - Module `Schedule` proves that each cross match, cleaning, reference-list update and bridge-building call
     the schedule calls for is made exactly once, and that no other such call is made.
3. **Lifetime of the pointer arrays.** These are the link-list arrays `pprogen` / `pdescen` and the bridging
   arrays `pprogendescen` / `pdescenprogen`. Each slot is modelled as `Unset` (never assigned after
   `new T*[n]`), `Null`, or `Live`.
   - The on-demand allocation of lines 147-148 matters here, as do the window of lines 211/324, the final
     pass and the release of memory.
   - `Lifetime`, `Lists` and `Builds` prove that every list slot a step reaches ends up with the list its
     steps built. They also prove three facts for the progenitor pass, and for the descendant pass under
     `Intended`:
     - every bridging record is allocated at most once and freed exactly as often;
     - no indeterminate pointer is deleted;
     - every bridge-building call finds a record where its target has halos.

     The descendant pass as written breaks each of these (see `Findings`).

`Progenitors` and `Descendants` hold both passes as imperative methods over arrays of slots. Each method is
proved to produce the state that the matching `Linking` function describes.

The descendant pass is written as the mirror image of the progenitor pass, but it departs from that mirror
image in five places. `Linking` therefore takes a `Reading` parameter: the code as written (`AsWritten`), or
the mirror image (`Intended`). Module `Findings` states what each departure does:
- a double free;
- a deleted indeterminate pointer, in two ways;
- the wrong list cleaned;
- bridge builds with no record behind them.

Each fact is stated next to the property that `Intended` has instead. The imperative `Descendants` methods
take the reading too: under `AsWritten` they do what lines 248-355 do, and under `Intended` they are the mirror
image.

## Model

| member | source | states |
|---|---|---|
| Membership.LastOwner | stf/analysis/treefrog/main.cxx:157-159 | the halo whose marker an entry ends up with is the highest-numbered halo listing that ID; no halo lists it exactly when there is no owner |
| Membership.CoreCount | stf/analysis/treefrog/main.cxx:164-166 | `newnp` is at most the halo size, at least the truncated product or the size, at least `min_numpart` or the size, and below the size when both bounds are |
| Membership.FloorBelow | stf/analysis/treefrog/main.cxx:164 | with `0 < particle_frac < 1` the truncated product lies in `[0, n]`, strictly below `n` for a non-empty halo |
| Membership.CoreOwnedIsOwned | stf/analysis/treefrog/main.cxx:162-169 | a particle marked core belongs to some halo |
| Membership.IndexUnowned | stf/analysis/treefrog/main.cxx:116-117 | the entry of a particle listed by no halo stays 0 |
| Membership.IndexDecodes | stf/analysis/treefrog/main.cxx:157-169 | while `2*numhalos` fits an `unsigned int`, each entry holds the ownership code exactly and is at most `2*numhalos` |
| Membership.CodeDecodes | stf/analysis/treefrog/main.cxx:157-169 | a code of 0 means unowned, `1..numhalos` names the last owning halo, and above that names the last core owner |
| Membership.IndexOfDisjointHalos | stf/analysis/treefrog/main.cxx:157-169 | for halos sharing no IDs, particle `k` of halo `j` is marked `j+1+numhalos` exactly when core weighting is on and `k < newnp`, else `j+1` |
| Membership.DisjointOwner | stf/analysis/treefrog/main.cxx:157-159 | for halos sharing no IDs, the owner of halo `j`'s particle is `j` |
| Membership.DisjointCoreOwner | stf/analysis/treefrog/main.cxx:162-169 | for halos sharing no IDs, halo `j`'s particle `k` is a core particle exactly when `k < newnp`, and then of halo `j` |
| Membership.CoreIdsBelow | stf/analysis/treefrog/main.cxx:167-168 | the core pass writes only inside the buffer when the full pass does |
| Membership.ZeroBuffer | stf/analysis/treefrog/main.cxx:116-117 | the buffer is all zero afterwards |
| Membership.Paint | stf/analysis/treefrog/main.cxx:157-159 | each entry ends up with the mark of the last halo listing it, and entries listed by no halo keep their value |
| Membership.BuildIndex | stf/analysis/treefrog/main.cxx:157-169 | starting from a zeroed buffer, the full pass and the optional core pass leave exactly `Index` of the neighbour snapshot |
| Membership.ClearIndex | stf/analysis/treefrog/main.cxx:193-196 | the reset zeroes exactly the entries of the snapshot's particles and leaves the buffer all zero |
| Schedule.PassCounts | stf/analysis/treefrog/main.cxx:137-199 | a call of a step occurs in a pass exactly as often as in that step's own events when the step is scheduled, and never otherwise |
| Schedule.ScheduleCrossMatch | stf/analysis/treefrog/main.cxx:153-181 | snapshot `i` is cross-matched with `o` exactly once when step `s` is scheduled and `o` is `s` steps away, always with the index of `o`, and never otherwise |
| Schedule.ScheduleUpdate | stf/analysis/treefrog/main.cxx:181-188 | the reference list of `i` is updated at step `s` exactly once when a scheduled deeper step reports new candidates, and never otherwise; only the progenitor update is handed the bridging array |
| Schedule.ScheduleBuild | stf/analysis/treefrog/main.cxx:177-187 | the bridge of `i` toward `o` is built at step `s` exactly once when the step is scheduled and `o` is `s` steps away, at step 1 only when `numsteps > 1`, at a deeper step only when it reports new candidates; never otherwise |
| Schedule.ScheduleClean | stf/analysis/treefrog/main.cxx:174-188 | a cross match is cleaned exactly once when the pass cleans and the step is scheduled: the reference list at step 1, the deeper step's list when it reports candidates |
| Lifetime.SetupSlot | stf/analysis/treefrog/main.cxx:120-132 | after set-up only the anchor slot holds a record, allocated once; every other slot is NULL, except the last descendant slot as written |
| Lifetime.AllocsSlot | stf/analysis/treefrog/main.cxx:146-149 | on-demand allocation allocates, once, exactly the slots ahead that are NULL, local and have halos |
| Lifetime.ReleaseSlot | stf/analysis/treefrog/main.cxx:211-216 | inside the window a snapshot with halos cleans with its slot, deletes it once and NULLs it; every other slot is untouched |
| Lifetime.IterSlot | stf/analysis/treefrog/main.cxx:139-219 | one turn of the loop releases its own slot in the window, allocates the slots it grabs, and leaves every other slot and its events alone |
| Lifetime.LoopKept | stf/analysis/treefrog/main.cxx:137-220 | throughout the snapshot loop each slot is never left unassigned or deleted while unassigned, is allocated at most once, holds its record or has freed it, is cleaned with at most once and exactly when its own turn released it, and the anchor is allocated |
| Lifetime.FinalSlot | stf/analysis/treefrog/main.cxx:230-241 | the final pass cleans with and deletes each remaining slot of `[StartSnap, EndSnap-1)` once; as written the descendant pass leaves the deleted pointer in its slot |
| Lifetime.TeardownSlot | stf/analysis/treefrog/main.cxx:387-414 | the release of memory deletes a local bridging slot once when it is still set, whether it holds a record or an indeterminate pointer |
| Lifetime.BridgesBalanced | stf/analysis/treefrog/main.cxx:120-244 | soundly (the progenitor pass, or the descendant pass under `Intended`), over a whole run each bridging record is allocated at most once and freed exactly as often, the anchor's always, no indeterminate pointer is deleted, and each slot is cleaned with at most once |
| Lists.LinkedByStep | stf/analysis/treefrog/main.cxx:180-188 | merging step `t` into a list built by steps `1..t-1` gives the list of steps `1..t`, with depths still increasing |
| Lists.StepsOwnList | stf/analysis/treefrog/main.cxx:153-198 | steps `1..t` of a snapshot with a local neighbour leave a list holding exactly the merged depths, in increasing order |
| Lists.LoopLists | stf/analysis/treefrog/main.cxx:137-220 | after the loop has visited a slot it holds its `ListFor` list; slots not yet visited are unassigned |
| Lists.PassLists | stf/analysis/treefrog/main.cxx:137-244 | each list slot of a finished pass is NULL without halos, empty at the snapshot without neighbours, unset where no step can run, and otherwise the list its steps built |
| Lists.FreeListsLive | stf/analysis/treefrog/main.cxx:384 | the list loop frees a slot once exactly when it holds a list |
| Lists.FreeListsUnset | stf/analysis/treefrog/main.cxx:401 | the list loop deletes a slot through an indeterminate pointer once exactly when it was never assigned |
| Lists.TeardownLists | stf/analysis/treefrog/main.cxx:383-415 | the release of memory deletes a list slot once if it holds a list and through an indeterminate pointer once if it was never assigned |
| Builds.LoopFits | stf/analysis/treefrog/main.cxx:137-220 | during the loop a bridging slot holds a record only at the anchor or where the pass allocates on demand, and soundly never an unassigned pointer |
| Builds.PassBuilds | stf/analysis/treefrog/main.cxx:177 | every bridge-building call of a pass finds a record in its target slot exactly when the pass allocates on demand and the target has halos |
| Builds.BuildOnce | stf/analysis/treefrog/main.cxx:146-187 | each scheduled bridge-building call occurs once in a pass, finding a record in its target exactly when the pass allocates on demand and the target has halos, and no call occurs with the other outcome or unscheduled |
| Progenitors.ProgenitorPass | stf/analysis/treefrog/main.cxx:114-244 | the imperative progenitor pass leaves exactly the lists, bridging array and calls of `Linking.Pass` |
| Progenitors.Allocate | stf/analysis/treefrog/main.cxx:119-132 | the arrays are allocated as `Linking.Setup` describes |
| Progenitors.Visit | stf/analysis/treefrog/main.cxx:139-219 | one turn of the loop is `Linking.Iter`, and the membership buffer is zero again afterwards |
| Progenitors.AllocAhead | stf/analysis/treefrog/main.cxx:146-149 | the on-demand allocation is `Linking.Allocs` |
| Progenitors.StepLoop | stf/analysis/treefrog/main.cxx:153-198 | the steps of one snapshot are `Linking.Steps`, and the membership buffer is zero again afterwards |
| Progenitors.LinkStep | stf/analysis/treefrog/main.cxx:155-197 | one step builds the index, makes the calls of `Linking.Link` and clears the index |
| Progenitors.FinalPass | stf/analysis/treefrog/main.cxx:225-242 | the final pass is `Linking.Final` |
| Descendants.DescendantPass | stf/analysis/treefrog/main.cxx:248-355 | under reading `rd`, the descendant pass leaves exactly the lists, bridging array and calls of `Linking.Pass`: under `AsWritten` the code as written, under `Intended` the mirror image of the progenitor pass |
| Descendants.Allocate | stf/analysis/treefrog/main.cxx:251-263 | the arrays are allocated as `Linking.Setup` describes for `rd`: as written the last bridging slot stays unassigned, under `Intended` every bridging slot starts NULL |
| Descendants.Visit | stf/analysis/treefrog/main.cxx:266-332 | one turn of the loop is `Linking.Iter` under `rd`, and the membership buffer is zero again afterwards; as written every local snapshot takes the step branch of line 271 |
| Descendants.AllocAhead | stf/analysis/treefrog/main.cxx:146-149 | the on-demand allocation, made only under `Intended`, is `Linking.Allocs` |
| Descendants.StepLoop | stf/analysis/treefrog/main.cxx:272-312 | the steps of one snapshot are `Linking.Steps` under `rd`, and the membership buffer is zero again afterwards |
| Descendants.LinkStep | stf/analysis/treefrog/main.cxx:273-311 | one step builds the index, makes the calls of `Linking.Link` under `rd` and clears the index; as written a deeper step cleans `pdescen[i]` |
| Descendants.FinalPass | stf/analysis/treefrog/main.cxx:336-352 | the final pass is `Linking.Final` under `rd`: as written the deleted slot keeps its pointer and line 348's write is logged, under `Intended` the deleted slot is NULLed |
| Findings.AsWrittenSlot | stf/analysis/treefrog/main.cxx:265-333 | as written, a descendant slot outside the window keeps its set-up value and events through the whole loop |
| Findings.DoubleFree | stf/analysis/treefrog/main.cxx:348 | as written, the first local descendant bridging record is allocated once and freed twice |
| Findings.UnsetAfterPass | stf/analysis/treefrog/main.cxx:258 | as written, the last descendant bridging slot leaves the pass unassigned and untouched |
| Findings.UnsetDelete | stf/analysis/treefrog/main.cxx:258 | as written, the release of memory deletes the last descendant bridging slot through an indeterminate pointer |
| Findings.LastListUnset | stf/analysis/treefrog/main.cxx:271 | as written, the last local descendant list is never assigned and is deleted through an indeterminate pointer |
| Findings.ListsAssigned | stf/analysis/treefrog/main.cxx:201 | soundly, every list slot is assigned, holds a list exactly when local with halos, is empty at the frontier, and is deleted once and never while unassigned |
| Findings.DeepCleanReference | stf/analysis/treefrog/main.cxx:301 | as written, a deeper descendant step with new candidates cleans the reference list and never the candidates |
| Findings.DeepCleanCandidates | stf/analysis/treefrog/main.cxx:185 | soundly, a deeper step with new candidates cleans the candidates and never the reference list |
| Findings.BuildsIntoNull | stf/analysis/treefrog/main.cxx:295 | as written, every descendant bridge-building call writes into a slot with no record |
| Findings.BuildsIntoRecords | stf/analysis/treefrog/main.cxx:147-148 | with on-demand allocation, a bridge-building call finds a record exactly when its target snapshot has halos |

## Left out

- Reading the catalogues, `MapPIDStoIndex`, `IDcheck` and `UpdateHaloIDs` are left out; lines 100-111 and 358 are not modelled. The ID bound that `IDcheck` enforces is the precondition `ValidInput`.
- Writing the trees, graphs and cross catalogues (lines 364-380) is left out. It is output only.
- Timing, `cout` and the `iverbose` messages are left out. They do not affect any state.
- MPI is only partly modelled: the local range `[StartSnap, EndSnap)` is a parameter, and the release of memory keeps the `USEMPI` range guard. `MPIUpdateProgenitorsUsingDescendants` and `MPIUpdateDescendantUsingProgenitors` (lines 228, 338), the MPI barriers and the `mpi_startsnap` arrays are not modelled.
- `CrossMatch`, `CrossMatchDescendant`, `CleanCrossMatch*`, `UpdateRef*`, `Build*BasedList` and `Clean*Using*` are not part of this model. Each call becomes an event naming its arguments, and the merit logic is not modelled. The one output the driver branches on, `ilistupdated > 0`, is the parameter `upd`: the pairs of snapshot and step whose update-mode cross match reported new candidates.
- The model assumes a frame for those calls. Each writes only inside the records it is handed. None reassigns, allocates or frees a slot of `pprogen`, `pdescen`, `pprogendescen` or `pdescenprogen`, so the slot lifetimes (and the claim at line 272) rest on this assumption. The arrays each call is handed:
  - `UpdateRefProgenitors` gets `pprogendescen` and `i` (line 186), and `UpdateRefDescendants` gets no bridging array (line 302). The `bridged` field of the `UpdateRef` event records this.
  - `Build*BasedList` gets the whole bridging array (lines 177, 187, 295, 303).
  - `CleanProgenitorsUsingDescendants` and `CleanDescendantsUsingProgenitors` get the bridging array and the list array (lines 213, 236, 326, 346).
- Membership.Floor: is the exact rational floor of `n * num / den`. Line 164 truncates the double product `n*particle_frac`, which can be one less: `particle_frac = 0.29` and `n = 100` give 28, not 29. All of `Membership` is stated for the exact product.
- Membership.CoreCount: its bounds are stated for the exact `Floor`, not for the double product of line 164 (see `Membership.Floor`).
- What a step does to the contents of a bridging record is left out. The record's slot is modelled, along with whether a record is present and the event for each build.
- The list slot's contents are modelled as the deepest merged steps and the halo count, not as per-halo progenitor data.
- `delete[] pprogentemp` / `delete[] pdescentemp` (lines 189, 305) and the freeing of `pfofp` / `pfofd` (lines 221, 334) are not logged. They are always paired with their allocation in the same scope.
- Freeing the outer pointer arrays (`delete[] pprogen`, lines 385, 401) is not logged.
- Line 348 writes NULL into `pprogendescen[i]`, an array of the progenitor pass, and is recorded as a `StrayNull(i)` event. When the progenitor pass also ran, its final pass (lines 233-238) has already NULLed every slot of `[StartSnap, EndSnap-1)`, so the write changes nothing. In a descendant-only run, `pprogendescen` (line 52) is never assigned, and the write goes through an uninitialised pointer. That undefined behaviour is not modelled beyond the event.
- Which passes run is chosen by `isearchdirection` (lines 114, 248, 383, 400). The model states each pass and its release separately, for the direction given.
- Descendants.AllocAhead: lines 248-355 have no counterpart of it. `Descendants.Visit` calls it only under `Intended`, as the correction of line 272.
- Memory exhaustion on `new` (`std::bad_alloc`) is not modelled.

## Findings

| source | as written | input that shows it | evidently intended | confidence | as-written member | corrected member |
|---|---|---|---|---|---|---|
| stf/analysis/treefrog/main.cxx:348 | after deleting `pdescenprogen[i]`, NULLs `pprogendescen[i]` | `numsteps = 2`, `StartSnap = 0 < EndSnap - 1`; the record at `StartSnap` is freed in the final pass and again at line 409; in a descendant-only run line 348 also writes through the uninitialised `pprogendescen` | `pdescenprogen[i]=NULL`, so each record is freed once | not executed | Findings.DoubleFree | Lifetime.BridgesBalanced |
| stf/analysis/treefrog/main.cxx:258 | initialises `pdescenprogen[0..numsnapshots-2]` only | `numsteps = 2`, `EndSnap = numsnapshots`, `StartSnap < EndSnap - 1`; line 409 deletes the unassigned last slot | loop to `numsnapshots`, as the progenitor loop at line 127 does | not executed | Findings.UnsetDelete | Lifetime.BridgesBalanced |
| stf/analysis/treefrog/main.cxx:271 | `i<=EndSnap` holds for every local snapshot, so the `else` at line 315 never runs | the last local snapshot has halos; `pdescen[EndSnap-1]` is never assigned and line 401 deletes it | `i<EndSnap-1`, mirroring `i>StartSnap` at line 151 | not executed | Findings.LastListUnset | Findings.ListsAssigned |
| stf/analysis/treefrog/main.cxx:301 | cleans `pdescen[i]` after a deeper update-mode match | a graph catalogue, `numsteps >= 2`, and a deeper step that reports new candidates | clean `pdescentemp`, as line 185 cleans `pprogentemp` | not executed | Findings.DeepCleanReference | Findings.DeepCleanCandidates |
| stf/analysis/treefrog/main.cxx:272 | no counterpart of lines 147-148: descendant bridging records other than `StartSnap` are never allocated | `numsteps = 2` and any two local snapshots with halos: line 295 builds into a slot holding no record, NULL, or unassigned for slot `numsnapshots-1` when `EndSnap = numsnapshots` | allocate the target slots on demand before the steps | not executed | Findings.BuildsIntoNull | Findings.BuildsIntoRecords |
