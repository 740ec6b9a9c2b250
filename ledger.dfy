/**
 * State shared by both linking passes of the driver: its pointer arrays, seen slot by slot, and the log of
 * calls it makes into the cross-matching and cleaning routines, whose bodies are not part of this model.
 */
module Ledger {
  import opened Catalog

  /** A slot of a pointer array: never assigned (`new T*[n]` leaves it indeterminate), NULL, or owning an array. */
  datatype Slot<T> = Unset | Null | Live(item: T)

  /**
   * A `ProgenitorData[]` / `DescendantData[]` list of one snapshot: allocated empty, or produced by the
   * step-1 cross match, with `depths` the step depths whose candidates have been merged into it, in order.
   */
  datatype LinkList = Empty(size: nat) | Linked(size: nat, depths: seq<nat>)

  /** Which pass: progenitors (walking down through the snapshots) or descendants (walking up). */
  datatype Dir = Progenitor | Descendant

  /** The list a `CleanCrossMatch*` call works on: the snapshot's reference list or the temporary candidates. */
  datatype Held = ReferenceList | CandidateList

  /** Which pointer array a `delete[]` goes through: the link lists or the step-bridging records. */
  datatype Store = Lists | Bridges

  /** One call the driver makes, or one `new`/`delete[]` it performs on a step-bridging slot or a list. */
  datatype Event =
    | CrossMatch(dir: Dir, snap: int, other: int, step: int, pfof: seq<u32>)
    | CleanCrossMatch(dir: Dir, snap: int, other: int, list: Held)
    | UpdateRef(dir: Dir, snap: int, step: int, bridged: bool)  // `bridged`: handed the bridging array as well
    | BuildBridge(dir: Dir, snap: int, other: int, step: int, targetLive: bool)
    | Alloc(dir: Dir, slot: int)
    | CleanUsingBridge(dir: Dir, slot: int, live: bool)
    | Free(dir: Dir, store: Store, slot: int)
    | FreeUnset(dir: Dir, store: Store, slot: int)
    | StrayNull(slot: int)

  /** One pass's pointer arrays (`pprogen` with `pprogendescen`, or `pdescen` with `pdescenprogen`) and its log. */
  datatype PassState = PassState(lists: seq<Slot<LinkList>>, bridges: seq<Slot<nat>>, log: seq<Event>)

  /** How often `e` occurs in `log`. */
  function Count(log: seq<Event>, e: Event): nat
  {
    if |log| == 0 then 0 else Count(log[..|log| - 1], e) + (if log[|log| - 1] == e then 1 else 0)
  }

  /** The count over two logs one after the other is the sum of their counts. */
  lemma {:induction false} CountAppend(a: seq<Event>, b: seq<Event>, e: Event)
    ensures Count(a + b, e) == Count(a, e) + Count(b, e)
    decreases |b|
  {
    if |b| == 0 {
      assert a + b == a;
    } else {
      var b' := b[..|b| - 1];
      assert (a + b)[..|a + b| - 1] == a + b';
      CountAppend(a, b', e);
    }
  }

  lemma CountSingle(x: Event, e: Event)
    ensures Count([x], e) == if x == e then 1 else 0
  {
    assert [x][..0] == [];
  }

  /** An event that does not occur in a log has count zero there. */
  lemma {:induction false} CountOutside(log: seq<Event>, e: Event)
    requires forall k :: 0 <= k < |log| ==> log[k] != e
    ensures Count(log, e) == 0
    decreases |log|
  {
    if |log| > 0 {
      CountOutside(log[..|log| - 1], e);
    }
  }

  /** What `delete[]` on the slot amounts to: a free, nothing for NULL, or a delete through an indeterminate pointer. */
  function Deleted<T>(dir: Dir, store: Store, slot: int, p: Slot<T>): seq<Event>
  {
    match p
    case Live(_) => [Free(dir, store, slot)]
    case Null => []
    case Unset => [FreeUnset(dir, store, slot)]
  }

  /** A deeper step's candidates merged into a list by `UpdateRef*`; any other slot is left as it is. */
  function Merge(p: Slot<LinkList>, step: nat): Slot<LinkList>
  {
    match p
    case Live(Linked(size, depths)) => Live(Linked(size, depths + [step]))
    case _ => p
  }
}
