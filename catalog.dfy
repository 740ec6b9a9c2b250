/** Data handed to the TreeFrog driver: halo catalogues per snapshot and the run options it reads. */
module Catalog {

  datatype Option<T> = None | Some(value: T)

  /** An entry of a pfof membership buffer: the source stores it as `unsigned int`. */
  newtype u32 = x: int | 0 <= x < 0x1_0000_0000

  /** One halo: its member particle IDs in catalogue order (`ParticleID[0..NumberofParticles)`). */
  datatype Halo = Halo(ids: seq<nat>)

  /** One snapshot's catalogue (`pht[i]`): `numhalos` is `|halos|`, halo `j` has 1-based number `j+1`. */
  datatype Snapshot = Snapshot(halos: seq<Halo>)

  /** `particle_frac` as a rational `num/den`. */
  datatype Fraction = Fraction(num: int, den: int)

  /** `opt.icatalog`: merger tree, graph (DGRAPH) or raw cross catalogue (DCROSSCAT). */
  datatype CatalogKind = MergerTree | Graph | CrossCatalog

  /**
   * The options the driver reads. `startSnap`/`endSnap` are the local snapshot range `[StartSnap, EndSnap)`
   * (the whole run without MPI), `maxID` is `MaxIDValue`, the length of the pfof buffers.
   */
  datatype Config = Config(
    numsnapshots: nat,
    startSnap: nat,
    endSnap: nat,
    numsteps: int,
    frac: Fraction,
    minNumPart: int,
    maxID: nat,
    catalog: CatalogKind)

  /**
   * Options the driver relies on without checking them itself (argument parsing validates them);
   * `particle_frac` is a real number, so its fraction has a positive denominator.
   */
  predicate ValidConfig(c: Config)
  {
    && c.startSnap < c.endSnap <= c.numsnapshots
    && c.numsteps >= 1
    && c.frac.den > 0
  }

  /** Every particle ID of the snapshot addresses the buffer: what `IDcheck` enforces. */
  predicate IdsBelow(s: Snapshot, bound: nat)
  {
    forall j, k :: 0 <= j < |s.halos| && 0 <= k < |s.halos[j].ids| ==> s.halos[j].ids[k] < bound
  }

  /** Valid options and one catalogue per snapshot: what the schedule of the passes depends on. */
  predicate Fits(c: Config, pht: seq<Snapshot>)
  {
    ValidConfig(c) && |pht| == c.numsnapshots
  }

  /** A run's input: valid options, one catalogue per snapshot, all IDs below `MaxIDValue`. */
  predicate ValidInput(c: Config, pht: seq<Snapshot>)
  {
    && Fits(c, pht)
    && forall i :: 0 <= i < |pht| ==> IdsBelow(pht[i], c.maxID)
  }

  /** `pht[i].numhalos`. */
  function NumHalos(pht: seq<Snapshot>, i: int): nat
    requires 0 <= i < |pht|
  {
    |pht[i].halos|
  }
}
