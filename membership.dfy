/**
 * The particle-membership index (`pfofp` / `pfofd`): a flat buffer indexed by particle ID that, while one
 * comparison pass is active, maps each particle of the neighbour snapshot to the 1-based number of the halo
 * that owns it, or to that number plus `numhalos` for the leading "core" particles of the halo.
 */
module Membership {
  import opened Catalog

  /** The value actually stored when the driver writes the integer `v` into an `unsigned int` entry. */
  function Marker(v: nat): u32
  {
    (v % 0x1_0000_0000) as u32
  }

  /**
   * The halo whose write to entry `id` comes last when the halos are written in order `0, 1, ...`:
   * the highest-numbered halo listing `id`.
   */
  function LastOwner(halos: seq<Halo>, id: nat): (r: Option<nat>)
    ensures r.Some? ==> r.value < |halos| && id in halos[r.value].ids
    ensures r.Some? ==> forall j :: r.value < j < |halos| ==> id !in halos[j].ids
    ensures r.None? <==> forall j :: 0 <= j < |halos| ==> id !in halos[j].ids
  {
    if |halos| == 0 then None
    else if id in halos[|halos| - 1].ids then Some(|halos| - 1)
    else LastOwner(halos[..|halos| - 1], id)
  }

  /** Writing one more halo after `halos[..j]` overrides the owner of exactly that halo's IDs. */
  lemma LastOwnerSnoc(halos: seq<Halo>, j: nat, id: nat)
    requires j < |halos|
    ensures LastOwner(halos[..j + 1], id) == if id in halos[j].ids then Some(j) else LastOwner(halos[..j], id)
  {
    assert halos[..j + 1][..j] == halos[..j];
  }

  /** Core weighting is switched on by `0 < particle_frac < 1`. */
  predicate CoreWeighted(f: Fraction)
  {
    0 < f.num < f.den
  }

  /** `(Int_t)(n * particle_frac)`, a non-negative product truncated toward zero. */
  function Floor(n: nat, f: Fraction): int
    requires CoreWeighted(f)
  {
    n * f.num / f.den
  }

  /**
   * `newnp`: the number of leading particles of a halo of `n` particles that are marked as core,
   * `min(n, max(floor(n * f), min_numpart))`, stated as the four bounds that pin it down.
   */
  function CoreCount(n: nat, f: Fraction, minNumPart: int): (r: nat)
    requires CoreWeighted(f)
    ensures r <= n
    ensures r <= Floor(n, f) || r <= minNumPart
    ensures r >= Floor(n, f) || r == n
    ensures r >= minNumPart || r == n
    ensures 0 < n && minNumPart < n ==> r < n
  {
    FloorBelow(n, f);
    var np := if Floor(n, f) > minNumPart then Floor(n, f) else minNumPart;
    if n < np then n else np
  }

  /** With `0 < f < 1` the truncated product lies in `[0, n)` for a non-empty halo. */
  lemma FloorBelow(n: nat, f: Fraction)
    requires CoreWeighted(f)
    ensures 0 <= Floor(n, f) <= n
    ensures n > 0 ==> Floor(n, f) < n
  {
    var p := n * f.num;
    var d := f.den;
    var q := p / d;
    assert q * d + p % d == p && 0 <= p % d < d;
    MulBelow(n, f.num, d);
    MulCancel(q, n, d);
    MulCancelStrict(-1, q, d);
    if n > 0 {
      MulCancelStrict(q, n, d);
    }
  }

  lemma MulBelow(n: nat, a: int, b: int)
    requires 0 < a < b
    ensures 0 <= n * a <= n * b
    ensures n > 0 ==> n * a < n * b
  {
    assert n * b - n * a == n * (b - a);
    assert n * a >= 0;
  }

  lemma MulCancel(a: int, b: int, d: int)
    requires d > 0 && a * d <= b * d
    ensures a <= b
  {
    assert (b - a) * d == b * d - a * d >= 0;
  }

  lemma MulCancelStrict(a: int, b: int, d: int)
    requires d > 0 && a * d < b * d
    ensures a < b
  {
    assert (b - a) * d == b * d - a * d > 0;
  }

  /** Each halo cut down to its leading `newnp` particles: what the core-marking loop writes. */
  function CoreHalos(halos: seq<Halo>, f: Fraction, minNumPart: int): seq<Halo>
    requires CoreWeighted(f)
  {
    seq(|halos|, j requires 0 <= j < |halos| => Halo(halos[j].ids[..CoreCount(|halos[j].ids|, f, minNumPart)]))
  }

  /** The last core owner of `id`, when core weighting is on. */
  function CoreOwner(halos: seq<Halo>, f: Fraction, minNumPart: int, id: nat): Option<nat>
  {
    if CoreWeighted(f) then LastOwner(CoreHalos(halos, f, minNumPart), id) else None
  }

  /**
   * What the passes write for particle `id`, as an unbounded integer: `j+1+numhalos` for a core particle of
   * halo `j`, else `j+1` for a particle of halo `j`, else 0 (the entry is never written).
   */
  function Code(halos: seq<Halo>, f: Fraction, minNumPart: int, id: nat): nat
  {
    match CoreOwner(halos, f, minNumPart, id)
    case Some(j) => j + 1 + |halos|
    case None =>
      match LastOwner(halos, id)
      case Some(j) => j + 1
      case None => 0
  }

  /** The entry for particle `id` once the full-membership and (if enabled) the core pass have run. */
  function Entry(halos: seq<Halo>, f: Fraction, minNumPart: int, id: nat): u32
  {
    Marker(Code(halos, f, minNumPart, id))
  }

  /** The whole buffer built from a zeroed buffer for snapshot `s`. */
  function Index(s: Snapshot, c: Config): (r: seq<u32>)
    ensures |r| == c.maxID
  {
    seq(c.maxID, id requires 0 <= id < c.maxID => Entry(s.halos, c.frac, c.minNumPart, id))
  }

  /** A core particle of a halo is a particle of that halo. */
  lemma CoreOwnedIsOwned(halos: seq<Halo>, f: Fraction, minNumPart: int, id: nat)
    requires CoreOwner(halos, f, minNumPart, id).Some?
    ensures LastOwner(halos, id).Some?
  {
    var core := CoreHalos(halos, f, minNumPart);
    var j := LastOwner(core, id).value;
    assert id in halos[j].ids[..CoreCount(|halos[j].ids|, f, minNumPart)];
    assert id in halos[j].ids;
  }

  /** Particle IDs owned by no halo of the snapshot keep entry 0. */
  lemma IndexUnowned(s: Snapshot, c: Config, id: nat)
    requires id < c.maxID
    requires LastOwner(s.halos, id).None?
    ensures Index(s, c)[id] == 0
  {
    if CoreOwner(s.halos, c.frac, c.minNumPart, id).Some? {
      CoreOwnedIsOwned(s.halos, c.frac, c.minNumPart, id);
    }
  }

  /** Values below 2^32 are stored unchanged. */
  lemma MarkerExact(v: nat)
    requires v < 0x1_0000_0000
    ensures Marker(v) as int == v
  {
  }

  /**
   * While `2 * numhalos` fits in an `unsigned int`, the stored entry is the ownership code exactly (no
   * wrap-around), and lies in `[0, 2*numhalos]`.
   */
  lemma IndexDecodes(s: Snapshot, c: Config, id: nat)
    requires id < c.maxID
    requires 2 * |s.halos| < 0x1_0000_0000
    ensures Index(s, c)[id] as int == Code(s.halos, c.frac, c.minNumPart, id) <= 2 * |s.halos|
  {
    assert Index(s, c)[id] == Entry(s.halos, c.frac, c.minNumPart, id);
    CodeDecodes(s.halos, c.frac, c.minNumPart, id);
    MarkerExact(Code(s.halos, c.frac, c.minNumPart, id));
  }

  /**
   * A reader of the buffer recovers ownership from the code: 0 means unowned, `1..numhalos` names the last
   * owning halo, `numhalos+1..2*numhalos` the last core owner.
   */
  lemma CodeDecodes(halos: seq<Halo>, f: Fraction, minNumPart: int, id: nat)
    ensures Code(halos, f, minNumPart, id) <= 2 * |halos|
    ensures Code(halos, f, minNumPart, id) == 0 <==> LastOwner(halos, id).None?
    ensures 1 <= Code(halos, f, minNumPart, id) <= |halos| ==>
      LastOwner(halos, id) == Some(Code(halos, f, minNumPart, id) - 1)
    ensures |halos| < Code(halos, f, minNumPart, id) ==>
      CoreWeighted(f) && CoreOwner(halos, f, minNumPart, id) == Some(Code(halos, f, minNumPart, id) - 1 - |halos|)
  {
    var full := LastOwner(halos, id);
    var core := CoreOwner(halos, f, minNumPart, id);
    var code := Code(halos, f, minNumPart, id);
    if core.Some? {
      CoreOwnedIsOwned(halos, f, minNumPart, id);
      assert code == core.value + 1 + |halos|;
      assert CoreWeighted(f) && core.value < |halos|;
    } else if full.Some? {
      assert code == full.value + 1 <= |halos|;
    } else {
      assert code == 0;
    }
  }

  /** No particle ID occurs twice, within one halo or across halos. */
  predicate NoSharedIds(halos: seq<Halo>)
  {
    forall j1, k1, j2, k2 ::
      0 <= j1 < |halos| && 0 <= k1 < |halos[j1].ids| && 0 <= j2 < |halos| && 0 <= k2 < |halos[j2].ids|
      && halos[j1].ids[k1] == halos[j2].ids[k2]
      ==> j1 == j2 && k1 == k2
  }

  /**
   * For disjoint halos, halo `j`'s particle `k` is marked `j+1+numhalos` exactly when core weighting is on and
   * `k < newnp`, and `j+1` otherwise.
   */
  lemma IndexOfDisjointHalos(s: Snapshot, c: Config, j: nat, k: nat)
    requires NoSharedIds(s.halos)
    requires j < |s.halos| && k < |s.halos[j].ids| && s.halos[j].ids[k] < c.maxID
    ensures Index(s, c)[s.halos[j].ids[k]] ==
      if CoreWeighted(c.frac) && k < CoreCount(|s.halos[j].ids|, c.frac, c.minNumPart)
      then Marker(j + 1 + |s.halos|) else Marker(j + 1)
  {
    var id := s.halos[j].ids[k];
    var code := Code(s.halos, c.frac, c.minNumPart, id);
    assert Index(s, c)[id] == Marker(code);
    DisjointOwner(s.halos, j, k);
    if CoreWeighted(c.frac) {
      DisjointCoreOwner(s.halos, c.frac, c.minNumPart, j, k);
    }
    if CoreWeighted(c.frac) && k < CoreCount(|s.halos[j].ids|, c.frac, c.minNumPart) {
      assert CoreOwner(s.halos, c.frac, c.minNumPart, id) == Some(j);
      assert code == j + 1 + |s.halos|;
    } else {
      assert CoreOwner(s.halos, c.frac, c.minNumPart, id) == None;
      assert code == j + 1;
    }
  }

  /** With disjoint halos, the owner of halo `j`'s particle is `j`. */
  lemma DisjointOwner(halos: seq<Halo>, j: nat, k: nat)
    requires NoSharedIds(halos)
    requires j < |halos| && k < |halos[j].ids|
    ensures LastOwner(halos, halos[j].ids[k]) == Some(j)
  {
    var id := halos[j].ids[k];
    forall r | 0 <= r < |halos| && id in halos[r].ids ensures r == j {
      var kr :| 0 <= kr < |halos[r].ids| && halos[r].ids[kr] == id;
    }
    assert id in halos[j].ids;
  }

  /** With disjoint halos, halo `j`'s particle `k` is a core particle exactly when `k < newnp`, of halo `j`. */
  lemma DisjointCoreOwner(halos: seq<Halo>, f: Fraction, minNumPart: int, j: nat, k: nat)
    requires NoSharedIds(halos) && CoreWeighted(f)
    requires j < |halos| && k < |halos[j].ids|
    ensures LastOwner(CoreHalos(halos, f, minNumPart), halos[j].ids[k])
         == if k < CoreCount(|halos[j].ids|, f, minNumPart) then Some(j) else None
  {
    var id := halos[j].ids[k];
    var core := CoreHalos(halos, f, minNumPart);
    var n := CoreCount(|halos[j].ids|, f, minNumPart);
    forall r | 0 <= r < |core| && id in core[r].ids ensures r == j && k < n {
      var kr :| 0 <= kr < |core[r].ids| && core[r].ids[kr] == id;
      assert halos[r].ids[kr] == id;
    }
    if k < n {
      assert core[j].ids[k] == id;
    }
  }

  /** `for (i=0;i<MaxIDValue;i++) pfof[i]=0`. */
  method ZeroBuffer(buf: array<u32>)
    modifies buf
    ensures forall id :: 0 <= id < buf.Length ==> buf[id] == 0
  {
    for i := 0 to buf.Length
      invariant forall id :: 0 <= id < i ==> buf[id] == 0
    {
      buf[i] := 0;
    }
  }

  /** What entry `id` holds after the halos wrote `mark(j)` over the value `prior`: the last writer wins. */
  function Painted(halos: seq<Halo>, mark: nat -> u32, prior: u32, id: nat): u32
  {
    match LastOwner(halos, id) case Some(j) => mark(j) case None => prior
  }

  /**
   * The driver's nested write loop: for each halo `j` in order and each of its listed particles,
   * `pfof[ParticleID[k]] = mark(j)`. Entry `id` ends up with the mark of the last halo listing it.
   */
  method Paint(buf: array<u32>, halos: seq<Halo>, mark: nat -> u32)
    requires IdsBelow(Snapshot(halos), buf.Length)
    modifies buf
    ensures forall id :: 0 <= id < buf.Length ==> buf[id] == Painted(halos, mark, old(buf[id]), id)
  {
    for j := 0 to |halos|
      invariant forall id :: 0 <= id < buf.Length ==> buf[id] == Painted(halos[..j], mark, old(buf[id]), id)
    {
      var ids := halos[j].ids;
      for k := 0 to |ids|
        invariant forall id :: 0 <= id < buf.Length ==>
          buf[id] == if id in ids[..k] then mark(j) else Painted(halos[..j], mark, old(buf[id]), id)
      {
        assert ids[..k + 1] == ids[..k] + [ids[k]];
        buf[ids[k]] := mark(j);
      }
      assert ids[..|ids|] == ids;
      forall id | 0 <= id < buf.Length ensures buf[id] == Painted(halos[..j + 1], mark, old(buf[id]), id) {
        LastOwnerSnoc(halos, j, id);
      }
    }
    assert halos[..|halos|] == halos;
  }

  /**
   * Builds the membership index of snapshot `s` into a zeroed buffer: the full-membership pass
   * (main.cxx:157-159 / 275-277) and, with core weighting, the core pass (162-169 / 280-286).
   */
  method BuildIndex(buf: array<u32>, s: Snapshot, c: Config)
    requires buf.Length == c.maxID && IdsBelow(s, c.maxID)
    requires forall id :: 0 <= id < buf.Length ==> buf[id] == 0
    modifies buf
    ensures buf[..] == Index(s, c)
  {
    var nh := |s.halos|;
    var fullMark := (j: nat) => Marker(j + 1);
    Paint(buf, s.halos, fullMark);
    if 0 < c.frac.num < c.frac.den {
      ghost var full := buf[..];
      var core := CoreHalos(s.halos, c.frac, c.minNumPart);
      var coreMark := (j: nat) => Marker(j + 1 + nh);
      CoreIdsBelow(s, c.frac, c.minNumPart, buf.Length);
      Paint(buf, core, coreMark);
      forall id | 0 <= id < buf.Length ensures buf[id] == Index(s, c)[id] {
        CoreEntry(s.halos, c.frac, c.minNumPart, id, full[id], buf[id]);
      }
    } else {
      forall id | 0 <= id < buf.Length ensures buf[id] == Index(s, c)[id] {
        FullEntry(s.halos, c.frac, c.minNumPart, id, buf[id]);
      }
    }
    assert buf[..] == Index(s, c);
  }

  /** Without core weighting the full-membership pass alone leaves the entry of the index. */
  lemma FullEntry(halos: seq<Halo>, f: Fraction, minNumPart: int, id: nat, a: u32)
    requires !CoreWeighted(f) && a == Painted(halos, (j: nat) => Marker(j + 1), 0, id)
    ensures a == Entry(halos, f, minNumPart, id)
  {
  }

  /** The core pass over the full-membership entry `a` leaves `b`, the entry of the index. */
  lemma CoreEntry(halos: seq<Halo>, f: Fraction, minNumPart: int, id: nat, a: u32, b: u32)
    requires CoreWeighted(f) && a == Painted(halos, (j: nat) => Marker(j + 1), 0, id)
    requires b == Painted(CoreHalos(halos, f, minNumPart), (j: nat) => Marker(j + 1 + |halos|), a, id)
    ensures b == Entry(halos, f, minNumPart, id)
  {
  }

  lemma CoreIdsBelow(s: Snapshot, f: Fraction, minNumPart: int, bound: nat)
    requires CoreWeighted(f) && IdsBelow(s, bound)
    ensures IdsBelow(Snapshot(CoreHalos(s.halos, f, minNumPart)), bound)
  {
    var core := CoreHalos(s.halos, f, minNumPart);
    forall j, k | 0 <= j < |core| && 0 <= k < |core[j].ids| ensures core[j].ids[k] < bound {
      assert core[j].ids[k] == s.halos[j].ids[k];
    }
  }

  /**
   * The reset loop after each comparison (main.cxx:194-196 / 308-310): every entry of every particle of `s`
   * becomes 0 and no other entry changes; applied to the index of `s`, it leaves the buffer all zero.
   */
  method ClearIndex(buf: array<u32>, s: Snapshot, c: Config)
    requires buf.Length == c.maxID && IdsBelow(s, c.maxID)
    requires buf[..] == Index(s, c)
    modifies buf
    ensures forall id :: 0 <= id < buf.Length ==>
      buf[id] == if LastOwner(s.halos, id).Some? then 0 else old(buf[id])
    ensures forall id :: 0 <= id < buf.Length ==> buf[id] == 0
  {
    ghost var built := buf[..];
    Paint(buf, s.halos, (_: nat) => 0);
    forall id | 0 <= id < buf.Length ensures buf[id] == 0 {
      assert buf[id] == Painted(s.halos, (_: nat) => 0, built[id], id);
      if LastOwner(s.halos, id).None? {
        IndexUnowned(s, c, id);
        assert built[id] == 0;
      }
    }
  }
}
