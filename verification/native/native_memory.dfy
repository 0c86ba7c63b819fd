/** A flat memory as the native calls see it: 64-bit addresses, regions a caller hands in,
    and the two ways the code writes. */
module NativeMemory {
  import opened WireBytes

  type Cells = nat -> Byte

  const MAX_BYTES := 65536
  const LAST_ADDRESS := 0xFFFF_FFFF_FFFF_FFFF

  datatype Region = Region(at: U64, size: U64) {
    predicate Has(a: nat) { at <= a < at + size }

    /** Not null, within the limit, and not wrapping around the end of the memory. */
    predicate Span() { at != 0 && 0 < size <= MAX_BYTES && at <= LAST_ADDRESS - size }
  }

  predicate Overlaps(r: Region, s: Region) {
    r.at < s.at + s.size && s.at < r.at + r.size
  }

  /** Both are spans and share an address. */
  predicate Meets(r: Region, s: Region) {
    r.Span() && s.Span() && Overlaps(r, s)
  }

  /** Where a count is stored. */
  function CountAt(p: U64): Region { Region(p, 8) }

  predicate CountValid(p: U64) {
    CountAt(p).Span() && p % 8 == 0
  }

  /** Overlapping is sharing an address. */
  lemma OverlapsMeansShared(r: Region, s: Region)
    requires 0 < r.size && 0 < s.size
    ensures Overlaps(r, s) <==> exists a: nat :: r.Has(a) && s.Has(a)
  {
    if Overlaps(r, s) {
      var a := if r.at < s.at then s.at else r.at;
      assert r.Has(a) && s.Has(a);
    }
  }

  ghost predicate Zeroed(m: Cells, r: Region) {
    forall a: nat | r.Has(a) :: m(a) == 0
  }

  ghost predicate Same(m: Cells, n: Cells, r: Region) {
    forall a: nat | r.Has(a) :: n(a) == m(a)
  }

  /** The bytes b lie at p. */
  ghost predicate Stores(m: Cells, p: nat, b: Bytes) {
    forall i | 0 <= i < |b| :: m(p + i) == b[i]
  }

  /** A region to wipe if the condition holds. */
  datatype Wipe = Wipe(due: bool, region: Region)

  predicate Wiped(wipes: seq<Wipe>, a: nat) {
    exists w | w in wipes :: w.due && w.region.Has(a)
  }

  /** n is m with exactly the due regions zeroed. */
  ghost predicate WipedOnly(m: Cells, n: Cells, wipes: seq<Wipe>) {
    forall a: nat :: n(a) == if Wiped(wipes, a) then 0 else m(a)
  }

  /** What is due is zero afterwards, and what meets nothing due is as before. */
  lemma WipedMeans(m: Cells, n: Cells, wipes: seq<Wipe>, r: Region)
    requires WipedOnly(m, n, wipes)
    ensures Wipe(true, r) in wipes ==> Zeroed(n, r)
    ensures (forall w | w in wipes && w.due :: !Overlaps(w.region, r)) ==> Same(m, n, r)
  {
    forall a: nat | r.Has(a) && Wipe(true, r) in wipes ensures n(a) == 0 {
      assert Wiped(wipes, a);
    }
  }

  lemma NothingWiped(m: Cells)
    ensures WipedOnly(m, m, [])
  {
  }

  class Memory {
    var cells: Cells

    constructor (cells: Cells)
      ensures this.cells == cells
    {
      this.cells := cells;
    }

    method Put(p: nat, b: Bytes)
      modifies this
      ensures Stores(cells, p, b)
      ensures forall a: nat | !(p <= a < p + |b|) :: cells(a) == old(cells)(a)
    {
      var before := cells;
      cells := (a: nat) => if p <= a < p + |b| then b[a - p] else before(a);
    }

    method Zero(r: Region)
      modifies this
      ensures Zeroed(cells, r)
      ensures forall a: nat | !r.Has(a) :: cells(a) == old(cells)(a)
    {
      var before := cells;
      cells := (a: nat) => if r.Has(a) then 0 else before(a);
    }

    /** Zeroes the region if that is due. */
    method ZeroIf(due: bool, r: Region, ghost start: Cells, ghost wipes: seq<Wipe>)
      requires WipedOnly(start, cells, wipes)
      modifies this
      ensures WipedOnly(start, cells, wipes + [Wipe(due, r)])
    {
      ghost var before := cells;
      if due { Zero(r); }
      forall a: nat ensures Wiped(wipes + [Wipe(due, r)], a) == (Wiped(wipes, a) || (due && r.Has(a))) {
        WipedMore(wipes, Wipe(due, r), a);
      }
    }

    /** Somebody else writes anything into the region. */
    method Fill(r: Region)
      modifies this
      ensures forall a: nat | !r.Has(a) :: cells(a) == old(cells)(a)
    {
      var b: Bytes := *;
      if |b| == r.size { Put(r.at, b); }
    }
  }

  lemma WipedMore(wipes: seq<Wipe>, w: Wipe, a: nat)
    ensures Wiped(wipes + [w], a) == (Wiped(wipes, a) || (w.due && w.region.Has(a)))
  {
    if w.due && w.region.Has(a) { assert w in wipes + [w]; }
    if Wiped(wipes, a) {
      var v :| v in wipes && v.due && v.region.Has(a);
      assert v in wipes + [w];
    }
  }
}
