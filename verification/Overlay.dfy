/**
 The border overlay: which pixels of a work window get painted once every window in front
 of it has been cut away.  Coordinates have the 32-bit type of the original, and every
 intermediate value of the executable bodies is declared with it, so that Dafny checks each
 one for overflow; the specifications speak about pixels and unbounded integers only.
 */
module Overlay {
  import opened Common

  type i32 = n: int | -0x8000_0000 <= n < 0x8000_0000

  const I32_MAX: int := 0x7FFF_FFFF

  /** A pixel of the (unbounded) desktop plane. */
  datatype Px = Px(x: int, y: int)

  datatype RectPx = RectPx(x: i32, y: i32, w: i32, h: i32) {
    /** The exclusive right edge, without any width limit. */
    function R(): int { x + w }

    /** The exclusive bottom edge, without any width limit. */
    function B(): int { y + h }

    /** Both far edges are representable, so `Right` and `Bottom` do not overflow. */
    predicate Fits() { -I32_MAX - 1 <= R() <= I32_MAX && -I32_MAX - 1 <= B() <= I32_MAX }

    function Right(): i32
      requires Fits()
    {
      x + w
    }

    function Bottom(): i32
      requires Fits()
    {
      y + h
    }

    predicate IsEmpty() { w <= 0 || h <= 0 }

    predicate Has(p: Px) { x <= p.x < R() && y <= p.y < B() }

    /** Number of pixels, 0 for an empty rectangle. */
    function Area(): nat { if IsEmpty() then 0 else Product(w, h) }

    /** Every pixel of `this` belongs to `outer`. */
    predicate Inside(outer: RectPx) {
      outer.x <= x && outer.y <= y && R() <= outer.R() && B() <= outer.B()
    }

    function Intersect(o: RectPx): (r: Option<RectPx>)
      requires Fits() && o.Fits()
      ensures r.Some? ==> !r.value.IsEmpty() && r.value.Fits() && r.value.Inside(this) && r.value.Inside(o)
      ensures forall p: Px :: (r.Some? && r.value.Has(p)) <==> Has(p) && o.Has(p)
    {
      var left := if x > o.x then x else o.x;
      var top := if y > o.y then y else o.y;
      var r := if Right() < o.Right() then Right() else o.Right();
      var b := if Bottom() < o.Bottom() then Bottom() else o.Bottom();
      if r > left && b > top then Some(RectPx(left, top, r - left, b - top)) else None
    }
  }

  function Product(a: int, b: int): (r: int)
    ensures a >= 0 && b >= 0 ==> r >= 0
  {
    a * b
  }

  /** No pixel is shared; stated on the edges so that it is linear arithmetic. */
  predicate Apart(a: RectPx, b: RectPx) {
    a.R() <= b.x || b.R() <= a.x || a.B() <= b.y || b.B() <= a.y
  }

  /** For non-empty rectangles, the edge condition is exactly "no common pixel". */
  lemma ApartIsNoCommonPixel(a: RectPx, b: RectPx)
    requires !a.IsEmpty() && !b.IsEmpty()
    ensures Apart(a, b) <==> forall p: Px :: !(a.Has(p) && b.Has(p))
  {
    if !Apart(a, b) {
      var p := Px(if a.x > b.x then a.x else b.x, if a.y > b.y then a.y else b.y);
      assert a.Has(p) && b.Has(p);
    }
  }

  // ----- regions: sequences of rectangles -----

  ghost predicate Covers(rs: seq<RectPx>, p: Px) {
    exists k :: 0 <= k < |rs| && rs[k].Has(p)
  }

  ghost predicate PairwiseApart(rs: seq<RectPx>) {
    forall i, j :: 0 <= i < j < |rs| ==> Apart(rs[i], rs[j])
  }

  /** Every piece is a real, representable rectangle within `outer`. */
  ghost predicate PiecesOf(rs: seq<RectPx>, outer: RectPx) {
    forall k :: 0 <= k < |rs| ==> !rs[k].IsEmpty() && rs[k].Fits() && rs[k].Inside(outer)
  }

  /** A region cut out of `outer`: pieces of it that do not overlap. */
  ghost predicate Region(rs: seq<RectPx>, outer: RectPx) {
    PiecesOf(rs, outer) && PairwiseApart(rs)
  }

  ghost function AreaOf(rs: seq<RectPx>): nat {
    if rs == [] then 0 else AreaOf(rs[..|rs| - 1]) + rs[|rs| - 1].Area()
  }

  lemma CoversConcat(a: seq<RectPx>, b: seq<RectPx>)
    ensures forall p: Px :: Covers(a + b, p) <==> Covers(a, p) || Covers(b, p)
  {
    forall p: Px ensures Covers(a + b, p) <==> Covers(a, p) || Covers(b, p) {
      if Covers(a, p) {
        var k :| 0 <= k < |a| && a[k].Has(p);
        assert (a + b)[k].Has(p);
      }
      if Covers(b, p) {
        var k :| 0 <= k < |b| && b[k].Has(p);
        assert (a + b)[|a| + k].Has(p);
      }
    }
  }

  lemma CoversOne(r: RectPx)
    ensures forall p: Px :: Covers([r], p) <==> r.Has(p)
  {
    forall p: Px | r.Has(p) ensures Covers([r], p) {
      assert [r][0].Has(p);
    }
  }

  lemma {:induction false} AreaConcat(a: seq<RectPx>, b: seq<RectPx>)
    ensures AreaOf(a + b) == AreaOf(a) + AreaOf(b)
    decreases |b|
  {
    if b == [] {
      assert a + b == a;
    } else {
      var n := |b| - 1;
      AreaConcat(a, b[..n]);
      assert (a + b)[..|a + b| - 1] == a + b[..n];
    }
  }

  /** Adding one rectangle to a region: what it does to coverage and area. */
  lemma Push(rs: seq<RectPx>, r: RectPx)
    ensures forall p: Px :: Covers(rs + [r], p) <==> Covers(rs, p) || r.Has(p)
    ensures AreaOf(rs + [r]) == AreaOf(rs) + r.Area()
  {
    CoversConcat(rs, [r]);
    CoversOne(r);
    assert (rs + [r])[..|rs + [r]| - 1] == rs;
  }

  // ----- cutting a hole out of a rectangle -----

  ghost function OverlapArea(a: RectPx, b: RectPx): nat
    requires a.Fits() && b.Fits()
  {
    match a.Intersect(b) case None => 0 case Some(ix) => ix.Area()
  }

  /** The four strips and the hole tile the rectangle. */
  lemma StripAreas(w: int, h: int, left: int, iw: int, top: int, ih: int)
    ensures Product(w, h) ==
            Product(w, top) + Product(w, h - top - ih) + Product(left, ih) + Product(w - left - iw, ih) + Product(iw, ih)
  {
    calc {
      Product(left, ih) + Product(w - left - iw, ih) + Product(iw, ih);
      left * ih + (w - left - iw) * ih + iw * ih;
      (left + (w - left - iw) + iw) * ih;
      w * ih;
    }
    calc {
      Product(w, top) + Product(w, h - top - ih) + w * ih;
      w * top + w * (h - top - ih) + w * ih;
      w * (top + (h - top - ih) + ih);
      Product(w, h);
    }
  }

  // The strips left above, below, left and right of a hole `ix` inside `a`; possibly empty.

  function StripAbove(a: RectPx, ix: RectPx): RectPx
    requires HoleIn(a, ix)
  {
    RectPx(a.x, a.y, a.w, ix.y - a.y)
  }

  function StripBelow(a: RectPx, ix: RectPx): RectPx
    requires HoleIn(a, ix)
  {
    RectPx(a.x, ix.Bottom(), a.w, a.Bottom() - ix.Bottom())
  }

  function StripLeft(a: RectPx, ix: RectPx): RectPx
    requires HoleIn(a, ix)
  {
    RectPx(a.x, ix.y, ix.x - a.x, ix.h)
  }

  function StripRight(a: RectPx, ix: RectPx): RectPx
    requires HoleIn(a, ix)
  {
    RectPx(ix.Right(), ix.y, a.Right() - ix.Right(), ix.h)
  }

  predicate HoleIn(a: RectPx, ix: RectPx) {
    a.Fits() && ix.Fits() && !a.IsEmpty() && !ix.IsEmpty() && ix.Inside(a)
  }

  lemma StripsPixels(a: RectPx, ix: RectPx, p: Px)
    requires HoleIn(a, ix)
    ensures (a.Has(p) && !ix.Has(p)) <==>
            (StripAbove(a, ix).Has(p) || StripBelow(a, ix).Has(p) || StripLeft(a, ix).Has(p) || StripRight(a, ix).Has(p))
  {
  }

  lemma StripsArea(a: RectPx, ix: RectPx)
    requires HoleIn(a, ix)
    ensures StripAbove(a, ix).Area() + StripBelow(a, ix).Area() + StripLeft(a, ix).Area() + StripRight(a, ix).Area()
            + ix.Area() == a.Area()
  {
    var left, top := ix.x - a.x, ix.y - a.y;
    StripAreas(a.w, a.h, left, ix.w, top, ix.h);
    AreaIsProduct(a); AreaIsProduct(ix);
    AreaIsProduct(StripAbove(a, ix)); AreaIsProduct(StripBelow(a, ix));
    AreaIsProduct(StripLeft(a, ix)); AreaIsProduct(StripRight(a, ix));
  }

  lemma AreaIsProduct(r: RectPx)
    requires r.w >= 0 && r.h >= 0
    ensures r.Area() == Product(r.w, r.h)
  {
  }

  ghost function Shown(r: RectPx): seq<RectPx> { if r.IsEmpty() then [] else [r] }

  ghost function Four(a: RectPx, b: RectPx, c: RectPx, d: RectPx): seq<RectPx> {
    Shown(a) + Shown(b) + Shown(c) + Shown(d)
  }

  /** Four rectangles, the empty ones skipped: coverage and area add up. */
  lemma FourCover(a: RectPx, b: RectPx, c: RectPx, d: RectPx)
    ensures forall p: Px :: Covers(Four(a, b, c, d), p) <==> a.Has(p) || b.Has(p) || c.Has(p) || d.Has(p)
    ensures AreaOf(Four(a, b, c, d)) == a.Area() + b.Area() + c.Area() + d.Area()
  {
    ShownCovers(a); ShownCovers(b); ShownCovers(c); ShownCovers(d);
    CoversConcat(Shown(a), Shown(b));
    CoversConcat(Shown(a) + Shown(b), Shown(c));
    CoversConcat(Shown(a) + Shown(b) + Shown(c), Shown(d));
    AreaConcat(Shown(a), Shown(b));
    AreaConcat(Shown(a) + Shown(b), Shown(c));
    AreaConcat(Shown(a) + Shown(b) + Shown(c), Shown(d));
  }

  lemma ShownCovers(r: RectPx)
    ensures forall p: Px :: Covers(Shown(r), p) <==> r.Has(p)
    ensures AreaOf(Shown(r)) == r.Area()
  {
    CoversOne(r);
    Push([], r);
  }

  /** Two regions whose pieces keep clear of each other form one region. */
  lemma RegionConcat(a: seq<RectPx>, b: seq<RectPx>, outer: RectPx)
    requires Region(a, outer) && Region(b, outer)
    requires forall i, j :: 0 <= i < |a| && 0 <= j < |b| ==> Apart(a[i], b[j])
    ensures Region(a + b, outer)
  {
  }

  lemma FourRegion(a: RectPx, b: RectPx, c: RectPx, d: RectPx, outer: RectPx)
    requires a.Fits() && b.Fits() && c.Fits() && d.Fits()
    requires a.Inside(outer) && b.Inside(outer) && c.Inside(outer) && d.Inside(outer)
    requires Apart(a, b) && Apart(a, c) && Apart(a, d) && Apart(b, c) && Apart(b, d) && Apart(c, d)
    ensures Region(Four(a, b, c, d), outer)
  {
    RegionConcat(Shown(a), Shown(b), outer);
    RegionConcat(Shown(a) + Shown(b), Shown(c), outer);
    RegionConcat(Shown(a) + Shown(b) + Shown(c), Shown(d), outer);
  }

  ghost function Strips(a: RectPx, ix: RectPx): seq<RectPx>
    requires HoleIn(a, ix)
  {
    Four(StripAbove(a, ix), StripBelow(a, ix), StripLeft(a, ix), StripRight(a, ix))
  }

  lemma StripsAreExact(a: RectPx, ix: RectPx)
    requires HoleIn(a, ix)
    ensures Region(Strips(a, ix), a)
    ensures forall p: Px :: Covers(Strips(a, ix), p) <==> a.Has(p) && !ix.Has(p)
    ensures AreaOf(Strips(a, ix)) + ix.Area() == a.Area()
  {
    FourRegion(StripAbove(a, ix), StripBelow(a, ix), StripLeft(a, ix), StripRight(a, ix), a);
    FourCover(StripAbove(a, ix), StripBelow(a, ix), StripLeft(a, ix), StripRight(a, ix));
    forall p: Px ensures Covers(Strips(a, ix), p) <==> a.Has(p) && !ix.Has(p) {
      StripsPixels(a, ix, p);
    }
    StripsArea(a, ix);
  }

  method Subtract(a: RectPx, hole: RectPx) returns (out: seq<RectPx>)
    requires a.Fits() && hole.Fits()
    ensures Region(out, a)
    ensures forall p: Px :: Covers(out, p) <==> a.Has(p) && !hole.Has(p)
    ensures AreaOf(out) + OverlapArea(a, hole) == a.Area()
  {
    var common := a.Intersect(hole);
    if common.None? {
      out := if a.IsEmpty() then [] else [a];
      ShownCovers(a);
      return;
    }
    out := CutAround(a, common.value);
    StripsAreExact(a, common.value);
  }

  /** The four conditional pushes. */
  method CutAround(a: RectPx, ix: RectPx) returns (out: seq<RectPx>)
    requires HoleIn(a, ix)
    ensures out == Strips(a, ix)
  {
    out := [];
    if ix.y > a.y {
      out := out + [RectPx(a.x, a.y, a.w, ix.y - a.y)];
    }
    assert out == Shown(StripAbove(a, ix));
    if ix.Bottom() < a.Bottom() {
      out := out + [RectPx(a.x, ix.Bottom(), a.w, a.Bottom() - ix.Bottom())];
    }
    assert out == Shown(StripAbove(a, ix)) + Shown(StripBelow(a, ix));
    if ix.x > a.x {
      out := out + [RectPx(a.x, ix.y, ix.x - a.x, ix.h)];
    }
    assert out == Shown(StripAbove(a, ix)) + Shown(StripBelow(a, ix)) + Shown(StripLeft(a, ix));
    if ix.Right() < a.Right() {
      out := out + [RectPx(ix.Right(), ix.y, a.Right() - ix.Right(), ix.h)];
    }
  }

  // ----- cutting a hole out of a region -----

  ghost function OverlapAreaOf(rs: seq<RectPx>, hole: RectPx): nat
    requires hole.Fits() && forall k :: 0 <= k < |rs| ==> rs[k].Fits()
  {
    if rs == [] then 0 else OverlapAreaOf(rs[..|rs| - 1], hole) + OverlapArea(rs[|rs| - 1], hole)
  }

  /** The pieces made so far keep clear of the rectangles still to come. */
  ghost predicate ClearOf(done: seq<RectPx>, region: seq<RectPx>, n: nat) {
    forall k, m :: 0 <= k < |done| && n <= m < |region| ==> Apart(done[k], region[m])
  }

  lemma InsideApart(piece: RectPx, outer: RectPx, other: RectPx)
    requires piece.Inside(outer) && Apart(outer, other)
    ensures Apart(piece, other) && Apart(other, piece)
  {
  }

  /** Adding the pieces of rectangle `n`: they overlap neither what is done nor what is to come. */
  lemma JoinPieces(done: seq<RectPx>, region: seq<RectPx>, n: nat, pieces: seq<RectPx>)
    requires n < |region| && PairwiseApart(region) && PairwiseApart(done) && Region(pieces, region[n])
    requires ClearOf(done, region, n)
    ensures PairwiseApart(done + pieces) && ClearOf(done + pieces, region, n + 1)
  {
    forall i, j | 0 <= i < |done| && 0 <= j < |pieces| ensures Apart(done[i], pieces[j]) {
      assert Apart(done[i], region[n]);
      InsideApart(pieces[j], region[n], done[i]);
    }
    forall j, m | 0 <= j < |pieces| && n + 1 <= m < |region| ensures Apart(pieces[j], region[m]) {
      InsideApart(pieces[j], region[n], region[m]);
    }
  }

  lemma PiecesConcat(a: seq<RectPx>, b: seq<RectPx>, outer: RectPx)
    requires PiecesOf(a, outer) && PiecesOf(b, outer)
    ensures PiecesOf(a + b, outer)
  {
  }

  lemma PiecesOfPiece(pieces: seq<RectPx>, piece: RectPx, outer: RectPx)
    requires PiecesOf(pieces, piece) && piece.Inside(outer)
    ensures PiecesOf(pieces, outer)
  {
  }

  lemma SubtractCovers(region: seq<RectPx>, n: nat, out: seq<RectPx>, pieces: seq<RectPx>, hole: RectPx)
    requires n < |region|
    requires forall p: Px :: Covers(out, p) <==> Covers(region[..n], p) && !hole.Has(p)
    requires forall p: Px :: Covers(pieces, p) <==> region[n].Has(p) && !hole.Has(p)
    ensures forall p: Px :: Covers(out + pieces, p) <==> Covers(region[..n + 1], p) && !hole.Has(p)
  {
    CoversConcat(out, pieces);
    assert region[..n + 1] == region[..n] + [region[n]];
    Push(region[..n], region[n]);
  }

  lemma SubtractArea(region: seq<RectPx>, n: nat, out: seq<RectPx>, pieces: seq<RectPx>, hole: RectPx)
    requires n < |region| && hole.Fits() && forall k :: 0 <= k < |region| ==> region[k].Fits()
    requires AreaOf(out) + OverlapAreaOf(region[..n], hole) == AreaOf(region[..n])
    requires AreaOf(pieces) + OverlapArea(region[n], hole) == region[n].Area()
    ensures AreaOf(out + pieces) + OverlapAreaOf(region[..n + 1], hole) == AreaOf(region[..n + 1])
  {
    AreaConcat(out, pieces);
    assert region[..n + 1][..n] == region[..n];
  }

  method RegionSubtract(region: seq<RectPx>, hole: RectPx, ghost outer: RectPx) returns (out: seq<RectPx>)
    requires Region(region, outer) && hole.Fits()
    ensures Region(out, outer)
    ensures forall p: Px :: Covers(out, p) <==> Covers(region, p) && !hole.Has(p)
    ensures AreaOf(out) + OverlapAreaOf(region, hole) == AreaOf(region)
  {
    out := [];
    for n := 0 to |region|
      invariant Region(out, outer) && ClearOf(out, region, n)
      invariant forall p: Px :: Covers(out, p) <==> Covers(region[..n], p) && !hole.Has(p)
      invariant AreaOf(out) + OverlapAreaOf(region[..n], hole) == AreaOf(region[..n])
    {
      var pieces := Subtract(region[n], hole);
      JoinPieces(out, region, n, pieces);
      PiecesOfPiece(pieces, region[n], outer);
      PiecesConcat(out, pieces, outer);
      SubtractCovers(region, n, out, pieces, hole);
      SubtractArea(region, n, out, pieces, hole);
      out := out + pieces;
    }
    assert region[..|region|] == region;
  }

  // ----- counting pixels -----

  ghost function Column(x: int, y: int, h: nat): (ps: set<Px>)
    ensures forall p: Px :: p in ps <==> p.x == x && y <= p.y < y + h
    ensures |ps| == h
  {
    if h == 0 then {} else Column(x, y, h - 1) + {Px(x, y + h - 1)}
  }

  ghost function Grid(x: int, y: int, w: nat, h: nat): (ps: set<Px>)
    ensures forall p: Px :: p in ps <==> x <= p.x < x + w && y <= p.y < y + h
    ensures |ps| == Product(w, h)
  {
    if w == 0 then {}
    else
      assert Product(w, h) == Product(w - 1, h) + h;
      assert Grid(x, y, w - 1, h) !! Column(x + w - 1, y, h);
      Grid(x, y, w - 1, h) + Column(x + w - 1, y, h)
  }

  ghost function Pixels(r: RectPx): (ps: set<Px>)
    ensures forall p: Px :: p in ps <==> r.Has(p)
    ensures |ps| == r.Area()
  {
    if r.IsEmpty() then {} else Grid(r.x, r.y, r.w, r.h)
  }

  ghost function PixelsOf(rs: seq<RectPx>): (ps: set<Px>) {
    if rs == [] then {} else PixelsOf(rs[..|rs| - 1]) + Pixels(rs[|rs| - 1])
  }

  /** `PixelsOf` is the finite set of covered pixels. */
  lemma {:induction false} PixelsAreCovered(rs: seq<RectPx>)
    ensures forall p: Px :: p in PixelsOf(rs) <==> Covers(rs, p)
  {
    if rs != [] {
      var init, last := rs[..|rs| - 1], rs[|rs| - 1];
      PixelsAreCovered(init);
      assert rs == init + [last];
      Push(init, last);
    }
  }

  /** Without overlaps, the number of pixels is the summed area. */
  lemma {:induction false} AreaCountsPixels(rs: seq<RectPx>)
    requires PairwiseApart(rs)
    ensures |PixelsOf(rs)| == AreaOf(rs)
  {
    if rs != [] {
      var init, last := rs[..|rs| - 1], rs[|rs| - 1];
      AreaCountsPixels(init);
      PixelsAreCovered(init);
      forall p | p in PixelsOf(init) ensures p !in Pixels(last) {
        var k :| 0 <= k < |init| && init[k].Has(p);
        assert Apart(rs[k], rs[|rs| - 1]);
      }
      assert PixelsOf(init) !! Pixels(last);
    }
  }

  /** Two non-overlapping regions with the same pixels have the same area, however they are cut. */
  lemma SamePixelsSameArea(a: seq<RectPx>, b: seq<RectPx>)
    requires PairwiseApart(a) && PairwiseApart(b)
    requires forall p: Px :: Covers(a, p) <==> Covers(b, p)
    ensures AreaOf(a) == AreaOf(b)
  {
    AreaCountsPixels(a);
    AreaCountsPixels(b);
    PixelsAreCovered(a);
    PixelsAreCovered(b);
    assert PixelsOf(a) == PixelsOf(b);
  }

  // ----- the border ring -----

  /** Within `thickness` pixels of one of the four edges. */
  ghost predicate NearEdge(r: RectPx, thickness: int, p: Px) {
    p.x < r.x + thickness || p.x >= r.R() - thickness || p.y < r.y + thickness || p.y >= r.B() - thickness
  }

  /** The pixels of the ring. */
  ghost predicate OnRing(r: RectPx, thickness: int, p: Px) {
    thickness > 0 && r.Has(p) && NearEdge(r, thickness, p)
  }

  function Min(a: i32, b: i32): i32 { if a < b then a else b }

  /** The band width that `ring` uses. */
  function BandWidth(r: RectPx, thickness: i32): i32 { Min(Min(thickness, r.w), r.h) }

  /** `ring` doubles the band width, which must fit. */
  predicate RingFits(r: RectPx, thickness: i32) { 2 * BandWidth(r, thickness) <= I32_MAX }

  /** Exactly when the bands of the ring do not overlap each other. */
  predicate BandsClear(r: RectPx, thickness: i32) {
    var t := BandWidth(r, thickness);
    || r.IsEmpty()
    || thickness <= 0
    || ((r.h <= t || 2 * t <= r.h) && (r.h <= 2 * t || r.w <= t || 2 * t <= r.w))
  }

  function Corner(r: RectPx): RectPx { RectPx(r.x, r.y, 0, 0) }

  predicate Bandable(r: RectPx, thickness: i32) { r.Fits() && !r.IsEmpty() && thickness > 0 }

  // The four bands; a band that `ring` leaves out is the empty rectangle `Corner`.

  function TopBand(r: RectPx, thickness: i32): RectPx
    requires Bandable(r, thickness)
  {
    RectPx(r.x, r.y, r.w, BandWidth(r, thickness))
  }

  function BottomBand(r: RectPx, thickness: i32): RectPx
    requires Bandable(r, thickness)
  {
    var t := BandWidth(r, thickness);
    if r.h > t then RectPx(r.x, r.Bottom() - t, r.w, t) else Corner(r)
  }

  function LeftBand(r: RectPx, thickness: i32): RectPx
    requires Bandable(r, thickness)
  {
    var t := BandWidth(r, thickness);
    if r.h - 2 * t > 0 then RectPx(r.x, r.y + t, t, r.h - 2 * t) else Corner(r)
  }

  function RightBand(r: RectPx, thickness: i32): RectPx
    requires Bandable(r, thickness)
  {
    var t := BandWidth(r, thickness);
    if r.h - 2 * t > 0 && r.w > t then RectPx(r.Right() - t, r.y + t, t, r.h - 2 * t) else Corner(r)
  }

  ghost function Bands(r: RectPx, thickness: i32): seq<RectPx>
    requires Bandable(r, thickness)
  {
    Four(TopBand(r, thickness), BottomBand(r, thickness), LeftBand(r, thickness), RightBand(r, thickness))
  }

  lemma BandsCoverRing(r: RectPx, thickness: i32)
    requires Bandable(r, thickness)
    ensures forall p: Px :: OnRing(r, thickness, p) <==>
              (TopBand(r, thickness).Has(p) || BottomBand(r, thickness).Has(p)
               || LeftBand(r, thickness).Has(p) || RightBand(r, thickness).Has(p))
  {
  }

  lemma BandsArePieces(r: RectPx, thickness: i32)
    requires Bandable(r, thickness)
    ensures PiecesOf(Bands(r, thickness), r)
  {
  }

  lemma BandsClearSuffices(r: RectPx, thickness: i32)
    requires Bandable(r, thickness) && BandsClear(r, thickness)
    ensures PairwiseApart(Bands(r, thickness))
  {
    FourRegion(TopBand(r, thickness), BottomBand(r, thickness), LeftBand(r, thickness), RightBand(r, thickness), r);
  }

  lemma BandsClearNeeded(r: RectPx, thickness: i32)
    requires Bandable(r, thickness) && !BandsClear(r, thickness)
    ensures !PairwiseApart(Bands(r, thickness))
  {
    var t := BandWidth(r, thickness);
    var bands := Bands(r, thickness);
    if r.h > t && 2 * t > r.h {
      assert bands[0] == TopBand(r, thickness) && bands[1] == BottomBand(r, thickness);
      assert !Apart(bands[0], bands[1]);
    } else {
      assert bands[2] == LeftBand(r, thickness) && bands[3] == RightBand(r, thickness);
      assert !Apart(bands[2], bands[3]);
    }
  }

  method Ring(r: RectPx, thickness: i32) returns (out: seq<RectPx>)
    requires r.Fits() && RingFits(r, thickness)
    ensures PiecesOf(out, r)
    ensures forall p: Px :: Covers(out, p) <==> OnRing(r, thickness, p)
    ensures PairwiseApart(out) <==> BandsClear(r, thickness)
  {
    if r.IsEmpty() || thickness <= 0 {
      return [];
    }
    out := BuildBands(r, thickness);
    BandsArePieces(r, thickness);
    BandsCoverRing(r, thickness);
    FourCover(TopBand(r, thickness), BottomBand(r, thickness), LeftBand(r, thickness), RightBand(r, thickness));
    if BandsClear(r, thickness) {
      BandsClearSuffices(r, thickness);
    } else {
      BandsClearNeeded(r, thickness);
    }
  }

  /** The pushes of `ring` for a window that has one. */
  method BuildBands(r: RectPx, thickness: i32) returns (out: seq<RectPx>)
    requires Bandable(r, thickness) && RingFits(r, thickness)
    ensures out == Bands(r, thickness)
  {
    var t: i32 := Min(Min(thickness, r.w), r.h);
    out := [RectPx(r.x, r.y, r.w, t)];
    assert out == Shown(TopBand(r, thickness));
    if r.h > t {
      out := out + [RectPx(r.x, r.Bottom() - t, r.w, t)];
    }
    assert out == Shown(TopBand(r, thickness)) + Shown(BottomBand(r, thickness));
    var twice: i32 := 2 * t;
    var midH: i32 := r.h - twice;
    if midH > 0 {
      var midY: i32 := r.y + t;
      out := out + [RectPx(r.x, midY, t, midH)];
      if r.w > t {
        out := out + [RectPx(r.Right() - t, midY, t, midH)];
      }
    }
  }

  lemma BandsArea(r: RectPx, t: i32)
    requires Bandable(r, t) && 2 * t <= r.w && 2 * t <= r.h
    ensures TopBand(r, t).Area() + BottomBand(r, t).Area() + LeftBand(r, t).Area() + RightBand(r, t).Area()
            == Product(r.w, r.h) - Product(r.w - 2 * t, r.h - 2 * t)
  {
    StripAreas(r.w, r.h, t, r.w - 2 * t, t, r.h - 2 * t);
    assert r.h - 2 * t == 0 ==> Product(t, r.h - 2 * t) == 0;
  }

  /** Any non-overlapping cut of a whole ring has the area of the window minus the inner rectangle. */
  lemma WholeRingArea(r: RectPx, thickness: i32, segments: seq<RectPx>)
    requires Bandable(r, thickness) && 2 * thickness <= r.w && 2 * thickness <= r.h
    requires PairwiseApart(segments)
    requires forall p: Px :: Covers(segments, p) <==> OnRing(r, thickness, p)
    ensures AreaOf(segments) == Product(r.w, r.h) - Product(r.w - 2 * thickness, r.h - 2 * thickness)
  {
    BandsClearSuffices(r, thickness);
    BandsCoverRing(r, thickness);
    FourCover(TopBand(r, thickness), BottomBand(r, thickness), LeftBand(r, thickness), RightBand(r, thickness));
    SamePixelsSameArea(segments, Bands(r, thickness));
    BandsArea(r, thickness);
  }

  // ----- frames -----

  type WindowId = nat

  datatype Rgba = Rgba(r: nat, g: nat, b: nat, a: nat)

  datatype WindowGeom = WindowGeom(window: WindowId, rect: RectPx)

  datatype Frame = Frame(window: WindowId, color: Rgba, segments: seq<RectPx>)

  /** No window in front of number `i` contains the pixel; windows are listed front to back. */
  ghost predicate Unoccluded(windows: seq<WindowGeom>, i: nat, p: Px)
    requires i <= |windows|
  {
    forall j :: 0 <= j < i ==> !windows[j].rect.Has(p)
  }

  /** The specification of the overlay: this pixel of window `i` gets the border colour. */
  ghost predicate Painted(windows: seq<WindowGeom>, i: nat, thickness: int, p: Px)
    requires i < |windows|
  {
    OnRing(windows[i].rect, thickness, p) && Unoccluded(windows, i, p)
  }

  /** What `frames_impl` needs so that no 32-bit value overflows. */
  ghost predicate AllFit(windows: seq<WindowGeom>, thickness: i32) {
    forall i :: 0 <= i < |windows| ==> windows[i].rect.Fits() && RingFits(windows[i].rect, thickness)
  }

  /** Coordinates and sizes below 2^30 in magnitude are enough, for any number of windows. */
  lemma SmallWindowsFit(windows: seq<WindowGeom>, thickness: i32)
    requires forall i :: 0 <= i < |windows| ==>
               var r := windows[i].rect;
               && -0x4000_0000 < r.x < 0x4000_0000 && -0x4000_0000 < r.y < 0x4000_0000
               && -0x4000_0000 < r.w < 0x4000_0000 && -0x4000_0000 < r.h < 0x4000_0000
    ensures AllFit(windows, thickness)
  {
    forall i | 0 <= i < |windows| ensures windows[i].rect.Fits() && RingFits(windows[i].rect, thickness) {
      var r := windows[i].rect;
      assert -0x4000_0000 < r.w < 0x4000_0000;
    }
  }

  /** The occlusion loop: what is left of window `i` behind the windows in front of it. */
  method VisibleParts(windows: seq<WindowGeom>, i: nat, ghost thickness: i32) returns (visible: seq<RectPx>)
    requires i < |windows| && AllFit(windows, thickness) && !windows[i].rect.IsEmpty()
    ensures Region(visible, windows[i].rect)
    ensures forall p: Px :: Covers(visible, p) <==> windows[i].rect.Has(p) && Unoccluded(windows, i, p)
  {
    var rect := windows[i].rect;
    visible := [rect];
    CoversOne(rect);
    for j := 0 to i
      invariant Region(visible, rect)
      invariant forall p: Px :: Covers(visible, p) <==> rect.Has(p) && Unoccluded(windows, j, p)
    {
      visible := RegionSubtract(visible, windows[j].rect, rect);
      assert forall p: Px :: Unoccluded(windows, j + 1, p) <==> Unoccluded(windows, j, p) && !windows[j].rect.Has(p);
      if visible == [] {
        assert forall p: Px :: Unoccluded(windows, i, p) ==> Unoccluded(windows, j + 1, p);
        assert forall p: Px :: !Covers(visible, p);
        break;
      }
    }
  }

  lemma SegmentCovers(visible: seq<RectPx>, n: nat, segs: seq<RectPx>, pieces: seq<RectPx>, band: RectPx)
    requires n < |visible|
    requires forall p: Px :: Covers(segs, p) <==> band.Has(p) && Covers(visible[..n], p)
    requires forall p: Px :: Covers(pieces, p) <==> band.Has(p) && visible[n].Has(p)
    ensures forall p: Px :: Covers(segs + pieces, p) <==> band.Has(p) && Covers(visible[..n + 1], p)
  {
    CoversConcat(segs, pieces);
    assert visible[..n + 1] == visible[..n] + [visible[n]];
    Push(visible[..n], visible[n]);
  }

  /** The intersection with one visible piece, as a list of at most one segment. */
  ghost function Overlap(band: RectPx, v: RectPx): (r: seq<RectPx>)
    requires band.Fits() && v.Fits()
    ensures PiecesOf(r, band) && PiecesOf(r, v) && PairwiseApart(r)
    ensures forall p: Px :: Covers(r, p) <==> band.Has(p) && v.Has(p)
  {
    match band.Intersect(v)
    case None => []
    case Some(seg) =>
      CoversOne(seg);
      [seg]
  }

  /** The visible part of one band. */
  method BandSegments(band: RectPx, visible: seq<RectPx>, ghost outer: RectPx) returns (segs: seq<RectPx>)
    requires Region(visible, outer) && band.Fits() && band.Inside(outer)
    ensures Region(segs, band)
    ensures forall p: Px :: Covers(segs, p) <==> band.Has(p) && Covers(visible, p)
  {
    segs := [];
    for n := 0 to |visible|
      invariant Region(segs, band) && ClearOf(segs, visible, n)
      invariant forall p: Px :: Covers(segs, p) <==> band.Has(p) && Covers(visible[..n], p)
    {
      ghost var before, pieces := segs, Overlap(band, visible[n]);
      JoinPieces(segs, visible, n, pieces);
      PiecesConcat(segs, pieces, band);
      SegmentCovers(visible, n, segs, pieces, band);
      var seg := band.Intersect(visible[n]);
      if seg.Some? {
        segs := segs + [seg.value];
      }
      assert segs == before + pieces;
    }
    assert visible[..|visible|] == visible;
  }

  /** The ring of a window, restricted to its visible parts. */
  method Segments(r: RectPx, thickness: i32, visible: seq<RectPx>) returns (segments: seq<RectPx>)
    requires r.Fits() && RingFits(r, thickness) && Region(visible, r)
    ensures PiecesOf(segments, r)
    ensures forall p: Px :: Covers(segments, p) <==> OnRing(r, thickness, p) && Covers(visible, p)
    ensures BandsClear(r, thickness) ==> PairwiseApart(segments)
  {
    var bands := Ring(r, thickness);
    segments := [];
    for n := 0 to |bands|
      invariant PiecesOf(segments, r)
      invariant forall p: Px :: Covers(segments, p) <==> Covers(bands[..n], p) && Covers(visible, p)
      invariant PairwiseApart(bands) ==> PairwiseApart(segments) && ClearOf(segments, bands, n)
    {
      var segs := BandSegments(bands[n], visible, r);
      assert bands[..n + 1] == bands[..n] + [bands[n]];
      Push(bands[..n], bands[n]);
      CoversConcat(segments, segs);
      PiecesOfPiece(segs, bands[n], r);
      PiecesConcat(segments, segs, r);
      if PairwiseApart(bands) {
        JoinPieces(segments, bands, n, segs);
      }
      segments := segments + segs;
    }
    assert bands[..|bands|] == bands;
  }

  /** Frame `f` is what window `i` must get. */
  ghost predicate FrameOf(f: Frame, windows: seq<WindowGeom>, i: nat, thickness: i32, colorOf: WindowId -> Rgba)
    requires i < |windows|
  {
    && f.window == windows[i].window
    && f.color == colorOf(f.window)
    && PiecesOf(f.segments, windows[i].rect)
    && (forall p: Px :: Covers(f.segments, p) <==> Painted(windows, i, thickness, p))
    && (BandsClear(windows[i].rect, thickness) ==> PairwiseApart(f.segments))
  }

  ghost predicate NeedsFrame(windows: seq<WindowGeom>, work: seq<WindowId>, i: nat, thickness: i32)
    requires i < |windows|
  {
    windows[i].window in work && exists p: Px :: Painted(windows, i, thickness, p)
  }

  /** The windows among the first `n` that get a frame, in window order. */
  ghost function Framed(windows: seq<WindowGeom>, work: seq<WindowId>, thickness: i32, n: nat): (r: seq<nat>)
    requires n <= |windows|
    ensures forall k :: 0 <= k < |r| ==> r[k] < n
    ensures forall j, k :: 0 <= j < k < |r| ==> r[j] < r[k]
    ensures forall i :: 0 <= i < n ==> (i in r <==> NeedsFrame(windows, work, i, thickness))
  {
    if n == 0 then []
    else
      Framed(windows, work, thickness, n - 1) +
      (if NeedsFrame(windows, work, n - 1, thickness) then [n - 1] else [])
  }

  /** One right frame for each of the windows listed in `at`, in that order. */
  ghost predicate FramesOf(
    frames: seq<Frame>, windows: seq<WindowGeom>, at: seq<nat>, thickness: i32, colorOf: WindowId -> Rgba)
    requires forall k :: 0 <= k < |at| ==> at[k] < |windows|
  {
    && |frames| == |at|
    && forall k :: 0 <= k < |frames| ==> FrameOf(frames[k], windows, at[k], thickness, colorOf)
  }

  /**
   Exactly the work windows that have a paintable pixel get a frame, in window order, and
   each frame paints exactly those pixels.
   */
  method FramesImpl(windows: seq<WindowGeom>, work: seq<WindowId>, thickness: i32, colorOf: WindowId -> Rgba)
    returns (frames: seq<Frame>)
    requires AllFit(windows, thickness)
    ensures FramesOf(frames, windows, Framed(windows, work, thickness, |windows|), thickness, colorOf)
  {
    frames := [];
    for i := 0 to |windows|
      invariant FramesOf(frames, windows, Framed(windows, work, thickness, i), thickness, colorOf)
    {
      var segments := VisibleSegments(windows, work, i, thickness);
      if segments != [] {
        frames := frames + [Frame(windows[i].window, colorOf(windows[i].window), segments)];
      }
    }
  }

  /** One turn of the outer loop; no segments, no frame. */
  method VisibleSegments(windows: seq<WindowGeom>, work: seq<WindowId>, i: nat, thickness: i32)
    returns (segments: seq<RectPx>)
    requires i < |windows| && AllFit(windows, thickness)
    ensures segments != [] <==> NeedsFrame(windows, work, i, thickness)
    ensures segments != [] ==>
              && PiecesOf(segments, windows[i].rect)
              && (forall p: Px :: Covers(segments, p) <==> Painted(windows, i, thickness, p))
              && (BandsClear(windows[i].rect, thickness) ==> PairwiseApart(segments))
  {
    var wg := windows[i];
    if wg.window !in work || wg.rect.IsEmpty() {
      return [];
    }
    var visible := VisibleParts(windows, i, thickness);
    if visible == [] {
      assert forall p: Px :: !Covers(visible, p);
      return [];
    }
    segments := Segments(wg.rect, thickness, visible);
    assert forall p: Px :: Covers(segments, p) <==> Painted(windows, i, thickness, p);
    if segments != [] {
      assert segments[0].Has(Px(segments[0].x, segments[0].y));
      assert Covers(segments, Px(segments[0].x, segments[0].y));
    } else {
      assert forall p: Px :: !Covers(segments, p);
    }
  }

  /** A frame whose window nothing overlaps, thick enough to have an inside. */
  lemma UnoccludedFrameArea(f: Frame, windows: seq<WindowGeom>, i: nat, thickness: i32, colorOf: WindowId -> Rgba)
    requires i < |windows| && AllFit(windows, thickness)
    requires Bandable(windows[i].rect, thickness) && FrameOf(f, windows, i, thickness, colorOf)
    requires 2 * thickness <= windows[i].rect.w && 2 * thickness <= windows[i].rect.h
    requires forall j :: 0 <= j < i ==> Apart(windows[j].rect, windows[i].rect)
    ensures PairwiseApart(f.segments)
    ensures AreaOf(f.segments) ==
            Product(windows[i].rect.w, windows[i].rect.h)
            - Product(windows[i].rect.w - 2 * thickness, windows[i].rect.h - 2 * thickness)
  {
    WholeRingArea(windows[i].rect, thickness, f.segments);
  }

  /** A frame's area is the number of pixels the specification paints. */
  lemma FrameAreaIsPixelCount(f: Frame, windows: seq<WindowGeom>, i: nat, thickness: i32, colorOf: WindowId -> Rgba)
    requires i < |windows| && BandsClear(windows[i].rect, thickness)
    requires FrameOf(f, windows, i, thickness, colorOf)
    ensures forall p: Px :: p in PixelsOf(f.segments) <==> Painted(windows, i, thickness, p)
    ensures |PixelsOf(f.segments)| == AreaOf(f.segments)
  {
    PixelsAreCovered(f.segments);
    AreaCountsPixels(f.segments);
  }

  /** A window thinner than two bands: the ring has overlapping bands, so its area over-counts. */
  lemma ThinWindowBandsOverlap()
    ensures var r := RectPx(0, 0, 10, 5);
            && !BandsClear(r, 3)
            && !PairwiseApart(Bands(r, 3))
  {
    BandsClearNeeded(RectPx(0, 0, 10, 5), 3);
  }
}
