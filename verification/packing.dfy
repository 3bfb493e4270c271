/** The packing loop of CLImage's private `InitCLImage`: the NCHW source
    buffer is walked in row-major order and every element is converted to a
    half float and scattered into an RGBA buffer of Width * Height pixels.

    The destination of element (n, c, h, w) is lane c % 4 of pixel
    (row n * H + h, column w). There is no column offset for the channel
    block c / 4: channels c and c + 4 share a slot, the later write wins,
    and pixel columns W and beyond are never written. This module models
    that mapping as it is, not the one the layout's width was planned for. */
module Packing {
  import opened Arith
  import opened Layout

  /** A lane of the packed buffer: pixel row n * H + h, pixel column col,
      lane 0..3 of the RGBA pixel. */
  datatype Coord = Coord(n: nat, h: nat, col: nat, lane: nat)

  predicate InImage(s: Shape, q: Coord)
  {
    q.n < s.n && q.h < s.h && q.col < Width(s) && q.lane < 4
  }

  /** Flat index of a lane in the packed buffer. Every lane of the image
      lies inside the buffer of Size(s) half floats. */
  function Slot(s: Shape, q: Coord): (k: nat)
    requires InImage(s, q)
    ensures k < Size(s)
  {
    SlotBelowSize(s, q);
    ((q.n * s.h + q.h) * Width(s) + q.col) * 4 + q.lane
  }

  lemma SlotBelowSize(s: Shape, q: Coord)
    requires InImage(s, q)
    ensures ((q.n * s.h + q.h) * Width(s) + q.col) * 4 + q.lane < Size(s)
  {
    var row := q.n * s.h + q.h;
    RowColBelow(q.n, s.n, q.h, s.h);
    RowColBelow(row, s.n * s.h, q.col, Width(s));
    assert (s.n * s.h) * Width(s) == Width(s) * Height(s);
  }

  /** The lane stored at flat index k: the inverse of Slot. */
  function Locate(s: Shape, k: nat): (q: Coord)
    requires k < Size(s)
    ensures InImage(s, q)
    ensures Slot(s, q) == k
  {
    var width := Width(s);
    Unflatten(k, width, s.h, s.n);
    var pix := k / 4;
    var row := pix / width;
    Coord(row / s.h, row % s.h, pix % width, k % 4)
  }

  /** Locate undoes Slot: distinct lanes have distinct flat indices. */
  lemma LocateSlot(s: Shape, q: Coord)
    requires InImage(s, q)
    ensures Locate(s, Slot(s, q)) == q
  {
    var row := q.n * s.h + q.h;
    var pix := row * Width(s) + q.col;
    DivModUnique(pix, 4, q.lane);
    DivModUnique(row, Width(s), q.col);
    DivModUnique(q.n, s.h, q.h);
  }

  /** Distinct lanes of the image have distinct flat indices. */
  lemma SlotInjective(s: Shape, q: Coord, q': Coord)
    requires InImage(s, q) && InImage(s, q')
    ensures Slot(s, q) == Slot(s, q') ==> q == q'
  {
    LocateSlot(s, q);
    LocateSlot(s, q');
  }

  /** Index of element (n, c, h, w) in the row-major NCHW source buffer,
      the position of the walking source pointer. */
  function SrcIndex(s: Shape, n: nat, c: nat, h: nat, w: nat): (i: nat)
    requires n < s.n && c < s.c && h < s.h && w < s.w
    ensures i < Count(s)
  {
    RowColBelow(n, s.n, c, s.c);
    RowColBelow(n * s.c + c, s.n * s.c, h, s.h);
    RowColBelow((n * s.c + c) * s.h + h, s.n * s.c * s.h, w, s.w);
    ((n * s.c + c) * s.h + h) * s.w + w
  }

  /** The lane a channel is written to. */
  function LaneOf(c: nat): nat
  {
    c % 4
  }

  /** The channel whose value a lane holds once the channels below `bound`
      have been written: the highest c < bound with c % 4 == lane, or -1
      when there is none. */
  function Writer(lane: nat, bound: nat): (c: int)
    ensures -1 <= c < bound
    ensures c >= 0 ==> LaneOf(c) == lane
    ensures forall c': nat :: c < c' < bound ==> LaneOf(c') != lane
  {
    if bound == 0 then -1
    else if LaneOf(bound - 1) == lane then bound - 1
    else Writer(lane, bound - 1)
  }

  /** The value the packing loop leaves in flat index k: the highest channel
      of the lane's residue class at the same batch, row and column, if the
      column is one the walk reaches (col < W) and such a channel exists;
      otherwise the unwritten initial contents `fill`. */
  function PackedAt<F, H>(s: Shape, src: seq<F>, fill: seq<H>, toHalf: F -> H, k: nat): H
    requires |src| >= Count(s) && |fill| == Size(s) && k < Size(s)
  {
    var q := Locate(s, k);
    if q.col >= s.w then fill[k]
    else
      var c := Writer(q.lane, s.c);
      if c < 0 then fill[k] else toHalf(src[SrcIndex(s, q.n, c, q.h, q.col)])
  }

  /** The packed buffer as a whole, slot by slot. */
  function Packed<F, H>(s: Shape, src: seq<F>, fill: seq<H>, toHalf: F -> H): (r: seq<H>)
    requires |src| >= Count(s) && |fill| == Size(s)
    ensures |r| == Size(s)
  {
    seq(Size(s), k requires 0 <= k < Size(s) => PackedAt(s, src, fill, toHalf, k))
  }

  // ----- Progress of the walk, for the loop invariants -----

  /** Position (n, c, h, w) of the packing walk: every element before it in
      row-major NCHW order has been written. */
  datatype Cursor = Cursor(n: nat, c: nat, h: nat, w: nat)

  predicate Fits(s: Shape, at: Cursor)
  {
    at.c <= s.c && (at.c == s.c ==> at.h == 0 && at.w == 0)
  }

  /** How many channels of pixel (q.n, q.h, q.col) the walk has written
      when it stands at `at`. */
  function Done(s: Shape, q: Coord, at: Cursor): nat
  {
    if q.n < at.n then s.c
    else if q.n > at.n then 0
    else at.c + (if q.h < at.h || (q.h == at.h && q.col < at.w) then 1 else 0)
  }

  /** The value of flat index k when the walk stands at `at`. */
  function Partial<F, H>(s: Shape, src: seq<F>, fill: seq<H>, toHalf: F -> H, k: nat, at: Cursor): H
    requires |src| >= Count(s) && |fill| == Size(s) && k < Size(s) && Fits(s, at)
  {
    var q := Locate(s, k);
    if q.col >= s.w then fill[k]
    else
      var c := Writer(q.lane, Done(s, q, at));
      if c < 0 then fill[k] else toHalf(src[SrcIndex(s, q.n, c, q.h, q.col)])
  }

  ghost predicate Matches<F, H>(s: Shape, src: seq<F>, fill: seq<H>, toHalf: F -> H, out: seq<H>, at: Cursor)
    requires |src| >= Count(s) && |fill| == Size(s)
  {
    && Fits(s, at)
    && |out| == Size(s)
    && forall k | 0 <= k < Size(s) :: out[k] == Partial(s, src, fill, toHalf, k, at)
  }

  lemma StartMatches<F, H>(s: Shape, src: seq<F>, fill: seq<H>, toHalf: F -> H)
    requires |src| >= Count(s) && |fill| == Size(s)
    ensures Matches(s, src, fill, toHalf, fill, Cursor(0, 0, 0, 0))
  {
  }

  /** Writing element (n, c, h, w) to its slot advances the walk by one. */
  lemma WriteStep<F, H>(s: Shape, src: seq<F>, fill: seq<H>, toHalf: F -> H, out: seq<H>,
                        n: nat, c: nat, h: nat, w: nat)
    requires |src| >= Count(s) && |fill| == Size(s)
    requires n < s.n && c < s.c && h < s.h && w < s.w
    requires Matches(s, src, fill, toHalf, out, Cursor(n, c, h, w))
    ensures InImage(s, Coord(n, h, w, c % 4))
    ensures Matches(s, src, fill, toHalf,
                    out[Slot(s, Coord(n, h, w, c % 4)) := toHalf(src[SrcIndex(s, n, c, h, w)])],
                    Cursor(n, c, h, w + 1))
  {
    BlockFitsInRow(s);
    var q := Coord(n, h, w, c % 4);
    var i := Slot(s, q);
    var out' := out[i := toHalf(src[SrcIndex(s, n, c, h, w)])];
    LocateSlot(s, q);
    forall k | 0 <= k < Size(s)
      ensures out'[k] == Partial(s, src, fill, toHalf, k, Cursor(n, c, h, w + 1))
    {
      if k != i {
        assert Locate(s, k) != q;
      }
    }
  }

  lemma RowStep<F, H>(s: Shape, src: seq<F>, fill: seq<H>, toHalf: F -> H, out: seq<H>,
                      n: nat, c: nat, h: nat)
    requires |src| >= Count(s) && |fill| == Size(s) && c < s.c
    requires Matches(s, src, fill, toHalf, out, Cursor(n, c, h, s.w))
    ensures Matches(s, src, fill, toHalf, out, Cursor(n, c, h + 1, 0))
  {
    forall k | 0 <= k < Size(s)
      ensures Partial(s, src, fill, toHalf, k, Cursor(n, c, h, s.w))
           == Partial(s, src, fill, toHalf, k, Cursor(n, c, h + 1, 0))
    {
    }
  }

  lemma ChannelStep<F, H>(s: Shape, src: seq<F>, fill: seq<H>, toHalf: F -> H, out: seq<H>,
                          n: nat, c: nat)
    requires |src| >= Count(s) && |fill| == Size(s) && c < s.c
    requires Matches(s, src, fill, toHalf, out, Cursor(n, c, s.h, 0))
    ensures Matches(s, src, fill, toHalf, out, Cursor(n, c + 1, 0, 0))
  {
    forall k | 0 <= k < Size(s)
      ensures Partial(s, src, fill, toHalf, k, Cursor(n, c, s.h, 0))
           == Partial(s, src, fill, toHalf, k, Cursor(n, c + 1, 0, 0))
    {
    }
  }

  lemma BatchStep<F, H>(s: Shape, src: seq<F>, fill: seq<H>, toHalf: F -> H, out: seq<H>, n: nat)
    requires |src| >= Count(s) && |fill| == Size(s)
    requires Matches(s, src, fill, toHalf, out, Cursor(n, s.c, 0, 0))
    ensures Matches(s, src, fill, toHalf, out, Cursor(n + 1, 0, 0, 0))
  {
    forall k | 0 <= k < Size(s)
      ensures Partial(s, src, fill, toHalf, k, Cursor(n, s.c, 0, 0))
           == Partial(s, src, fill, toHalf, k, Cursor(n + 1, 0, 0, 0))
    {
    }
  }

  lemma EndMatches<F, H>(s: Shape, src: seq<F>, fill: seq<H>, toHalf: F -> H, out: seq<H>)
    requires |src| >= Count(s) && |fill| == Size(s)
    requires Matches(s, src, fill, toHalf, out, Cursor(s.n, 0, 0, 0))
    ensures out == Packed(s, src, fill, toHalf)
  {
    var r := Packed(s, src, fill, toHalf);
    forall k | 0 <= k < Size(s)
      ensures out[k] == r[k]
    {
    }
  }

  /** Where the source pointer p stands when the walk starts row h of
      channel c of batch n. */
  function SrcRowStart(s: Shape, n: nat, c: nat, h: nat): nat
  {
    ((n * s.c + c) * s.h + h) * s.w
  }

  /** The value of i1 when the walk starts row h of batch n: the first pixel
      of image row n * H + h. */
  function DstRowStart(s: Shape, n: nat, h: nat): nat
  {
    n * (Width(s) * s.h) + h * Width(s)
  }

  lemma SrcRowNext(s: Shape, n: nat, c: nat, h: nat)
    ensures SrcRowStart(s, n, c, h) + s.w == SrcRowStart(s, n, c, h + 1)
  {
    AddMul((n * s.c + c) * s.h + h, 1, s.w);
  }

  lemma SrcChannelNext(s: Shape, n: nat, c: nat)
    ensures SrcRowStart(s, n, c, s.h) == SrcRowStart(s, n, c + 1, 0)
  {
    AddMul(n * s.c + c, 1, s.h);
  }

  lemma SrcBatchNext(s: Shape, n: nat)
    ensures SrcRowStart(s, n, s.c, 0) == SrcRowStart(s, n + 1, 0, 0)
  {
    AddMul(n, 1, s.c);
  }

  lemma DstRowNext(s: Shape, n: nat, h: nat)
    ensures DstRowStart(s, n, h) + Width(s) == DstRowStart(s, n, h + 1)
  {
    AddMul(h, 1, Width(s));
  }

  lemma DstBatchNext(s: Shape, n: nat)
    ensures DstRowStart(s, n, 0) + Width(s) * s.h == DstRowStart(s, n + 1, 0)
  {
    AddMul(n, 1, Width(s) * s.h);
  }

  /** The innermost loop over w for one (n, c, h): i2 starts at
      (i1 << 2) + c % 4 and steps by one pixel, p steps by one element. */
  method PackRow<F, H>(s: Shape, src: seq<F>, fill: seq<H>, toHalf: F -> H, buf: seq<H>,
                       n: nat, c: nat, h: nat, i1: nat, p0: nat) returns (out: seq<H>, p: nat)
    requires |src| >= Count(s) && |fill| == Size(s)
    requires n < s.n && c < s.c && h < s.h
    requires i1 == DstRowStart(s, n, h) && p0 == SrcRowStart(s, n, c, h)
    requires Matches(s, src, fill, toHalf, buf, Cursor(n, c, h, 0))
    ensures Matches(s, src, fill, toHalf, out, Cursor(n, c, h + 1, 0))
    ensures p == p0 + s.w
  {
    out := buf;
    p := p0;
    var i2 := i1 * 4 + c % 4;
    var w := 0;
    while w < s.w
      invariant w <= s.w
      invariant i2 == i1 * 4 + c % 4 + 4 * w
      invariant p == p0 + w
      invariant Matches(s, src, fill, toHalf, out, Cursor(n, c, h, w))
    {
      WriteStep(s, src, fill, toHalf, out, n, c, h, w);
      assert i2 == Slot(s, Coord(n, h, w, c % 4)) by {
        RunningIndex(n, h, s.h, Width(s));
      }
      assert p == SrcIndex(s, n, c, h, w);
      assert i2 < Width(s) * Height(s) * 4;
      out := out[i2 := toHalf(src[p])];
      i2 := i2 + 4;
      p := p + 1;
      w := w + 1;
    }
    RowStep(s, src, fill, toHalf, out, n, c, h);
  }

  /** The loop over h for one (n, c): i1 restarts at i0 for every channel
      and steps by one image row; p ends at the first element of the next
      channel. */
  method PackChannel<F, H>(s: Shape, src: seq<F>, fill: seq<H>, toHalf: F -> H, buf: seq<H>,
                           n: nat, c: nat, i0: nat, p0: nat) returns (out: seq<H>, p: nat)
    requires |src| >= Count(s) && |fill| == Size(s)
    requires n < s.n && c < s.c
    requires i0 == DstRowStart(s, n, 0) && p0 == SrcRowStart(s, n, c, 0)
    requires Matches(s, src, fill, toHalf, buf, Cursor(n, c, 0, 0))
    ensures Matches(s, src, fill, toHalf, out, Cursor(n, c + 1, 0, 0))
    ensures p == SrcRowStart(s, n, c + 1, 0)
  {
    out := buf;
    p := p0;
    var i1 := i0;
    var h := 0;
    while h < s.h
      invariant h <= s.h
      invariant i1 == DstRowStart(s, n, h) && p == SrcRowStart(s, n, c, h)
      invariant Matches(s, src, fill, toHalf, out, Cursor(n, c, h, 0))
    {
      out, p := PackRow(s, src, fill, toHalf, out, n, c, h, i1, p);
      SrcRowNext(s, n, c, h);
      DstRowNext(s, n, h);
      i1 := i1 + Width(s);
      h := h + 1;
    }
    SrcChannelNext(s, n, c);
    ChannelStep(s, src, fill, toHalf, out, n, c);
  }

  /** The packing loop with the source's running indices: i0 is the first
      pixel of batch n, i1 the first pixel of row h, i2 the destination
      lane, p the source position. `fill` is the uninitialised content of
      the freshly allocated half-float buffer, and `toHalf` the float-to-half
      conversion. The result is the closed form Packed, and the destination
      index never reaches width * height * 4. */
  method PackImageData<F, H>(s: Shape, src: seq<F>, fill: seq<H>, toHalf: F -> H) returns (out: seq<H>)
    requires |src| >= Count(s) && |fill| == Size(s)
    ensures out == Packed(s, src, fill, toHalf)
  {
    out := fill;
    StartMatches(s, src, fill, toHalf);
    var p := 0;
    var i0 := 0;
    var n := 0;
    while n < s.n
      invariant n <= s.n
      invariant i0 == DstRowStart(s, n, 0) && p == SrcRowStart(s, n, 0, 0)
      invariant Matches(s, src, fill, toHalf, out, Cursor(n, 0, 0, 0))
    {
      var c := 0;
      while c < s.c
        invariant c <= s.c
        invariant p == SrcRowStart(s, n, c, 0)
        invariant Matches(s, src, fill, toHalf, out, Cursor(n, c, 0, 0))
      {
        out, p := PackChannel(s, src, fill, toHalf, out, n, c, i0, p);
        c := c + 1;
      }
      BatchStep(s, src, fill, toHalf, out, n);
      SrcBatchNext(s, n);
      DstBatchNext(s, n);
      i0 := i0 + Width(s) * s.h;
      n := n + 1;
    }
    EndMatches(s, src, fill, toHalf, out);
  }

  lemma RunningIndex(n: nat, h: nat, hs: nat, width: nat)
    ensures (n * hs + h) * width == n * (width * hs) + h * width
  {
  }

  // ----- What the packed buffer holds -----

  /** Source element (n, c, h, w) goes to lane c % 4 of pixel (n * H + h, w),
      which lies inside the buffer of width * height * 4 half floats. The
      slot ends up holding the highest channel of the same residue class
      modulo 4, which is c itself or a later one. */
  lemma PackedDestination<F, H>(s: Shape, src: seq<F>, fill: seq<H>, toHalf: F -> H,
                                n: nat, c: nat, h: nat, w: nat)
    requires |src| >= Count(s) && |fill| == Size(s)
    requires n < s.n && c < s.c && h < s.h && w < s.w
    ensures InImage(s, Coord(n, h, w, c % 4))
    ensures Slot(s, Coord(n, h, w, c % 4)) == ((n * s.h + h) * Width(s) + w) * 4 + c % 4
    ensures Slot(s, Coord(n, h, w, c % 4)) < Width(s) * Height(s) * 4
    ensures c <= Writer(c % 4, s.c) < s.c
    ensures Packed(s, src, fill, toHalf)[Slot(s, Coord(n, h, w, c % 4))]
         == toHalf(src[SrcIndex(s, n, Writer(c % 4, s.c), h, w)])
  {
    BlockFitsInRow(s);
    LocateSlot(s, Coord(n, h, w, c % 4));
    assert LaneOf(c) == c % 4;
  }

  /** A slot holds a converted source value exactly when its column is one
      the walk reaches (col < W) and its lane has a channel (lane < C);
      every other slot keeps the buffer's initial contents. */
  lemma PackedSlotOrigin<F, H>(s: Shape, src: seq<F>, fill: seq<H>, toHalf: F -> H, k: nat)
    requires |src| >= Count(s) && |fill| == Size(s) && k < Size(s)
    ensures var q := Locate(s, k);
      q.col < s.w && q.lane < s.c ==>
        0 <= Writer(q.lane, s.c) &&
        Packed(s, src, fill, toHalf)[k] == toHalf(src[SrcIndex(s, q.n, Writer(q.lane, s.c), q.h, q.col)])
    ensures var q := Locate(s, k);
      !(q.col < s.w && q.lane < s.c) ==> Packed(s, src, fill, toHalf)[k] == fill[k]
  {
    var q := Locate(s, k);
    SmallLanes();
    assert LaneOf(q.lane) == q.lane;
  }

  /** With at most four channels no two source elements share a slot, so
      every element is found, converted, at its own destination. */
  lemma SmallChannelsExact<F, H>(s: Shape, src: seq<F>, fill: seq<H>, toHalf: F -> H,
                                 n: nat, c: nat, h: nat, w: nat)
    requires |src| >= Count(s) && |fill| == Size(s) && s.c <= 4
    requires n < s.n && c < s.c && h < s.h && w < s.w
    ensures InImage(s, Coord(n, h, w, c))
    ensures Packed(s, src, fill, toHalf)[Slot(s, Coord(n, h, w, c))] == toHalf(src[SrcIndex(s, n, c, h, w)])
  {
    PackedDestination(s, src, fill, toHalf, n, c, h, w);
    SmallLanes();
    SmallWriter(c, s.c);
  }

  /** With at most four channels, channel c is the only one of its lane. */
  lemma SmallWriter(c: nat, bound: nat)
    requires c < bound <= 4
    ensures Writer(c, bound) == c
  {
    SmallLanes();
  }

  /** With at most four channels the destination mapping is injective:
      two source elements with the same destination are the same element. */
  lemma SmallChannelsInjective(s: Shape, n: nat, c: nat, h: nat, w: nat, n': nat, c': nat, h': nat, w': nat)
    requires s.c <= 4
    requires n < s.n && c < s.c && h < s.h && w < s.w
    requires n' < s.n && c' < s.c && h' < s.h && w' < s.w
    ensures InImage(s, Coord(n, h, w, c % 4)) && InImage(s, Coord(n', h', w', c' % 4))
    ensures Slot(s, Coord(n, h, w, c % 4)) == Slot(s, Coord(n', h', w', c' % 4)) ==>
      n == n' && c == c' && h == h' && w == w'
  {
    BlockFitsInRow(s);
    SlotInjective(s, Coord(n, h, w, c % 4), Coord(n', h', w', c' % 4));
    assert c % 4 == c && c' % 4 == c';
  }

  /** With more than four channels, channels c and c + 4 have the same
      destination, and the value left there is not channel c's: it comes
      from channel c + 4 or a later one. */
  lemma WideChannelsOverwrite<F, H>(s: Shape, src: seq<F>, fill: seq<H>, toHalf: F -> H,
                                    n: nat, c: nat, h: nat, w: nat)
    requires |src| >= Count(s) && |fill| == Size(s)
    requires n < s.n && c + 4 < s.c && h < s.h && w < s.w
    ensures InImage(s, Coord(n, h, w, c % 4))
    ensures (c + 4) % 4 == c % 4
    ensures c + 4 <= Writer(c % 4, s.c)
    ensures Packed(s, src, fill, toHalf)[Slot(s, Coord(n, h, w, c % 4))]
         == toHalf(src[SrcIndex(s, n, Writer(c % 4, s.c), h, w)])
  {
    PackedDestination(s, src, fill, toHalf, n, c + 4, h, w);
  }

  /** Pixel columns W and beyond are never written. */
  lemma OuterColumnsUnwritten<F, H>(s: Shape, src: seq<F>, fill: seq<H>, toHalf: F -> H, q: Coord)
    requires |src| >= Count(s) && |fill| == Size(s)
    requires InImage(s, q) && q.col >= s.w
    ensures Packed(s, src, fill, toHalf)[Slot(s, q)] == fill[Slot(s, q)]
  {
    LocateSlot(s, q);
  }

  /** Lanes at or beyond C, in pixels of a shape with fewer than four
      channels, are never written. */
  lemma UnusedLanesUnwritten<F, H>(s: Shape, src: seq<F>, fill: seq<H>, toHalf: F -> H, q: Coord)
    requires |src| >= Count(s) && |fill| == Size(s)
    requires InImage(s, q) && q.lane >= s.c
    ensures Packed(s, src, fill, toHalf)[Slot(s, q)] == fill[Slot(s, q)]
  {
    LocateSlot(s, q);
    SmallLanes();
  }

  /** Channels below four are their own lanes. */
  lemma SmallLanes()
    ensures forall c: nat :: c < 4 ==> LaneOf(c) == c
  {
  }

  /** Scenario: five channels, e.g. shape (1, 5, 2, 3). The image is two
      channel blocks wide, but at every pixel (n * H + h, w) of the first
      block lane 0 holds channel 4 (channel 0 was overwritten) and lanes 1
      to 3 hold channels 1 to 3, while the pixel (n * H + h, W + w) of the
      second block keeps its initial contents in every lane. */
  lemma FiveChannelScenario<F, H>(s: Shape, src: seq<F>, fill: seq<H>, toHalf: F -> H,
                                  n: nat, h: nat, w: nat)
    requires s.c == 5 && |src| >= Count(s) && |fill| == Size(s)
    requires n < s.n && h < s.h && w < s.w
    ensures Width(s) == 2 * s.w
    ensures InImage(s, Coord(n, h, w, 0))
    ensures Packed(s, src, fill, toHalf)[Slot(s, Coord(n, h, w, 0))] == toHalf(src[SrcIndex(s, n, 4, h, w)])
    ensures forall lane: nat | 1 <= lane < 4 ::
      InImage(s, Coord(n, h, w, lane)) &&
      Packed(s, src, fill, toHalf)[Slot(s, Coord(n, h, w, lane))] == toHalf(src[SrcIndex(s, n, lane, h, w)])
    ensures forall q: Coord | q.n == n && q.h == h && q.col == s.w + w && q.lane < 4 ::
      InImage(s, q) && Packed(s, src, fill, toHalf)[Slot(s, q)] == fill[Slot(s, q)]
  {
    FiveChannelFirstLane(s, src, fill, toHalf, n, h, w);
    FiveChannelOtherLanes(s, src, fill, toHalf, n, h, w);
    FiveChannelSecondBlock(s, src, fill, toHalf, n, h, w);
  }

  lemma FiveChannelFirstLane<F, H>(s: Shape, src: seq<F>, fill: seq<H>, toHalf: F -> H,
                                   n: nat, h: nat, w: nat)
    requires s.c == 5 && |src| >= Count(s) && |fill| == Size(s)
    requires n < s.n && h < s.h && w < s.w
    ensures InImage(s, Coord(n, h, w, 0))
    ensures Packed(s, src, fill, toHalf)[Slot(s, Coord(n, h, w, 0))] == toHalf(src[SrcIndex(s, n, 4, h, w)])
  {
    WritersOfFiveChannels();
    PackedDestination(s, src, fill, toHalf, n, 0, h, w);
  }

  lemma FiveChannelOtherLanes<F, H>(s: Shape, src: seq<F>, fill: seq<H>, toHalf: F -> H,
                                    n: nat, h: nat, w: nat)
    requires s.c == 5 && |src| >= Count(s) && |fill| == Size(s)
    requires n < s.n && h < s.h && w < s.w
    ensures forall lane: nat | 1 <= lane < 4 ::
      InImage(s, Coord(n, h, w, lane)) &&
      Packed(s, src, fill, toHalf)[Slot(s, Coord(n, h, w, lane))] == toHalf(src[SrcIndex(s, n, lane, h, w)])
  {
    forall lane: nat | 1 <= lane < 4
      ensures InImage(s, Coord(n, h, w, lane))
      ensures Packed(s, src, fill, toHalf)[Slot(s, Coord(n, h, w, lane))] == toHalf(src[SrcIndex(s, n, lane, h, w)])
    {
      WritersOfFiveChannels();
      assert lane % 4 == lane;
      PackedDestination(s, src, fill, toHalf, n, lane, h, w);
    }
  }

  lemma FiveChannelSecondBlock<F, H>(s: Shape, src: seq<F>, fill: seq<H>, toHalf: F -> H,
                                     n: nat, h: nat, w: nat)
    requires s.c == 5 && |src| >= Count(s) && |fill| == Size(s)
    requires n < s.n && h < s.h && w < s.w
    ensures Width(s) == 2 * s.w
    ensures forall q: Coord | q.n == n && q.h == h && q.col == s.w + w && q.lane < 4 ::
      InImage(s, q) && Packed(s, src, fill, toHalf)[Slot(s, q)] == fill[Slot(s, q)]
  {
    assert ChannelBlocks(s.c) == 2;
    forall q: Coord | q.n == n && q.h == h && q.col == s.w + w && q.lane < 4
      ensures InImage(s, q) && Packed(s, src, fill, toHalf)[Slot(s, q)] == fill[Slot(s, q)]
    {
      OuterColumnsUnwritten(s, src, fill, toHalf, q);
    }
  }

  lemma WritersOfFiveChannels()
    ensures Writer(0, 5) == 4 && Writer(1, 5) == 1 && Writer(2, 5) == 2 && Writer(3, 5) == 3
  {
  }

  /** Scenario: a rank-1 shape (C) with at most four channels, e.g. (4),
      packs into a single pixel with channel c in lane c; lanes C to 3 keep
      their initial contents. */
  lemma VectorScenario<F, H>(d: Dims, src: seq<F>, fill: seq<H>, toHalf: F -> H)
    requires |d| == 1 && 0 < d[0] <= 4 && |src| >= d[0] && |fill| == 4
    ensures Size(ShapeOf(d)) == 4
    ensures forall c: nat | c < d[0] :: Packed(ShapeOf(d), src, fill, toHalf)[c] == toHalf(src[c])
    ensures forall k: nat | d[0] <= k < 4 :: Packed(ShapeOf(d), src, fill, toHalf)[k] == fill[k]
  {
    var s := ShapeOf(d);
    assert s == Shape(1, d[0], 1, 1);
    assert Width(s) == 1;
    forall c: nat | c < d[0]
      ensures Packed(s, src, fill, toHalf)[c] == toHalf(src[c])
    {
      SmallChannelsExact(s, src, fill, toHalf, 0, c, 0, 0);
      assert Slot(s, Coord(0, 0, 0, c)) == c;
      assert SrcIndex(s, 0, c, 0, 0) == c;
    }
    forall k: nat | d[0] <= k < 4
      ensures Packed(s, src, fill, toHalf)[k] == fill[k]
    {
      UnusedLanesUnwritten(s, src, fill, toHalf, Coord(0, 0, 0, k));
      assert Slot(s, Coord(0, 0, 0, k)) == k;
    }
  }
}
