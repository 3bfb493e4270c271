/** The layout planner of CLImage: how an NCHW tensor shape maps onto the
    extent of an RGBA image of half floats. Every channel block of four
    channels is one RGBA pixel; the image is W * ceil(C/4) pixels wide and
    H * N pixels high. */
module Layout {
  import opened Arith

  /** A tensor shape (the source's DDim): one extent per dimension.
      Extents are modelled as natural numbers. */
  type Dims = seq<nat>

  /** Number of elements of a tensor of shape d (`product(dim)`). */
  function Product(d: Dims): nat
  {
    if |d| == 0 then 1 else d[0] * Product(d[1..])
  }

  /** The planner interprets only rank-4 (N, C, H, W) and rank-1 (C) shapes;
      for any other rank the source leaves N, C, H and W uninitialised. */
  predicate SupportedRank(d: Dims)
  {
    |d| == 4 || |d| == 1
  }

  /** A shape read as batch, channels, height and width. */
  datatype Shape = Shape(n: nat, c: nat, h: nat, w: nat)

  /** Elements of a tensor of this shape, in the order of the packing walk. */
  function Count(s: Shape): nat
  {
    s.n * s.c * s.h * s.w
  }

  /** Reads N, C, H, W out of a shape. A rank-1 shape is a vector of channels
      with N = H = W = 1. The source's clamp of a negative N to 1 can never
      fire because N is unsigned, so there is no clamp here. */
  function ShapeOf(d: Dims): (s: Shape)
    requires SupportedRank(d)
    ensures |d| == 4 ==> s == Shape(d[0], d[1], d[2], d[3])
    ensures |d| == 1 ==> s == Shape(1, d[0], 1, 1)
    ensures Count(s) == Product(d)
  {
    if |d| == 4 then
      assert Product(d) == d[0] * (d[1] * (d[2] * d[3])) by {
        assert d[3..][1..] == [];
        assert Product(d[3..]) == d[3];
        assert d[2..][1..] == d[3..];
        assert Product(d[2..]) == d[2] * d[3];
        assert d[1..][1..] == d[2..];
        assert Product(d[1..]) == d[1] * (d[2] * d[3]);
      }
      Shape(d[0], d[1], d[2], d[3])
    else
      assert d[1..] == [];
      Shape(1, d[0], 1, 1)
  }

  /** Number of four-channel blocks needed for c channels, `(C + 3) / 4`. */
  function ChannelBlocks(c: nat): nat
  {
    (c + 3) / 4
  }

  /** Pixel width of the image. */
  function Width(s: Shape): nat
  {
    s.w * ChannelBlocks(s.c)
  }

  /** Pixel height of the image. */
  function Height(s: Shape): nat
  {
    s.h * s.n
  }

  /** Number of half floats in the packed host buffer, four per pixel. */
  function Size(s: Shape): nat
  {
    Width(s) * Height(s) * 4
  }

  /** ChannelBlocks(c) is the ceiling of c / 4: the blocks hold every
      channel and waste fewer than four lanes. */
  lemma ChannelBlocksIsCeiling(c: nat)
    ensures c <= 4 * ChannelBlocks(c) < c + 4
    ensures c > 0 ==> ChannelBlocks(c) > 0
  {
  }

  /** The planned extents of one image. */
  datatype ImageLayout = ImageLayout(width: nat, height: nat, widthOfOneBlock: nat, heightOfOneBlock: nat)
  {
    /** `ImageDims()`: the rank-2 shape [width, height]. */
    function ImageDims(): (d: Dims)
      ensures |d| == 2 && d[0] == width && d[1] == height
      ensures Product(d) == width * height
    {
      var d := [width, height];
      assert d[1..][1..] == [];
      assert Product(d[1..]) == height;
      d
    }
  }

  /** The planner part of the private `InitCLImage`: derives image width,
      height and the extents of one channel block from the tensor shape. */
  function Plan(d: Dims): (l: ImageLayout)
    requires SupportedRank(d)
    ensures |d| == 4 ==> l == ImageLayout(d[3] * ((d[1] + 3) / 4), d[2] * d[0], d[3], d[2])
    ensures |d| == 1 ==> l == ImageLayout((d[0] + 3) / 4, 1, 1, 1)
  {
    var s := ShapeOf(d);
    ImageLayout(Width(s), Height(s), s.w, s.h)
  }

  /** The planned image always has room for every element of the tensor:
      ceil(C/4) blocks of four lanes hold all C channels. */
  lemma PlanHasRoom(d: Dims)
    requires SupportedRank(d)
    ensures Product(d) <= Plan(d).width * Plan(d).height * 4
    ensures Plan(d).width * Plan(d).height * 4 == Size(ShapeOf(d))
  {
    var s := ShapeOf(d);
    ChannelBlocksIsCeiling(s.c);
    var cb := ChannelBlocks(s.c);
    MulMonotone(s.c, 4 * cb, s.n * s.h * s.w);
    assert Count(s) == s.c * (s.n * s.h * s.w);
    assert Size(s) == (4 * cb) * (s.n * s.h * s.w);
  }

  /** A pixel row holds every column of every channel block: W <= width
      whenever there is at least one channel. */
  lemma BlockFitsInRow(s: Shape)
    requires s.c > 0
    ensures s.w <= Width(s)
  {
    ChannelBlocksIsCeiling(s.c);
    MulMonotone(1, ChannelBlocks(s.c), s.w);
  }

  /** Scenario: shape (1, 5, 2, 3) has two channel blocks, a 6 x 2 image
      and 3 x 2 blocks. */
  lemma PlanFiveChannels()
    ensures Plan([1, 5, 2, 3]) == ImageLayout(6, 2, 3, 2)
    ensures Plan([1, 5, 2, 3]).ImageDims() == [6, 2]
    ensures ChannelBlocks(5) == 2
  {
  }

  /** Scenario: the rank-1 shape (4) is a single pixel. */
  lemma PlanVectorOfFour()
    ensures Plan([4]) == ImageLayout(1, 1, 1, 1)
  {
  }
}
