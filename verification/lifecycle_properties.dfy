/** Properties of CLImage's lifecycle that relate several calls. */
module LifecycleProperties {
  import opened Wrappers
  import opened Layout
  import opened Packing
  import opened Lifecycle

  /** Staging then reading back: `data<float>()` returns a buffer of
      product(dim) floats whose first product(dim) / 4 floats are the input;
      only those are guaranteed, because the copy counts bytes. */
  lemma StagedDataReadBack(img: CLImage, data: seq<Float>, dim: Dims, garbage: seq<Float>)
    requires !img.initialized
    requires 4 * |data| >= Product(dim) && |garbage| == Product(dim)
    ensures var r := Data(SetTensorData(img, data, dim, garbage));
      && r.Success? && r.value.Some?
      && |r.value.value| == Product(dim) == Numel(SetTensorData(img, data, dim, garbage))
      && r.value.value[..Product(dim) / 4] == data[..Product(dim) / 4]
  {
    var b := SetTensorData(img, data, dim, garbage).tensorData.value;
    assert b[..Product(dim) / 4] == data[..Product(dim) / 4];
  }

  /** After a successful InitCLImage or InitEmptyImage, `data<T>()` throws. */
  lemma DataThrowsAfterInit(img: CLImage, fill: seq<Half>, toHalf: Float -> Half, dim: Dims)
    requires CanPack(img, fill) && (img.tensorData == None ==> SupportedRank(dim))
    ensures var r := InitCLImage(img, true, fill, toHalf);
      r.outcome == Returned ==> Data(r.image) == Failure(AlreadyInitialized)
    ensures var r := InitEmptyImage(img, dim, true);
      r.outcome == Returned ==> Data(r.image) == Failure(AlreadyInitialized)
  {
  }

  /** A successful InitCLImage consumes the staged data: a second call
      throws for want of it and changes nothing. */
  lemma InitConsumesStagedData(img: CLImage, fill: seq<Half>, toHalf: Float -> Half, accepted: bool)
    requires img.tensorData.Some? && CanPack(img, fill)
    ensures var r := InitCLImage(img, true, fill, toHalf);
      && r.image.tensorData == None
      && InitCLImage(r.image, accepted, fill, toHalf) == After(r.image, Threw(NeedTensorData))
  {
  }

  /** A refused image creation in InitCLImage leaves the staged data in
      place, so calling again once the device accepts gives exactly what a
      first successful call would have given. */
  lemma FailedInitIsRetryable(img: CLImage, fill: seq<Half>, toHalf: Float -> Half)
    requires img.tensorData.Some? && CanPack(img, fill)
    ensures var failed := InitCLImage(img, false, fill, toHalf);
      && failed.outcome == Threw(CreateImageFailed)
      && failed.image.tensorData == img.tensorData
      && failed.image.initialized == img.initialized
      && CanPack(failed.image, fill)
      && InitCLImage(failed.image, true, fill, toHalf) == InitCLImage(img, true, fill, toHalf)
  {
    var failed := InitCLImage(img, false, fill, toHalf);
    var again := InitCLImage(failed.image, true, fill, toHalf);
    var first := InitCLImage(img, true, fill, toHalf);
    assert again.image == first.image;
  }

  /** A refused image creation in InitEmptyImage is not retryable: the zero
      buffer the private initialiser attached stays, so the next
      InitEmptyImage throws because tensor data is held, while InitCLImage
      would pack and upload those zeros. */
  lemma FailedEmptyInitBlocksRetry(img: CLImage, dim: Dims, accepted: bool)
    requires img.tensorData == None && SupportedRank(dim)
    ensures var failed := InitEmptyImage(img, dim, false);
      && failed.outcome == Threw(CreateImageFailed)
      && failed.image.tensorData == Some(Zeros(Product(dim)))
      && InitEmptyImage(failed.image, dim, accepted) == After(failed.image, Threw(EmptyImageHasData))
  {
  }

  /** InitEmptyImage after SetTensorData throws and changes nothing. */
  lemma EmptyInitAfterStagingThrows(img: CLImage, data: seq<Float>, dim: Dims, garbage: seq<Float>,
                                    dim': Dims, accepted: bool)
    requires 4 * |data| >= Product(dim) && |garbage| == Product(dim)
    ensures var staged := SetTensorData(img, data, dim, garbage);
      InitEmptyImage(staged, dim', accepted) == After(staged, Threw(EmptyImageHasData))
  {
  }

  /** A float stored through the pointer data<float>() returns before
      InitCLImage is what the image is packed from: the pointer aliases the
      staged buffer. */
  lemma WriteThroughDataIsPacked(img: CLImage, i: nat, v: Float, fill: seq<Half>, toHalf: Float -> Half)
    requires !img.initialized && img.tensorData.Some? && i < |img.tensorData.value|
    requires CanPack(img, fill)
    ensures CanPack(WriteData(img, i, v), fill)
    ensures var r := InitCLImage(WriteData(img, i, v), true, fill, toHalf);
      && r.outcome == Returned
      && r.image.device.Some?
      && r.image.device.value.contents
         == Some(Packed(ShapeOf(img.tensorDims), img.tensorData.value[i := v], fill, toHalf))
  {
  }

  /** Resize changes dims() and numel() only: every image accessor reads
      the same before and after. */
  lemma ResizeKeepsImage(img: CLImage, dims: Dims)
    requires img.layout.Some?
    ensures TensorDims(Resize(img, dims)) == dims && Numel(Resize(img, dims)) == Product(dims)
    ensures ImageWidth(Resize(img, dims)) == ImageWidth(img)
    ensures ImageHeight(Resize(img, dims)) == ImageHeight(img)
    ensures ImageDims(Resize(img, dims)) == ImageDims(img)
    ensures WidthOfOneBlock(Resize(img, dims)) == WidthOfOneBlock(img)
    ensures HeightOfOneBlock(Resize(img, dims)) == HeightOfOneBlock(img)
    ensures Data(Resize(img, dims)) == Data(img)
  {
  }

  /** Staging makes the buffer exactly numel() floats long, but a later
      Resize can grow numel() past it: nothing keeps the two in step, which
      is why InitCLImage needs CanPack. */
  lemma ResizeCanOutgrowStagedData()
    ensures var staged := SetTensorData(Fresh(), [FloatZero], [1], [FloatZero]);
      && |staged.tensorData.value| == Numel(staged)
      && |Resize(staged, [8]).tensorData.value| < Numel(Resize(staged, [8]))
  {
    var staged := SetTensorData(Fresh(), [FloatZero], [1], [FloatZero]);
    assert Product([1]) == 1 && Product([8]) == 8 by {
      assert [1][1..] == [] && [8][1..] == [];
    }
  }

  /** The operations that change the lifecycle fields, with the inputs the
      environment chooses: the garbage of a fresh allocation, the initial
      content of the packing buffer, the half conversion, and whether the
      device accepts the image. */
  datatype Op =
    | SetData(data: seq<Float>, dim: Dims, garbage: seq<Float>)
    | Init(accepted: bool, fill: seq<Half>, toHalf: Float -> Half)
    | InitEmpty(dim: Dims, emptyAccepted: bool)
    | ResizeTo(dims: Dims)
    | WriteAt(i: nat, v: Float)

  /** What each operation demands of its caller. */
  predicate Allowed(img: CLImage, op: Op)
  {
    match op
    case SetData(data, dim, garbage) => 4 * |data| >= Product(dim) && |garbage| == Product(dim)
    case Init(_, fill, _) => CanPack(img, fill)
    case InitEmpty(dim, _) => img.tensorData == None ==> SupportedRank(dim)
    case ResizeTo(_) => true
    case WriteAt(i, _) => !img.initialized && img.tensorData.Some? && i < |img.tensorData.value|
  }

  function Apply(img: CLImage, op: Op): CLImage
    requires Allowed(img, op)
  {
    match op
    case SetData(data, dim, garbage) => SetTensorData(img, data, dim, garbage)
    case Init(accepted, fill, toHalf) => InitCLImage(img, accepted, fill, toHalf).image
    case InitEmpty(dim, accepted) => InitEmptyImage(img, dim, accepted).image
    case ResizeTo(dims) => Resize(img, dims)
    case WriteAt(i, v) => WriteData(img, i, v)
  }

  /** The relation between the fields that every reachable object keeps: an
      initialised image has a planned layout; a device image exists only
      once the object is initialised, and has the planned extent; and a
      device image created from host data holds exactly width * height * 4
      half floats. */
  predicate Consistent(img: CLImage)
  {
    && (img.initialized ==> img.layout.Some?)
    && (img.device.Some? ==> img.initialized)
    && (img.device.Some? ==>
          && img.layout.Some?
          && img.device.value.width == img.layout.value.width
          && img.device.value.height == img.layout.value.height
          && (img.device.value.contents.Some? ==>
                |img.device.value.contents.value| == img.layout.value.width * img.layout.value.height * 4))
  }

  lemma FreshIsConsistent()
    ensures Consistent(Fresh())
  {
  }

  /** Every operation, whether it returns or throws, keeps Consistent. */
  lemma ApplyKeepsConsistent(img: CLImage, op: Op)
    requires Consistent(img) && Allowed(img, op)
    ensures Consistent(Apply(img, op))
  {
    match op
    case Init(accepted, fill, toHalf) =>
      if img.tensorData.Some? {
        PlanHasRoom(img.tensorDims);
      }
    case _ =>
  }

  /** Every object reachable from a fresh one by allowed operations is
      Consistent. */
  lemma {:induction false} RunKeepsConsistent(img: CLImage, ops: seq<Op>)
    requires Consistent(img)
    ensures RunAllowed(img, ops) ==> Consistent(Run(img, ops))
    decreases |ops|
  {
    if |ops| > 0 && Allowed(img, ops[0]) {
      ApplyKeepsConsistent(img, ops[0]);
      RunKeepsConsistent(Apply(img, ops[0]), ops[1..]);
    }
  }

  predicate RunAllowed(img: CLImage, ops: seq<Op>)
    decreases |ops|
  {
    |ops| == 0 || (Allowed(img, ops[0]) && RunAllowed(Apply(img, ops[0]), ops[1..]))
  }

  function Run(img: CLImage, ops: seq<Op>): CLImage
    requires RunAllowed(img, ops)
    decreases |ops|
  {
    if |ops| == 0 then img else Run(Apply(img, ops[0]), ops[1..])
  }

  /** Scenario: stage a rank-4 tensor, create the image, then read the data:
      the image holds the packed tensor, the staged buffer is gone, and
      `data<float>()` throws. */
  lemma StageUploadReadScenario(data: seq<Float>, dim: Dims, garbage: seq<Float>,
                                fill: seq<Half>, toHalf: Float -> Half)
    requires |dim| == 4 && 4 * |data| >= Product(dim) && |garbage| == Product(dim)
    requires |fill| == Size(ShapeOf(dim))
    ensures var staged := SetTensorData(Fresh(), data, dim, garbage);
      var r := InitCLImage(staged, true, fill, toHalf);
      && r.outcome == Returned
      && r.image.tensorData == None
      && r.image.device.Some?
      && r.image.device.value.contents == Some(Packed(ShapeOf(dim), staged.tensorData.value, fill, toHalf))
      && ImageWidth(r.image) == dim[3] * ((dim[1] + 3) / 4)
      && ImageHeight(r.image) == dim[2] * dim[0]
      && ImageDims(r.image) == [ImageWidth(r.image), ImageHeight(r.image)]
      && Data(r.image) == Failure(AlreadyInitialized)
  {
  }
}
