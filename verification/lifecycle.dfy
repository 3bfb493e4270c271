/** The lifecycle of one CLImage: tensor data is staged on the host, then the
    image is created on the device from the packed data (or empty), after
    which the staged data is gone. The object is a value here; every
    operation returns the object as it is afterwards, and an operation that
    throws returns the object as the exception leaves it, including the
    assignments made before the throw. */
module Lifecycle {
  import opened Wrappers
  import opened Layout
  import opened Packing

  /** A 32-bit float, as its bit pattern. */
  datatype Float = Float(bits: bv32)

  /** A 16-bit half float, as its bit pattern. */
  datatype Half = Half(bits: bv16)

  /** The float 0.0f. */
  const FloatZero := Float(0)

  /** The exceptions CLImage throws. */
  datatype Error =
    | NeedTensorData      // InitCLImage before SetTensorData
    | EmptyImageHasData   // InitEmptyImage while tensor data is held
    | CreateImageFailed   // the device refused to create the 2D image
    | AlreadyInitialized  // data<T>() after the image was initialised

  /** The device image (cl_mem): its extent and the host data it was
      created from, None when it was created without a host buffer. */
  datatype DeviceImage = DeviceImage(width: nat, height: nat, contents: Option<seq<Half>>)

  /** The fields of CLImage that the lifecycle involves. `layout` holds
      image_width_, image_height_, image_dims_ and the block extents; it is
      None while they have never been assigned. `device` is cl_image_. */
  datatype CLImage = CLImage(
    initialized: bool,
    tensorData: Option<seq<Float>>,
    tensorDims: Dims,
    layout: Option<ImageLayout>,
    device: Option<DeviceImage>)

  /** Whether an operation returned or threw. */
  datatype Outcome = Returned | Threw(error: Error)

  /** The object after an operation, and how the operation ended. */
  datatype After = After(image: CLImage, outcome: Outcome)

  /** A default-constructed CLImage. The source gives tensor_data_ no
      initialiser; the intended initial value, taken here, is null. Neither
      cl_image_ nor the image extents have an initialiser either: `device ==
      None` and `layout == None` stand for "never assigned". The default
      DDim is taken to be the empty shape. */
  function Fresh(): (img: CLImage)
    ensures !img.initialized && img.tensorData == None && img.device == None && img.layout == None
  {
    CLImage(false, None, [], None, None)
  }

  /** The host buffer of n zero floats that the empty path allocates. */
  function Zeros(n: nat): (z: seq<Float>)
    ensures |z| == n && forall i | 0 <= i < n :: z[i] == FloatZero
  {
    seq(n, i => FloatZero)
  }

  /** `SetTensorData(data, dim)`: frees any staged buffer, allocates a new one
      of product(dim) floats and copies into it. The copy is given product(dim)
      BYTES, not floats, so only the first product(dim) / 4 floats are copied
      whole; the rest of the new buffer holds whatever the allocator returned,
      here `garbage`. */
  function SetTensorData(img: CLImage, data: seq<Float>, dim: Dims, garbage: seq<Float>): (r: CLImage)
    requires 4 * |data| >= Product(dim)
    requires |garbage| == Product(dim)
    ensures r.tensorData.Some? && |r.tensorData.value| == Product(dim)
    ensures forall i | 0 <= i < Product(dim) / 4 :: r.tensorData.value[i] == data[i]
    ensures forall i | Product(dim) / 4 <= i < Product(dim) :: r.tensorData.value[i] == garbage[i]
    ensures r.tensorDims == dim
    ensures r.initialized == img.initialized && r.layout == img.layout && r.device == img.device
  {
    var numel := Product(dim);
    img.(tensorData := Some(data[..numel / 4] + garbage[numel / 4..]), tensorDims := dim)
  }

  /** The private `InitCLImage(context, tensor_data, dim)`: records dim,
      takes `data` as the host buffer or, when it is null, allocates a
      zero-filled one; plans the layout; packs `data` into a fresh half-float
      buffer whose initial content is `fill` (nothing is packed when `data`
      is null); and asks the device for the image, which it grants when
      `accepted`. A refusal throws after every assignment above and leaves
      cl_image_ null. */
  function InitCLImageFrom(img: CLImage, data: Option<seq<Float>>, dim: Dims, accepted: bool,
                           fill: seq<Half>, toHalf: Float -> Half): (r: After)
    requires SupportedRank(dim)
    requires data.Some? ==> |data.value| >= Product(dim) && |fill| == Size(ShapeOf(dim))
    ensures r.image.tensorDims == dim && r.image.layout == Some(Plan(dim))
    ensures r.image.tensorData == (if data.Some? then data else Some(Zeros(Product(dim))))
    ensures r.image.initialized == img.initialized
    ensures accepted ==> r.outcome == Returned && r.image.device.Some?
    ensures !accepted ==> r.outcome == Threw(CreateImageFailed) && r.image.device == None
    ensures r.image.device.Some? ==>
      && r.image.device.value.width == Plan(dim).width
      && r.image.device.value.height == Plan(dim).height
      && r.image.device.value.contents
         == (if data.Some? then Some(Packed(ShapeOf(dim), data.value, fill, toHalf)) else None)
  {
    var host := if data.Some? then data.value else Zeros(Product(dim));
    var l := Plan(dim);
    PlanHasRoom(dim);
    var contents :=
      if data.Some? then
        Some(Packed(ShapeOf(dim), data.value, fill, toHalf))
      else None;
    var planned := img.(tensorDims := dim, tensorData := Some(host), layout := Some(l));
    if accepted then
      After(planned.(device := Some(DeviceImage(l.width, l.height, contents))), Returned)
    else
      After(planned.(device := None), Threw(CreateImageFailed))
  }

  /** What the public operations need of the staged data: a supported rank,
      enough floats for the current dims (Resize may have grown them), and an
      initial packing buffer of the planned size. */
  predicate CanPack(img: CLImage, fill: seq<Half>)
  {
    img.tensorData.Some? ==>
      && SupportedRank(img.tensorDims)
      && |img.tensorData.value| >= Product(img.tensorDims)
      && |fill| == Size(ShapeOf(img.tensorDims))
  }

  /** The public `InitCLImage(context)`: throws unless data is staged; packs
      and uploads it; only then releases the staged buffer and marks the
      image initialised. A refused image creation throws before the release,
      so the staged data stays and initialized_ is unchanged. */
  function InitCLImage(img: CLImage, accepted: bool, fill: seq<Half>, toHalf: Float -> Half): (r: After)
    requires CanPack(img, fill)
    ensures img.tensorData == None ==> r == After(img, Threw(NeedTensorData))
    ensures img.tensorData.Some? && accepted ==>
      && r.outcome == Returned
      && r.image.tensorData == None
      && r.image.initialized
      && r.image.tensorDims == img.tensorDims
      && r.image.layout == Some(Plan(img.tensorDims))
      && r.image.device
         == Some(DeviceImage(Plan(img.tensorDims).width, Plan(img.tensorDims).height,
                             Some(Packed(ShapeOf(img.tensorDims), img.tensorData.value, fill, toHalf))))
    ensures img.tensorData.Some? && !accepted ==>
      && r.outcome == Threw(CreateImageFailed)
      && r.image.tensorData == img.tensorData
      && r.image.initialized == img.initialized
      && r.image.tensorDims == img.tensorDims
      && r.image.layout == Some(Plan(img.tensorDims))
      && r.image.device == None
  {
    if img.tensorData == None then
      After(img, Threw(NeedTensorData))
    else
      var m := InitCLImageFrom(img, img.tensorData, img.tensorDims, accepted, fill, toHalf);
      if m.outcome.Threw? then m
      else After(m.image.(tensorData := None, initialized := true), Returned)
  }

  /** `InitEmptyImage(context, dim)`: throws while tensor data is held,
      before `dim` is read, so only the other path needs a supported rank;
      otherwise creates the image with no host data, keeping the zero-filled
      host buffer the private initialiser allocated. A refused creation
      throws after that buffer was attached, with initialized_ unchanged. */
  function InitEmptyImage(img: CLImage, dim: Dims, accepted: bool): (r: After)
    requires img.tensorData == None ==> SupportedRank(dim)
    ensures img.tensorData.Some? ==> r == After(img, Threw(EmptyImageHasData))
    ensures img.tensorData == None ==>
      && r.image.tensorDims == dim
      && r.image.tensorData == Some(Zeros(Product(dim)))
      && r.image.layout == Some(Plan(dim))
      && (accepted ==> r.outcome == Returned && r.image.initialized
                       && r.image.device == Some(DeviceImage(Plan(dim).width, Plan(dim).height, None)))
      && (!accepted ==> r.outcome == Threw(CreateImageFailed) && r.image.initialized == img.initialized
                        && r.image.device == None)
  {
    if img.tensorData.Some? then
      After(img, Threw(EmptyImageHasData))
    else
      // Nothing is packed without host data, so the packing buffer and the
      // conversion passed here are never read.
      var m := InitCLImageFrom(img, None, dim, accepted, [], (f: Float) => Half(0));
      if m.outcome.Threw? then m
      else After(m.image.(initialized := true), Returned)
  }

  /** `data<float>()`: the staged host buffer (None for a null pointer);
      throws once the image is initialised. */
  function Data(img: CLImage): (r: Result<Option<seq<Float>>, Error>)
    ensures img.initialized <==> r == Failure(AlreadyInitialized)
    ensures !img.initialized ==> r == Success(img.tensorData)
  {
    if img.initialized then Failure(AlreadyInitialized) else Success(img.tensorData)
  }

  /** A store of one float through the pointer `data<float>()` returns. The
      pointer aliases the staged buffer, so the store changes the tensor data
      that a later InitCLImage packs. It is defined only while data is staged
      and the object is not initialised (otherwise data() throws or returns
      null), and for an index inside the buffer. */
  function WriteData(img: CLImage, i: nat, v: Float): (r: CLImage)
    requires !img.initialized && img.tensorData.Some? && i < |img.tensorData.value|
    ensures Data(r) == Success(Some(img.tensorData.value[i := v]))
    ensures r.tensorDims == img.tensorDims && r.layout == img.layout && r.device == img.device
  {
    img.(tensorData := Some(img.tensorData.value[i := v]))
  }

  /** `Resize(dims)`: replaces the tensor dims and nothing else. */
  function Resize(img: CLImage, dims: Dims): (r: CLImage)
    ensures r.tensorDims == dims
    ensures Numel(r) == Product(dims)
    ensures r.initialized == img.initialized && r.tensorData == img.tensorData
    ensures r.layout == img.layout && r.device == img.device
  {
    img.(tensorDims := dims)
  }

  /** `numel()`: element count of the current tensor dims. */
  function Numel(img: CLImage): nat
  {
    Product(img.tensorDims)
  }

  /** `dims()`. */
  function TensorDims(img: CLImage): Dims
  {
    img.tensorDims
  }

  /** The image accessors read fields the source leaves uninitialised until
      an image has been planned. */
  function ImageWidth(img: CLImage): nat
    requires img.layout.Some?
  {
    img.layout.value.width
  }

  function ImageHeight(img: CLImage): nat
    requires img.layout.Some?
  {
    img.layout.value.height
  }

  function ImageDims(img: CLImage): Dims
    requires img.layout.Some?
  {
    img.layout.value.ImageDims()
  }

  function WidthOfOneBlock(img: CLImage): nat
    requires img.layout.Some?
  {
    img.layout.value.widthOfOneBlock
  }

  function HeightOfOneBlock(img: CLImage): nat
    requires img.layout.Some?
  {
    img.layout.value.heightOfOneBlock
  }
}
