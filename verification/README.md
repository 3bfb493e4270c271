# CLImage: layout, packing and lifecycle of an OpenCL image of a tensor

This project models the `CLImage` class of Paddle-Lite's OpenCL framework,
which holds one tensor as a 2D RGBA image of half floats on the device. It
covers three parts of the class.

- **Layout planner** (`layout.dfy`, module `Layout`). A rank-4 shape
  (N, C, H, W), or a rank-1 shape (C) read as N = H = W = 1, becomes an image
  `W * ((C + 3) / 4)` pixels wide and `H * N` pixels high. The extents of one
  block are W by H.
- **Packing loop** (`packing.dfy`, module `Packing`). The source buffer is
  walked in row-major NCHW order. Each element is converted to half and
  written into a buffer of `width * height * 4` half floats.
  `PackImageData` keeps the running indices `i0`, `i1`, `i2` and the
  pointer `p`. It is proved equal to the closed form `Packed`. In that form,
  element (n, c, h, w) goes to index `((n*H + h) * width + w) * 4 + c % 4`,
  and the value a slot ends up with comes from the last channel written to it.
- **Lifecycle** (`lifecycle.dfy` and `lifecycle_properties.dfy`). These
  model `SetTensorData`, the public and private `InitCLImage`,
  `InitEmptyImage`, `data<float>()` and stores through the pointer it
  returns, `Resize`, `numel`, `dims` and the image
  accessors. The object is a value. Each operation returns the object as it
  is afterwards. An operation that throws returns the object as the
  exception leaves it, with the fields assigned before the throw kept.

Floats and halves are bit patterns (`bv32`, `bv16`). The packing module is
generic in both element types. The float-to-half conversion is a function
parameter `toHalf`. A few things the code does not determine are also
parameters:
- `fill`, what a freshly allocated half buffer contains;
- `garbage`, what a freshly allocated float buffer contains;
- `accepted`, whether the device creates the image.

`module Arith` holds the division and remainder facts the index proofs need.
`module Wrappers` holds `Option` and `Result`.

Where a natural reading of the class's design would expect something else,
this model follows the code:
- **No channel-block offset.** The packing loop adds no `(c / 4) * W` column
  offset, because `i1` restarts at `i0` for every channel. So channels c and
  c + 4 share a slot, and the higher channel's value stays there.
  Columns W and beyond are never written, although the planned width has
  room for them.
- **Padding is not zeroed.** Lanes the walk does not reach keep whatever the
  fresh buffer held.
- **The N clamp is dead code.** N is unsigned, so `N < 0` never holds. N is
  a `nat` with no clamp.
- **The staging copy counts bytes.** `SetTensorData` copies `numel` bytes,
  so only `numel / 4` floats are guaranteed.
- **A failed empty initialisation blocks a retry.** When `InitEmptyImage`
  fails, its zero buffer stays attached. A retry of `InitEmptyImage` then
  throws because tensor data is held.
- **Zero-area shapes are accepted.** A shape with a zero extent plans a
  zero-area image. This model does not reject it.
- **The bounds check is an assertion.** The check on the destination index
  is an `assert` in the code, not a reported error. Here it is proved never
  to fail.

## Model

| member | source | states |
|---|---|---|
| Layout.ShapeOf | src/framework/cl/cl_image.h:135-156 | rank 4 reads (N, C, H, W) directly, with no clamp on N; rank 1 reads (1, C, 1, 1); N*C*H*W equals product(dim) in both cases |
| Layout.Plan | src/framework/cl/cl_image.h:135-163 | rank 4 gives width W*((C+3)/4), height H*N and block extents W and H; rank 1 gives width (C+3)/4 and height 1, with 1 x 1 blocks |
| Layout.ImageLayout.ImageDims | src/framework/cl/cl_image.h:163 | image_dims_ is the rank-2 shape [width, height], in that order, with width*height elements |
| Layout.ChannelBlocksIsCeiling | src/framework/cl/cl_image.h:158 | (C+3)/4 is the ceiling of C/4: C <= 4*blocks < C+4, and there is at least one block when C > 0 |
| Layout.PlanHasRoom | src/framework/cl/cl_image.h:158-168 | the planned width*height*4 half floats are at least product(dim), the number of tensor elements, and equal the packing buffer's size |
| Layout.BlockFitsInRow | src/framework/cl/cl_image.h:158-176 | when C > 0, the W columns the walk writes fit in one image row |
| Layout.PlanFiveChannels | src/framework/cl/cl_image.h:158-163 | shape (1,5,2,3) plans 2 channel blocks, a 6 x 2 image with ImageDims [6, 2], and 3 x 2 blocks |
| Layout.PlanVectorOfFour | src/framework/cl/cl_image.h:148-163 | the rank-1 shape (4) plans a 1 x 1 image with 1 x 1 blocks |
| Packing.Slot | src/framework/cl/cl_image.h:175-181 | every lane of pixel (n*H+h, col) with col < width lies inside the buffer of width*height*4 half floats |
| Packing.Locate | src/framework/cl/cl_image.h:168-175 | every index of the buffer is the slot of the in-image lane (n, h, col, lane) that Locate returns; that this lane is the only one is stated by Packing.SlotInjective |
| Packing.LocateSlot | src/framework/cl/cl_image.h:175-192 | decoding a slot gives back its lane coordinates, so distinct lanes never share an index |
| Packing.SrcIndex | src/framework/cl/cl_image.h:169-185 | the walking pointer for element (n, c, h, w), ((n*C+c)*H+h)*W+w, stays inside the N*C*H*W source elements |
| Packing.Writer | src/framework/cl/cl_image.h:172-183 | once channels below a bound are written, a lane holds the highest such channel c with c % 4 equal to the lane, and -1 means there is none |
| Packing.Packed | src/framework/cl/cl_image.h:168 | the packed buffer holds width*height*4 half floats |
| Packing.SlotInjective | src/framework/cl/cl_image.h:175-183 | two in-image lanes with the same flat index are the same lane |
| Packing.PackRow | src/framework/cl/cl_image.h:175-188 | the loop over w, started with i1 at the first pixel of row n*H+h and p at source element (n, c, h, 0), writes row h of channel c exactly as the walk does and advances p by W; at each write the body proves i2 below width*height*4 |
| Packing.PackChannel | src/framework/cl/cl_image.h:173-190 | the loop over h, started with i1 = i0 at the first pixel of batch n, writes every row of channel c as the walk does and leaves p at the first element of channel c+1 |
| Packing.PackImageData | src/framework/cl/cl_image.h:165-194 | the nested loop with running indices i0, i1, i2 and p computes exactly Packed, and every index it writes is below width*height*4, so the assert never fires |
| Packing.PackedDestination | src/framework/cl/cl_image.h:171-193 | element (n, c, h, w) goes to ((n*H+h)*width+w)*4 + c%4, inside the buffer; that slot ends up holding the highest channel c' >= c with c' % 4 == c % 4 |
| Packing.PackedSlotOrigin | src/framework/cl/cl_image.h:168-194 | a slot holds a converted source element if and only if its column is below W and its lane is below C; every other slot keeps the buffer's initial contents |
| Packing.SmallChannelsExact | src/framework/cl/cl_image.h:172-183 | when C <= 4, every element is found, converted, at lane c of pixel (n*H+h, w) |
| Packing.SmallChannelsInjective | src/framework/cl/cl_image.h:172-192 | when C <= 4, two source elements with the same destination are the same element |
| Packing.WideChannelsOverwrite | src/framework/cl/cl_image.h:172-183 | when c+4 < C, channels c and c+4 share a slot, and the value left there comes from channel c+4 or later, not from c |
| Packing.OuterColumnsUnwritten | src/framework/cl/cl_image.h:158-176 | pixel columns W and beyond keep the buffer's initial contents |
| Packing.UnusedLanesUnwritten | src/framework/cl/cl_image.h:172-183 | lanes at or beyond C, which exist when C < 4, keep the buffer's initial contents |
| Packing.FiveChannelScenario | src/framework/cl/cl_image.h:158-194 | with five channels the image is 2*W wide; lane 0 of the first block holds channel 4, lanes 1-3 hold channels 1-3, and the second block is never written |
| Packing.VectorScenario | src/framework/cl/cl_image.h:148-194 | a rank-1 shape (C) with C <= 4 packs channel c into lane c of the single pixel; lanes C to 3 keep their initial contents |
| Lifecycle.Fresh | src/framework/cl/cl_image.h:212-221 | a new object is not initialised and has no tensor data, no layout and no device image; null is the intended initial value of the pointer, which the code leaves uninitialised |
| Lifecycle.Zeros | src/framework/cl/cl_image.h:125-133 | the empty path's host buffer holds numel floats, all 0.0f |
| Lifecycle.SetTensorData | src/framework/cl/cl_image.h:34-42 | the old staged buffer is replaced by one of product(dim) floats; only its first product(dim)/4 floats equal the input; dims() becomes dim; nothing else changes |
| Lifecycle.InitCLImageFrom | src/framework/cl/cl_image.h:117-210 | dims and layout are set and the host buffer attached before creation; the image holds the packed data, or nothing when there is no host data; a refusal throws with cl_image_ null and initialized_ unchanged |
| Lifecycle.InitCLImage | src/framework/cl/cl_image.h:47-55 | with no staged data it throws and changes nothing; on success the staged buffer is released, initialized_ is set and the image holds Packed of the staged data; if creation fails the staged data stays, initialized_ is unchanged, and the layout has already been planned from the staged dims |
| Lifecycle.InitEmptyImage | src/framework/cl/cl_image.h:57-64 | throws and changes nothing while data is staged, whatever the rank of dim; otherwise dims become dim, a zero buffer of product(dim) floats is kept, nothing is packed, and success sets initialized_ |
| Lifecycle.Data | src/framework/cl/cl_image.h:97-104 | throws exactly when initialized_ is set; otherwise returns the staged buffer, which may be null |
| Lifecycle.WriteData | src/framework/cl/cl_image.h:97-104 | a float stored through the pointer data<float>() returns, while data is staged and the object is not initialised, replaces that element of the staged buffer, which data() then returns; dims, layout and device image are unchanged |
| Lifecycle.Resize | src/framework/cl/cl_image.h:92-95 | only the tensor dims change, and numel() becomes product(dims) |
| LifecycleProperties.StagedDataReadBack | src/framework/cl/cl_image.h:34-42 | data<float>() after SetTensorData returns numel() floats whose first numel/4 floats equal the input |
| LifecycleProperties.DataThrowsAfterInit | src/framework/cl/cl_image.h:97-104 | after a successful InitCLImage or InitEmptyImage, data<T>() throws |
| LifecycleProperties.InitConsumesStagedData | src/framework/cl/cl_image.h:47-55 | after a successful InitCLImage the staged data is gone, so a second call throws and changes nothing |
| LifecycleProperties.FailedInitIsRetryable | src/framework/cl/cl_image.h:47-55 | after a refused creation the staged data and initialized_ are intact, and a retry that succeeds gives the same object as a first successful call |
| LifecycleProperties.FailedEmptyInitBlocksRetry | src/framework/cl/cl_image.h:57-64 | after a refused creation in InitEmptyImage the zero buffer stays attached, so calling InitEmptyImage again throws |
| LifecycleProperties.EmptyInitAfterStagingThrows | src/framework/cl/cl_image.h:57-64 | InitEmptyImage after SetTensorData throws and changes nothing, for a dim of any rank |
| LifecycleProperties.WriteThroughDataIsPacked | src/framework/cl/cl_image.h:47-55 | because the pointer aliases the staged buffer, a float stored through it before InitCLImage is what the image is packed from |
| LifecycleProperties.ResizeKeepsImage | src/framework/cl/cl_image.h:68-114 | after Resize, dims() and numel() follow the new dims, while ImageWidth, ImageHeight, ImageDims, the block extents and data() are unchanged |
| LifecycleProperties.ResizeCanOutgrowStagedData | src/framework/cl/cl_image.h:92-95 | staging makes the buffer numel() floats long, but a later Resize can make numel() larger than the buffer |
| LifecycleProperties.FreshIsConsistent | src/framework/cl/cl_image.h:212-221 | a new object satisfies the field invariant |
| LifecycleProperties.ApplyKeepsConsistent | src/framework/cl/cl_image.h:34-109 | every operation keeps the field invariant, whether it returns or throws: an initialised object has a layout, a device image exists only on an initialised object, and it has the planned extent and width*height*4 half floats |
| LifecycleProperties.RunKeepsConsistent | src/framework/cl/cl_image.h:34-109 | every sequence of allowed operations keeps the field invariant |
| LifecycleProperties.StageUploadReadScenario | src/framework/cl/cl_image.h:47-55 | staging a rank-4 tensor, even from a buffer only numel/4 floats long as the byte-count copy allows, and then initialising gives an image of W*((C+3)/4) x H*N pixels holding the packed tensor, with ImageDims [width, height]; the staged buffer is gone and data<float>() throws |

`numel()`, `dims()`, `ImageWidth()`, `ImageHeight()`, `ImageDims()`,
`WidthOfOneBlock()` and `HeightOfOneBlock()` are plain field reads
(`Lifecycle.Numel`, `Lifecycle.TensorDims`, `Lifecycle.ImageWidth` and so
on). Their behaviour is stated by `LifecycleProperties.ResizeKeepsImage` and
`LifecycleProperties.StageUploadReadScenario`.

## Left out

- OpenCL is not modelled: `cl_context`, `clCreateImage2D`, the
  `CL_RGBA`/`CL_HALF_FLOAT` image format and the memory flags. Image creation
  is a choice `accepted`. A refusal leaves `cl_image_` null, as section 5.3.1
  of the OpenCL 1.1 specification says `clCreateImage2D` returns NULL on
  failure. The device image created without a host buffer records no
  contents. The effect of passing a null host pointer with
  `CL_MEM_COPY_HOST_PTR` is not modelled.
- The float-to-half conversion (`float2half`, `half_t`) is floating-point
  numerics. `cl_half.h` is not part of this model, so the conversion is the
  parameter `toHalf`.
- Memory allocation is not modelled: `paddle_mobile::memory::Alloc` versus
  `new[]`, and the `delete[]` of a buffer the allocator returned. Freeing the
  previous staged buffer is modelled as replacing it. The previous
  `cl_image_` that a second initialisation overwrites without releasing is
  not modelled either.
- `TensorToCLImage` and `CLImageToTensor` are only declared in this file.
  There is no unpack routine to model, so no round trip is stated.
- `CBlock()` reads `c_block_`, which is never assigned, so nothing can be
  said about it. `context_` and `GetCLImage()` are not modelled.
- The `printf` before the bounds assertion is diagnostic output only.
- Integer widths are not modelled. Extents are unbounded natural numbers. The
  code's truncation of `product(dim)` to `int`, `size_t` wrap-around, and
  negative `int64_t` extents in a DDim are outside the model. `ddim.h` is not
  part of this model, and the default DDim is taken to be the empty shape.
- Lifecycle.Data: the pointer it returns aliases the staged buffer; this
  model returns the buffer as a value and stands for a store through the
  pointer by the separate operation `Lifecycle.WriteData`, one float at a
  time. Stores after the object is initialised, or outside the buffer, are
  undefined behaviour in the code and are not modelled.
- `data<T>()` is modelled for `T = float` only. A typed reinterpretation of
  the staged bytes as another type is outside the model.
- Lifecycle.InitCLImage: its precondition `CanPack` demands that the staged
  buffer holds at least numel() floats for the current dims. Without that,
  after a Resize that grows the dims, the code reads past the buffer, which
  is undefined behaviour.
- Lifecycle.ImageWidth: it and the other image accessors require a planned
  layout. Before the first initialisation the code returns uninitialised
  fields.
- Ranks other than 1 and 4 are a precondition (`SupportedRank`) of the
  paths that reach the layout planner. The code leaves N, C, H and W
  uninitialised for them. `InitEmptyImage` with tensor data staged throws
  before it reads `dim`, so there any rank is accepted.
