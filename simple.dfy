/** The integer and buffer arithmetic of the GPU ray tracer
    (src/raytracer/simple.rs): the configuration record, the number of
    8 x 8 workgroups per axis, the row padding the texture copy demands and
    the loop that strips that padding from the copied rows. All figures are
    `u32`; arithmetic wraps as in a release build. */
module SimpleRayTracer {
  import opened Numeric
  import opened Optional
  import opened Spheres

  /** `SimpleRayTracerConfig`. */
  datatype Config = Config(imageWidth: U32, imageHeight: U32, maxDepth: U32, objectCount: U32)

  /** The configuration `SimpleRayTracer::new` builds: a bounce limit of 50
      and the number of spheres, cast to `u32`. */
  function NewConfig(imageWidth: U32, imageHeight: U32, objects: seq<Sphere>): (c: Config)
    ensures c.imageWidth == imageWidth && c.imageHeight == imageHeight
    ensures c.maxDepth == 50
    ensures |objects| < U32_LIMIT ==> c.objectCount == |objects|
    ensures (|objects| - c.objectCount) % U32_LIMIT == 0
  {
    Config(imageWidth, imageHeight, 50, WrapU32(|objects|))
  }

  /** Workgroups along one axis, (dim + 7) / 8: the least number of 8-wide
      groups that covers dim, unless dim + 7 overflows. */
  function WorkgroupCount(dim: U32): (n: U32)
    ensures dim + 7 < U32_LIMIT ==> n * 8 >= dim
    ensures dim + 7 < U32_LIMIT && dim > 0 ==> (n - 1) * 8 < dim
    ensures dim + 7 < U32_LIMIT && dim == 0 ==> n == 0
  {
    WrapU32(dim + 7) / 8
  }

  /** Bytes of one unpadded row of RGBA8 pixels, 4 bytes per pixel. */
  function BytesPerRow(imageWidth: U32): (r: U32)
    ensures 4 * imageWidth < U32_LIMIT ==> r == 4 * imageWidth
  {
    WrapU32(4 * imageWidth)
  }

  /** The row length rounded up to the copy alignment
      (`wgpu::COPY_BYTES_PER_ROW_ALIGNMENT`, 256 bytes): without overflow it
      is the least multiple of 256 that is at least bytesPerRow. */
  function PaddedBytesPerRow(bytesPerRow: U32): (r: U32)
    ensures bytesPerRow + 255 < U32_LIMIT ==>
      r % 256 == 0 && bytesPerRow <= r < bytesPerRow + 256
  {
    WrapU32(WrapU32(bytesPerRow + 255) / 256 * 256)
  }

  /** The size of the buffer the texture is copied into: the padded row
      length times the number of rows. */
  function OutputBufferSize(paddedBytesPerRow: U32, imageHeight: U32): (r: U32)
    ensures paddedBytesPerRow * imageHeight < U32_LIMIT ==> r == paddedBytesPerRow * imageHeight
  {
    WrapU32(paddedBytesPerRow * imageHeight)
  }

  /** Specification of the stripping loop: the buffer is cut into chunks of
      paddedBytesPerRow bytes (the last may be shorter) and the first
      bytesPerRow bytes of each are concatenated in order. None stands for
      the panics of the source: `chunks(0)`, and slicing a chunk shorter
      than bytesPerRow. */
  function Stripped(data: seq<bv8>, bytesPerRow: nat, paddedBytesPerRow: nat): Option<seq<bv8>>
    decreases |data|
  {
    if paddedBytesPerRow == 0 then None
    else if |data| == 0 then Some([])
    else
      var chunkLength := if |data| <= paddedBytesPerRow then |data| else paddedBytesPerRow;
      if chunkLength < bytesPerRow then None
      else
        match Stripped(data[chunkLength..], bytesPerRow, paddedBytesPerRow)
        case None => None
        case Some(rest) => Some(data[..bytesPerRow] + rest)
  }

  /** The bytes already copied followed by what the remaining chunks give. */
  function Prepend(prefix: seq<bv8>, rest: Option<seq<bv8>>): Option<seq<bv8>> {
    match rest
    case None => None
    case Some(s) => Some(prefix + s)
  }

  /** The loop of `render` that copies the unpadded prefix of every padded
      row into the pixel vector, which grows chunk by chunk. */
  method StripRowPadding(data: array<bv8>, bytesPerRow: nat, paddedBytesPerRow: nat)
    returns (pixels: Option<seq<bv8>>)
    ensures pixels == Stripped(data[..], bytesPerRow, paddedBytesPerRow)
  {
    if paddedBytesPerRow == 0 {
      return None;
    }
    var out: seq<bv8> := [];
    var i := 0;
    assert data[0..] == data[..];
    assert Prepend(out, Stripped(data[0..], bytesPerRow, paddedBytesPerRow))
        == Stripped(data[0..], bytesPerRow, paddedBytesPerRow) by {
      match Stripped(data[0..], bytesPerRow, paddedBytesPerRow)
      case None =>
      case Some(t) => assert out + t == t;
    }
    while i < data.Length
      invariant 0 <= i <= data.Length
      invariant Stripped(data[..], bytesPerRow, paddedBytesPerRow)
             == Prepend(out, Stripped(data[i..], bytesPerRow, paddedBytesPerRow))
      decreases data.Length - i
    {
      var chunkEnd := if data.Length - i <= paddedBytesPerRow then data.Length else i + paddedBytesPerRow;
      var rest := data[i..];
      if chunkEnd - i < bytesPerRow {
        assert Stripped(rest, bytesPerRow, paddedBytesPerRow) == None;
        return None;
      }
      assert rest[chunkEnd - i..] == data[chunkEnd..];
      assert rest[..bytesPerRow] == data[i..i + bytesPerRow];
      PrependTwice(out, data[i..i + bytesPerRow], Stripped(data[chunkEnd..], bytesPerRow, paddedBytesPerRow));
      out := out + data[i..i + bytesPerRow];
      i := chunkEnd;
    }
    assert data[i..] == [];
    assert out + [] == out;
    return Some(out);
  }

  /** Prepending two prefixes in turn is prepending their concatenation. */
  lemma PrependTwice(a: seq<bv8>, b: seq<bv8>, rest: Option<seq<bv8>>)
    ensures Prepend(a, Prepend(b, rest)) == Prepend(a + b, rest)
  {
    match rest
    case None =>
    case Some(t) => assert a + (b + t) == (a + b) + t;
  }

  /** r < height rows of width w before column k < w stay inside
      w * height. */
  lemma RowOffsetBound(r: nat, k: nat, w: nat, height: nat)
    requires r < height && k < w
    ensures r * w + k < w * height
  {
    var d := height - r;
    var dw, rest := d * w, (d - 1) * w;
    assert height * w == r * w + dw;
    assert dw == w + rest;
    assert rest >= 0;
  }

  /** A buffer of `height` whole padded rows, each at least as long as the
      unpadded row, strips to `height` rows of bytesPerRow bytes. */
  lemma {:induction false} StrippedLength(data: seq<bv8>, bytesPerRow: nat, paddedBytesPerRow: nat, height: nat)
    requires 0 < paddedBytesPerRow && bytesPerRow <= paddedBytesPerRow
    requires |data| == paddedBytesPerRow * height
    ensures Stripped(data, bytesPerRow, paddedBytesPerRow).Some?
    ensures |Stripped(data, bytesPerRow, paddedBytesPerRow).value| == bytesPerRow * height
    decreases height
  {
    if height > 0 {
      assert |data| == paddedBytesPerRow + paddedBytesPerRow * (height - 1);
      StrippedLength(data[paddedBytesPerRow..], bytesPerRow, paddedBytesPerRow, height - 1);
      assert bytesPerRow * height == bytesPerRow + bytesPerRow * (height - 1);
    }
  }

  /** Byte k of row r of the image is byte k of padded row r of the buffer. */
  lemma {:induction false} StrippedPixel(data: seq<bv8>, bytesPerRow: nat, paddedBytesPerRow: nat, height: nat, r: nat, k: nat)
    requires 0 < paddedBytesPerRow && bytesPerRow <= paddedBytesPerRow
    requires |data| == paddedBytesPerRow * height
    requires r < height && k < bytesPerRow
    ensures r * paddedBytesPerRow + k < |data|
    ensures Stripped(data, bytesPerRow, paddedBytesPerRow).Some?
    ensures r * bytesPerRow + k < |Stripped(data, bytesPerRow, paddedBytesPerRow).value|
    ensures Stripped(data, bytesPerRow, paddedBytesPerRow).value[r * bytesPerRow + k]
         == data[r * paddedBytesPerRow + k]
    decreases height
  {
    StrippedLength(data, bytesPerRow, paddedBytesPerRow, height);
    RowOffsetBound(r, k, paddedBytesPerRow, height);
    RowOffsetBound(r, k, bytesPerRow, height);
    var rest := data[paddedBytesPerRow..];
    var restLength := paddedBytesPerRow * (height - 1);
    assert |data| == paddedBytesPerRow + restLength;
    StrippedLength(rest, bytesPerRow, paddedBytesPerRow, height - 1);
    var tail := Stripped(rest, bytesPerRow, paddedBytesPerRow).value;
    assert Stripped(data, bytesPerRow, paddedBytesPerRow).value == data[..bytesPerRow] + tail;
    if r > 0 {
      StrippedPixel(rest, bytesPerRow, paddedBytesPerRow, height - 1, r - 1, k);
      var previousRow, previousPadded := (r - 1) * bytesPerRow, (r - 1) * paddedBytesPerRow;
      assert r * bytesPerRow == bytesPerRow + previousRow;
      assert r * paddedBytesPerRow == paddedBytesPerRow + previousPadded;
    }
  }

  /** A zero-wide image has a zero padded row length, and `chunks(0)`
      panics. */
  lemma ZeroWidthPanics(data: seq<bv8>)
    ensures PaddedBytesPerRow(BytesPerRow(0)) == 0
    ensures Stripped(data, BytesPerRow(0), PaddedBytesPerRow(BytesPerRow(0))) == None
  {
  }

  /** Rows of 4 * width bytes, height of them, make width * height * 4
      bytes. */
  lemma StripsToImage(data: seq<bv8>, bytesPerRow: nat, paddedBytesPerRow: nat, width: nat, height: nat)
    requires 0 < bytesPerRow <= paddedBytesPerRow && bytesPerRow == 4 * width
    requires |data| == paddedBytesPerRow * height
    ensures Stripped(data, bytesPerRow, paddedBytesPerRow).Some?
    ensures |Stripped(data, bytesPerRow, paddedBytesPerRow).value| == width * height * 4
  {
    StrippedLength(data, bytesPerRow, paddedBytesPerRow, height);
    var wh := width * height;
    assert bytesPerRow * height == 4 * wh;
  }

  /** For an image whose figures do not overflow, a buffer of
      OutputBufferSize bytes strips to exactly width * height * 4 bytes,
      the size the image constructor expects. */
  lemma ImageSizeMatches(imageWidth: U32, imageHeight: U32, data: seq<bv8>)
    requires 0 < imageWidth && 4 * imageWidth + 255 < U32_LIMIT
    requires PaddedBytesPerRow(BytesPerRow(imageWidth)) * imageHeight < U32_LIMIT
    requires |data| == OutputBufferSize(PaddedBytesPerRow(BytesPerRow(imageWidth)), imageHeight)
    ensures PaddedBytesPerRow(BytesPerRow(imageWidth)) > 0
    ensures Stripped(data, BytesPerRow(imageWidth), PaddedBytesPerRow(BytesPerRow(imageWidth))).Some?
    ensures |Stripped(data, BytesPerRow(imageWidth), PaddedBytesPerRow(BytesPerRow(imageWidth))).value|
         == imageWidth * imageHeight * 4
  {
    var bytesPerRow := BytesPerRow(imageWidth);
    var padded := PaddedBytesPerRow(bytesPerRow);
    assert 0 < bytesPerRow <= padded;
    StripsToImage(data, bytesPerRow, padded, imageWidth, imageHeight);
  }
}
