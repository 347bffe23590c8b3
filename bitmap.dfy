/** `Bitmap` (src/icns-image.ts): the planes and legacy payloads built from a
    decoded raster. The class only wraps a read-only decoded image, so it is
    modelled as functions over that value. The run-length encoder is a foreign
    call and enters every payload function as the parameter `encode`. */
module Bitmaps {
  import opened Wrappers
  import opened Bytes

  /** What the raster decoder yields: dimensions and interleaved RGBA bytes. */
  datatype Png = Png(width: nat, height: nat, data: seq<byte>)

  /** The four bytes of the tag that opens an ARGB payload: "ARGB". */
  const ArgbTag: seq<byte> := [0x41, 0x52, 0x47, 0x42]

  /** `data.slice(j, j + 1)`: one byte, or none past the end. */
  function Pick(data: seq<byte>, j: nat): seq<byte>
  {
    if j < |data| then [data[j]] else []
  }

  /** What the extraction loop collects from pixel offset `i` on. */
  function ChannelFrom(data: seq<byte>, index: nat, i: nat): seq<byte>
    decreases |data| - i
  {
    if i >= |data| then [] else Pick(data, index + i) + ChannelFrom(data, index, i + 4)
  }

  /** The plane of channel `index`: the byte at that offset in every 4-byte pixel. */
  function Channel(data: seq<byte>, index: nat): seq<byte>
  {
    ChannelFrom(data, index, 0)
  }

  /** Over whole pixels, the plane from pixel offset `i` holds one byte per
      remaining pixel, taken at offset `index` within it. */
  lemma {:induction false} ChannelFromLayout(data: seq<byte>, index: nat, i: nat)
    requires |data| % 4 == 0 && index < 4 && i % 4 == 0 && i <= |data|
    ensures |ChannelFrom(data, index, i)| == (|data| - i) / 4
    ensures forall k :: 0 <= k < (|data| - i) / 4 ==>
              ChannelFrom(data, index, i)[k] == data[i + 4 * k + index]
    decreases |data| - i
  {
    if i < |data| {
      ChannelFromLayout(data, index, i + 4);
      var rest := ChannelFrom(data, index, i + 4);
      assert ChannelFrom(data, index, i) == [data[i + index]] + rest;
      forall k | 0 < k < (|data| - i) / 4
        ensures ChannelFrom(data, index, i)[k] == data[i + 4 * k + index]
      {
        assert rest[k - 1] == data[i + 4 + 4 * (k - 1) + index];
      }
    }
  }

  /** A plane has one byte per pixel, the k-th being byte `index` of pixel k. */
  lemma ChannelLayout(data: seq<byte>, index: nat)
    requires index < 4
    ensures |data| % 4 == 0 ==>
              |Channel(data, index)| == |data| / 4 &&
              forall k :: 0 <= k < |data| / 4 ==> Channel(data, index)[k] == data[4 * k + index]
  {
    if |data| % 4 == 0 {
      ChannelFromLayout(data, index, 0);
    }
  }

  /** `getChannel`: a stride-4 loop that appends one slice per pixel. */
  method GetChannel(data: seq<byte>, index: nat) returns (r: seq<byte>)
    ensures r == Channel(data, index)
    ensures |data| % 4 == 0 && index < 4 ==>
              |r| == |data| / 4 && forall k :: 0 <= k < |r| ==> r[k] == data[4 * k + index]
  {
    r := [];
    var i := 0;
    while i < |data|
      invariant r + ChannelFrom(data, index, i) == Channel(data, index)
      decreases |data| - i
    {
      var p, rest := Pick(data, index + i), ChannelFrom(data, index, i + 4);
      assert ChannelFrom(data, index, i) == p + rest;
      assert r + (p + rest) == (r + p) + rest;
      r := r + p;
      i := i + 4;
    }
    assert ChannelFrom(data, index, i) == [];
    if index < 4 {
      ChannelLayout(data, index);
    }
  }

  /** `mask`: the raw alpha plane. */
  function Mask(png: Png): (r: seq<byte>)
    ensures |png.data| % 4 == 0 ==>
              |r| == |png.data| / 4 && forall k :: 0 <= k < |r| ==> r[k] == png.data[4 * k + 3]
  {
    ChannelLayout(png.data, 3);
    Channel(png.data, 3)
  }

  /** `rgb`: the compressed red, green and blue planes, in that order. */
  function Rgb(png: Png, encode: seq<byte> -> seq<byte>): (r: seq<byte>)
    ensures |r| == |encode(Channel(png.data, 0))| + |encode(Channel(png.data, 1))|
                   + |encode(Channel(png.data, 2))|
    ensures encode(Channel(png.data, 0)) <= r
    ensures r[|encode(Channel(png.data, 0))|..] == encode(Channel(png.data, 1)) + encode(Channel(png.data, 2))
  {
    encode(Channel(png.data, 0)) + encode(Channel(png.data, 1)) + encode(Channel(png.data, 2))
  }

  /** `argb`: the tag "ARGB", then the compressed alpha, red, green and blue planes. */
  function Argb(png: Png, encode: seq<byte> -> seq<byte>): (r: seq<byte>)
    ensures |r| == 4 + |encode(Mask(png))| + |Rgb(png, encode)|
    ensures r[..4] == ArgbTag
  {
    ArgbTag + encode(Channel(png.data, 3)) + encode(Channel(png.data, 0))
      + encode(Channel(png.data, 1)) + encode(Channel(png.data, 2))
  }

  /** An ARGB payload is the tag, the compressed alpha plane, then exactly the RGB payload. */
  lemma ArgbIsTagAlphaRgb(png: Png, encode: seq<byte> -> seq<byte>)
    ensures Argb(png, encode) == ArgbTag + encode(Mask(png)) + Rgb(png, encode)
  {
  }

  /** `format`: case-sensitive dispatch on the storage-format tag; any other tag
      gives `undefined`. */
  function Format(png: Png, format: string, encode: seq<byte> -> seq<byte>): (r: Option<seq<byte>>)
    ensures r.Some? <==> format == "MASK" || format == "RGB" || format == "ARGB"
    ensures format == "MASK" ==> r == Some(Mask(png))
    ensures format == "RGB" ==> r == Some(Rgb(png, encode))
    ensures format == "ARGB" ==> r == Some(Argb(png, encode)) && r.value[..4] == ArgbTag
  {
    match format
    case "MASK" => Some(Mask(png))
    case "RGB" => Some(Rgb(png, encode))
    case "ARGB" => Some(Argb(png, encode))
    case _ => None
  }
}
