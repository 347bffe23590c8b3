/** `IcnsImage` (src/icns-image.ts): one type-coded, length-prefixed entry of an
    icon container, its serialised form and its construction from a PNG file.
    The PNG decoder, the run-length encoder and the table of supported icon
    types are not part of this model; they enter as parameters. */
module IcnsImages {
  import opened Wrappers
  import opened Bytes
  import opened Bitmaps

  /** The conditions under which the record layer throws. */
  datatype Error =
    | UnsupportedType   // no supported icon type has the requested osType
    | InvalidImage      // the decoder rejected the buffer: not a PNG
    | NotSquare         // decoded width differs from height
    | WrongSize         // decoded width differs from the icon type's size
    | InvalidFormat     // the icon type's format yields no payload
    | BufferTooShort    // fewer than 8 bytes where a header is read
    | LengthOutOfRange  // a length field that does not fit in 32 bits

  /** One row of the table of supported icon types. */
  datatype IconType = IconType(osType: string, size: int, format: string)

  /** `supportedIconTypes.find(...)`: the first icon type with the given osType. */
  function FindType(types: seq<IconType>, osType: string): (r: Option<IconType>)
    ensures r.None? <==> forall i :: 0 <= i < |types| ==> types[i].osType != osType
    ensures r.Some? ==> exists i :: 0 <= i < |types| && types[i] == r.value &&
                          r.value.osType == osType &&
                          forall j :: 0 <= j < i ==> types[j].osType != osType
  {
    if |types| == 0 then None
    else if types[0].osType == osType then Some(types[0])
    else
      var r := FindType(types[1..], osType);
      assert r.Some? ==> exists i :: 1 <= i < |types| && types[i] == r.value &&
                          r.value.osType == osType &&
                          forall j :: 0 <= j < i ==> types[j].osType != osType by {
        if r.Some? {
          var i :| 0 <= i < |types| - 1 && types[1..][i] == r.value &&
                   forall j :: 0 <= j < i ==> types[1..][j].osType != osType;
          assert types[i + 1] == r.value;
          assert forall j :: 1 <= j < i + 1 ==> types[j].osType != osType by {
            forall j | 1 <= j < i + 1 ensures types[j].osType != osType {
              assert types[j] == types[1..][j - 1];
            }
          }
        }
      }
      r
  }

  /** The checks of `fromPNG`, in the order `fromPNG` makes them, and the
      payload they produce. A 'png' icon type stores the input buffer verbatim;
      any other format is built by `Bitmap.format`. */
  function ImagePayload(buffer: seq<byte>, osType: string, types: seq<IconType>,
                        decode: seq<byte> -> Option<Png>,
                        encode: seq<byte> -> seq<byte>): (r: Result<seq<byte>, Error>)
    ensures r == Err(UnsupportedType) <==> FindType(types, osType).None?
    ensures r == Err(InvalidImage) <==>
              FindType(types, osType).Some? && decode(buffer).None?
    ensures r == Err(NotSquare) <==>
              FindType(types, osType).Some? && decode(buffer).Some? &&
              decode(buffer).value.width != decode(buffer).value.height
    ensures r == Err(WrongSize) <==>
              FindType(types, osType).Some? && decode(buffer).Some? &&
              decode(buffer).value.width == decode(buffer).value.height &&
              decode(buffer).value.width != FindType(types, osType).value.size
    ensures r == Err(InvalidFormat) <==>
              FindType(types, osType).Some? && decode(buffer).Some? &&
              decode(buffer).value.width == decode(buffer).value.height ==
                FindType(types, osType).value.size &&
              FindType(types, osType).value.format != "png" &&
              Format(decode(buffer).value, FindType(types, osType).value.format, encode).None?
    ensures r.Err? ==> r.error in {UnsupportedType, InvalidImage, NotSquare, WrongSize, InvalidFormat}
    ensures r.Ok? ==>
              && FindType(types, osType).Some? && decode(buffer).Some?
              && decode(buffer).value.width == decode(buffer).value.height
              && decode(buffer).value.width == FindType(types, osType).value.size
    ensures r.Ok? && FindType(types, osType).value.format == "png" ==> r.value == buffer
    ensures r.Ok? && FindType(types, osType).value.format != "png" ==>
              Format(decode(buffer).value, FindType(types, osType).value.format, encode) == Some(r.value)
  {
    match FindType(types, osType)
    case None => Err(UnsupportedType)
    case Some(iconType) =>
      match decode(buffer)
      case None => Err(InvalidImage)
      case Some(png) =>
        if png.width != png.height then Err(NotSquare)
        else if png.width != iconType.size then Err(WrongSize)
        else
          var image := if iconType.format == "png" then Some(buffer)
                       else Format(png, iconType.format, encode);
          if image.None? then Err(InvalidFormat) else Ok(image.value)
  }

  /** The three fields of an entry, as values. */
  datatype Entry = Entry(osType: string, bytes: nat, image: seq<byte>) {
    /** The length field counts the 8-byte header and the payload. */
    predicate Consistent() { bytes == 8 + |image| }
  }

  /** The length field of a serialised entry. */
  function DeclaredLength(buffer: seq<byte>): (n: nat)
    requires |buffer| >= 8
    ensures n < TWO_32
  {
    DecodeU32BE(buffer[4..8])
  }

  /** What the `data` setter reads out of a buffer. The length field is kept as
      declared; the payload is clamped to the bytes actually present, so a
      declared length that overruns the buffer is not rejected. */
  function Parse(buffer: seq<byte>): (r: Result<Entry, Error>)
    ensures r.Err? <==> |buffer| < 8
    ensures r.Err? ==> r.error == BufferTooShort
    ensures r.Ok? ==> r.value.osType == ReadAscii(buffer[..4]) &&
                      r.value.bytes == DeclaredLength(buffer)
    ensures r.Ok? ==> r.value.image <= buffer[8..] &&
                      |r.value.image| == Max(0, Min(r.value.bytes, |buffer|) - 8)
    ensures r.Ok? ==> (r.value.Consistent() <==> 8 <= DeclaredLength(buffer) <= |buffer|)
  {
    if |buffer| < 8 then Err(BufferTooShort)
    else Ok(Entry(ReadAscii(buffer[..4]), DeclaredLength(buffer), Slice(buffer, 8, DeclaredLength(buffer))))
  }

  class IcnsImage {
    var osType: string
    var bytes: nat
    var image: seq<byte>

    constructor (osType: string := "", bytes: nat := 8, image: seq<byte> := [])
      ensures this.osType == osType && this.bytes == bytes && this.image == image
    {
      this.osType := osType;
      this.bytes := bytes;
      this.image := image;
    }

    /** The entry's fields as a value. */
    function State(): Entry
      reads this
    {
      Entry(osType, bytes, image)
    }

    /** The `image` setter: the length field follows the new payload. */
    method SetImage(image: seq<byte>)
      modifies this
      ensures this.image == image && bytes == 8 + |image| && osType == old(osType)
      ensures State().Consistent()
    {
      this.image := image;
      bytes := 8 + |image|;
    }

    /** The `data` getter: osType in four ASCII bytes, the length field big-endian,
        then the payload. Writing a length of 2^32 or more throws. */
    function Data(): (r: Result<seq<byte>, Error>)
      reads this
      ensures r.Ok? <==> bytes < TWO_32
      ensures r.Err? ==> r.error == LengthOutOfRange
      ensures r.Ok? ==> |r.value| == 8 + |image| && r.value[..4] == WriteAscii4(osType) &&
                        DecodeU32BE(r.value[4..8]) == bytes && r.value[8..] == image
    {
      if bytes < TWO_32 then
        DecodeEncodeU32(bytes);
        Ok(WriteAscii4(osType) + EncodeU32BE(bytes) + image)
      else
        Err(LengthOutOfRange)
    }

    /** The `data` setter. osType is assigned before the length is read, so a
        buffer shorter than 8 bytes changes osType and then throws. */
    method SetData(buffer: seq<byte>) returns (outcome: Outcome<Error>)
      modifies this
      ensures osType == ReadAscii(buffer[..Min(4, |buffer|)])
      ensures outcome.Pass? <==> Parse(buffer).Ok?
      ensures outcome.Fail? ==> outcome.error == BufferTooShort &&
                                bytes == old(bytes) && image == old(image)
      ensures outcome.Pass? ==> State() == Parse(buffer).value
    {
      osType := ReadAscii(buffer[..Min(4, |buffer|)]);
      if |buffer| < 8 {
        return Fail(BufferTooShort);
      }
      bytes := DecodeU32BE(buffer[4..8]);
      image := Slice(buffer, 8, bytes);
      outcome := Pass;
    }

    /** `IcnsImage.from`: a fresh entry whose `data` setter has read the buffer. */
    static method From(buffer: seq<byte>) returns (r: Result<IcnsImage, Error>)
      ensures r.Ok? <==> |buffer| >= 8
      ensures r.Err? ==> r.error == BufferTooShort
      ensures r.Ok? ==> fresh(r.value) && Parse(buffer) == Ok(r.value.State())
    {
      var entry := new IcnsImage();
      var outcome := entry.SetData(buffer);
      if outcome.Fail? {
        return Err(outcome.error);
      }
      return Ok(entry);
    }

    /** `IcnsImage.fromPNG`: validate a PNG against its icon type and build a
        fresh entry of that osType whose length field matches its payload. */
    static method FromPNG(buffer: seq<byte>, osType: string, types: seq<IconType>,
                          decode: seq<byte> -> Option<Png>,
                          encode: seq<byte> -> seq<byte>) returns (r: Result<IcnsImage, Error>)
      ensures r.Err? <==> ImagePayload(buffer, osType, types, decode, encode).Err?
      ensures r.Err? ==> r.error == ImagePayload(buffer, osType, types, decode, encode).error
      ensures r.Ok? ==> fresh(r.value) && r.value.osType == osType &&
                        r.value.image == ImagePayload(buffer, osType, types, decode, encode).value &&
                        r.value.State().Consistent()
    {
      var payload := ImagePayload(buffer, osType, types, decode, encode);
      if payload.Err? {
        return Err(payload.error);
      }
      var entry := new IcnsImage(osType);
      entry.SetImage(payload.value);
      return Ok(entry);
    }
  }

  /** An osType that survives serialisation: four seven-bit characters. */
  predicate IsOsType(s: string)
  {
    |s| == 4 && forall i :: 0 <= i < 4 ==> IsSevenBit(s[i])
  }

  /** Round trip: parsing what the `data` getter produced gives back the same
      osType, length field and payload. */
  lemma {:induction false} DataRoundTrip(x: IcnsImage)
    requires IsOsType(x.osType) && x.State().Consistent() && x.bytes < TWO_32
    ensures x.Data().Ok? && Parse(x.Data().value) == Ok(x.State())
  {
    var d := x.Data().value;
    assert d[4..8] == EncodeU32BE(x.bytes);
    DecodeEncodeU32(x.bytes);
    assert d[..4] == WriteAscii4(x.osType);
    AsciiRoundTrip(x.osType);
    assert d[8..|d|] == x.image;
  }

  /** The other direction: an entry read from a buffer whose length field covers
      it exactly, and whose type bytes are seven-bit, writes the same buffer back. */
  lemma {:induction false} ParseRoundTrip(buffer: seq<byte>, x: IcnsImage)
    requires |buffer| >= 8 && DeclaredLength(buffer) == |buffer|
    requires forall i :: 0 <= i < 4 ==> buffer[i] < 0x80
    requires Parse(buffer) == Ok(x.State())
    ensures x.Data() == Ok(buffer)
  {
    AsciiBytesRoundTrip(buffer[..4]);
    EncodeDecodeU32(buffer[4..8]);
    assert x.image == buffer[8..];
    assert buffer == buffer[..4] + buffer[4..8] + buffer[8..];
  }

  /** An entry built for an ARGB icon type starts with the tag "ARGB". */
  lemma ArgbPayloadTagged(buffer: seq<byte>, osType: string, types: seq<IconType>,
                          decode: seq<byte> -> Option<Png>, encode: seq<byte> -> seq<byte>)
    requires ImagePayload(buffer, osType, types, decode, encode).Ok?
    requires FindType(types, osType).value.format == "ARGB"
    ensures ImagePayload(buffer, osType, types, decode, encode).value[..4] == ArgbTag
  {
  }

  /** For a decoder that yields four bytes per pixel, an entry built for a MASK
      icon type holds exactly one byte per pixel of the required size. */
  lemma MaskPayloadSize(buffer: seq<byte>, osType: string, types: seq<IconType>,
                        decode: seq<byte> -> Option<Png>, encode: seq<byte> -> seq<byte>)
    requires ImagePayload(buffer, osType, types, decode, encode).Ok?
    requires FindType(types, osType).value.format == "MASK"
    requires |decode(buffer).value.data| == 4 * decode(buffer).value.width * decode(buffer).value.height
    ensures |ImagePayload(buffer, osType, types, decode, encode).value| ==
              FindType(types, osType).value.size * FindType(types, osType).value.size
  {
    var png := decode(buffer).value;
    assert |png.data| % 4 == 0 && |png.data| / 4 == png.width * png.height;
  }
}
