# icns record layer in Dafny

A model of the record layer of Apple's icon container format ("icns") as
implemented in `src/icns-image.ts`. An icns entry is a 4-byte ASCII type code
(`osType`), a 4-byte big-endian length field that counts the 8-byte header and
the payload, and then the payload. The model covers two classes:

- `IcnsImage`: one entry. It is a Dafny class with the fields `osType`,
  `bytes` and `image`. The `image` and `data` setters are methods
  (`SetImage`, `SetData`), the `data` getter is the function `Data`, and the
  static `from` and `fromPNG` are static methods (`From`, `FromPNG`). The
  trivial `bytes` and `image` getters are the fields themselves. `Parse` states
  what the `data` setter reads. `ImagePayload` states the checks of `fromPNG`
  and the payload they produce.
- `Bitmap`: plane extraction and the legacy payloads. The class only wraps a
  read-only decoded image, so it is modelled as functions over a `Png` value.
  `getChannel` is a method with its stride-4 loop (`GetChannel`), proved
  against the function `Channel`. `Mask`, `Rgb`, `Argb` and `Format` are functions.

Files: `wrappers.dfy` (Option/Result/Outcome), `bytes.dfy` (the Node `Buffer`
primitives: big-endian u32, the 'ascii' encoding, `slice`), `bitmap.dfy`,
`icns_image.dfy`.

The foreign collaborators are parameters:
- the PNG decoder (`pngjs`) is `decode: seq<byte> -> Option<Png>`, where `None`
  is a decode failure;
- the PackBits encoder (`@fiahfy/packbits`, icns variant) is
  `encode: seq<byte> -> seq<byte>`, left uninterpreted;
- the table `Icns.supportedIconTypes` is `types: seq<IconType>`, searched
  first-match like `Array.prototype.find`.

Node's string handling is modelled as it behaves. `write(s, 0, 4, 'ascii')`
stores the low byte of each of the first four characters and leaves zeros
after a shorter string. `toString('ascii')` clears the high bit of each byte.
Only four seven-bit characters survive a round trip, so the round-trip lemmas
ask for that.

Behaviours of the code that the model keeps:
- The `data` setter does not reject a length field larger than the buffer. It
  clamps the payload to the bytes present and keeps the declared length.
  `Parse` states this, and also that the entry is then inconsistent.
- `fromPNG` looks up the icon type before it decodes, so a non-square image of
  an unknown type fails with `UnsupportedType`, not `NotSquare`.
- The `data` setter assigns `osType` before reading the length. A buffer
  shorter than 8 bytes therefore changes `osType` and then throws (`SetData`).
- Writing a length field of 2^32 or more makes `writeUInt32BE` throw. `Data`
  returns `LengthOutOfRange` for it.

## Model

| member | source | states |
|---|---|---|
| `Bitmaps.GetChannel` | src/icns-image.ts:50-56 | the loop returns the channel plane; over whole pixels it has one byte per pixel, and byte k is `data[4k+index]` |
| `Bitmaps.ChannelLayout` | src/icns-image.ts:50-56 | for channel `index < 4` over RGBA data whose length is a multiple of 4, the plane has `|data|/4` bytes and byte k is `data[4k+index]` |
| `Bitmaps.ChannelFromLayout` | src/icns-image.ts:52-54 | the same layout for the part of the loop that starts at any pixel offset (the induction behind `ChannelLayout`) |
| `Bitmaps.Mask` | src/icns-image.ts:25-27 | the mask is the uncompressed alpha plane: one byte per pixel, byte k is `data[4k+3]` |
| `Bitmaps.Rgb` | src/icns-image.ts:29-35 | the payload is the three compressed planes with no separators: red first, then green, then blue |
| `Bitmaps.Argb` | src/icns-image.ts:37-48 | the payload starts with the bytes `41 52 47 42` ("ARGB") and is 4 bytes longer than the compressed alpha plane and the RGB payload together |
| `Bitmaps.ArgbIsTagAlphaRgb` | src/icns-image.ts:29-48 | an ARGB payload is the tag, then the compressed alpha plane, then exactly the RGB payload |
| `Bitmaps.Format` | src/icns-image.ts:12-23 | a payload exists exactly for the case-sensitive tags 'MASK', 'RGB' and 'ARGB'; 'MASK' gives the raw alpha plane; an ARGB payload starts with "ARGB" |
| `Bytes.EncodeU32BE` | src/icns-image.ts:130 | a length field is four bytes |
| `Bytes.DecodeU32BE` | src/icns-image.ts:136 | a decoded length field is below 2^32 |
| `Bytes.DecodeEncodeU32` | src/icns-image.ts:130 | big-endian decoding inverts encoding on every 32-bit value |
| `Bytes.EncodeDecodeU32` | src/icns-image.ts:136 | big-endian encoding inverts decoding on every four bytes |
| `Bytes.WriteAscii4` | src/icns-image.ts:129 | the type code takes four bytes; a seven-bit character reads back as itself; positions after a shorter osType stay zero |
| `Bytes.ReadAscii` | src/icns-image.ts:135 | one seven-bit character per byte read |
| `Bytes.AsciiRoundTrip` | src/icns-image.ts:129 | four seven-bit characters survive write then read |
| `Bytes.AsciiBytesRoundTrip` | src/icns-image.ts:135 | four seven-bit bytes survive read then write |
| `Bytes.Slice` | src/icns-image.ts:137 | `Buffer.slice` clamps both ends to the buffer: the result is a prefix of the buffer from `start`, of the clamped length |
| `IcnsImages.FindType` | src/icns-image.ts:77-79 | no result exactly when no icon type has the osType; otherwise the first icon type that has it |
| `IcnsImages.ImagePayload` | src/icns-image.ts:76-106 | the checks fail in a fixed order: unknown osType, decode failure, width != height, width != size, a format with no payload; on success the payload is the input buffer for 'png' and the `Bitmap` format output otherwise |
| `IcnsImages.DeclaredLength` | src/icns-image.ts:136 | the length field of a serialised entry is below 2^32 |
| `IcnsImages.Parse` | src/icns-image.ts:134-138 | fewer than 8 bytes is an error; otherwise the length field is kept as declared and the payload is the bytes after the header, clamped to the buffer; the entry is consistent exactly when 8 <= declared length <= buffer length |
| `IcnsImages.IcnsImage.constructor` | src/icns-image.ts:64-68 | the three fields take the given values, which default to an empty osType, a length of 8 and an empty payload |
| `IcnsImages.IcnsImage.SetImage` | src/icns-image.ts:121-125 | the payload is replaced, `bytes` becomes `8 + |image|` and `osType` is unchanged |
| `IcnsImages.IcnsImage.Data` | src/icns-image.ts:127-132 | `8 + |image|` bytes: the ASCII osType, then a length field that reads back as `bytes`, then the payload verbatim; an error when `bytes` does not fit in 32 bits |
| `IcnsImages.IcnsImage.SetData` | src/icns-image.ts:134-138 | `osType` is read from the first bytes in every case; with 8 bytes or more the fields become what `Parse` reads; a shorter buffer is an error and leaves `bytes` and `image` unchanged |
| `IcnsImages.IcnsImage.From` | src/icns-image.ts:70-74 | a fresh entry with the fields `Parse` reads, or an error exactly when the buffer is shorter than 8 bytes |
| `IcnsImages.IcnsImage.FromPNG` | src/icns-image.ts:76-111 | fails exactly as `ImagePayload` does; otherwise a fresh entry with the requested osType, the payload, and `bytes == 8 + |payload|` |
| `IcnsImages.DataRoundTrip` | src/icns-image.ts:127-138 | for a four-character seven-bit osType and `bytes == 8 + |image| < 2^32`, parsing the serialised entry gives back the same osType, `bytes` and `image` |
| `IcnsImages.ParseRoundTrip` | src/icns-image.ts:127-138 | an entry parsed from a buffer whose length field equals its length and whose type bytes are seven-bit serialises back to that buffer |
| `IcnsImages.ArgbPayloadTagged` | src/icns-image.ts:100-103 | an entry built for an ARGB icon type starts with "ARGB" |
| `IcnsImages.MaskPayloadSize` | src/icns-image.ts:100-103 | for a decoder that yields four bytes per pixel, a MASK entry has `size * size` payload bytes |

## Left out

- PNG decoding (`pngjs`, `readPNG`, src/icns-image.ts:140-146) is a foreign library. It is the parameter `decode`, whose `None` stands for a thrown decode error.
- The PackBits `encode` of `@fiahfy/packbits` is a foreign call. It is the uninterpreted parameter `encode`, and its output is not specified.
- The `Icns` container class and its `supportedIconTypes` table: src/icns.ts is not part of this model. The table is the parameter `types`, so no lemma depends on its contents. Appending, container parsing and the absence of deduplication belong to that class.
- Buffers are modelled as values (`seq<byte>`). The model therefore does not capture that `slice` shares memory with its input, or that the caller's buffer is stored without a copy.
- `Bitmaps.GetChannel` appends each one-byte slice directly instead of collecting the slices in a list and concatenating them once. The result is the same.
- Node's 'ascii' writer works on UTF-16 code units, while a Dafny `char` is a Unicode scalar value. For characters beyond U+FFFF the model writes one byte where Node writes two (of which only the first four bytes are kept).
- The length field is a `nat`. A negative or fractional `bytes` passed to the constructor, which `writeUInt32BE` would reject or truncate, is not modelled.
- Exception classes and message texts are reduced to the variants of `Error`.
