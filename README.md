# qoi-html: the QOI decoder `decode_qoi`, modelled and proved in Dafny

qoi-html decodes QOI ("Quite OK Image Format") images in the browser. Its one
component with real logic is `decode_qoi` in `qoi-html.js`. It has three parts:

- It reads and validates the 14-byte header: magic `qoif`, big-endian 32-bit
  width and height, 3 or 4 channels, colorspace 0 or 1.
- It runs a single loop over `width × height` pixels. Each pixel either
  continues a pending QOI_OP_RUN or reads one opcode: QOI_OP_RGB, QOI_OP_RGBA,
  QOI_OP_INDEX, QOI_OP_DIFF, QOI_OP_LUMA or QOI_OP_RUN. The loop keeps a running
  colour that starts at (0,0,0,255), and a 64-slot colour index keyed by
  `(3r + 5g + 7b + 11a) mod 64`, filled with packed 32-bit words. It writes
  `channels` bytes per pixel into the output raster.
- After the loop, it checks that the cursor stopped exactly 8 bytes before the
  end of the buffer. A mismatch is only logged.

The project is organised in four modules:

- `Bytes` (`bytes.dfy`) holds:
  - the byte type;
  - the big-endian 32-bit words used by the header and by the packed index
    entries, with their round trip;
  - the modulo-256 wraparound `(v + 256) % 256`.
- `QoiSpec` (`qoi_spec.dfy`) is the reference semantics, written as values:
  - `ParseHeader`;
  - `Step`, one loop iteration over an explicit `State` (colour, index, cursor,
    pending run);
  - `Trace`, the first `n` iterations and the colours they resolve;
  - `Raster`, the bytes those colours occupy;
  - `Pixels`, the whole loop;
  - `Decode`, the whole function.
- `QoiProperties` (`qoi_properties.dfy`) holds lemmas about that semantics:
  - header acceptance;
  - raster layout;
  - bytes consumed and state changed per opcode;
  - runs;
  - the initial index;
  - DIFF/LUMA arithmetic;
  - the non-fatal trailer check;
  - a worked example.
- `QoiDecoder` (`qoi_decoder.dfy`) is the decoder as the source writes it:
  - The running colour, run counter and cursor are local variables.
  - The colour index is an `array<nat>` of packed words. It is unpacked by
    shifting and masking, like the source's `Uint32Array`.
  - The raster is an `array<byte>` filled in place.
  - `DecodeQoi` is proved to return exactly `Decode(buf)`.
  - Each helper method is proved against `Step`, `Trace` and `Raster`.

The buffer is a `seq<byte>` whose length is the source's `byteLen`. Three cases
that the source does not handle inside `decode_qoi` are explicit error results:

- `BufferTooShort`: fewer than 22 bytes. The source checks this in its caller
  before decoding (qoi-html.js:19-21); here it is the first check of the decoder.
- `InvalidHeader`: the header check fails. The source logs and returns `null`.
- `TruncatedStream`: an opcode or one of its operand bytes lies past the end of
  the buffer. The source raises no error there. It reads `undefined` and goes
  on decoding, with results that depend on which byte was missing (see
  "## Left out").

A trailer mismatch is the flag `trailerMismatch` on the returned image, which
is otherwise complete.

Three behaviours of `decode_qoi` are kept exactly as the source has them:

- `decode_qoi` writes `channels` bytes per pixel (qoi-html.js:126-131). Alpha
  is written only for 4-channel images. No mode forces 4-byte output with
  alpha 255 for 3-channel images.
- A cursor that does not end 8 bytes before the end is a warning, never a
  failure.
- The 8 end-marker bytes are never inspected.

## Model

| member | source | states |
|---|---|---|
| Bytes.FromBytesBE | qoi-html.js:46-47 | the header's `(b0<<24 \| b1<<16 \| b2<<8 \| b3) >>> 0` is an unsigned 32-bit value |
| Bytes.ToBytesBE | qoi-html.js:46-47 | splitting a 32-bit word into four bytes, most significant first, is inverted by `FromBytesBE` |
| Bytes.FromToBytesBE | qoi-html.js:46-47 | the other direction of the round trip: bytes → word → bytes gives the same four bytes |
| Bytes.ShiftMaskBytes | qoi-html.js:94-97 | `(w >> 24) & 0xff`, `(w >> 16) & 0xff`, `(w >> 8) & 0xff` and `w & 0xff` recover the four bytes packed into `w` |
| Bytes.Wrap | qoi-html.js:104-106 | `(v + 256) % 256` is the byte congruent to `v` modulo 256, and is `v` itself when `v` is already a byte |
| QoiSpec.ParseHeader | qoi-html.js:44-54 | the header is accepted exactly when the magic is `qoif`, channels is 3 or 4 and colorspace is 0 or 1; otherwise `InvalidHeader`; width and height are below 2^32 and channels/colorspace are bytes 12 and 13 |
| QoiSpec.Hash | qoi-html.js:121 | the index slot of a colour is one of the 64 slots |
| QoiSpec.Initial | qoi-html.js:59-66 | decoding starts with 64 index slots, all (0,0,0,0) |
| QoiSpec.Step | qoi-html.js:69-123 | one iteration keeps the index at 64 slots and can only fail by running past the end of the buffer (`TruncatedStream`) |
| QoiSpec.Trace | qoi-html.js:68-123 | after `n` iterations exactly `n` colours have been resolved, the last is the running colour, and the only failure is truncation |
| QoiSpec.PixelBytes | qoi-html.js:126-131 | a pixel is written as red, green, blue, then, for 4 channels only, alpha as its fourth byte |
| QoiSpec.Raster | qoi-html.js:126-131 | the raster of `k` pixels has exactly `k * channels` bytes |
| QoiSpec.Pixels | qoi-html.js:57-132 | the pixel loop fills a raster of `count * channels` bytes or fails with `TruncatedStream` |
| QoiSpec.Decode | qoi-html.js:41-146 | fails with `BufferTooShort` exactly below 22 bytes and with `InvalidHeader` exactly for a rejected header; on success the fields are the parsed header's and the raster has `width * height * channels` bytes |
| QoiProperties.InvalidHeaderExactly | qoi-html.js:51-54 | `InvalidHeader` is returned if and only if the buffer is long enough and the magic, channel count or colorspace is wrong |
| QoiProperties.DecodedHeaderFields | qoi-html.js:44-50 | a decoded image's width and height are the big-endian words at bytes 4-7 and 8-11, and channels/colorspace are bytes 12 and 13 |
| QoiProperties.RasterAppend | qoi-html.js:126-131 | pixels written one after another give the concatenation of their rasters |
| QoiProperties.RasterAt | qoi-html.js:126-131 | pixel `i` occupies exactly bytes `i*channels` to `(i+1)*channels` of the raster |
| QoiProperties.DecodedPixelLayout | qoi-html.js:68-131 | in a decoded image, every pixel the loop resolves sits at its row-major place, `channels` bytes wide |
| QoiProperties.StepOpcode | qoi-html.js:69-122 | a run continuation reads nothing and changes only the count. An opcode fails exactly when it does not fit in the buffer. Otherwise it consumes 4 (RGB), 5 (RGBA), 2 (LUMA) or 1 byte, writes the new colour at its hash slot and nowhere else, and sets the run count from a RUN tag. Only RGBA and INDEX change alpha. RUN keeps the colour. INDEX loads its slot verbatim. RGB loads red, green and blue from the next three bytes and keeps alpha. RGBA also loads alpha, from the fourth |
| QoiProperties.PixelsFailEarly | qoi-html.js:68-132 | a truncation at any pixel fails the whole pixel loop |
| QoiProperties.TraceStopsAtFailure | qoi-html.js:68-132 | once the loop has failed, more iterations give the same failure |
| QoiProperties.TraceStep | qoi-html.js:68-132 | one more iteration appends the colour it resolves to those resolved so far |
| QoiProperties.RunRepeats | qoi-html.js:69-89 | after a RUN tag and `j` continuation steps, all `j + 1` pixels are the colour before the run, only the tag byte was consumed and `k - j` repeats remain |
| QoiProperties.RunLength | qoi-html.js:69-89 | a RUN tag with count field `k` yields exactly `k + 1` pixels of the current colour for one byte of input, then the next opcode is read |
| QoiProperties.IndexBeforeAnyStore | qoi-html.js:93-98 | the running colour starts (0,0,0,255), while QOI_OP_INDEX before any store yields (0,0,0,0), alpha included |
| QoiProperties.DiffDeltas | qoi-html.js:99-107 | QOI_OP_DIFF adds its three 2-bit fields minus 2 to red, green and blue modulo 256 and keeps alpha |
| QoiProperties.LumaDeltas | qoi-html.js:108-117 | QOI_OP_LUMA adds the green delta (6 bits minus 32) to green, and that delta plus a nibble minus 8 to red and blue, modulo 256; alpha kept; it never fails when its second byte is present |
| QoiProperties.DiffZeroKeepsColor | qoi-html.js:99-107 | DIFF with fields (2,2,2) keeps the colour and consumes one byte |
| QoiProperties.LumaZeroKeepsColor | qoi-html.js:108-117 | LUMA with green field 32 and both nibbles 8 keeps the colour and consumes two bytes |
| QoiProperties.TrailerCheckIsNonFatal | qoi-html.js:134-145 | with a valid header and an untruncated stream the full raster is returned, flagged exactly when the cursor is not `byteLen - 8` |
| QoiProperties.SinglePixelRgb | qoi-html.js:41-146 | `qoif`, 1×1, 3 channels, QOI_OP_RGB (10,20,30) and an end marker decode to the raster [10,20,30] with no trailer warning |
| QoiProperties.ShortBufferRefused | qoi-html.js:19-21 | a 21-byte buffer is refused before its header is read |
| QoiDecoder.Pack | qoi-html.js:122 | a colour packs into an unsigned 32-bit word |
| QoiDecoder.UnpackPack | qoi-html.js:94-97 | shifting and masking a packed index entry gives back its red, green, blue and alpha |
| QoiDecoder.ReadOpcode | qoi-html.js:72-122 | reading the opcode at the cursor succeeds exactly when `Step` does, yields `Step`'s colour, cursor and run count, and stores the packed colour at its hash slot so that the index array still mirrors the index of `Step`; on failure the index is unchanged |
| QoiDecoder.SetPixel | qoi-html.js:126-131 | the bytes of one pixel are appended at `pxlPos`, and nothing else in the raster changes |
| QoiDecoder.NextPixel | qoi-html.js:69-131 | one loop iteration extends the resolved colours and the raster prefix by one pixel exactly as `Trace` and `Raster` do, or reports the truncation `Trace` reports and leaves the index unchanged |
| QoiDecoder.DecodePixels | qoi-html.js:57-132 | the in-place pixel loop returns exactly `Pixels`: the raster of all `width × height` pixels and the final cursor, or `TruncatedStream` |
| QoiDecoder.DecodeQoi | qoi-html.js:41-146 | `decode_qoi` returns exactly `Decode(buf)` |

## Left out

- `fetch_img` (qoi-html.js:7-38) is network fetching, promise plumbing and DOM
  queries. Only its 22-byte minimum is kept, moved into the decoder as
  `BufferTooShort`.
- `show_img` (qoi-html.js:148-169) is canvas painting and DOM updates.
- The `load` listener and the wrapping function expression (qoi-html.js:4-5,
  171-173) are browser glue.
- `console.error` output (qoi-html.js:52, 135-136) is not modelled as output.
  The invalid header is an error value; the trailer mismatch is the
  `trailerMismatch` flag.
- What the source does after reading past the end of the buffer is not
  modelled. The model stops with `TruncatedStream` at the first opcode or
  operand byte past the end. The source reads `undefined` there and goes on:
  - A tag byte past the end (qoi-html.js:72): `undefined >> 6` is 0, so the
    QOI_OP_INDEX branch runs. `index_rgba[undefined]` masks to 0
    (qoi-html.js:94-97), so the pixel is (0,0,0,0). Every later pixel is the
    same transparent black, and the full raster is returned with the cursor
    warning.
  - A QOI_OP_LUMA second byte past the end (qoi-html.js:109): both of its
    nibbles read as 0, so the deltas stay finite numbers.
  - QOI_OP_RGB or QOI_OP_RGBA operands past the end (qoi-html.js:76-78,
    82-85): those channels become `undefined`. They are written to the raster
    as 0. Later DIFF, LUMA or hash arithmetic on them yields `NaN`.
- Allocation failure of `new Uint8Array(pxLen)` for huge images is not
  modelled. Neither is the loss of precision of a JavaScript number when
  `width * height * channels` exceeds 2^53. The model's integers are unbounded.
- The header words and the packed index entries are computed arithmetically.
  The source's signed 32-bit shifts and `>>> 0` are not modelled; they give the
  same unsigned values for byte-sized fields.
- `QoiDecoder.NextPixel`, `ReadOpcode` and `SetPixel` split the source's loop
  body into three methods, so that each is proved on its own. They pass the
  loop's locals in and out; this does not change the order of any read or
  write.
