/**
 Reference semantics of `decode_qoi`: the QOI header, one step of the
 opcode interpreter, the sequence of pixels it resolves, and the raster
 those pixels are written to. Everything here is a value; the imperative
 decoder in module QoiDecoder is proved to compute `Decode`.
 */
module QoiSpec {
  import opened Bytes

  /** The running pixel and the entries of the colour index. */
  datatype Color = Color(r: byte, g: byte, b: byte, a: byte)

  /** The header fields the decoder keeps. */
  datatype Header = Header(width: nat, height: nat, channels: nat, colorspace: nat)

  /** The decoded image: header fields, the raster (exactly `channels`
      bytes per pixel, row-major) and the non-fatal warning that the
      cursor did not stop exactly before the 8-byte end marker. */
  datatype Image = Image(width: nat, height: nat, colorspace: nat, channels: nat,
                         data: seq<byte>, trailerMismatch: bool)

  datatype DecodeError = BufferTooShort | InvalidHeader | TruncatedStream

  datatype Result<T> = Ok(value: T) | Err(error: DecodeError)

  /** The interpreter's state between two pixels: the running colour, the
      64-slot colour index, the byte cursor and the pending run count. */
  datatype State = State(px: Color, cache: seq<Color>, pos: nat, run: nat)

  /** "qoif" */
  const Magic: seq<byte> := [0x71, 0x6F, 0x69, 0x66]
  const HeaderSize: nat := 14
  const EndMarkerSize: nat := 8
  /** Header plus end marker: shorter buffers are refused before parsing. */
  const MinSize: nat := 22
  const CacheSize: nat := 64

  const OpRgb: byte := 0xFE
  const OpRgba: byte := 0xFF

  /** Width, height, channels and colorspace from the first 14 bytes, or
      `InvalidHeader` for a wrong magic, a channel count other than 3 or 4,
      or a colorspace above 1. */
  function ParseHeader(buf: seq<byte>): (r: Result<Header>)
    requires |buf| >= HeaderSize
    ensures r.Ok? <==> buf[..4] == Magic && buf[12] in {3, 4} && buf[13] in {0, 1}
    ensures r.Err? ==> r.error == InvalidHeader
    ensures r.Ok? ==> r.value.width < TwoTo32 && r.value.height < TwoTo32
    ensures r.Ok? ==> r.value.channels == buf[12] && r.value.colorspace == buf[13]
  {
    var h := Header(FromBytesBE(buf[4], buf[5], buf[6], buf[7]),
                    FromBytesBE(buf[8], buf[9], buf[10], buf[11]),
                    buf[12], buf[13]);
    if buf[..4] != Magic || buf[12] < 3 || buf[12] > 4 || buf[13] > 1 then Err(InvalidHeader)
    else Ok(h)
  }

  /** Number of pixels the loop resolves. */
  function PixelCount(width: nat, height: nat): nat {
    width * height
  }

  /** Index slot of a colour: `(3r + 5g + 7b + 11a) mod 64`. */
  function Hash(c: Color): (slot: nat)
    ensures slot < CacheSize
  {
    (c.r * 3 + c.g * 5 + c.b * 7 + c.a * 11) % 64
  }

  /** A QOI_OP_RUN tag: top two bits set, but neither RGB nor RGBA. */
  predicate IsRunTag(tag: byte) {
    0xC0 <= tag < OpRgb
  }

  /** Bytes an opcode occupies in the stream, tag byte included. */
  function OpSize(tag: byte): nat {
    if tag == OpRgb then 4
    else if tag == OpRgba then 5
    else if 0x80 <= tag < 0xC0 then 2
    else 1
  }

  /** The state in which decoding starts: colour (0,0,0,255), an all-zero
      index, the cursor just after the header and no pending run. */
  function Initial(): (s: State)
    ensures |s.cache| == CacheSize
    ensures forall k :: 0 <= k < CacheSize ==> s.cache[k] == Color(0, 0, 0, 0)
  {
    State(Color(0, 0, 0, 255), seq(CacheSize, _ => Color(0, 0, 0, 0)), HeaderSize, 0)
  }

  /** A freshly read opcode resolved colour `c`: it becomes the running
      colour and is stored at its hash slot. */
  function Resolve(s: State, c: Color, pos: nat, run: nat): State
    requires |s.cache| == CacheSize
  {
    State(c, s.cache[Hash(c) := c], pos, run)
  }

  /** One iteration of the pixel loop: continue a pending run, or read one
      opcode and its operands. Reading past the end of the buffer is a
      `TruncatedStream` failure. */
  function Step(buf: seq<byte>, s: State): (r: Result<State>)
    requires |s.cache| == CacheSize
    ensures r.Ok? ==> |r.value.cache| == CacheSize
    ensures r.Err? ==> r.error == TruncatedStream
  {
    if s.run > 0 then
      Ok(s.(run := s.run - 1))
    else if s.pos >= |buf| then
      Err(TruncatedStream)
    else
      var tag := buf[s.pos];
      var p := s.pos + 1;
      if tag == OpRgb then
        if p + 3 > |buf| then Err(TruncatedStream)
        else Ok(Resolve(s, Color(buf[p], buf[p + 1], buf[p + 2], s.px.a), p + 3, 0))
      else if tag == OpRgba then
        if p + 4 > |buf| then Err(TruncatedStream)
        else Ok(Resolve(s, Color(buf[p], buf[p + 1], buf[p + 2], buf[p + 3]), p + 4, 0))
      else if tag >= 0xC0 then
        // QOI_OP_RUN: this pixel and `tag & 0x3f` more repeat the colour
        Ok(Resolve(s, s.px, p, tag % 64))
      else if tag < 0x40 then
        // QOI_OP_INDEX
        Ok(Resolve(s, s.cache[tag], p, 0))
      else if tag < 0x80 then
        // QOI_OP_DIFF: three 2-bit deltas with bias 2
        var c := Color(Wrap(s.px.r + (tag / 16) % 4 - 2),
                       Wrap(s.px.g + (tag / 4) % 4 - 2),
                       Wrap(s.px.b + tag % 4 - 2),
                       s.px.a);
        Ok(Resolve(s, c, p, 0))
      else if p >= |buf| then
        Err(TruncatedStream)
      else
        // QOI_OP_LUMA: 6-bit green delta with bias 32, red and blue relative to it
        var t1 := buf[p];
        var dg := tag as int % 64 - 32;
        var c := Color(Wrap(s.px.r + dg + (t1 / 16) % 16 - 8),
                       Wrap(s.px.g + dg),
                       Wrap(s.px.b + dg + t1 % 16 - 8),
                       s.px.a);
        Ok(Resolve(s, c, p + 1, 0))
  }

  /** The state after `n` loop iterations from `s0` and the `n` colours
      resolved on the way, or the first failure. */
  function Trace(buf: seq<byte>, s0: State, n: nat): (r: Result<(State, seq<Color>)>)
    requires |s0.cache| == CacheSize
    ensures r.Ok? ==> |r.value.0.cache| == CacheSize && |r.value.1| == n
    ensures r.Ok? && n > 0 ==> r.value.1[n - 1] == r.value.0.px
    ensures r.Err? ==> r.error == TruncatedStream
  {
    if n == 0 then Ok((s0, []))
    else
      match Trace(buf, s0, n - 1)
      case Err(e) => Err(e)
      case Ok((s, ps)) =>
        match Step(buf, s)
        case Err(e) => Err(e)
        case Ok(s') => Ok((s', ps + [s'.px]))
  }

  /** The bytes one pixel occupies in the raster: alpha only for 4 channels. */
  function PixelBytes(c: Color, channels: nat): (bs: seq<byte>)
    ensures |bs| == (if channels == 4 then 4 else 3)
    ensures bs[..3] == [c.r, c.g, c.b]
    ensures channels == 4 ==> bs[3] == c.a
  {
    if channels == 4 then [c.r, c.g, c.b, c.a] else [c.r, c.g, c.b]
  }

  /** The raster holding `ps` in order, `channels` bytes per pixel. */
  function Raster(ps: seq<Color>, channels: nat): (data: seq<byte>)
    requires channels in {3, 4}
    ensures |data| == |ps| * channels
  {
    if ps == [] then []
    else Raster(ps[..|ps| - 1], channels) + PixelBytes(ps[|ps| - 1], channels)
  }

  /** The pixel loop as a value: the raster of `count` pixels decoded from
      the initial state, and the cursor where the loop stopped. */
  function Pixels(buf: seq<byte>, count: nat, channels: nat): (r: Result<(seq<byte>, nat)>)
    requires channels in {3, 4}
    ensures r.Ok? ==> |r.value.0| == count * channels
    ensures r.Err? ==> r.error == TruncatedStream
  {
    match Trace(buf, Initial(), count)
    case Err(e) => Err(e)
    case Ok((s, ps)) => Ok((Raster(ps, channels), s.pos))
  }

  /** `decode_qoi` as a value: refuse short buffers and bad headers, run the
      loop for width × height pixels, and report whether the cursor stopped
      exactly before the end marker. */
  function Decode(buf: seq<byte>): (r: Result<Image>)
    ensures r == Err(BufferTooShort) <==> |buf| < MinSize
    ensures r == Err(InvalidHeader) <==> |buf| >= MinSize && ParseHeader(buf).Err?
    ensures r.Ok? ==> |buf| >= MinSize && ParseHeader(buf) ==
                        Ok(Header(r.value.width, r.value.height, r.value.channels, r.value.colorspace))
    ensures r.Ok? ==> |r.value.data| == PixelCount(r.value.width, r.value.height) * r.value.channels
  {
    if |buf| < MinSize then Err(BufferTooShort)
    else
      match ParseHeader(buf)
      case Err(e) => Err(e)
      case Ok(h) =>
        match Pixels(buf, PixelCount(h.width, h.height), h.channels)
        case Err(e) => Err(e)
        case Ok((data, pos)) =>
          Ok(Image(h.width, h.height, h.colorspace, h.channels, data, pos != |buf| - EndMarkerSize))
  }
}
