/**
 Properties of the reference semantics: what one decode promises about
 its header, its raster, its opcodes and its colour index.
 */
module QoiProperties {
  import opened Bytes
  import opened QoiSpec

  // ---------------------------------------------------------------------
  // Header

  /** A buffer is refused as `InvalidHeader` exactly when it is long
      enough and its magic, channel count or colorspace is wrong. */
  lemma InvalidHeaderExactly(buf: seq<byte>)
    ensures Decode(buf) == Err(InvalidHeader) <==>
              |buf| >= MinSize && (buf[..4] != Magic || buf[12] < 3 || buf[12] > 4 || buf[13] > 1)
  {
  }

  /** The width and height of a decoded image are the big-endian words at
      bytes 4..7 and 8..11; channels and colorspace are bytes 12 and 13. */
  lemma DecodedHeaderFields(buf: seq<byte>)
    requires Decode(buf).Ok?
    ensures var img := Decode(buf).value;
            && ToBytesBE(img.width) == buf[4..8]
            && ToBytesBE(img.height) == buf[8..12]
            && img.channels == buf[12] && img.colorspace == buf[13]
  {
    FromToBytesBE(buf[4], buf[5], buf[6], buf[7]);
    FromToBytesBE(buf[8], buf[9], buf[10], buf[11]);
  }

  // ---------------------------------------------------------------------
  // Raster

  /** Scaling a pixel count by the channel count keeps the order. */
  lemma ScaleByChannels(i: nat, n: nat, channels: nat)
    requires channels in {3, 4}
    ensures i < n <==> i * channels < n * channels
    ensures i < n ==> (i + 1) * channels <= n * channels
    ensures (i + 1) * channels == i * channels + channels
  {
  }

  /** The raster of a `width` × `height` image takes `width * height *
      channels` bytes, a natural number. */
  lemma RasterSize(width: nat, height: nat, channels: nat)
    requires channels in {3, 4}
    ensures width * height * channels == PixelCount(width, height) * channels >= 0
  {
    var n := PixelCount(width, height);
    assert n * channels == if channels == 3 then n + n + n else n + n + n + n;
  }

  /** Appending a pixel appends its bytes to the raster. */
  lemma RasterSnoc(ps: seq<Color>, px: Color, channels: nat)
    requires channels in {3, 4}
    ensures Raster(ps + [px], channels) == Raster(ps, channels) + PixelBytes(px, channels)
  {
    assert (ps + [px])[..|ps|] == ps;
  }

  lemma ConcatAssoc<T>(x: seq<T>, y: seq<T>, z: seq<T>)
    ensures (x + y) + z == x + (y + z)
  {
  }

  /** The raster of two runs of pixels is the raster of the first followed
      by the raster of the second. */
  lemma {:induction false} RasterAppend(a: seq<Color>, b: seq<Color>, channels: nat)
    requires channels in {3, 4}
    ensures Raster(a + b, channels) == Raster(a, channels) + Raster(b, channels)
    decreases |b|
  {
    if b == [] {
      assert a + b == a;
    } else {
      var init, px := b[..|b| - 1], b[|b| - 1];
      assert a + b == (a + init) + [px];
      assert b == init + [px];
      RasterSnoc(a + init, px, channels);
      RasterAppend(a, init, channels);
      RasterSnoc(init, px, channels);
      ConcatAssoc(Raster(a, channels), Raster(init, channels), PixelBytes(px, channels));
    }
  }

  /** Pixel `i` occupies exactly bytes `i * channels` up to
      `(i + 1) * channels` of the raster, in row-major order. */
  lemma RasterAt(ps: seq<Color>, channels: nat, i: nat)
    requires channels in {3, 4} && i < |ps|
    ensures (i + 1) * channels <= |Raster(ps, channels)|
    ensures Raster(ps, channels)[i * channels..(i + 1) * channels] == PixelBytes(ps[i], channels)
  {
    var before, after := ps[..i], ps[i + 1..];
    assert ps == before + [ps[i]] + after;
    RasterAppend(before + [ps[i]], after, channels);
    RasterSnoc(before, ps[i], channels);
    ScaleByChannels(i, |ps|, channels);
    var front, pixel := Raster(before, channels), PixelBytes(ps[i], channels);
    assert |front| == i * channels;
    assert (front + pixel + Raster(after, channels))[|front|..|front| + |pixel|] == pixel;
  }

  /** Each decoded pixel fills exactly `channels` bytes of the output, in
      order: red, green, blue, and alpha only for four channels. */
  lemma DecodedPixelLayout(buf: seq<byte>, i: nat)
    requires Decode(buf).Ok?
    requires i < PixelCount(Decode(buf).value.width, Decode(buf).value.height)
    ensures var img := Decode(buf).value;
            var ps := Trace(buf, Initial(), PixelCount(img.width, img.height)).value.1;
            && Trace(buf, Initial(), PixelCount(img.width, img.height)).Ok?
            && img.data[i * img.channels..(i + 1) * img.channels] == PixelBytes(ps[i], img.channels)
  {
    var img := Decode(buf).value;
    var ps := Trace(buf, Initial(), PixelCount(img.width, img.height)).value.1;
    RasterAt(ps, img.channels, i);
  }

  // ---------------------------------------------------------------------
  // Opcode stream

  /** Once the loop has failed it stays failed: a later pixel count gives
      the same failure. */
  lemma {:induction false} TraceStopsAtFailure(buf: seq<byte>, s0: State, i: nat, n: nat)
    requires |s0.cache| == CacheSize
    requires Trace(buf, s0, i).Err? && i <= n
    ensures Trace(buf, s0, n) == Trace(buf, s0, i)
    decreases n - i
  {
    if i < n {
      TraceStopsAtFailure(buf, s0, i + 1, n);
    }
  }

  /** What one loop iteration does, opcode by opcode. */
  lemma StepOpcode(buf: seq<byte>, s: State)
    requires |s.cache| == CacheSize
    // A run continuation reads nothing and changes nothing but the count.
    ensures s.run > 0 ==> var r := Step(buf, s);
              r.Ok? && r.value.pos == s.pos && r.value.px == s.px
              && r.value.cache == s.cache && r.value.run == s.run - 1
    // A fresh opcode fails exactly when it does not fit in the buffer ...
    ensures s.run == 0 ==> (Step(buf, s).Err? <==> s.pos >= |buf| || s.pos + OpSize(buf[s.pos]) > |buf|)
    // ... and otherwise consumes exactly its size and refreshes its hash slot only.
    ensures s.run == 0 && Step(buf, s).Ok? ==> var s' := Step(buf, s).value;
              && s'.pos == s.pos + OpSize(buf[s.pos])
              && s'.cache == s.cache[Hash(s'.px) := s'.px]
              && s'.run == (if IsRunTag(buf[s.pos]) then buf[s.pos] - 0xC0 else 0)
              // Only QOI_OP_RGBA and QOI_OP_INDEX can change alpha.
              && (buf[s.pos] != OpRgba && buf[s.pos] >= 0x40 ==> s'.px.a == s.px.a)
              // QOI_OP_RUN keeps the colour; QOI_OP_INDEX loads a slot verbatim.
              && (IsRunTag(buf[s.pos]) ==> s'.px == s.px)
              && (buf[s.pos] < 0x40 ==> s'.px == s.cache[buf[s.pos]])
              // QOI_OP_RGB loads red, green and blue from the next three bytes ...
              && (buf[s.pos] == OpRgb ==>
                    s'.px == Color(buf[s.pos + 1], buf[s.pos + 2], buf[s.pos + 3], s.px.a))
              // ... and QOI_OP_RGBA alpha too, from the fourth.
              && (buf[s.pos] == OpRgba ==>
                    s'.px == Color(buf[s.pos + 1], buf[s.pos + 2], buf[s.pos + 3], buf[s.pos + 4]))
  {
  }

  /** A failure within the first `i <= count` iterations fails the whole
      pixel loop. */
  lemma PixelsFailEarly(buf: seq<byte>, i: nat, count: nat, channels: nat)
    requires channels in {3, 4} && i <= count && Trace(buf, Initial(), i).Err?
    ensures Pixels(buf, count, channels) == Err(TruncatedStream)
  {
    TraceStopsAtFailure(buf, Initial(), i, count);
  }

  /** One more loop iteration extends the trace by the colour it resolves. */
  lemma TraceStep(buf: seq<byte>, s0: State, i: nat, s: State, ps: seq<Color>, s': State)
    requires |s0.cache| == CacheSize && |s.cache| == CacheSize
    requires Trace(buf, s0, i) == Ok((s, ps)) && Step(buf, s) == Ok(s')
    ensures Trace(buf, s0, i + 1) == Ok((s', ps + [s'.px]))
  {
  }

  /** After `j + 1` steps of a QOI_OP_RUN with count field `k >= j`, every
      pixel so far is the colour before the run, only the tag byte was
      consumed, the colour sits in its hash slot and `k - j` repeats remain. */
  lemma {:induction false} RunRepeats(buf: seq<byte>, s: State, j: nat)
    requires |s.cache| == CacheSize && s.run == 0 && s.pos < |buf| && IsRunTag(buf[s.pos])
    requires j <= buf[s.pos] - 0xC0
    ensures Trace(buf, s, j + 1) ==
              Ok((State(s.px, s.cache[Hash(s.px) := s.px], s.pos + 1, buf[s.pos] - 0xC0 - j),
                  seq(j + 1, _ => s.px)))
  {
    if j > 0 {
      RunRepeats(buf, s, j - 1);
      assert seq(j, _ => s.px) + [s.px] == seq(j + 1, _ => s.px);
    } else {
      assert Trace(buf, s, 0) == Ok((s, []));
      assert buf[s.pos] % 64 == buf[s.pos] - 0xC0;
      assert [] + [s.px] == seq(1, _ => s.px);
    }
  }

  /** A QOI_OP_RUN tag yields exactly `(tag & 0x3f) + 1` pixels of the
      current colour for one byte of input, after which the next opcode is
      read. */
  lemma RunLength(buf: seq<byte>, s: State)
    requires |s.cache| == CacheSize && s.run == 0 && s.pos < |buf| && IsRunTag(buf[s.pos])
    ensures var k := buf[s.pos] % 64;
            Trace(buf, s, k + 1) ==
              Ok((State(s.px, s.cache[Hash(s.px) := s.px], s.pos + 1, 0), seq(k + 1, _ => s.px)))
  {
    assert buf[s.pos] % 64 == buf[s.pos] - 0xC0;
    RunRepeats(buf, s, buf[s.pos] - 0xC0);
  }

  /** The colour index starts all zero: QOI_OP_INDEX before any store
      yields (0,0,0,0), alpha included, although the running colour
      starts opaque. */
  lemma IndexBeforeAnyStore(buf: seq<byte>)
    requires |buf| > HeaderSize && buf[HeaderSize] < 0x40
    ensures Initial().px == Color(0, 0, 0, 255)
    ensures Trace(buf, Initial(), 1).Ok? && Trace(buf, Initial(), 1).value.1 == [Color(0, 0, 0, 0)]
  {
  }

  /** QOI_OP_DIFF adds its three 2-bit fields, each biased by 2, to red,
      green and blue modulo 256 and keeps alpha. */
  lemma DiffDeltas(buf: seq<byte>, s: State)
    requires |s.cache| == CacheSize && s.run == 0 && s.pos < |buf| && 0x40 <= buf[s.pos] < 0x80
    ensures Step(buf, s).Ok?
    ensures var tag: int, c, c' := buf[s.pos], s.px, Step(buf, s).value.px;
            && (c'.r - c.r - ((tag / 16) % 4 - 2)) % 256 == 0
            && (c'.g - c.g - ((tag / 4) % 4 - 2)) % 256 == 0
            && (c'.b - c.b - (tag % 4 - 2)) % 256 == 0
            && c'.a == c.a
  {
  }

  /** QOI_OP_LUMA adds its 6-bit green delta (bias 32) to green, and that
      delta plus a 4-bit offset (bias 8) from the second byte to red and to
      blue, modulo 256; alpha is kept. */
  lemma LumaDeltas(buf: seq<byte>, s: State)
    requires |s.cache| == CacheSize && s.run == 0 && s.pos + 1 < |buf| && 0x80 <= buf[s.pos] < 0xC0
    ensures Step(buf, s).Ok?
    ensures var tag: int, t1: int, c, c' := buf[s.pos], buf[s.pos + 1], s.px, Step(buf, s).value.px;
            var dg := tag % 64 - 32;
            && (c'.g - c.g - dg) % 256 == 0
            && (c'.r - c.r - (dg + t1 / 16 - 8)) % 256 == 0
            && (c'.b - c.b - (dg + t1 % 16 - 8)) % 256 == 0
            && c'.a == c.a
  {
  }

  /** QOI_OP_DIFF with all three fields 2 (deltas 0) keeps the colour. */
  lemma DiffZeroKeepsColor(buf: seq<byte>, s: State)
    requires |s.cache| == CacheSize && s.run == 0 && s.pos < |buf| && buf[s.pos] == 0x6A
    ensures Step(buf, s) == Ok(State(s.px, s.cache[Hash(s.px) := s.px], s.pos + 1, 0))
  {
  }

  /** QOI_OP_LUMA with green field 32 and both nibbles 8 keeps the colour. */
  lemma LumaZeroKeepsColor(buf: seq<byte>, s: State)
    requires |s.cache| == CacheSize && s.run == 0 && s.pos + 1 < |buf|
    requires buf[s.pos] == 0xA0 && buf[s.pos + 1] == 0x88
    ensures Step(buf, s) == Ok(State(s.px, s.cache[Hash(s.px) := s.px], s.pos + 2, 0))
  {
  }

  /** The trailing-cursor test never fails a decode: with a valid header
      and an untruncated stream the image is returned, flagged exactly
      when the cursor is not 8 bytes before the end. */
  lemma TrailerCheckIsNonFatal(buf: seq<byte>)
    requires |buf| >= MinSize && ParseHeader(buf).Ok?
    requires var h := ParseHeader(buf).value;
             Pixels(buf, PixelCount(h.width, h.height), h.channels).Ok?
    ensures var h := ParseHeader(buf).value;
            var px := Pixels(buf, PixelCount(h.width, h.height), h.channels).value;
            && Decode(buf).Ok?
            && Decode(buf).value.data == px.0
            && (Decode(buf).value.trailerMismatch <==> px.1 != |buf| - EndMarkerSize)
  {
  }

  // ---------------------------------------------------------------------
  // Worked examples

  /** A 1x1 three-channel image made of one QOI_OP_RGB (10, 20, 30)
      followed by the end marker decodes to that pixel, with the cursor
      exactly before the end marker. */
  lemma SinglePixelRgb()
    ensures Decode(Magic + [0, 0, 0, 1, 0, 0, 0, 1, 3, 0] + [OpRgb, 10, 20, 30] + [0, 0, 0, 0, 0, 0, 0, 1])
            == Ok(Image(1, 1, 0, 3, [10, 20, 30], false))
  {
    var buf := Magic + [0, 0, 0, 1, 0, 0, 0, 1, 3, 0] + [OpRgb, 10, 20, 30] + [0, 0, 0, 0, 0, 0, 0, 1];
    assert ParseHeader(buf) == Ok(Header(1, 1, 3, 0));
    var px := Color(10, 20, 30, 255);
    var s1 := Resolve(Initial(), px, 18, 0);
    assert Step(buf, Initial()) == Ok(s1);
    assert Trace(buf, Initial(), 0) == Ok((Initial(), []));
    TraceStep(buf, Initial(), 0, Initial(), [], s1);
    assert Raster([px], 3) == [10, 20, 30];
    assert Pixels(buf, 1, 3) == Ok(([10, 20, 30], 18));
  }

  /** A 21-byte buffer is refused before its header is looked at. */
  lemma ShortBufferRefused(buf: seq<byte>)
    requires |buf| == 21
    ensures Decode(buf) == Err(BufferTooShort)
  {
  }
}
