/**
 The decoder as the source writes it: one pass over the pixel buffer with
 the running colour, the run counter and the byte cursor in local
 variables, the colour index as a 64-word array of packed colours and the
 output raster as a byte array filled in place.
 */
module QoiDecoder {
  import opened Bytes
  import opened QoiSpec
  import opened QoiProperties

  /** A colour as the index stores it: `r << 24 | g << 16 | b << 8 | a`,
      kept as an unsigned 32-bit word. */
  function Pack(c: Color): (w: nat)
    ensures w < TwoTo32
  {
    FromBytesBE(c.r, c.g, c.b, c.a)
  }

  /** Reading a packed word back channel by channel gives the colour. */
  lemma UnpackPack(c: Color)
    ensures Pack(c) / 0x100_0000 % 0x100 == c.r
    ensures Pack(c) / 0x1_0000 % 0x100 == c.g
    ensures Pack(c) / 0x100 % 0x100 == c.b
    ensures Pack(c) % 0x100 == c.a
  {
    ShiftMaskBytes(c.r, c.g, c.b, c.a);
  }

  /** The opcode at the cursor of `s` resolves to this colour, cursor and run. */
  ghost predicate Resolved(buf: seq<byte>, s: State, red: byte, green: byte, blue: byte, alpha: byte,
                           pos: nat, run: nat)
    requires |s.cache| == CacheSize
  {
    var c := Color(red, green, blue, alpha);
    Step(buf, s) == Ok(State(c, s.cache[Hash(c) := c], pos, run))
  }

  /** The `else` branch of the pixel loop: read the opcode at `arrPos`,
      resolve the new running colour, the cursor after the opcode and the
      run count it sets, and store the colour at its index slot. `ok` is
      false when the opcode or its operands lie past the end of `buf`. */
  method ReadOpcode(buf: seq<byte>, index: array<nat>, ghost cache: seq<Color>,
                    red0: byte, green0: byte, blue0: byte, alpha0: byte, arrPos0: nat)
    returns (ok: bool, red: byte, green: byte, blue: byte, alpha: byte, arrPos: nat, run: nat,
             ghost cache': seq<Color>)
    requires index.Length == CacheSize && |cache| == CacheSize
    requires forall k :: 0 <= k < CacheSize ==> index[k] == Pack(cache[k])
    modifies index
    ensures |cache'| == CacheSize
    ensures forall k :: 0 <= k < CacheSize ==> index[k] == Pack(cache'[k])
    ensures !ok ==> cache' == cache
    ensures ok <==> Step(buf, State(Color(red0, green0, blue0, alpha0), cache, arrPos0, 0)).Ok?
    ensures ok ==> Step(buf, State(Color(red0, green0, blue0, alpha0), cache, arrPos0, 0))
                   == Ok(State(Color(red, green, blue, alpha), cache', arrPos, run))
  {
    ghost var s := State(Color(red0, green0, blue0, alpha0), cache, arrPos0, 0);
    red, green, blue, alpha, arrPos, run, cache' := red0, green0, blue0, alpha0, arrPos0, 0, cache;
    if arrPos >= |buf| {
      return false, red, green, blue, alpha, arrPos, run, cache';
    }
    var byte0 := buf[arrPos];
    arrPos := arrPos + 1;
    if byte0 / 64 == 3 {
      if byte0 == OpRgb {
        // QOI_OP_RGB
        if arrPos + 3 > |buf| {
          return false, red, green, blue, alpha, arrPos, run, cache';
        }
        red, green, blue := buf[arrPos], buf[arrPos + 1], buf[arrPos + 2];
        arrPos := arrPos + 3;
      } else if byte0 == OpRgba {
        // QOI_OP_RGBA
        if arrPos + 4 > |buf| {
          return false, red, green, blue, alpha, arrPos, run, cache';
        }
        red, green, blue, alpha := buf[arrPos], buf[arrPos + 1], buf[arrPos + 2], buf[arrPos + 3];
        arrPos := arrPos + 4;
      } else {
        // QOI_OP_RUN
        run := byte0 % 64;
      }
    } else if byte0 / 64 == 0 {
      // QOI_OP_INDEX: unpack the stored word channel by channel
      UnpackPack(cache[byte0]);
      var packed := index[byte0];
      red := packed / 0x100_0000 % 0x100;
      green := packed / 0x1_0000 % 0x100;
      blue := packed / 0x100 % 0x100;
      alpha := packed % 0x100;
    } else if byte0 / 64 == 1 {
      // QOI_OP_DIFF
      red := Wrap(red + (byte0 / 16) % 4 - 2);
      green := Wrap(green + (byte0 / 4) % 4 - 2);
      blue := Wrap(blue + byte0 % 4 - 2);
    } else {
      // QOI_OP_LUMA
      if arrPos >= |buf| {
        return false, red, green, blue, alpha, arrPos, run, cache';
      }
      var byte1 := buf[arrPos];
      arrPos := arrPos + 1;
      var greenDiff := byte0 as int % 64 - 32;
      var redDiff := greenDiff + (byte1 / 16) % 16 - 8;
      var blueDiff := greenDiff + byte1 % 16 - 8;
      red := Wrap(red + redDiff);
      green := Wrap(green + greenDiff);
      blue := Wrap(blue + blueDiff);
    }
    assert Resolved(buf, s, red, green, blue, alpha, arrPos, run);
    var idxPos := (red * 3 + green * 5 + blue * 7 + alpha * 11) % 64;
    index[idxPos] := Pack(Color(red, green, blue, alpha));
    cache' := cache[idxPos := Color(red, green, blue, alpha)];
    ok := true;
  }

  /** Writes one pixel at `pxlPos`: red, green and blue, and alpha only
      when the image has four channels. */
  method SetPixel(result: array<byte>, pxlPos: nat, channels: nat,
                  red: byte, green: byte, blue: byte, alpha: byte)
    requires channels in {3, 4} && pxlPos + channels <= result.Length
    modifies result
    ensures result[..pxlPos + channels]
            == old(result[..pxlPos]) + PixelBytes(Color(red, green, blue, alpha), channels)
    ensures result[pxlPos + channels..] == old(result[pxlPos + channels..])
  {
    result[pxlPos] := red;
    result[pxlPos + 1] := green;
    result[pxlPos + 2] := blue;
    if channels == 4 {
      result[pxlPos + 3] := alpha;
    }
  }

  /** One iteration of the pixel loop: continue the pending run or read
      the next opcode, then write the resolved colour at `pxlPos`. Given
      that the first `i` iterations produced `ps` and the raster so far, it
      extends both by one pixel, or reports that the stream is truncated. */
  method NextPixel(buf: seq<byte>, index: array<nat>, result: array<byte>, channels: nat,
                   pxlPos: nat, red0: byte, green0: byte, blue0: byte, alpha0: byte,
                   arrPos0: nat, run0: nat, ghost cache0: seq<Color>, ghost ps: seq<Color>, ghost i: nat)
    returns (ok: bool, red: byte, green: byte, blue: byte, alpha: byte, arrPos: nat, run: nat,
             ghost cache: seq<Color>)
    requires channels in {3, 4} && pxlPos + channels <= result.Length
    requires index.Length == CacheSize && |cache0| == CacheSize
    requires forall k :: 0 <= k < CacheSize ==> index[k] == Pack(cache0[k])
    requires Trace(buf, Initial(), i) == Ok((State(Color(red0, green0, blue0, alpha0), cache0, arrPos0, run0), ps))
    requires result[..pxlPos] == Raster(ps, channels)
    modifies index, result
    ensures |cache| == CacheSize
    ensures forall k :: 0 <= k < CacheSize ==> index[k] == Pack(cache[k])
    ensures !ok ==> cache == cache0 && Trace(buf, Initial(), i + 1) == Err(TruncatedStream)
    ensures ok ==> Trace(buf, Initial(), i + 1) ==
                     Ok((State(Color(red, green, blue, alpha), cache, arrPos, run),
                         ps + [Color(red, green, blue, alpha)]))
    ensures ok ==> result[..pxlPos + channels] == Raster(ps + [Color(red, green, blue, alpha)], channels)
  {
    ghost var s := State(Color(red0, green0, blue0, alpha0), cache0, arrPos0, run0);
    red, green, blue, alpha, arrPos, run, cache := red0, green0, blue0, alpha0, arrPos0, run0, cache0;
    if run > 0 {
      run := run - 1;
    } else {
      ok, red, green, blue, alpha, arrPos, run, cache := ReadOpcode(buf, index, cache, red, green, blue, alpha, arrPos);
      if !ok {
        return;
      }
    }
    ghost var px := Color(red, green, blue, alpha);
    TraceStep(buf, Initial(), i, s, ps, State(px, cache, arrPos, run));
    SetPixel(result, pxlPos, channels, red, green, blue, alpha);
    RasterSnoc(ps, px, channels);
    ok := true;
  }

  /** The pixel loop: decodes `pxLen / channels` pixels from the opcode
      stream that starts after the header, filling the raster in place. */
  method DecodePixels(buf: seq<byte>, pxLen: nat, ghost n: nat, channels: nat)
    returns (r: Result<(seq<byte>, nat)>)
    requires channels in {3, 4} && pxLen == n * channels
    ensures r == Pixels(buf, n, channels)
  {
    var result := new byte[pxLen](_ => 0);
    var index := new nat[CacheSize](_ => 0);
    var arrPos: nat := HeaderSize;
    var red: byte, green: byte, blue: byte, alpha: byte := 0, 0, 0, 255;
    var run: nat := 0;
    ghost var cache := Initial().cache;
    ghost var ps: seq<Color> := [];
    ghost var i: nat := 0;

    var pxlPos := 0;
    assert result[..pxlPos] == [] == Raster(ps, channels);
    while pxlPos < pxLen
      invariant 0 <= i <= n && pxlPos == i * channels
      invariant index.Length == CacheSize && |cache| == CacheSize
      invariant forall k :: 0 <= k < CacheSize ==> index[k] == Pack(cache[k])
      invariant Trace(buf, Initial(), i) == Ok((State(Color(red, green, blue, alpha), cache, arrPos, run), ps))
      invariant result.Length == pxLen
      invariant result[..pxlPos] == Raster(ps, channels)
      decreases pxLen - pxlPos
    {
      ScaleByChannels(i, n, channels);
      var ok;
      ok, red, green, blue, alpha, arrPos, run, cache :=
        NextPixel(buf, index, result, channels, pxlPos, red, green, blue, alpha, arrPos, run, cache, ps, i);
      if !ok {
        PixelsFailEarly(buf, i + 1, n, channels);
        return Err(TruncatedStream);
      }
      ps := ps + [Color(red, green, blue, alpha)];
      i := i + 1;
      pxlPos := pxlPos + channels;
      assert result[..pxlPos] == Raster(ps, channels);
    }
    ScaleByChannels(i, n, channels);
    assert result[..] == result[..pxlPos];
    r := Ok((result[..], arrPos));
  }

  /** `decode_qoi` on a buffer whose length is the source's `byteLen`: the
      reference semantics `Decode`. */
  method DecodeQoi(buf: seq<byte>) returns (r: Result<Image>)
    ensures r == Decode(buf)
  {
    var byteLen := |buf|;
    if byteLen < MinSize {
      return Err(BufferTooShort);
    }
    var header := Header(FromBytesBE(buf[4], buf[5], buf[6], buf[7]),
                         FromBytesBE(buf[8], buf[9], buf[10], buf[11]),
                         buf[12], buf[13]);
    if buf[..4] != Magic || header.channels < 3 || header.channels > 4 || header.colorspace > 1 {
      return Err(InvalidHeader);
    }
    assert ParseHeader(buf) == Ok(header);
    RasterSize(header.width, header.height, header.channels);
    var pxLen := header.width * header.height * header.channels;
    var pixels := DecodePixels(buf, pxLen, PixelCount(header.width, header.height), header.channels);
    if pixels.Err? {
      return Err(pixels.error);
    }
    var (data, arrPos) := pixels.value;
    r := Ok(Image(header.width, header.height, header.colorspace, header.channels, data,
                  arrPos != byteLen - EndMarkerSize));
  }
}
