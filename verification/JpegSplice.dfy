/** The fast writer of save_picture_with_exif: it splices EXIF and XMP segments in behind SOI. What a parser finds in
    the file, and how the bytes relate to parsing, inserting and printing. */
module JpegSplice {
  import opened Bytes
  import opened Options
  import opened JpegFormat
  import opened JpegRoundTrip

  // ----- the parser looks only forward

  /** The last `n` bytes of `a` and `b` agree. */
  predicate SameTail(a: seq<byte>, b: seq<byte>, n: nat) {
    n <= |a| && n <= |b| && a[|a| - n..] == b[|b| - n..]
  }

  /** What the parser finds from here on does not depend on the bytes before, but for a marker without 0xFF: the
      four bytes before an APP1 payload are handed to the EXIF reader, and then start with the byte before. */
  predicate Detached(a: seq<byte>, b: seq<byte>, r: seq<byte>) {
    a != [] && b != [] && (r != [] && r[0] == APP1 ==> SameTail(a, b, 1))
  }

  function ShiftTurn<E>(t: Turn<E>, shift: int): Turn<E> {
    if t.More? && t.o + shift >= 0 then More(t.o + shift, t.j) else t
  }

  lemma {:induction false} ShiftFill(a: seq<byte>, r: seq<byte>, o: nat, n: nat)
    requires o <= |r|
    ensures FillBytes(a + r, |a| + o, n) == FillBytes(r, o, n)
    decreases n
  {
    if n > 0 && o < |r| && r[o] == 0xFF {
      ShiftFill(a, r, o + 1, n - 1);
    }
  }

  /** The bytes from four before offset `o` of `r` on, when `a` stands before `r`. */
  lemma SliceBefore(a: seq<byte>, r: seq<byte>, o: nat, end: nat)
    requires o <= end <= |r| && 4 <= |a| + o
    ensures (a + r)[|a| + o - 4..|a| + end]
         == if o < 4 then a[|a| - (4 - o)..] + r[..end] else r[o - 4..end]
  {
  }

  lemma ShiftScan(a: seq<byte>, r: seq<byte>, o: nat)
    requires o <= |r|
    ensures var n := ScanSize(a + r, |a| + o);
            n == ScanSize(r, o) && (a + r)[|a| + o..|a| + o + n] == r[o..o + n]
  {
    if |r| - o >= 2 {
      assert (a + r)[|a + r| - 2] == r[|r| - 2];
    }
  }

  lemma ShiftSlice(a: seq<byte>, b: seq<byte>, r: seq<byte>, o: nat, end: nat)
    requires o <= end <= |r| && 4 <= |a| + o && 4 <= |b| + o && (o < 4 ==> SameTail(a, b, 4 - o))
    ensures (a + r)[|a| + o - 4..|a| + end] == (b + r)[|b| + o - 4..|b| + end]
  {
    SliceBefore(a, r, o, end);
    SliceBefore(b, r, o, end);
  }

  lemma ShiftContent<E>(codec: Codec<E>, a: seq<byte>, b: seq<byte>, r: seq<byte>, o: nat, len: nat, m: byte,
                        j: Jpeg<E>)
    requires o + len <= |r| && 4 <= |a| + o && 4 <= |b| + o
    requires m == APP1 && o < 4 ==> SameTail(a, b, 4 - o)
    ensures ParseContent(codec, b + r, |b| + o, len, m, j)
         == ShiftTurn(ParseContent(codec, a + r, |a| + o, len, m, j), |b| - |a|)
  {
    hide SameTail, ScanSize;
    if m == APP1 {
      ShiftSlice(a, b, r, o, o + len);
    } else {
      assert (a + r)[|a| + o..|a| + o + len] == (b + r)[|b| + o..|b| + o + len];
      if m == SOS {
        ShiftScan(a, r, o + len);
        ShiftScan(b, r, o + len);
      }
    }
  }

  lemma ShiftLength(a: seq<byte>, r: seq<byte>, o: nat)
    requires o + 2 <= |r|
    ensures LengthField(a + r, |a| + o) == LengthField(r, o)
  {
    assert (a + r)[|a| + o] == r[o] && (a + r)[|a| + o + 1] == r[o + 1];
  }

  lemma ShiftSection<E>(codec: Codec<E>, a: seq<byte>, b: seq<byte>, r: seq<byte>, o: nat, m: byte, j: Jpeg<E>)
    requires o <= |r| && 2 <= |a| + o && 2 <= |b| + o
    requires m == APP1 && o < 2 ==> SameTail(a, b, 2 - o)
    ensures ParseSection(codec, b + r, |b| + o, m, j)
         == ShiftTurn(ParseSection(codec, a + r, |a| + o, m, j), |b| - |a|)
  {
    hide ParseContent, LengthField, Blank, SameTail;
    if m != SOI && m != EOI && |r| - o >= 2 {
      ShiftLength(a, r, o);
      ShiftLength(b, r, o);
      var len := LengthField(r, o);
      if len <= |r| - (o + 2) {
        ShiftContent(codec, a, b, r, o + 2, len, m, j);
      }
    }
  }

  /** One turn of the parser, unfolded. */
  lemma TurnAt<E>(codec: Codec<E>, d: seq<byte>, o: nat, i: nat, j: Jpeg<E>)
    requires o < |d| && i == FillBytes(d, o, FILL_MAX) && o + i > 0
    ensures ParseTurn(codec, d, o, j)
         == if i >= |d| - o || !IsMarker(d[o + i]) then Stop else ParseSection(codec, d, o + i + 1, d[o + i], j)
  {
    hide ParseSection;
  }

  lemma ShiftOne<E>(codec: Codec<E>, a: seq<byte>, b: seq<byte>, r: seq<byte>, o: nat, j: Jpeg<E>)
    requires Detached(a, b, r) && o < |r|
    ensures ParseTurn(codec, b + r, |b| + o, j) == ShiftTurn(ParseTurn(codec, a + r, |a| + o, j), |b| - |a|)
  {
    hide ParseTurn, ParseSection, FillBytes, SameTail, IsMarker;
    ShiftFill(a, r, o, FILL_MAX);
    ShiftFill(b, r, o, FILL_MAX);
    var i := FillBytes(r, o, FILL_MAX);
    TurnAt(codec, a + r, |a| + o, i, j);
    TurnAt(codec, b + r, |b| + o, i, j);
    if i < |r| - o {
      assert (a + r)[|a| + o + i] == r[o + i] == (b + r)[|b| + o + i];
      if IsMarker(r[o + i]) {
        ShiftSection(codec, a, b, r, o + i + 1, r[o + i], j);
      }
    }
  }

  /** Two streams that end alike are parsed alike from there on. */
  lemma {:induction false} Shift<E>(codec: Codec<E>, a: seq<byte>, b: seq<byte>, r: seq<byte>, o: nat, j: Jpeg<E>)
    requires Detached(a, b, r) && o <= |r|
    ensures Parse(codec, a + r, |a| + o, j) == Parse(codec, b + r, |b| + o, j)
    decreases |r| - o
  {
    hide ParseTurn, Parse;
    ParseUnroll(codec, a + r, |a| + o, j);
    ParseUnroll(codec, b + r, |b| + o, j);
    if o < |r| {
      ShiftOne(codec, a, b, r, o, j);
      var t := ParseTurn(codec, a + r, |a| + o, j);
      if t.More? {
        Shift(codec, a, b, r, t.o - |a|, t.j);
      }
    }
  }

  /** The sections found from an offset on do not depend on those found before. */
  lemma {:induction false} Accumulate<E>(codec: Codec<E>, d: seq<byte>, o: nat, j: Jpeg<E>)
    requires Startable(d, o)
    ensures var rest := Parse(codec, d, o, Jpeg([], j.data));
            Parse(codec, d, o, j) == Jpeg(j.sections + rest.sections, rest.data)
    decreases |d| - o
  {
    hide ParseTurn, Parse;
    var empty: Jpeg<E> := Jpeg([], j.data);
    ParseUnroll(codec, d, o, j);
    ParseUnroll(codec, d, o, empty);
    assert j.sections + [] == j.sections;
    if o < |d| {
      TurnAccumulates(codec, d, o, j);
      var t, t0 := ParseTurn(codec, d, o, j), ParseTurn(codec, d, o, empty);
      if t.More? {
        Accumulate(codec, d, t.o, t.j);
        Accumulate(codec, d, t0.o, t0.j);
        var rest := Parse(codec, d, t.o, Jpeg([], t.j.data)).sections;
        assert j.sections + t0.j.sections + rest == j.sections + (t0.j.sections + rest);
      }
    }
  }

  lemma TurnAccumulates<E>(codec: Codec<E>, d: seq<byte>, o: nat, j: Jpeg<E>)
    requires o < |d|
    ensures var t, t0 := ParseTurn(codec, d, o, j), ParseTurn(codec, d, o, Jpeg([], j.data));
            && (t.More? <==> t0.More?)
            && (t.More? ==> t.o == t0.o && t.j == Jpeg(j.sections + t0.j.sections, t0.j.data))
  {
    hide ParseTurn, ParseSection, FillBytes;
    var i := FillBytes(d, o, FILL_MAX);
    if o + i > 0 {
      TurnAt(codec, d, o, i, j);
      TurnAt(codec, d, o, i, Jpeg([], j.data));
      if i < |d| - o && IsMarker(d[o + i]) {
        SectionAccumulates(codec, d, o + i + 1, d[o + i], j);
      }
    }
  }

  lemma SectionAccumulates<E>(codec: Codec<E>, d: seq<byte>, o: nat, m: byte, j: Jpeg<E>)
    requires 2 <= o <= |d|
    ensures var t, t0 := ParseSection(codec, d, o, m, j), ParseSection(codec, d, o, m, Jpeg([], j.data));
            t.o == t0.o && t.j == Jpeg(j.sections + t0.j.sections, t0.j.data)
  {
  }

  // ----- fill bytes

  function Fills(k: nat): (f: seq<byte>)
    ensures |f| == k && forall i :: 0 <= i < k ==> f[i] == 0xFF
  {
    seq(k, _ => 0xFF)
  }

  lemma FillsCount(a: seq<byte>, k: nat, i: nat, n: nat, r: seq<byte>)
    requires i <= k && r != [] && r[0] != 0xFF
    ensures FillBytes(a + Fills(k) + r, |a| + i, n) == if k - i < n then k - i else n
    decreases n
  {
    var d := a + Fills(k) + r;
    if n > 0 {
      if i < k {
        assert d[|a| + i] == Fills(k)[i];
        FillsCount(a, k, i + 1, n - 1, r);
      } else {
        assert d[|a| + i] == r[0];
      }
    }
  }

  lemma FilledTurn<E>(codec: Codec<E>, a: seq<byte>, k: nat, m: byte, rest: seq<byte>, j: Jpeg<E>)
    requires IsMarker(m) && 1 <= k <= FILL_MAX
    ensures var ak := a + Fills(k) + [m];
            ParseTurn(codec, ak + rest, |a|, j) == ParseSection(codec, ak + rest, |ak|, m, j)
  {
    hide ParseTurn, ParseSection, FillBytes, Fills;
    var d := a + Fills(k) + ([m] + rest);
    assert a + Fills(k) + [m] + rest == d && d[|a| + k] == m;
    FillsCount(a, k, 0, FILL_MAX, [m] + rest);
    TurnAt(codec, d, |a|, k, j);
  }

  /** The section that starts with the marker `m` and goes on with `rest`, whatever stands before its last 0xFF. */
  lemma SameSection<E>(codec: Codec<E>, a: seq<byte>, k: nat, m: byte, rest: seq<byte>, j: Jpeg<E>)
    requires IsMarker(m) && 1 <= k <= FILL_MAX
    ensures var a1, ak := a + Fills(1) + [m], a + Fills(k) + [m];
            && ParseTurn(codec, ak + rest, |a|, j) == ShiftTurn(ParseTurn(codec, a1 + rest, |a|, j), k - 1)
            && ParseTurn(codec, a1 + rest, |a|, j).More? && ParseTurn(codec, a1 + rest, |a|, j).o >= |a1|
  {
    hide ParseTurn, ParseSection, FillBytes, Fills;
    var a1, ak := a + Fills(1) + [m], a + Fills(k) + [m];
    FilledTurn(codec, a, 1, m, rest, j);
    FilledTurn(codec, a, k, m, rest, j);
    assert a1[|a1| - 2..] == [0xFF, m] == ak[|ak| - 2..];
    ShiftSection(codec, a1, ak, rest, 0, m, j);
  }

  /** Up to seven 0xFF bytes before a header marker mean the same as one; eight or more end the parse right there. */
  lemma FillBytesIff<E>(codec: Codec<E>, ss: seq<Section<E>>, m: byte, rest: seq<byte>, k: nat)
    requires Header(codec, ss) && IsMarker(m) && k >= 1
    ensures var p := PrintSections(codec, ss, []);
            var d1, dk := p + Fills(1) + [m] + rest, p + Fills(k) + [m] + rest;
            && Startable(d1, 0) && Startable(dk, 0)
            && (Load(codec, dk) == Load(codec, d1) <==> k <= 7)
            && (k > 7 ==> Load(codec, dk) == Jpeg(ss, []))
  {
    hide ParseTurn, Parse, PrintSections, Header, Load;
    var p := PrintSections(codec, ss, []);
    var a1, ak := p + Fills(1) + [m], p + Fills(k) + [m];
    var j: Jpeg<E> := Jpeg(ss, []);
    FillsStart(codec, ss, 1, [m] + rest);
    FillsStart(codec, ss, k, [m] + rest);
    assert a1 + rest == p + (Fills(1) + ([m] + rest)) && ak + rest == p + (Fills(k) + ([m] + rest));
    SameSection(codec, p, 1, m, rest, j);
    ParseUnroll(codec, a1 + rest, |p|, j);
    ParseUnroll(codec, ak + rest, |p|, j);
    var t := ParseTurn(codec, a1 + rest, |p|, j);
    if k <= FILL_MAX {
      SameSection(codec, p, k, m, rest, j);
      Shift(codec, ak, a1, rest, t.o - |a1|, t.j);
    } else {
      assert ak + rest == p + Fills(k) + ([m] + rest);
      TooManyFills(codec, p, k, [m] + rest, j);
      MoreSections(codec, a1 + rest, |p|, j);
    }
  }

  lemma FillsStart<E>(codec: Codec<E>, ss: seq<Section<E>>, k: nat, r: seq<byte>)
    requires Header(codec, ss) && k >= 1
    ensures var p := PrintSections(codec, ss, []);
            var d := p + (Fills(k) + r);
            Startable(d, 0) && Startable(d, |p|) && Load(codec, d) == Parse(codec, d, |p|, Jpeg(ss, []))
  {
    hide Parse, PrintSections, Header, Load;
    PrintStarts(codec, ss, []);
    var p := PrintSections(codec, ss, []);
    var d := p + (Fills(k) + r);
    assert d[0] == if p == [] then Fills(k)[0] else p[0];
    AfterHeader(codec, ss, Fills(k) + r);
  }

  lemma AfterHeader<E>(codec: Codec<E>, ss: seq<Section<E>>, rest: seq<byte>)
    requires Header(codec, ss) && Startable(PrintSections(codec, ss, []) + rest, 0)
    ensures var p := PrintSections(codec, ss, []);
            && Startable(p + rest, |p|) && Load(codec, p + rest) == Parse(codec, p + rest, |p|, Jpeg(ss, []))
  {
    hide Parse, PrintSections, Header;
    var p := PrintSections(codec, ss, []);
    assert [] + p + rest == p + rest && [] + p == p;
    ParseHeader(codec, [], ss, [], rest, Jpeg([], []));
    assert [] + ss == ss;
  }

  lemma TooManyFills<E>(codec: Codec<E>, a: seq<byte>, k: nat, r: seq<byte>, j: Jpeg<E>)
    requires k > FILL_MAX && r != [] && r[0] != 0xFF
    ensures ParseTurn(codec, a + Fills(k) + r, |a|, j).Stop?
  {
    FillsCount(a, k, 0, FILL_MAX, r);
    assert (a + Fills(k) + r)[|a| + FILL_MAX] == Fills(k)[FILL_MAX];
  }

  lemma MoreSections<E>(codec: Codec<E>, d: seq<byte>, o: nat, j: Jpeg<E>)
    requires Startable(d, o) && o < |d| && ParseTurn(codec, d, o, j).More?
    ensures Parse(codec, d, o, j) != j
  {
    var t := ParseTurn(codec, d, o, j);
    assert |t.j.sections| == |j.sections| + 1;
    Accumulate(codec, d, t.o, t.j);
  }

  // ----- the spliced file

  /** "http://ns.adobe.com/xap/1.0/" */
  const XMP_TITLE: seq<byte> := [
    0x68, 0x74, 0x74, 0x70, 0x3A, 0x2F, 0x2F, 0x6E, 0x73, 0x2E, 0x61, 0x64, 0x6F, 0x62, 0x65, 0x2E,
    0x63, 0x6F, 0x6D, 0x2F, 0x78, 0x61, 0x70, 0x2F, 0x31, 0x2E, 0x30, 0x2F]

  const XMP_MAX: nat := 65504  // what fits in an APP1 payload behind the title and its end

  function XmpPayload(xmp: seq<byte>): (p: seq<byte>)
    ensures |p| == |xmp| + 29
  {
    XMP_TITLE + [0] + xmp
  }

  /** An APP1 section holding `p`. */
  function App1Bytes(p: seq<byte>): (b: seq<byte>)
    ensures |b| == |p| + 4
  {
    [0xFF, APP1] + LengthBytes(|p|) + p
  }

  /** The XMP section; the length of an empty one stays 0. */
  function XmpBytes(xmp: seq<byte>): seq<byte> {
    if xmp == [] then [0xFF, APP1, 0, 0] + XmpPayload(xmp) else App1Bytes(XmpPayload(xmp))
  }

  /** The file that save_picture_with_exif writes for the image `d`. */
  function Spliced(d: seq<byte>, exif: seq<byte>, xmp: seq<byte>): seq<byte>
    requires |d| >= 2
  {
    d[..2] + App1Bytes(exif) + XmpBytes(xmp) + d[2..]
  }

  /** Where everything stands in the written file: behind the first two bytes of the image two APP1 sections, the EXIF
      data and the XMP text behind its name space and a zero, with big-endian lengths that count themselves; then the
      rest. */
  lemma SplicedLayout(d: seq<byte>, exif: seq<byte>, xmp: seq<byte>)
    requires |d| >= 2 && |exif| <= PAYLOAD_MAX && |xmp| <= XMP_MAX
    ensures var file, x := Spliced(d, exif, xmp), 6 + |exif|;
            && |file| == |d| + |exif| + |xmp| + 37
            && file[..2] == d[..2] && file[x + 33 + |xmp|..] == d[2..]
            && file[2] == 0xFF && file[3] == 0xE1 && 0x100 * (file[4] as int) + file[5] as int == |exif| + 2
            && file[6..x] == exif
            && file[x] == 0xFF && file[x + 1] == 0xE1
            && 0x100 * (file[x + 2] as int) + file[x + 3] as int == (if xmp == [] then 0 else |xmp| + 31)
            && file[x + 4..x + 32] == XMP_TITLE && file[x + 32] == 0 && file[x + 33..x + 33 + |xmp|] == xmp
  {
    hide XMP_TITLE;
    TitleLength();
    var file, x, a, b := Spliced(d, exif, xmp), 6 + |exif|, App1Bytes(exif), XmpBytes(xmp);
    assert |b| == |xmp| + 33 && file == d[..2] + a + b + d[2..];
    assert file[2..x] == a && file[x..x + |b|] == b;
    assert a[4..] == exif && file[6..x] == file[2..x][4..];
    assert b[4..32] == XMP_TITLE && b[32] == 0 && b[33..] == xmp;
    assert file[x + 4..x + 32] == file[x..x + |b|][4..32] && file[x + 33..x + 33 + |xmp|] == file[x..x + |b|][33..];
    assert file[2] == a[0] && file[3] == a[1] && file[4] == a[2] && file[5] == a[3];
    assert file[x] == b[0] && file[x + 1] == b[1] && file[x + 2] == b[2] && file[x + 3] == b[3];
    assert file[x + 32] == b[32];
  }

  lemma TitleLength()
    ensures |XMP_TITLE| == 28
  {
  }

  /** An APP1 section is read back, whatever follows. */
  lemma ParseApp1<E>(codec: Codec<E>, a: seq<byte>, p: seq<byte>, rest: seq<byte>, j: Jpeg<E>)
    requires |p| <= PAYLOAD_MAX
    ensures ParseTurn(codec, a + App1Bytes(p) + rest, |a|, j)
         == More(|a| + |App1Bytes(p)|, Append(j, App1(Some(codec.decode(App1Bytes(p))))))
  {
    var b, d := App1Bytes(p), a + App1Bytes(p) + rest;
    assert d[|a|] == b[0] && d[|a| + 1] == b[1];
    OneFill(d, |a|);
    assert d[|a| + 2..|a| + 4] == LengthBytes(|p|);
    LengthReads(d, |a| + 2, |p|);
    assert d[|a|..|a| + 4 + |p|] == b;
  }

  /** A length field of 0 makes the length wrap: the parser takes the section, without content, and stops there. */
  lemma ParseZeroLength<E>(codec: Codec<E>, a: seq<byte>, rest: seq<byte>, j: Jpeg<E>)
    requires a != [] && |a| + 4 + |rest| < 0x1_0000_0000 - 2
    ensures ParseTurn(codec, a + ([0xFF, APP1, 0, 0] + rest), |a|, j)
         == More(|a| + 4 + |rest|, Append(j, App1(None)))
  {
    var b := [0xFF, APP1, 0, 0] + rest;
    var d := a + b;
    assert d[|a|] == b[0] && d[|a| + 1] == b[1] && d[|a| + 2] == b[2] && d[|a| + 3] == b[3];
    OneFill(d, |a|);
    assert LengthField(d, |a| + 2) == 0x1_0000_0000 - 2;
  }

  /** The image starts with SOI, and the marker after it, if any, has its 0xFF. */
  predicate Image(d: seq<byte>) {
    |d| >= 2 && d[..2] == [0xFF, SOI] && (|d| > 2 ==> d[2] != APP1)
  }

  /** The sections of the image after SOI, and its image data. */
  function Behind<E>(codec: Codec<E>, d: seq<byte>): Jpeg<E>
    requires Image(d)
  {
    Parse(codec, d, 2, Jpeg([], []))
  }

  lemma LoadImage<E>(codec: Codec<E>, d: seq<byte>, rest: seq<byte>)
    requires rest == [0xFF, SOI] + d
    ensures Startable(rest, 0) && Load(codec, rest) == Parse(codec, rest, 2, Jpeg([Bare(SOI)], []))
  {
    hide Parse;
    OneFill(rest, 0);
    var j: Jpeg<E> := Jpeg([], []);
    assert Append(j, Bare(SOI)).sections == [Bare(SOI)];
    ParseUnroll(codec, rest, 0, j);
  }

  lemma LoadBehind<E>(codec: Codec<E>, d: seq<byte>)
    requires Image(d)
    ensures Startable(d, 0)
    ensures Load(codec, d) == Jpeg([Bare(SOI)] + Behind(codec, d).sections, Behind(codec, d).data)
  {
    hide Parse;
    assert d == [0xFF, SOI] + d[2..];
    LoadImage(codec, d[2..], d);
    Accumulate(codec, d, 2, Jpeg([Bare(SOI)], []));
  }

  /** What the parser has read of the spliced file when it reaches the XMP section. */
  lemma LoadSplicedExif<E>(codec: Codec<E>, d: seq<byte>, exif: seq<byte>, xmp: seq<byte>)
    requires Image(d) && |exif| <= PAYLOAD_MAX
    ensures var file, a := Spliced(d, exif, xmp), [0xFF, SOI] + App1Bytes(exif);
            && file == a + (XmpBytes(xmp) + d[2..]) && Startable(file, 0)
            && Load(codec, file)
            == Parse(codec, file, |a|, Jpeg([Bare(SOI), App1(Some(codec.decode(App1Bytes(exif))))], []))
  {
    hide Parse, ParseTurn, XmpBytes;
    var file, r := Spliced(d, exif, xmp), XmpBytes(xmp) + d[2..];
    assert file == [0xFF, SOI] + (App1Bytes(exif) + r) == [0xFF, SOI] + App1Bytes(exif) + r;
    LoadImage(codec, App1Bytes(exif) + r, file);
    var j: Jpeg<E> := Jpeg([Bare(SOI)], []);
    ParseUnroll(codec, file, 2, j);
    ParseApp1(codec, [0xFF, SOI], exif, r, j);
    assert Append(j, App1(Some(codec.decode(App1Bytes(exif))))).sections
        == [Bare(SOI), App1(Some(codec.decode(App1Bytes(exif))))];
  }

  /** Parsing the spliced file finds SOI, the EXIF section, the XMP section, and then exactly the sections and image
      data of the original. */
  lemma SplicedParses<E>(codec: Codec<E>, d: seq<byte>, exif: seq<byte>, xmp: seq<byte>)
    requires Image(d) && |exif| <= PAYLOAD_MAX && 0 < |xmp| <= XMP_MAX
    ensures var file, rest := Spliced(d, exif, xmp), Behind(codec, d);
            && Startable(file, 0)
            && Load(codec, file)
            == Jpeg([Bare(SOI), App1(Some(codec.decode(App1Bytes(exif)))),
                     App1(Some(codec.decode(App1Bytes(XmpPayload(xmp)))))] + rest.sections,
                    rest.data)
  {
    hide Parse, ParseTurn;
    var file, a := Spliced(d, exif, xmp), [0xFF, SOI] + App1Bytes(exif);
    var x := App1Bytes(XmpPayload(xmp));
    LoadSplicedExif(codec, d, exif, xmp);
    var j := Jpeg([Bare(SOI), App1(Some(codec.decode(App1Bytes(exif))))], []);
    assert file == a + x + d[2..];
    ParseUnroll(codec, file, |a|, j);
    ParseApp1(codec, a, XmpPayload(xmp), d[2..], j);
    var j2 := Append(j, App1(Some(codec.decode(x))));
    assert file == (a + x) + d[2..] && d == d[..2] + d[2..];
    Shift(codec, a + x, d[..2], d[2..], 0, j2);
    Accumulate(codec, d, 2, j2);
  }

  /** With an empty XMP text the image is lost to the parser: it finds an empty APP1 section and nothing after it. */
  lemma EmptyXmpLosesImage<E>(codec: Codec<E>, d: seq<byte>, exif: seq<byte>)
    requires Image(d) && |exif| <= PAYLOAD_MAX && |d| < 0x8000_0000
    ensures var file := Spliced(d, exif, []);
            && Startable(file, 0)
            && Load(codec, file) == Jpeg([Bare(SOI), App1(Some(codec.decode(App1Bytes(exif)))), App1(None)], [])
  {
    hide Parse, ParseTurn, Spliced, App1Bytes, XmpPayload, Load;
    var file, a := Spliced(d, exif, []), [0xFF, SOI] + App1Bytes(exif);
    LoadSplicedExif(codec, d, exif, []);
    var s1 := App1(Some(codec.decode(App1Bytes(exif))));
    var j, r := Jpeg([Bare(SOI), s1], []), XmpPayload([]) + d[2..];
    assert file == a + ([0xFF, APP1, 0, 0] + r) by {
      assert XmpBytes([]) + d[2..] == [0xFF, APP1, 0, 0] + r;
    }
    ParseUnroll(codec, file, |a|, j);
    ParseZeroLength(codec, a, r, j);
    var j2 := Append(j, App1(None));
    ParseUnroll(codec, file, |file|, j2);
  }

  /** The spliced file keeps the sections and image data of an image that has any exactly when the XMP text is not
      empty. */
  lemma SplicedKeepsImageIff<E>(codec: Codec<E>, d: seq<byte>, exif: seq<byte>, xmp: seq<byte>)
    requires Image(d) && |exif| <= PAYLOAD_MAX && |xmp| <= XMP_MAX && |d| < 0x8000_0000
    requires Behind(codec, d).sections != []
    ensures var file, rest := Spliced(d, exif, xmp), Behind(codec, d);
            && Startable(file, 0)
            && var j := Load(codec, file);
            (|j.sections| >= 3 && j.sections[3..] == rest.sections && j.data == rest.data) <==> xmp != []
  {
    hide Parse, Spliced, Load, Behind;
    var rest := Behind(codec, d);
    if xmp == [] {
      EmptyXmpLosesImage(codec, d, exif);
    } else {
      SplicedParses(codec, d, exif, xmp);
      var j := Load(codec, Spliced(d, exif, xmp));
      assert j.sections[3..] == rest.sections;
    }
  }

  /** The EXIF data read from the spliced file is the one inserted, even when the image had its own. */
  lemma SplicedExif<E>(codec: Codec<E>, d: seq<byte>, e: E, exif: seq<byte>, xmp: seq<byte>)
    requires Image(d) && |exif| <= PAYLOAD_MAX && |xmp| <= XMP_MAX && |d| < 0x8000_0000
    requires codec.decode(App1Bytes(exif)) == e
    ensures Startable(Spliced(d, exif, xmp), 0) && GetExif(Load(codec, Spliced(d, exif, xmp))) == Some(e)
  {
    hide Parse, Spliced, Load, Behind, App1Bytes;
    if xmp == [] {
      EmptyXmpLosesImage(codec, d, exif);
    } else {
      SplicedParses(codec, d, exif, xmp);
    }
    var ss := Load(codec, Spliced(d, exif, xmp)).sections;
    assert ss[1..][0] == ss[1] == App1(Some(e));
  }

  // ----- the fast writer and the reference path

  /** What SetExif does to the sections: one APP1 section is replaced, or one is put in at index 1; all the others
      stay, in their order; and reading the EXIF data back gives what was set. Without any section there is one
      afterwards, but no EXIF data. */
  lemma SetExifEffect<E>(j: Jpeg<E>, e: E)
    ensures j.sections == [] ==>
              var r := SetExif(j, e); r == Jpeg([Segment(0, [])], j.data) && GetExif(r) == None
    ensures j.sections != [] ==>
            var r, i := SetExif(j, e), FindSection(j.sections, APP1);
            && GetExif(r) == Some(e) && r.data == j.data
            && (i < |j.sections| ==> r.sections == j.sections[..i] + [App1(Some(e))] + j.sections[i + 1..])
            && (i == |j.sections| ==> r.sections == j.sections[..1] + [App1(Some(e))] + j.sections[1..])
  {
    var r, i := SetExif(j, e), FindSection(j.sections, APP1);
    if i < |j.sections| {
      FoundAt(r.sections, i, e);
    } else if j.sections != [] {
      FoundAt(r.sections, 1, e);
    }
  }

  lemma {:induction false} FoundAt<E>(ss: seq<Section<E>>, i: nat, e: E)
    requires i < |ss| && ss[i] == App1(Some(e)) && forall k :: 0 <= k < i ==> MarkerOf(ss[k]) != APP1
    ensures FindSection(ss, APP1) == i
  {
    if i > 0 {
      FoundAt(ss[1..], i - 1, e);
    }
  }

  /** The fast writer writes the bytes of the reference path - parse the image, set the EXIF data, print - and the XMP
      section in one place between them, behind the EXIF. */
  lemma FastIsReference<E>(codec: Codec<E>, d: seq<byte>, e: E, exif: seq<byte>, xmp: seq<byte>)
    requires Canonical(codec, d) && Image(d) && codec.encode(e) == Some(exif)
    requires FindSection(Load(codec, d).sections, APP1) == |Load(codec, d).sections|
    ensures var reference, n := Print(codec, SetExif(Load(codec, d), e)), |exif| + 6;
            && n <= |reference|
            && Spliced(d, exif, xmp) == reference[..n] + XmpBytes(xmp) + reference[n..]
  {
    hide Canonical, Load, Parse, Print, App1Bytes, XmpBytes;
    ReferenceBytes(codec, d, e, exif);
    var w, n := Print(codec, SetExif(Load(codec, d), e)), |exif| + 6;
    assert w[..n] == d[..2] + App1Bytes(exif) && w[n..] == d[2..];
  }

  lemma ReferenceBytes<E>(codec: Codec<E>, d: seq<byte>, e: E, exif: seq<byte>)
    requires Canonical(codec, d) && Image(d) && codec.encode(e) == Some(exif)
    requires FindSection(Load(codec, d).sections, APP1) == |Load(codec, d).sections|
    ensures Print(codec, SetExif(Load(codec, d), e)) == d[..2] + App1Bytes(exif) + d[2..]
  {
    hide Canonical, Load, Parse, Behind, FindSection, PrintSections;
    PrintLoad(codec, d);
    LoadBehind(codec, d);
    var j := Load(codec, d);
    var ss := j.sections[1..];
    assert j.sections == [Bare(SOI)] + ss && SetExif(j, e).sections == [Bare(SOI)] + ([App1(Some(e))] + ss);
    PrintConcat(codec, [Bare(SOI)], ss, j.data);
    PrintConcat(codec, [Bare(SOI)], [App1(Some(e))] + ss, j.data);
    PrintConcat(codec, [App1(Some(e))], ss, j.data);
    PrintOne(codec, Bare(SOI), j.data);
    PrintOne(codec, App1(Some(e)), j.data);
    assert d[..2] == [0xFF, SOI] && d[2..] == PrintSections(codec, ss, j.data);
  }

  lemma PrintOne<E>(codec: Codec<E>, s: Section<E>, data: seq<byte>)
    ensures PrintSections(codec, [s], data) == PrintSection(codec, s, data)
  {
    assert PrintSections(codec, [s][1..], data) == [];
  }
}
