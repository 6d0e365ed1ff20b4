/** Parsing and printing undo each other, and fill bytes before a marker do not matter. */
module JpegRoundTrip {
  import opened Bytes
  import opened Options
  import opened JpegFormat

  // ----- which sections survive

  /** A section that its own printed form determines. */
  ghost predicate Printable<E>(codec: Codec<E>, s: Section<E>) {
    match s
    case Bare(m) => m == SOI || m == EOI
    case App1(None) => false
    case App1(Some(e)) =>
      && codec.encode(e).Some?
      && var p := codec.encode(e).value;
      |p| <= PAYLOAD_MAX && codec.decode([0xFF, APP1] + LengthBytes(|p|) + p) == e
    case Segment(m, c) => IsMarker(m) && m !in {SOI, EOI, APP1} && |c| <= PAYLOAD_MAX
  }

  /** Header sections: all printable, none of them a scan. */
  ghost predicate Header<E>(codec: Codec<E>, ss: seq<Section<E>>) {
    forall s :: s in ss ==> Printable(codec, s) && MarkerOf(s) != SOS
  }

  /** A header, and perhaps one scan, its image data and the end of the image. */
  ghost predicate WellFormed<E>(codec: Codec<E>, j: Jpeg<E>) {
    var n := |j.sections|;
    || (Header(codec, j.sections) && j.data == [])
    || (n >= 2 && Header(codec, j.sections[..n - 2]) && Printable(codec, j.sections[n - 2])
        && MarkerOf(j.sections[n - 2]) == SOS && j.sections[n - 1] == Bare(EOI))
  }

  // ----- one section

  lemma OneFill(d: seq<byte>, o: nat)
    requires o + 1 < |d| && d[o] == 0xFF && d[o + 1] != 0xFF
    ensures FillBytes(d, o, FILL_MAX) == 1
  {
  }

  lemma LengthReads(d: seq<byte>, o: nat, n: nat)
    requires o + 2 <= |d| && n <= PAYLOAD_MAX && d[o..o + 2] == LengthBytes(n)
    ensures LengthField(d, o) == n
  {
    assert d[o] == d[o..o + 2][0] && d[o + 1] == d[o..o + 2][1];
  }

  /** A header section in print, with anything after it, is read back, and the parser goes on just behind it. */
  lemma ParseOne<E>(codec: Codec<E>, a: seq<byte>, s: Section<E>, rest: seq<byte>, j: Jpeg<E>)
    requires Printable(codec, s) && MarkerOf(s) != SOS
    ensures var p := PrintSection(codec, s, []);
            ParseTurn(codec, a + p + rest, |a|, j) == More(|a + p|, Append(j, s))
  {
    var p := PrintSection(codec, s, []);
    var d := a + p + rest;
    assert d[|a|] == p[0] && d[|a| + 1] == p[1];
    OneFill(d, |a|);
    if !s.Bare? {
      var c := if s.App1? then codec.encode(s.exif.value).value else s.content;
      assert p == [0xFF, MarkerOf(s)] + LengthBytes(|c|) + c;
      assert d[|a| + 2..|a| + 4] == LengthBytes(|c|);
      LengthReads(d, |a| + 2, |c|);
      assert d[|a| + 4..|a| + 4 + |c|] == c;
      assert d[|a|..|a| + 4 + |c|] == p;
    }
  }

  lemma PrintNoData<E>(codec: Codec<E>, s: Section<E>, data: seq<byte>)
    requires MarkerOf(s) != SOS
    ensures PrintSection(codec, s, data) == PrintSection(codec, s, [])
  {
  }

  lemma HeaderTail<E>(codec: Codec<E>, ss: seq<Section<E>>)
    requires Header(codec, ss) && ss != []
    ensures Header(codec, ss[1..]) && Printable(codec, ss[0]) && MarkerOf(ss[0]) != SOS
  {
    hide Printable;
  }

  /** Header sections in print are read back one by one. */
  lemma {:induction false} ParseHeader<E>(codec: Codec<E>, a: seq<byte>, ss: seq<Section<E>>, data: seq<byte>,
                                          rest: seq<byte>, j: Jpeg<E>)
    requires Header(codec, ss)
    requires Startable(a + PrintSections(codec, ss, data) + rest, |a|)
    ensures var p := PrintSections(codec, ss, data);
            && Startable(a + p + rest, |a + p|)
            && Parse(codec, a + p + rest, |a|, j)
            == Parse(codec, a + p + rest, |a + p|, j.(sections := j.sections + ss))
    decreases ss
  {
    hide PrintSection, Printable, ParseTurn;
    var p := PrintSections(codec, ss, data);
    if ss == [] {
      assert j.sections + ss == j.sections;
      assert a + p == a;
    } else {
      var p0, p1 := PrintSection(codec, ss[0], data), PrintSections(codec, ss[1..], data);
      PrintNoData(codec, ss[0], data);
      assert a + p + rest == a + p0 + (p1 + rest);
      assert a + p + rest == (a + p0) + p1 + rest;
      ParseOne(codec, a, ss[0], p1 + rest, j);
      HeaderTail(codec, ss);
      ParseHeader(codec, a + p0, ss[1..], data, rest, Append(j, ss[0]));
      assert j.sections + [ss[0]] + ss[1..] == j.sections + ss;
      assert (a + p0) + p1 == a + p;
    }
  }

  /** The scan in print is read back with the image data up to the last two bytes, when those start with 0xFF. */
  lemma ParseScanTurn<E>(codec: Codec<E>, a: seq<byte>, c: seq<byte>, data: seq<byte>, m: byte, j: Jpeg<E>)
    requires |c| <= PAYLOAD_MAX
    ensures var p := [0xFF, SOS] + LengthBytes(|c|) + c;
            ParseTurn(codec, a + p + data + [0xFF, m], |a|, j)
            == More(|a + p + data|, Append(j, Segment(SOS, c)).(data := data))
  {
    var p := [0xFF, SOS] + LengthBytes(|c|) + c;
    var d, o := a + p + data + [0xFF, m], |a + p|;
    assert d[|a|] == p[0] && d[|a| + 1] == p[1];
    OneFill(d, |a|);
    assert d[|a| + 2..|a| + 4] == LengthBytes(|c|);
    LengthReads(d, |a| + 2, |c|);
    assert d[|a| + 4..o] == c;
    assert d[o..o + |data|] == data;
  }

  /** The scan in print, its image data and the end of the image are read back. */
  lemma ParseScan<E>(codec: Codec<E>, a: seq<byte>, s: Section<E>, data: seq<byte>, j: Jpeg<E>)
    requires Printable(codec, s) && MarkerOf(s) == SOS
    requires Startable(a + PrintSections(codec, [s, Bare(EOI)], data), |a|)
    ensures Parse(codec, a + PrintSections(codec, [s, Bare(EOI)], data), |a|, j)
         == Jpeg(j.sections + [s, Bare(EOI)], data)
  {
    hide Printable, ParseTurn, Parse, PrintSections;
    ScanSection(codec, s);
    var c, d := s.content, a + PrintSections(codec, [s, Bare(EOI)], data);
    var p := [0xFF, SOS] + LengthBytes(|c|) + c;
    assert d == a + p + data + [0xFF, EOI] by {
      PrintScan(codec, s, data);
    }
    ParseScanTurn(codec, a, c, data, EOI, j);
    var j1 := Jpeg(j.sections + [s], data);
    ParseUnroll(codec, d, |a|, j);
    EndTurn(codec, a + p + data, j1);
    assert j.sections + [s] + [Bare(EOI)] == j.sections + [s, Bare(EOI)];
  }

  lemma ScanSection<E>(codec: Codec<E>, s: Section<E>)
    requires Printable(codec, s) && MarkerOf(s) == SOS
    ensures s.Segment? && s.marker == SOS && |s.content| <= PAYLOAD_MAX
  {
  }

  lemma PrintScan<E>(codec: Codec<E>, s: Section<E>, data: seq<byte>)
    requires s.Segment? && s.marker == SOS
    ensures PrintSections(codec, [s, Bare(EOI)], data)
         == [0xFF, SOS] + LengthBytes(|s.content|) + s.content + data + [0xFF, EOI]
  {
    assert [s, Bare(EOI)][1..] == [Bare(EOI)];
    assert PrintSections(codec, [Bare(EOI)], data) == [0xFF, EOI];
  }

  lemma EndTurn<E>(codec: Codec<E>, a: seq<byte>, j: Jpeg<E>)
    requires a != []
    ensures Parse(codec, a + [0xFF, EOI], |a|, j) == Append(j, Bare(EOI))
  {
    var d := a + [0xFF, EOI];
    OneFill(d, |a|);
    assert ParseTurn(codec, d, |a|, j) == More(|d|, Append(j, Bare(EOI)));
  }

  // ----- round trips

  lemma PrintStarts<E>(codec: Codec<E>, ss: seq<Section<E>>, data: seq<byte>)
    ensures Startable(PrintSections(codec, ss, data), 0)
  {
  }

  /** Loading what was saved gives back the sections and the image data. */
  lemma LoadPrint<E>(codec: Codec<E>, j: Jpeg<E>)
    requires WellFormed(codec, j)
    ensures Startable(Print(codec, j), 0) && Load(codec, Print(codec, j)) == j
  {
    hide Printable, PrintSection, ParseTurn, PrintSections, Parse;
    var d, n := Print(codec, j), |j.sections|;
    PrintStarts(codec, j.sections, j.data);
    if Header(codec, j.sections) && j.data == [] {
      assert [] + d + [] == d;
      ParseHeader(codec, [], j.sections, j.data, [], Jpeg([], []));
      assert [] + d == d && [] + j.sections == j.sections;
      ParseUnroll(codec, d, |d|, j);
    } else {
      var ss, ts := j.sections[..n - 2], j.sections[n - 2..];
      assert j.sections == ss + ts && ts == [j.sections[n - 2], Bare(EOI)];
      PrintConcat(codec, ss, ts, j.data);
      var p, q := PrintSections(codec, ss, j.data), PrintSections(codec, ts, j.data);
      assert [] + p + q == d;
      ParseHeader(codec, [], ss, j.data, q, Jpeg([], []));
      assert [] + p == p;
      ParseScan(codec, p, j.sections[n - 2], j.data, Jpeg([] + ss, []));
      assert [] + ss + ts == j.sections;
    }
  }

  // ----- a scan without an end of image

  /** Header sections and a scan without an end of image come back exactly when the image data is shorter than two
      bytes or its last byte but one is not 0xFF: otherwise the parser takes the last two bytes for a marker. */
  lemma TruncatedScan<E>(codec: Codec<E>, ss: seq<Section<E>>, c: seq<byte>, data: seq<byte>)
    requires Header(codec, ss) && |c| <= PAYLOAD_MAX
    ensures var j := Jpeg(ss + [Segment(SOS, c)], data);
            && Startable(Print(codec, j), 0)
            && (Load(codec, Print(codec, j)) == j <==> |data| < 2 || data[|data| - 2] != 0xFF)
  {
    hide ParseTurn, Parse, PrintSections, Header, LengthBytes;
    var s: Section<E> := Segment(SOS, c);
    var j, a, p := Jpeg(ss + [s], data), PrintSections(codec, ss, data), [0xFF, SOS] + LengthBytes(|c|) + c;
    PrintStarts(codec, j.sections, data);
    PrintConcat(codec, ss, [s], data);
    PrintOpenScan(codec, c, data);
    var d := Print(codec, j);
    assert d == [] + a + (p + data) == a + p + data && [] + a == a;
    ParseHeader(codec, [], ss, data, p + data, Jpeg([], []));
    assert [] + ss == ss;
    TruncatedTurn(codec, a, c, data, Jpeg(ss, []));
    var n := ScanSize(d, |a + p|);
    var j1 := Jpeg(ss + [s], data[..n]);
    ParseUnroll(codec, d, |a|, Jpeg(ss, []));
    if n == |data| {
      assert data[..n] == data;
      ParseUnroll(codec, d, |d|, j1);
    } else {
      ParseOnly(codec, d, |a + p| + n, j1);
    }
  }

  lemma PrintOpenScan<E>(codec: Codec<E>, c: seq<byte>, data: seq<byte>)
    ensures PrintSections(codec, [Segment(SOS, c)], data) == [0xFF, SOS] + LengthBytes(|c|) + c + data
  {
    var ss: seq<Section<E>> := [Segment(SOS, c)];
    assert PrintSections(codec, ss[1..], data) == [];
  }

  lemma TruncatedTurn<E>(codec: Codec<E>, a: seq<byte>, c: seq<byte>, data: seq<byte>, j: Jpeg<E>)
    requires |c| <= PAYLOAD_MAX
    ensures var p := [0xFF, SOS] + LengthBytes(|c|) + c;
            var n := ScanSize(a + p + data, |a + p|);
            && n == (if |data| >= 2 && data[|data| - 2] == 0xFF then |data| - 2 else |data|)
            && ParseTurn(codec, a + p + data, |a|, j)
            == More(|a + p| + n, Jpeg(j.sections + [Segment(SOS, c)], data[..n]))
  {
    var p := [0xFF, SOS] + LengthBytes(|c|) + c;
    var d, o := a + p + data, |a + p|;
    var n := ScanSize(d, o);
    if |data| >= 2 {
      assert d[|d| - 2] == data[|data| - 2];
    }
    assert d[|a|] == p[0] && d[|a| + 1] == p[1];
    OneFill(d, |a|);
    assert d[|a| + 2..|a| + 4] == LengthBytes(|c|);
    LengthReads(d, |a| + 2, |c|);
    assert d[|a| + 4..o] == c;
    assert d[o..o + n] == data[..n];
  }

  /** Two bytes before the end, the parser does not put image data back. */
  lemma ParseOnly<E>(codec: Codec<E>, d: seq<byte>, o: nat, j: Jpeg<E>)
    requires Startable(d, o) && o + 2 == |d| && o > 0 && d[o] == 0xFF
    ensures Parse(codec, d, o, j).data == j.data
  {
    var t := ParseTurn(codec, d, o, j);
    if t.More? {
      assert t.o == |d|;
    }
  }

  // ----- canonical streams

  /** A stream of sections without fill bytes, with one scan at most, and that followed by image data and the end of
      the image; EXIF payloads are those that the codec writes. */
  ghost predicate Canonical<E>(codec: Codec<E>, d: seq<byte>) {
    d == []
    || (&& |d| >= 2 && d[0] == 0xFF && IsMarker(d[1])
        && if d[1] == SOI || d[1] == EOI then Canonical(codec, d[2..])
           else
             && |d| >= 4 && 0x100 * (d[2] as int) + d[3] as int >= 2
             && var n := 0x100 * (d[2] as int) + d[3] as int - 2;
             && 4 + n <= |d|
             && if d[1] == SOS then |d| >= 4 + n + 2 && d[|d| - 2..] == [0xFF, EOI]
                else
                  && (d[1] == APP1 ==> codec.encode(codec.decode(d[..4 + n])) == Some(d[4..4 + n]))
                  && Canonical(codec, d[4 + n..]))
  }

  /** The sections of a canonical stream. */
  ghost function Sections<E>(codec: Codec<E>, d: seq<byte>): (j: Jpeg<E>)
    requires Canonical(codec, d)
  {
    if d == [] then Jpeg([], [])
    else if d[1] == SOI || d[1] == EOI then
      var rest := Sections(codec, d[2..]);
      Jpeg([Bare(d[1])] + rest.sections, rest.data)
    else
      var n := 0x100 * (d[2] as int) + d[3] as int - 2;
      if d[1] == SOS then Jpeg([Segment(SOS, d[4..4 + n]), Bare(EOI)], d[4 + n..|d| - 2])
      else
        var rest := Sections(codec, d[4 + n..]);
        var s := if d[1] == APP1 then App1(Some(codec.decode(d[..4 + n]))) else Segment(d[1], d[4..4 + n]);
        Jpeg([s] + rest.sections, rest.data)
  }

  lemma LengthOf(d: seq<byte>)
    requires |d| >= 4 && 0x100 * (d[2] as int) + d[3] as int >= 2
    ensures var n := 0x100 * (d[2] as int) + d[3] as int - 2;
            n <= PAYLOAD_MAX && d[2..4] == LengthBytes(n) && LengthField(d, 2) == n
  {
  }

  /** The first section of a canonical stream prints as the bytes it was read from. */
  lemma FirstSection<E>(codec: Codec<E>, d: seq<byte>)
    requires Canonical(codec, d) && d != [] && d[1] != SOS
    ensures var j := Sections(codec, d);
            && j.sections != [] && Printable(codec, j.sections[0]) && MarkerOf(j.sections[0]) == d[1]
            && var p := PrintSection(codec, j.sections[0], j.data);
            && |p| <= |d| && d[..|p|] == p && Canonical(codec, d[|p|..])
            && Sections(codec, d[|p|..]) == Jpeg(j.sections[1..], j.data)
  {
    if d[1] != SOI && d[1] != EOI {
      var n := 0x100 * (d[2] as int) + d[3] as int - 2;
      LengthOf(d);
      assert d[..4 + n] == [0xFF, d[1]] + LengthBytes(n) + d[4..4 + n];
    }
  }

  /** The sections of a canonical stream print as that stream, and can be read back. */
  lemma {:induction false} CanonicalPrints<E>(codec: Codec<E>, d: seq<byte>)
    requires Canonical(codec, d)
    ensures var j := Sections(codec, d); Print(codec, j) == d && WellFormed(codec, j)
    decreases |d|
  {
    hide Canonical, Sections, WellFormed, Printable, PrintSection;
    var j := Sections(codec, d);
    CanonicalSize(codec, d);
    if d == [] {
    } else if d[1] == SOS {
      ScanPrints(codec, d);
    } else {
      FirstSection(codec, d);
      var p := PrintSection(codec, j.sections[0], j.data);
      CanonicalPrints(codec, d[|p|..]);
      assert d == p + d[|p|..];
      WellFormedCons(codec, j.sections[0], Jpeg(j.sections[1..], j.data));
      assert j.sections == [j.sections[0]] + j.sections[1..];
    }
  }

  lemma CanonicalSize<E>(codec: Codec<E>, d: seq<byte>)
    requires Canonical(codec, d)
    ensures d == [] || |d| >= 2
    ensures d == [] ==> Sections(codec, d) == Jpeg([], []) && WellFormed(codec, Sections(codec, d))
  {
  }

  lemma ScanPrints<E>(codec: Codec<E>, d: seq<byte>)
    requires Canonical(codec, d) && d != [] && d[1] == SOS
    ensures var j := Sections(codec, d); Print(codec, j) == d && WellFormed(codec, j)
  {
    var n, j := 0x100 * (d[2] as int) + d[3] as int - 2, Sections(codec, d);
    LengthOf(d);
    PrintScan(codec, j.sections[0], j.data);
    assert d == [0xFF, SOS] + LengthBytes(n) + d[4..4 + n] + d[4 + n..|d| - 2] + d[|d| - 2..];
    assert j.sections[..0] == [];
  }

  lemma WellFormedCons<E>(codec: Codec<E>, s: Section<E>, j: Jpeg<E>)
    requires Printable(codec, s) && MarkerOf(s) != SOS && WellFormed(codec, j)
    ensures WellFormed(codec, Jpeg([s] + j.sections, j.data))
  {
    hide Printable;
    var n := |j.sections|;
    if n >= 2 {
      assert ([s] + j.sections)[..n - 1] == [s] + j.sections[..n - 2];
    }
  }

  /** Saving what was loaded gives back a canonical stream, byte for byte. */
  lemma PrintLoad<E>(codec: Codec<E>, d: seq<byte>)
    requires Canonical(codec, d)
    ensures Startable(d, 0) && Print(codec, Load(codec, d)) == d
    ensures Load(codec, d) == Sections(codec, d)
  {
    hide Canonical, Sections, Load, WellFormed, Print, Startable;
    CanonicalPrints(codec, d);
    LoadPrint(codec, Sections(codec, d));
  }
}
