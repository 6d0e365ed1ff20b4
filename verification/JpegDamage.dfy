/** What the parser makes of damaged streams: bytes that are no marker, and length fields that claim too much. */
module JpegDamage {
  import opened Bytes
  import opened Options
  import opened JpegFormat
  import opened JpegRoundTrip
  import opened JpegSplice

  /** Header sections in print, a 0xFF, another byte, and anything. */
  function Continued<E>(codec: Codec<E>, ss: seq<Section<E>>, b: byte, rest: seq<byte>): seq<byte> {
    PrintSections(codec, ss, []) + ([0xFF, b] + rest)
  }

  lemma ContinuedStarts<E>(codec: Codec<E>, ss: seq<Section<E>>, b: byte, rest: seq<byte>)
    requires Header(codec, ss)
    ensures var d, o := Continued(codec, ss, b, rest), |PrintSections(codec, ss, [])|;
            && o + 2 + |rest| == |d| && d[o] == 0xFF && d[o + 1] == b && d[o + 2..] == rest
            && Startable(d, 0) && Startable(d, o) && Load(codec, d) == Parse(codec, d, o, Jpeg(ss, []))
  {
    hide Parse, PrintSections, Header, Load;
    PrintStarts(codec, ss, []);
    var p := PrintSections(codec, ss, []);
    var d := p + ([0xFF, b] + rest);
    assert d[0] == if p == [] then 0xFF else p[0];
    AfterHeader(codec, ss, [0xFF, b] + rest);
  }

  /** The turn of the parser at such a byte. */
  lemma ContinuedTurn<E>(codec: Codec<E>, d: seq<byte>, o: nat, b: byte, j: Jpeg<E>)
    requires o + 2 <= |d| && d[o] == 0xFF && d[o + 1] == b && b != 0xFF
    ensures ParseTurn(codec, d, o, j) == if 0xC0 <= b <= 0xFE then ParseSection(codec, d, o + 2, b, j) else Stop
  {
    hide ParseSection;
    OneFill(d, o);
  }

  /** A section starts at a 0xFF with a byte from 0xC0 to 0xFE behind it, and at no other; at any other byte the parse
      ends, and what it has found so far is the result. */
  lemma MarkerIff<E>(codec: Codec<E>, ss: seq<Section<E>>, b: byte, rest: seq<byte>)
    requires Header(codec, ss) && b != 0xFF
    ensures var d := Continued(codec, ss, b, rest);
            Startable(d, 0) && (Load(codec, d) == Jpeg(ss, []) <==> b < 0xC0)
  {
    hide Parse, PrintSections, Header, Load, ParseTurn, Continued;
    ContinuedStarts(codec, ss, b, rest);
    var d, o := Continued(codec, ss, b, rest), |PrintSections(codec, ss, [])|;
    var j: Jpeg<E> := Jpeg(ss, []);
    ContinuedTurn(codec, d, o, b, j);
    ParseUnroll(codec, d, o, j);
    if b >= 0xC0 {
      MoreSections(codec, d, o, j);
    }
  }

  /** How many bytes of content the length field at the front of `rest` claims. */
  function Claimed(rest: seq<byte>): int
    requires |rest| >= 2
  {
    0x100 * (rest[0] as int) + rest[1] as int - 2
  }

  /** There is a length field, and the content is there too. */
  predicate Complete(rest: seq<byte>) {
    |rest| >= 2 && 0 <= Claimed(rest) <= |rest| - 2
  }

  /** The first section behind a header is read with its content if all of it is there. If not, also when the length
      field is less than its own two bytes, the section is left empty and nothing behind it is read. */
  lemma DamagedSection<E>(codec: Codec<E>, ss: seq<Section<E>>, m: byte, rest: seq<byte>)
    requires Header(codec, ss) && 0xC0 <= m <= 0xFE && m != 0xD8 && m != 0xD9
    requires |PrintSections(codec, ss, [])| + 2 + |rest| < 0xFFFF_FFFE
    ensures var d := Continued(codec, ss, m, rest);
            && Startable(d, 0)
            && (!Complete(rest) ==>
                  Load(codec, d) == Jpeg(ss + [if m == 0xE1 then App1(None) else Segment(m, [])], []))
            && (Complete(rest) ==>
                  var n, j := 2 + Claimed(rest), Load(codec, d);
                  && |j.sections| > |ss| && j.sections[..|ss|] == ss
                  && j.sections[|ss|] == if m == 0xE1 then App1(Some(codec.decode([0xFF, 0xE1] + rest[..n])))
                                         else Segment(m, rest[2..n]))
  {
    hide Parse, PrintSections, Header, Load, ParseTurn, Continued, ParseSection;
    ContinuedStarts(codec, ss, m, rest);
    var d, o := Continued(codec, ss, m, rest), |PrintSections(codec, ss, [])|;
    var j: Jpeg<E> := Jpeg(ss, []);
    ContinuedTurn(codec, d, o, m, j);
    ParseUnroll(codec, d, o, j);
    SectionTurn(codec, d, o, m, rest, j);
    var t := ParseSection(codec, d, o + 2, m, j);
    if Complete(rest) {
      Accumulate(codec, d, t.o, t.j);
    } else {
      ParseUnroll(codec, d, t.o, t.j);
    }
  }

  lemma SectionBytes(d: seq<byte>, o: nat, m: byte, rest: seq<byte>, n: nat)
    requires o + 2 + |rest| == |d| && d[o] == 0xFF && d[o + 1] == m && d[o + 2..] == rest && 2 <= n <= |rest|
    ensures d[o + 4..o + 2 + n] == rest[2..n] && d[o..o + 2 + n] == [0xFF, m] + rest[..n]
  {
    assert d[o..o + 2 + n][2..] == d[o + 2..][..n];
  }

  lemma SectionTurn<E>(codec: Codec<E>, d: seq<byte>, o: nat, m: byte, rest: seq<byte>, j: Jpeg<E>)
    requires o + 2 + |rest| == |d| < 0xFFFF_FFFE && d[o] == 0xFF && d[o + 1] == m && d[o + 2..] == rest
    requires m != 0xD8 && m != 0xD9
    ensures var t := ParseSection(codec, d, o + 2, m, j);
            if !Complete(rest) then
              t == More(|d|, Jpeg(j.sections + [if m == 0xE1 then App1(None) else Segment(m, [])], j.data))
            else
              var n := 2 + Claimed(rest);
              t.j.sections == j.sections + [if m == 0xE1 then App1(Some(codec.decode([0xFF, 0xE1] + rest[..n])))
                                            else Segment(m, rest[2..n])]
  {
    if |rest| >= 2 {
      assert d[o + 2] == rest[0] && d[o + 3] == rest[1];
      if Complete(rest) {
        SectionBytes(d, o, m, rest, 2 + Claimed(rest));
      }
    }
  }

  /** A section whose EXIF data could not be read is printed as a marker without a length field. It takes the next two
      bytes for one: an end of image behind it is lost. */
  lemma UnreadExifPrinted<E>(codec: Codec<E>, ss: seq<Section<E>>)
    requires Header(codec, ss) && |PrintSections(codec, ss, [])| < 0xFFFF_FFFA
    ensures var j: Jpeg<E> := Jpeg(ss + [App1(None), Bare(EOI)], []);
            && Startable(Print(codec, j), 0)
            && Load(codec, Print(codec, j)) == Jpeg(ss + [App1(None)], [])
  {
    hide PrintSections, Header, Load;
    var end: seq<Section<E>> := [App1(None), Bare(EOI)];
    PrintConcat(codec, ss, end, []);
    PrintEnd(codec);
    DamagedSection(codec, ss, 0xE1, [0xFF, EOI]);
    assert [0xFF, APP1] + [0xFF, EOI] == [0xFF, APP1, 0xFF, EOI];
  }

  lemma PrintEnd<E>(codec: Codec<E>)
    ensures PrintSections(codec, [App1(None), Bare(EOI)], []) == [0xFF, APP1, 0xFF, EOI]
  {
    var end: seq<Section<E>> := [App1(None), Bare(EOI)];
    var last: seq<Section<E>> := [Bare(EOI)];
    assert end[1..] == last && last[1..] == [];
    assert PrintSections(codec, last, []) == [0xFF, EOI];
  }
}
