/** The JPEG parser and printer as the library runs them: loops over offsets that update the section list in place. */
module JpegLibrary {
  import opened Bytes
  import opened Options
  import opened JpegFormat
  import opened JpegSplice

  const UINT_RANGE := 0x1_0000_0000

  class JpegData<E> {
    var sections: seq<Section<E>>
    var data: seq<byte>

    ghost function Value(): Jpeg<E>
      reads this
    {
      Jpeg(sections, data)
    }

    constructor ()
      ensures Value() == Jpeg([], [])
    {
      sections, data := [], [];
    }

    /** jpeg_data_append_section, with the marker set. */
    method AppendSection(m: byte)
      modifies this
      ensures Value() == Append(old(Value()), Blank(m))
    {
      sections := sections + [Blank(m)];
    }

    /** jpeg_data_load_data: the sections found are appended. The source demands a first byte of 0xFF: its loop does not
        move past any other. Every read is in range and `size - o` never wraps. */
    method LoadData(codec: Codec<E>, d: seq<byte>)
      requires |d| < UINT_RANGE && Startable(d, 0)
      modifies this
      ensures Value() == Parse(codec, d, 0, old(Value()))
    {
      hide ParseTurn, ParseSection, ParseContent;
      var size, o := |d|, 0;
      while o < size
        invariant Startable(d, o)
        invariant Parse(codec, d, o, Value()) == Parse(codec, d, 0, old(Value()))
        decreases size - o
      {
        ParseUnroll(codec, d, o, Value());
        var more;
        o, more := LoadSection(codec, d, o);
        if !more {
          return;
        }
      }
      ParseUnroll(codec, d, o, Value());
    }

    /** One turn of the parser's loop. */
    method LoadSection(codec: Codec<E>, d: seq<byte>, o: nat) returns (next: nat, more: bool)
      requires o < |d| < UINT_RANGE && Startable(d, o)
      modifies this
      ensures var t := ParseTurn(codec, d, o, old(Value()));
              && more == t.More?
              && (more ==> next == t.o && Value() == t.j)
              && (!more ==> Value() == old(Value()))
    {
      hide ParseSection;
      ghost var j := Value();
      var size := |d|;
      var i := SkipFill(d, o);
      if i >= size - o || !IsMarker(d[o + i]) {
        return 0, false;
      }
      AppendSection(d[o + i]);
      assert sections[..|sections| - 1] == j.sections;
      next := LoadContent(codec, d, o + i + 1, d[o + i]);
      more := true;
    }

    /** The inner loop: the 0xFF bytes before a marker, of which it looks at no more than seven. */
    static method SkipFill(d: seq<byte>, o: nat) returns (i: nat)
      requires o < |d|
      ensures i == FillBytes(d, o, FILL_MAX)
    {
      i := 0;
      while i < (if |d| - o < FILL_MAX then |d| - o else FILL_MAX) && d[o + i] == 0xFF
        invariant i <= FILL_MAX && o + i <= |d|
        invariant FillBytes(d, o, FILL_MAX) == i + FillBytes(d, o + i, FILL_MAX - i)
      {
        i := i + 1;
      }
    }

    /** The content of the section just appended. */
    method LoadContent(codec: Codec<E>, d: seq<byte>, start: nat, m: byte) returns (o: nat)
      requires 2 <= start <= |d| < UINT_RANGE
      requires sections != [] && sections[|sections| - 1] == Blank(m)
      modifies this
      ensures var j := Jpeg(old(sections)[..|old(sections)| - 1], old(data));
              var t := ParseSection(codec, d, start, m, j);
              o == t.o && Value() == t.j
    {
      ghost var j := Jpeg(sections[..|sections| - 1], data);
      assert Append(j, Blank(m)) == Value();
      var size := |d|;
      o := start;
      if m == SOI || m == EOI {
        return;
      }
      if 2 > size - o {
        return size;
      }
      var len := LengthField(d, o);
      if len > size {
        return size;
      }
      o := o + 2;
      if len > size - o {
        return size;
      }
      var last := |sections| - 1;
      if m == APP1 {
        sections := sections[last := App1(Some(codec.decode(d[o - 4..o + len])))];
      } else {
        sections := sections[last := Segment(m, d[o..o + len])];
        if m == SOS {
          var n := size - o - len;
          if n >= 2 {
            n := n - 2;
            if d[o + len + n] != 0xFF {
              n := n + 2;
            }
          }
          data := d[o + len..o + len + n];
          o := o + n;
        }
      }
      o := o + len;
    }

    /** jpeg_data_save_data */
    method SaveData(codec: Codec<E>) returns (d: seq<byte>)
      ensures d == Print(codec, Value())
    {
      hide PrintSection;
      d := [];
      for i := 0 to |sections|
        invariant d + PrintSections(codec, sections[i..], data) == Print(codec, Value())
      {
        assert sections[i..][1..] == sections[i + 1..];
        ghost var after := PrintSections(codec, sections[i + 1..], data);
        assert d + (PrintSection(codec, sections[i], data) + after)
            == d + PrintSection(codec, sections[i], data) + after;
        d := SaveSection(codec, sections[i], d);
      }
      assert d + [] == d;
    }

    /** One turn of the printer's loop. */
    method SaveSection(codec: Codec<E>, s: Section<E>, d: seq<byte>) returns (r: seq<byte>)
      ensures r == d + PrintSection(codec, s, data)
    {
      r := d + [0xFF, MarkerOf(s)];
      match s {
        case Bare(_) =>
        case App1(None) =>
        case App1(Some(e)) =>
          match codec.encode(e) {
            case None =>
            case Some(ed) => r := SavePayload(r, ed);
          }
        case Segment(m, c) =>
          r := SavePayload(r, c);
          if m == SOS {
            r := r + data;
          }
      }
    }

    method SavePayload(d: seq<byte>, c: seq<byte>) returns (r: seq<byte>)
      ensures r == d + LengthBytes(|c|) + c
    {
      r := d + [(|c| + 2) / 0x100 % 0x100, (|c| + 2) % 0x100];
      r := r + c;
    }

    /** jpeg_data_get_section: the index of the first section with this marker, or the number of sections. */
    method GetSection(m: byte) returns (i: nat)
      ensures i == FindSection(sections, m)
    {
      i := 0;
      while i < |sections|
        invariant i <= |sections| && FindSection(sections, m) == i + FindSection(sections[i..], m)
      {
        if MarkerOf(sections[i]) == m {
          return;
        }
        assert sections[i..][1..] == sections[i + 1..];
        i := i + 1;
      }
    }

    /** jpeg_data_get_exif_data */
    method GetExifData() returns (e: Option<E>)
      ensures e == GetExif(Value())
    {
      var i := GetSection(APP1);
      if i < |sections| && sections[i].App1? {
        return sections[i].exif;
      }
      e := None;
    }

    /** jpeg_data_set_exif_data */
    method SetExifData(e: E)
      modifies this
      ensures Value() == SetExif(old(Value()), e)
    {
      var i := GetSection(APP1);
      if i == |sections| {
        sections := sections + [Segment(0, [])];
        if |sections| < 2 {
          return;
        }
        sections := sections[..2] + sections[1..|sections| - 1];
        i := 1;
      }
      sections := sections[i := App1(Some(e))];
    }
  }

  /** save_picture_with_exif: the writes, in order. `exif` is what the codec gave for the EXIF data. */
  method SavePictureWithExif(image: seq<byte>, exif: seq<byte>, xmp: seq<byte>) returns (file: seq<byte>)
    requires |image| >= 2
    ensures file == Spliced(image, exif, xmp)
  {
    var appSize := |exif| + 2;
    assert |XMP_TITLE| == 28;
    var appHead: seq<byte> := [0xFF, 0xE1, appSize / 0x100 % 0x100, appSize % 0x100];
    var xmpHead: seq<byte> := [0xFF, 0xE1, 0x00, 0x00];
    if xmp != [] {
      var xmpSize := |xmp| + |XMP_TITLE| + 1 + 2;
      xmpHead := xmpHead[2 := xmpSize / 0x100 % 0x100][3 := xmpSize % 0x100];
    }
    assert appHead == [0xFF, APP1] + LengthBytes(|exif|);
    assert xmpHead == if xmp == [] then [0xFF, APP1, 0, 0] else [0xFF, APP1] + LengthBytes(|xmp| + 29);
    hide App1Bytes, XmpBytes, XMP_TITLE, LengthBytes, XmpPayload;
    file := image[..2];
    file := file + appHead;
    file := file + exif;
    ghost var front := file;
    file := file + xmpHead;
    file := file + XMP_TITLE;
    file := file + [0];
    file := file + xmp;
    FrontWritten(image, exif);
    XmpWritten(front, xmp);
    file := file + image[2..];
  }

  lemma FrontWritten(image: seq<byte>, exif: seq<byte>)
    requires |image| >= 2
    ensures image[..2] + ([0xFF, APP1] + LengthBytes(|exif|)) + exif == image[..2] + App1Bytes(exif)
  {
  }

  lemma XmpWritten(front: seq<byte>, xmp: seq<byte>)
    ensures front + (if xmp == [] then [0xFF, APP1, 0, 0] else [0xFF, APP1] + LengthBytes(|xmp| + 29))
            + XMP_TITLE + [0] + xmp
         == front + XmpBytes(xmp)
  {
    var h := if xmp == [] then [0xFF, APP1, 0, 0] else [0xFF, APP1] + LengthBytes(|xmp| + 29);
    assert XmpBytes(xmp) == h + (XMP_TITLE + [0] + xmp);
    hide XmpBytes, XMP_TITLE, LengthBytes;
    Regroup(front, h, XMP_TITLE, [0], xmp);
  }

  lemma Regroup(a: seq<byte>, b: seq<byte>, c: seq<byte>, d: seq<byte>, e: seq<byte>)
    ensures a + b + c + d + e == a + (b + (c + d + e))
  {
  }

  /** The disabled reference path: parse the image, set the EXIF data, print. */
  method SaveByParsing<E>(codec: Codec<E>, image: seq<byte>, e: E) returns (file: seq<byte>)
    requires |image| < UINT_RANGE && Startable(image, 0)
    ensures file == Print(codec, SetExif(Load(codec, image), e))
  {
    var j := new JpegData<E>();
    j.LoadData(codec, image);
    j.SetExifData(e);
    file := j.SaveData(codec);
  }
}
