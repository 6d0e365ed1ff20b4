/** JPEG streams as sections (sections B.1.1.2 and B.1.1.4 of ITU-T T.81), as the library parses and prints them. */
module JpegFormat {
  import opened Bytes
  import opened Options

  const SOI: byte := 0xD8
  const EOI: byte := 0xD9
  const SOS: byte := 0xDA
  const APP1: byte := 0xE1
  const FILL_MAX: nat := 7         // 0xFF bytes looked at before a marker
  const PAYLOAD_MAX: nat := 65533  // what a 16-bit length that counts itself can hold

  predicate IsMarker(m: byte) {
    0xC0 <= m <= 0xFE
  }

  /** libexif: `decode` reads a whole APP1 section, marker and length included; `encode` gives its payload, or
      nothing. */
  datatype Codec<!E> = Codec(decode: seq<byte> -> E, encode: E -> Option<seq<byte>>)

  /** A section. SOI and EOI have no content; APP1 holds EXIF data, if it could be read; the rest hold bytes. */
  datatype Section<E> =
    | Bare(marker: byte)
    | App1(exif: Option<E>)
    | Segment(marker: byte, content: seq<byte>)

  function MarkerOf<E>(s: Section<E>): byte {
    if s.App1? then APP1 else s.marker
  }

  datatype Jpeg<E> = Jpeg(sections: seq<Section<E>>, data: seq<byte>)

  /** A section as it is appended, before its content is read. */
  function Blank<E>(m: byte): Section<E> {
    if m == SOI || m == EOI then Bare(m) else if m == APP1 then App1(None) else Segment(m, [])
  }

  // ----- parsing

  /** How many 0xFF bytes stand at offset `o`, looking at no more than `n`. */
  function FillBytes(d: seq<byte>, o: nat, n: nat): (i: nat)
    requires o <= |d|
    ensures i <= n && o + i <= |d|
    ensures forall k :: o <= k < o + i ==> d[k] == 0xFF
    ensures i < n && o + i < |d| ==> d[o + i] != 0xFF
    decreases n
  {
    if n == 0 || o == |d| || d[o] != 0xFF then 0 else 1 + FillBytes(d, o + 1, n - 1)
  }

  /** The length field at offset `o`, less the two bytes it takes itself, in unsigned 32-bit arithmetic. */
  function LengthField(d: seq<byte>, o: nat): word
    requires o + 2 <= |d|
  {
    (0x100 * (d[o] as int) + d[o + 1] as int - 2) % 0x1_0000_0000
  }

  /** How much of the `left` bytes from `o` on is image data: all but a trailing marker. */
  function ScanSize(d: seq<byte>, o: nat): (n: nat)
    requires o <= |d|
    ensures o + n <= |d|
  {
    var left := |d| - o;
    if left >= 2 && d[|d| - 2] == 0xFF then left - 2 else left
  }

  /** One turn of the parser's loop: it goes on at an offset, it gives up, or it comes round unchanged. */
  datatype Turn<E> = More(o: nat, j: Jpeg<E>) | Stop | Stuck

  function Append<E>(j: Jpeg<E>, s: Section<E>): Jpeg<E> {
    j.(sections := j.sections + [s])
  }

  /** A section with content `len` bytes long at offset `o`, just after its length field. */
  function ParseContent<E>(codec: Codec<E>, d: seq<byte>, o: nat, len: nat, m: byte, j: Jpeg<E>): (t: Turn<E>)
    requires 4 <= o && o + len <= |d|
    ensures t.More? && o + len <= t.o <= |d|
  {
    if m == APP1 then More(o + len, Append(j, App1(Some(codec.decode(d[o - 4..o + len])))))
    else if m != SOS then More(o + len, Append(j, Segment(m, d[o..o + len])))
    else
      var n := ScanSize(d, o + len);
      More(o + len + n, Append(j, Segment(m, d[o..o + len])).(data := d[o + len..o + len + n]))
  }

  /** The section with marker `m`, from offset `o`, just after the marker. */
  function ParseSection<E>(codec: Codec<E>, d: seq<byte>, o: nat, m: byte, j: Jpeg<E>): (t: Turn<E>)
    requires 2 <= o <= |d|
    ensures t.More? && o <= t.o <= |d|
  {
    if m == SOI || m == EOI then More(o, Append(j, Bare(m)))
    else if |d| - o < 2 then More(|d|, Append(j, Blank(m)))
    else
      var len := LengthField(d, o);
      if len > |d| || len > |d| - (o + 2) then More(|d|, Append(j, Blank(m)))
      else ParseContent(codec, d, o + 2, len, m, j)
  }

  function ParseTurn<E>(codec: Codec<E>, d: seq<byte>, o: nat, j: Jpeg<E>): (t: Turn<E>)
    requires o < |d|
    ensures t.More? ==> o < t.o <= |d|
    ensures t.Stuck? <==> o == 0 && d[0] != 0xFF
  {
    var i := FillBytes(d, o, FILL_MAX);
    if o + i == 0 then Stuck
    else if i >= |d| - o || !IsMarker(d[o + i]) then Stop
    else ParseSection(codec, d, o + i + 1, d[o + i], j)
  }

  /** What the parser demands of its input: the first byte of a stream is 0xFF. */
  predicate Startable(d: seq<byte>, o: nat) {
    o <= |d| && (o > 0 || d == [] || d[0] == 0xFF)
  }

  function Parse<E>(codec: Codec<E>, d: seq<byte>, o: nat, j: Jpeg<E>): Jpeg<E>
    requires Startable(d, o)
    decreases |d| - o
  {
    if o == |d| then j
    else
      var t := ParseTurn(codec, d, o, j);
      if t.More? then Parse(codec, d, t.o, t.j) else j
  }

  /** One turn of the parser, and the rest. */
  lemma ParseUnroll<E>(codec: Codec<E>, d: seq<byte>, o: nat, j: Jpeg<E>)
    requires Startable(d, o)
    ensures o == |d| ==> Parse(codec, d, o, j) == j
    ensures o < |d| ==>
              var t := ParseTurn(codec, d, o, j);
              Parse(codec, d, o, j) == if t.More? then Parse(codec, d, t.o, t.j) else j
  {
    hide ParseTurn;
  }

  function Load<E>(codec: Codec<E>, d: seq<byte>): Jpeg<E>
    requires Startable(d, 0)
  {
    Parse(codec, d, 0, Jpeg([], []))
  }

  // ----- printing

  /** The big-endian length field of a payload of `n` bytes; each byte is truncated. */
  function LengthBytes(n: nat): (b: seq<byte>)
    ensures |b| == 2
  {
    [(n + 2) / 0x100 % 0x100, (n + 2) % 0x100]
  }

  function PrintSection<E>(codec: Codec<E>, s: Section<E>, data: seq<byte>): (b: seq<byte>)
    ensures |b| >= 2 && b[0] == 0xFF && b[1] == MarkerOf(s)
  {
    match s
    case Bare(m) => [0xFF, m]
    case App1(None) => [0xFF, APP1]
    case App1(Some(e)) =>
      (match codec.encode(e)
       case None => [0xFF, APP1]
       case Some(p) => [0xFF, APP1] + LengthBytes(|p|) + p)
    case Segment(m, c) => [0xFF, m] + LengthBytes(|c|) + c + if m == SOS then data else []
  }

  function PrintSections<E>(codec: Codec<E>, ss: seq<Section<E>>, data: seq<byte>): seq<byte> {
    if ss == [] then [] else PrintSection(codec, ss[0], data) + PrintSections(codec, ss[1..], data)
  }

  function Print<E>(codec: Codec<E>, j: Jpeg<E>): seq<byte> {
    PrintSections(codec, j.sections, j.data)
  }

  lemma {:induction false} PrintConcat<E>(codec: Codec<E>, ss: seq<Section<E>>, ts: seq<Section<E>>, data: seq<byte>)
    ensures PrintSections(codec, ss + ts, data) == PrintSections(codec, ss, data) + PrintSections(codec, ts, data)
  {
    hide PrintSection;
    if ss == [] {
      assert ss + ts == ts;
    } else {
      PrintConcat(codec, ss[1..], ts, data);
      assert (ss + ts)[1..] == ss[1..] + ts;
      var first, rest, other :=
        PrintSection(codec, ss[0], data), PrintSections(codec, ss[1..], data), PrintSections(codec, ts, data);
      assert first + (rest + other) == first + rest + other;
    }
  }

  // ----- the EXIF section

  /** The index of the first section with this marker, or the number of sections. */
  function FindSection<E>(ss: seq<Section<E>>, m: byte): (i: nat)
    ensures i <= |ss| && (i < |ss| ==> MarkerOf(ss[i]) == m)
    ensures forall k :: 0 <= k < i ==> MarkerOf(ss[k]) != m
  {
    if ss == [] then 0 else if MarkerOf(ss[0]) == m then 0 else 1 + FindSection(ss[1..], m)
  }

  /** The EXIF data is put in the first APP1 section, or in a new section after the first one. Without any section
      the source appends an empty one and leaves it at that. */
  function SetExif<E>(j: Jpeg<E>, e: E): Jpeg<E> {
    var i := FindSection(j.sections, APP1);
    if i < |j.sections| then j.(sections := j.sections[i := App1(Some(e))])
    else if j.sections == [] then Append(j, Segment(0, []))
    else j.(sections := j.sections[..1] + [App1(Some(e))] + j.sections[1..])
  }

  function GetExif<E>(j: Jpeg<E>): Option<E> {
    var i := FindSection(j.sections, APP1);
    if i < |j.sections| && j.sections[i].App1? then j.sections[i].exif else None
  }
}
