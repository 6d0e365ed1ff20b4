/** The SEI message put before each frame: user data with emulation prevention, as section 7.3.1 of ITU-T H.264
    undoes it and section 7.4.1 demands it. */
module Sei {
  import opened Bytes

  /** Start code, NAL header, payload type and size, and the UUID. */
  const SEI_HEAD: seq<byte> := [
    0x00, 0x00, 0x00, 0x01, 0x06, 0x05, 0x28,
    0x13, 0x9F, 0xB1, 0xA9, 0x44, 0x6A, 0x4D, 0xEC,
    0x8C, 0xBF, 0x65, 0xB1, 0xE1, 0x2D, 0x2C, 0xFD]

  const START_CODE_SIZE: nat := 4
  const NAL_HEAD: seq<byte> := SEI_HEAD[START_CODE_SIZE..]
  const UUID_SIZE: nat := 16
  const PAYLOAD_SIZE: nat := 24
  const SEI_MAX: nat := 59

  /** One GPS sample as its six 32-bit fields lie in memory. */
  datatype GpsWords = GpsWords(longitude: word, latitude: word, altitude: word, pitch: word, yaw: word, roll: word)

  function Payload(g: GpsWords): (p: seq<byte>)
    ensures |p| == PAYLOAD_SIZE
  {
    WordBytes(g.longitude) + WordBytes(g.latitude) + WordBytes(g.altitude)
    + WordBytes(g.pitch) + WordBytes(g.yaw) + WordBytes(g.roll)
  }

  // ----- the encoder

  /** The zeros counted once byte `b` is seen, when `z` were counted before. */
  function Counted(b: byte, z: nat): nat {
    if b == 0 then z + 1 else 0
  }

  /** The bytes pushed for the payload `p`, when `z` zeros are counted already. */
  function Escape(p: seq<byte>, z: nat): (e: seq<byte>)
    requires z < 2
    ensures |e| >= |p|
  {
    if p == [] then [] else Emitted(p[0], z) + Escape(p[1..], Counted(p[0], z) % 2)
  }

  /** What is pushed for one byte: after a second zero also a 3, and then counting starts again. */
  function Emitted(b: byte, z: nat): (e: seq<byte>)
    ensures |e| >= 1 && e[0] == b
  {
    if Counted(b, z) == 2 then [b, 3] else [b]
  }

  function Message(p: seq<byte>): (b: seq<byte>) {
    SEI_HEAD + Escape(p, 0)
  }

  /** The loop of encode, for a payload of any length. */
  method EscapeBytes(tmp: seq<byte>) returns (a: seq<byte>)
    ensures a == Escape(tmp, 0)
  {
    hide Escape;
    var zeroCounter := 0;
    a := [];
    for i := 0 to |tmp|
      invariant zeroCounter < 2
      invariant a + Escape(tmp[i..], zeroCounter) == Escape(tmp, 0)
    {
      assert tmp[i..][1..] == tmp[i + 1..];
      EscapeStep(tmp[i..], zeroCounter);
      ghost var rest := Escape(tmp[i + 1..], Counted(tmp[i], zeroCounter) % 2);
      assert a + (Emitted(tmp[i], zeroCounter) + rest) == a + Emitted(tmp[i], zeroCounter) + rest;
      assert a + [tmp[i]] + [3] == a + [tmp[i], 3];
      a := a + [tmp[i]];
      if tmp[i] == 0x00 {
        zeroCounter := zeroCounter + 1;
      } else {
        zeroCounter := 0;
      }
      if zeroCounter == 2 {
        a := a + [0x03];
        zeroCounter := 0;
      }
    }
    NothingPushed();
    assert tmp[|tmp|..] == [] && a + [] == a;
  }

  /** SeiEncoder::encode. The caller's buffer must have room for the longest message. */
  method Encode(data: GpsWords, encoded: array<byte>) returns (length: nat)
    requires encoded.Length >= SEI_MAX
    modifies encoded
    ensures length == |Message(Payload(data))| && 47 <= length <= SEI_MAX
    ensures encoded[..length] == Message(Payload(data))
    ensures encoded[length..] == old(encoded[length..])
  {
    var a := EscapeBytes(Payload(data));
    EscapedLength(Payload(data));
    length := |SEI_HEAD| + |a|;
    var message := SEI_HEAD + a;
    forall i | 0 <= i < length {
      encoded[i] := message[i];
    }
  }

  // ----- the decoder of section 7.3.1

  function Unescape(b: seq<byte>): seq<byte> {
    if b == [] then []
    else if |b| >= 3 && b[0] == 0 && b[1] == 0 && b[2] == 3 then [0, 0] + Unescape(b[3..])
    else [b[0]] + Unescape(b[1..])
  }

  /** The output from the zeros on that are counted already. */
  function Pending(p: seq<byte>, z: nat): seq<byte>
    requires z < 2
  {
    Zeros(z) + Escape(p, z)
  }

  /** What the encoder pushes for one byte, the zeros counted before included. */
  function Pushed(b: byte, z: nat): seq<byte>
    requires z < 2
  {
    if b != 0 then Zeros(z) + [b] else if z == 1 then [0, 0, 3] else []
  }

  lemma PendingStep(p: seq<byte>, z: nat)
    requires z < 2 && p != []
    ensures Pending(p, z) == Pushed(p[0], z) + Pending(p[1..], Counted(p[0], z) % 2)
  {
    hide Escape;
    var rest := Escape(p[1..], Counted(p[0], z) % 2);
    EscapeStep(p, z);
    if p[0] != 0 {
      assert Zeros(0) + rest == rest;
      assert Zeros(z) + ([p[0]] + rest) == Zeros(z) + [p[0]] + rest;
    } else if z == 0 {
      assert [0] + rest == Zeros(1) + rest;
    } else {
      assert Zeros(1) + ([0, 3] + rest) == [0, 0, 3] + (Zeros(0) + rest);
    }
  }

  lemma EscapeStep(p: seq<byte>, z: nat)
    requires z < 2 && p != []
    ensures Escape(p, z) == Emitted(p[0], z) + Escape(p[1..], Counted(p[0], z) % 2)
  {
    hide Emitted, Counted;
  }

  lemma UnescapePushed(b: byte, z: nat, r: seq<byte>)
    requires z < 2
    ensures Unescape(Pushed(b, z) + r) == (if b == 0 then Zeros(2 * z) else Zeros(z) + [b]) + Unescape(r)
  {
    var u := Pushed(b, z) + r;
    if b == 0 {
      assert z == 0 ==> u == r;
      assert z == 1 ==> u[3..] == r;
    } else {
      assert z == 1 ==> u[0] == 0 && u[1] == b && u[1..] == [b] + r;
      assert ([b] + r)[1..] == r;
      assert Unescape([b] + r) == [b] + Unescape(r);
    }
  }

  /** The decoder gives the payload back, also when it has seen the zeros that the encoder has counted. */
  lemma {:induction false} UnescapeEscape(p: seq<byte>, z: nat)
    requires z < 2
    ensures Unescape(Pending(p, z)) == Zeros(z) + p
  {
    hide Pending, Unescape, Pushed, Escape;
    if p == [] {
      NothingPending(z);
      assert Zeros(z) + [] == Zeros(z);
    } else {
      var c := Counted(p[0], z) % 2;
      UnescapeEscape(p[1..], c);
      PendingStep(p, z);
      UnescapePushed(p[0], z, Pending(p[1..], c));
      assert p == [p[0]] + p[1..];
      if p[0] == 0 {
        assert Zeros(z) + p == Zeros(2 * z) + (Zeros(c) + p[1..]);
      } else {
        assert Zeros(z) + p == Zeros(z) + [p[0]] + (Zeros(c) + p[1..]);
      }
    }
  }

  lemma NothingPending(z: nat)
    requires z < 2
    ensures Pending([], z) == Zeros(z) == Unescape(Zeros(z))
  {
    assert z == 1 ==> Zeros(1)[1..] == [];
  }

  /** Bytes that are not zero stand for themselves. */
  lemma {:induction false} UnescapePlain(h: seq<byte>, b: seq<byte>)
    requires forall i :: 0 <= i < |h| ==> h[i] != 0
    ensures Unescape(h + b) == h + Unescape(b)
  {
    if h == [] {
      assert h + b == b;
    } else {
      assert (h + b)[1..] == h[1..] + b;
      UnescapePlain(h[1..], b);
    }
  }

  /** The NAL unit of the message decodes to its header and the payload as it was. */
  lemma MessageDecodes(p: seq<byte>)
    ensures |Message(p)| >= START_CODE_SIZE
    ensures Unescape(Message(p)[START_CODE_SIZE..]) == NAL_HEAD + p
  {
    assert Message(p)[START_CODE_SIZE..] == NAL_HEAD + Escape(p, 0);
    UnescapePlain(NAL_HEAD, Escape(p, 0));
    UnescapeEscape(p, 0);
    assert Pending(p, 0) == Escape(p, 0) && Zeros(0) + p == p;
  }

  /** Different samples are told apart by a decoder. */
  lemma MessageInjective(p: seq<byte>, q: seq<byte>)
    requires Message(p) == Message(q)
    ensures p == q
  {
    MessageDecodes(p);
    MessageDecodes(q);
    var h := NAL_HEAD;
    assert p == (h + p)[|h|..] && q == (h + q)[|h|..];
  }

  // ----- no start codes

  /** Every two zeros in a row are followed by 3. */
  predicate ZeroPairsEscaped(b: seq<byte>) {
    forall i :: 0 <= i < |b| - 1 && b[i] == 0 && b[i + 1] == 0 ==> i + 2 < |b| && b[i + 2] == 3
  }

  lemma {:induction false} EscapeHidesZeroPairs(p: seq<byte>, z: nat)
    requires z < 2
    ensures ZeroPairsEscaped(Pending(p, z))
  {
    hide ZeroPairsEscaped, Pending, Escape;
    if p == [] {
      NothingPending(z);
      ZerosHideNoPair(z);
    } else {
      var c := Counted(p[0], z) % 2;
      EscapeHidesZeroPairs(p[1..], c);
      PendingStep(p, z);
      PushedHidesZeroPairs(p[0], z);
      EscapedBehind(Pushed(p[0], z), Pending(p[1..], c));
    }
  }

  lemma ZerosHideNoPair(z: nat)
    requires z < 2
    ensures ZeroPairsEscaped(Zeros(z))
  {
  }

  lemma PushedHidesZeroPairs(b: byte, z: nat)
    requires z < 2
    ensures var u := Pushed(b, z);
            ZeroPairsEscaped(u) && (u != [] ==> u[|u| - 1] != 0)
  {
  }

  lemma EscapedBehind(a: seq<byte>, b: seq<byte>)
    requires ZeroPairsEscaped(a) && ZeroPairsEscaped(b) && (a != [] ==> a[|a| - 1] != 0)
    ensures ZeroPairsEscaped(a + b)
  {
    var c := a + b;
    forall i | 0 <= i < |c| - 1 && c[i] == 0 && c[i + 1] == 0 ensures i + 2 < |c| && c[i + 2] == 3 {
      if i < |a| {
        assert i + 1 < |a|;
      } else {
        assert b[i - |a|] == 0 && b[i - |a| + 1] == 0;
      }
    }
  }

  lemma HeadHidesZeroPairs()
    ensures ZeroPairsEscaped(NAL_HEAD) && NAL_HEAD != [] && NAL_HEAD[|NAL_HEAD| - 1] != 0
  {
  }

  /** After its own start code the message holds no 00 00 but before a 03, and so no start code. */
  lemma MessageHidesZeroPairs(p: seq<byte>)
    ensures |Message(p)| >= START_CODE_SIZE && ZeroPairsEscaped(Message(p)[START_CODE_SIZE..])
  {
    hide Escape, ZeroPairsEscaped;
    HeadHidesZeroPairs();
    EscapeHidesZeroPairs(p, 0);
    assert Message(p)[START_CODE_SIZE..] == NAL_HEAD + Pending(p, 0);
    EscapedBehind(NAL_HEAD, Pending(p, 0));
  }

  // ----- what is inserted

  /** How many zeros `p` starts with. */
  function LeadingZeros(p: seq<byte>): (n: nat)
    ensures n <= |p| && (n < |p| ==> p[n] != 0)
    ensures forall i :: 0 <= i < n ==> p[i] == 0
  {
    if p == [] || p[0] != 0 then 0 else 1 + LeadingZeros(p[1..])
  }

  /** A run of `n` zeros with a 3 behind every second one. */
  function EscapedRun(n: nat): (b: seq<byte>)
    ensures |b| == n + n / 2
  {
    if n < 2 then Zeros(n) else [0, 0, 3] + EscapedRun(n - 2)
  }

  /** The escaping said run by run: each maximal run of zeros by itself, all other bytes as they are. */
  function EscapedByRuns(p: seq<byte>): seq<byte>
    decreases |p|
  {
    if p == [] then []
    else if p[0] != 0 then [p[0]] + EscapedByRuns(p[1..])
    else EscapedRun(LeadingZeros(p)) + EscapedByRuns(p[LeadingZeros(p)..])
  }

  /** The half lengths, rounded down, of the maximal runs of zeros, added up. */
  function ZeroPairs(p: seq<byte>): nat
    decreases |p|
  {
    if p == [] then 0
    else if p[0] != 0 then ZeroPairs(p[1..])
    else LeadingZeros(p) / 2 + ZeroPairs(p[LeadingZeros(p)..])
  }

  lemma {:induction false} EscapeRun(n: nat, p: seq<byte>)
    requires p == [] || p[0] != 0
    ensures Escape(Zeros(n) + p, 0) == EscapedRun(n) + Escape(p, 0)
  {
    hide Escape, EscapedRun;
    RunStep(n);
    var b := Zeros(n) + p;
    if n == 0 {
      assert b == p;
    } else {
      EscapeStep(b, 0);
      if n == 1 {
        assert b[1..] == p;
        CountedOrNot(p);
      } else {
        assert b[1..][1..] == Zeros(n - 2) + p;
        EscapeStep(b[1..], 1);
        EscapeRun(n - 2, p);
        assert [0] + ([0, 3] + Escape(b[1..][1..], 0)) == [0, 0, 3] + Escape(b[1..][1..], 0);
      }
    }
  }

  lemma RunStep(n: nat)
    ensures EscapedRun(n) == if n < 2 then Zeros(n) else [0, 0, 3] + EscapedRun(n - 2)
  {
  }

  lemma CountedOrNot(p: seq<byte>)
    requires p == [] || p[0] != 0
    ensures Escape(p, 1) == Escape(p, 0)
  {
  }

  /** The counter, which starts again after each 3, inserts as if each run of zeros were escaped by itself. */
  lemma {:induction false} EscapeIsByRuns(p: seq<byte>)
    ensures Escape(p, 0) == EscapedByRuns(p)
    decreases |p|
  {
    if p != [] {
      var n := LeadingZeros(p);
      if n == 0 {
        EscapeIsByRuns(p[1..]);
      } else {
        assert p == Zeros(n) + p[n..];
        EscapeRun(n, p[n..]);
        EscapeIsByRuns(p[n..]);
      }
    }
  }

  lemma {:induction false} RunsLength(p: seq<byte>)
    ensures |EscapedByRuns(p)| == |p| + ZeroPairs(p) && 2 * ZeroPairs(p) <= |p|
    decreases |p|
  {
    if p != [] {
      var n := LeadingZeros(p);
      RunsLength(if n == 0 then p[1..] else p[n..]);
    }
  }

  /** One byte more for every two zeros of a run, and so at most half as many again. */
  lemma EscapedLength(p: seq<byte>)
    ensures |Message(p)| == |SEI_HEAD| + |p| + ZeroPairs(p)
    ensures |SEI_HEAD| + |p| <= |Message(p)| <= |SEI_HEAD| + |p| + |p| / 2
  {
    EscapeIsByRuns(p);
    RunsLength(p);
  }

  /** The fields stand in the payload in this order, least significant byte first. */
  lemma PayloadReads(g: GpsWords)
    ensures var p := Payload(g);
            && WordAt(p, 0) == g.longitude && WordAt(p, 4) == g.latitude && WordAt(p, 8) == g.altitude
            && WordAt(p, 12) == g.pitch && WordAt(p, 16) == g.yaw && WordAt(p, 20) == g.roll
  {
    var p := Payload(g);
    assert p[0..4] == WordBytes(g.longitude) && p[4..8] == WordBytes(g.latitude) && p[8..12] == WordBytes(g.altitude);
    assert p[12..16] == WordBytes(g.pitch) && p[16..20] == WordBytes(g.yaw) && p[20..24] == WordBytes(g.roll);
    hide Payload, WordAt, WordBytes;
    WordStands(p, 0, g.longitude);
    WordStands(p, 4, g.latitude);
    WordStands(p, 8, g.altitude);
    WordStands(p, 12, g.pitch);
    WordStands(p, 16, g.yaw);
    WordStands(p, 20, g.roll);
  }

  /** A decoder finds the fields of the sample behind NAL header, payload type, size and UUID, and so can tell any two
      samples apart. */
  lemma MessageReads(g: GpsWords)
    ensures |Message(Payload(g))| >= 4 && |Unescape(Message(Payload(g))[4..])| == 43
    ensures var b := Unescape(Message(Payload(g))[4..])[19..];
            g == GpsWords(WordAt(b, 0), WordAt(b, 4), WordAt(b, 8), WordAt(b, 12), WordAt(b, 16), WordAt(b, 20))
  {
    hide Payload, WordAt, Message, Unescape;
    MessageDecodes(Payload(g));
    PayloadReads(g);
    assert (NAL_HEAD + Payload(g))[19..] == Payload(g);
  }

  lemma SamplesDiffer(g: GpsWords, h: GpsWords)
    requires Message(Payload(g)) == Message(Payload(h))
    ensures g == h
  {
    hide Payload, WordAt, Message, Unescape;
    MessageReads(g);
    MessageReads(h);
  }

  /** The NAL unit is of type 6, its first message of type 5, and the size declared is that of the UUID and the payload
      as they are before escaping. */
  lemma DeclaredSize(g: GpsWords)
    ensures var nal := Message(Payload(g))[START_CODE_SIZE..];
            var rbsp := Unescape(nal);
            && |rbsp| == 3 + UUID_SIZE + PAYLOAD_SIZE && rbsp[2] as int == UUID_SIZE + PAYLOAD_SIZE
            && rbsp[0] % 32 == 6 && rbsp[1] == 5
            && rbsp[3 + UUID_SIZE..] == Payload(g)
  {
    MessageDecodes(Payload(g));
  }

  // ----- how it ends

  function TrailingZeros(p: seq<byte>): (n: nat)
    ensures n <= |p| && (n < |p| ==> p[|p| - 1 - n] != 0)
    ensures forall i :: |p| - n <= i < |p| ==> p[i] == 0
  {
    if p == [] || p[|p| - 1] != 0 then 0 else 1 + TrailingZeros(p[..|p| - 1])
  }

  /** The zeros counted at the end of `p`. */
  function CountAt(p: seq<byte>, z: nat): (c: nat)
    requires z < 2
    ensures c < 2
  {
    if p == [] then z else CountAt(p[1..], Counted(p[0], z) % 2)
  }

  lemma {:induction false} EscapeSnoc(p: seq<byte>, b: byte, z: nat)
    requires z < 2
    ensures Escape(p + [b], z) == Escape(p, z) + Emitted(b, CountAt(p, z))
    ensures CountAt(p + [b], z) == Counted(b, CountAt(p, z)) % 2
  {
    hide Escape;
    EscapeStep(p + [b], z);
    if p == [] {
      NothingPushed();
      assert (p + [b])[1..] == [];
    } else {
      EscapeStep(p, z);
      assert (p + [b])[1..] == p[1..] + [b];
      EscapeSnoc(p[1..], b, Counted(p[0], z) % 2);
    }
  }

  lemma NothingPushed()
    ensures Escape([], 0) == [] == Escape([], 1)
  {
  }

  lemma {:induction false} CountIsParity(p: seq<byte>)
    ensures CountAt(p, 0) == TrailingZeros(p) % 2
  {
    if p != [] {
      var last := |p| - 1;
      CountIsParity(p[..last]);
      EscapeSnoc(p[..last], p[last], 0);
      assert p[..last] + [p[last]] == p;
    }
  }

  lemma LastPushed(p: seq<byte>)
    requires p != []
    ensures var e := Escape(p, 0);
            && e != []
            && (e[|e| - 1] == 0 <==> TrailingZeros(p) % 2 == 1)
            && (e[|e| - 1] == 0 ==> e == Escape(p[..|p| - 1], 0) + [0])
  {
    hide Escape, TrailingZeros, CountAt;
    var last := |p| - 1;
    CountIsParity(p);
    CountIsParity(p[..last]);
    EscapeSnoc(p[..last], p[last], 0);
    assert p[..last] + [p[last]] == p;
  }

  /** The message ends in a zero byte exactly when the payload ends in an odd number of zeros; then that byte is the
      payload's last. */
  lemma EndsInZeroIff(p: seq<byte>)
    ensures var m := Message(p);
            && (m[|m| - 1] == 0 <==> TrailingZeros(p) % 2 == 1)
            && (m[|m| - 1] == 0 ==> p != [] && m[..|m| - 1] == Message(p[..|p| - 1]))
  {
    hide Escape, TrailingZeros;
    if p == [] {
      NothingPushed();
      assert Message(p)[|Message(p)| - 1] == 0xFD;
    } else {
      LastPushed(p);
      var e := Escape(p[..|p| - 1], 0);
      assert SEI_HEAD + (e + [0]) == SEI_HEAD + e + [0];
    }
  }
}
