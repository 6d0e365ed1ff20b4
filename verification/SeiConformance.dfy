/** What section 7.4.1 of ITU-T H.264 demands of the bytes of a NAL unit. The encoder puts its 03 in after every second
    zero, whatever comes next, and nothing behind the payload. */
module SeiConformance {
  import opened Bytes
  import opened Sei
  import opened AnnexB

  /** The rules of section 7.4.1: three sequences of three bytes do not occur, 00 00 03 is followed by 00 to 03 or by
      nothing, and the last byte is not zero. */
  predicate Conforms(nal: seq<byte>) {
    && nal != [] && nal[|nal| - 1] != 0
    && (forall i :: 2 <= i < |nal| && nal[i - 2] == 0 && nal[i - 1] == 0 ==> nal[i] > 2)
    && ThreesCalledFor(nal)
  }

  /** A 03 after two zeros is followed by 00 to 03, or by nothing. */
  predicate ThreesCalledFor(b: seq<byte>) {
    forall i :: 3 <= i < |b| ==> ThreeCalledFor(b, i)
  }

  predicate ThreeCalledFor(b: seq<byte>, i: nat)
    requires 3 <= i < |b|
  {
    b[i - 3] == 0 && b[i - 2] == 0 && b[i - 1] == 3 ==> b[i] <= 3
  }

  /** In the payload: the byte after a second, fourth, … zero of a run is below 4. */
  predicate PairsBeforeSmall(p: seq<byte>) {
    forall k :: 0 < k < |p| && AfterPair(p, k) ==> p[k] <= 3
  }

  predicate AfterPair(p: seq<byte>, k: nat)
    requires k <= |p|
  {
    k > 0 && p[k - 1] == 0 && TrailingZeros(p[..k]) % 2 == 0
  }

  predicate EndsInThree(b: seq<byte>) {
    |b| >= 3 && b[|b| - 3] == 0 && b[|b| - 2] == 0 && b[|b| - 1] == 3
  }

  /** Where the zeros counted, and the 03 pushed last, show at the end of the output. */
  lemma {:induction false} OutputEnd(p: seq<byte>)
    ensures var e := Escape(p, 0);
            && ZeroPairsEscaped(e)
            && (CountAt(p, 0) == 1 <==> e != [] && e[|e| - 1] == 0)
            && (AfterPair(p, |p|) <==> EndsInThree(e))
  {
    hide Escape, ZeroPairsEscaped, TrailingZeros, CountAt;
    NothingPushed();
    EscapeHidesZeroPairs(p, 0);
    assert Pending(p, 0) == Escape(p, 0);
    CountIsParity(p);
    if p != [] {
      var last := |p| - 1;
      OutputEnd(p[..last]);
      EscapeSnoc(p[..last], p[last], 0);
      assert p[..last] + [p[last]] == p && p[..|p|] == p;
      EndOf(Escape(p[..last], 0), p[last], CountAt(p[..last], 0));
    }
  }

  lemma EndOf(e: seq<byte>, b: byte, c: nat)
    requires c < 2 && (c == 1 <==> e != [] && e[|e| - 1] == 0) && ZeroPairsEscaped(e)
    ensures var u := e + Emitted(b, c);
            && (Counted(b, c) % 2 == 1 <==> u[|u| - 1] == 0)
            && (EndsInThree(u) <==> b == 0 && Counted(b, c) % 2 == 0)
  {
  }

  /** One more byte of payload. */
  lemma ThreesSnoc(e: seq<byte>, b: byte, c: nat)
    requires c < 2 && ZeroPairsEscaped(e)
    ensures ThreesCalledFor(e + Emitted(b, c))
       <==> ThreesCalledFor(e) && (EndsInThree(e) ==> b <= 3)
  {
    var u, n := e + Emitted(b, c), |e|;
    forall i | 3 <= i < n ensures ThreeCalledFor(u, i) <==> ThreeCalledFor(e, i) {
    }
    assert n >= 3 ==> (ThreeCalledFor(u, n) <==> (EndsInThree(e) ==> b <= 3));
    assert |u| == n + 2 && n + 1 >= 3 ==> ThreeCalledFor(u, n + 1);
  }

  /** Each 03 is called for if and only if the payload has no byte above 3 right after a pair of zeros. */
  lemma {:induction false} ThreesCalledForIff(p: seq<byte>)
    ensures ThreesCalledFor(Escape(p, 0)) <==> PairsBeforeSmall(p)
  {
    hide Escape, ThreesCalledFor;
    NothingPushed();
    if p == [] {
      NoThrees();
    } else {
      var last := |p| - 1;
      var q, b := p[..last], p[last];
      ThreesCalledForIff(q);
      EscapeSnoc(q, b, 0);
      assert q + [b] == p;
      OutputEnd(q);
      ThreesSnoc(Escape(q, 0), b, CountAt(q, 0));
      SmallSnoc(q, b);
    }
  }

  /** The NAL unit of a message conforms if and only if the payload has no byte above 3 right after a pair of zeros and
      ends in an even number of zeros. */
  lemma MessageConformsIff(p: seq<byte>)
    ensures |Message(p)| >= START_CODE_SIZE
    ensures Conforms(Message(p)[START_CODE_SIZE..]) <==> PairsBeforeSmall(p) && TrailingZeros(p) % 2 == 0
  {
    hide Escape, PairsBeforeSmall, ThreesCalledFor, TrailingZeros;
    ThreesCalledForIff(p);
    var h, e := NAL_HEAD, Escape(p, 0);
    assert Message(p)[START_CODE_SIZE..] == h + e;
    ThreesBehind(h, e);
    MessageHidesZeroPairs(p);
    EndsInZeroIff(p);
    PairsForbidNothing(h + e);
  }

  lemma PairsForbidNothing(b: seq<byte>)
    requires ZeroPairsEscaped(b)
    ensures forall i :: 2 <= i < |b| && b[i - 2] == 0 && b[i - 1] == 0 ==> b[i] > 2
  {
    forall i | 2 <= i < |b| && b[i - 2] == 0 && b[i - 1] == 0 ensures b[i] > 2 {
      assert b[i - 2 + 1] == 0;
    }
  }

  lemma ThreesBehind(h: seq<byte>, e: seq<byte>)
    requires forall i :: 0 <= i < |h| ==> h[i] != 0
    ensures ThreesCalledFor(h + e) <==> ThreesCalledFor(e)
  {
    var u := h + e;
    forall i | 3 <= i < |e| ensures ThreeCalledFor(u, |h| + i) <==> ThreeCalledFor(e, i) {
    }
    forall i | 3 <= i < |u| && i < |h| + 3 ensures ThreeCalledFor(u, i) {
    }
    if ThreesCalledFor(e) {
      forall i | 3 <= i < |u| ensures ThreeCalledFor(u, i) {
        if i >= |h| + 3 {
          assert ThreeCalledFor(e, i - |h|);
        }
      }
    }
  }

  lemma NoThrees()
    ensures ThreesCalledFor([])
  {
  }

  lemma SmallSnoc(q: seq<byte>, b: byte)
    ensures PairsBeforeSmall(q + [b]) <==> PairsBeforeSmall(q) && (AfterPair(q, |q|) ==> b <= 3)
  {
    var p := q + [b];
    forall k: nat | k <= |q| ensures AfterPair(p, k) <==> AfterPair(q, k) {
      assert p[..k] == q[..k];
    }
    if PairsBeforeSmall(p) {
      assert AfterPair(q, |q|) ==> p[|q|] <= 3;
      forall k | 0 < k < |q| && AfterPair(q, k) ensures q[k] <= 3 {
        assert AfterPair(p, k);
      }
    }
  }

  /** The sample the lookup gives when the receiver has been silent: integers -1, and floats of 2^32. */
  const CLEARED_SAMPLE: GpsWords :=
    GpsWords(0xFFFF_FFFF, 0xFFFF_FFFF, 0xFFFF_FFFF, 0x4F80_0000, 0x4F80_0000, 0x4F80_0000)

  /** A sample whose last byte alone is zero. */
  const ODD_SAMPLE: GpsWords := GpsWords(0x0101_0101, 0x0101_0101, 0x0101_0101, 0x0101_0101, 0x0101_0101, 0x0001_0101)

  /** Whenever the receiver is silent the message does not conform: a 03 stands before 80. */
  lemma ClearedSampleFails()
    ensures !PairsBeforeSmall(Payload(CLEARED_SAMPLE)) && TrailingZeros(Payload(CLEARED_SAMPLE)) == 0
    ensures |Message(Payload(CLEARED_SAMPLE))| >= START_CODE_SIZE
    ensures !Conforms(Message(Payload(CLEARED_SAMPLE))[START_CODE_SIZE..])
  {
    hide Payload, TrailingZeros, Message, Conforms;
    var p := Payload(CLEARED_SAMPLE);
    ClearedBytes();
    TwoZeros(p[..14]);
    assert AfterPair(p, 14);
    MessageConformsIff(p);
  }

  lemma ClearedBytes()
    ensures var p := Payload(CLEARED_SAMPLE);
            && p[11] == 0xFF && p[12] == 0 && p[13] == 0 && p[14] == 0x80
            && TrailingZeros(p) == 0
  {
  }

  lemma TwoZeros(b: seq<byte>)
    requires |b| >= 3 && b[|b| - 3] != 0 && b[|b| - 2] == 0 && b[|b| - 1] == 0
    ensures TrailingZeros(b) == 2
  {
    assert TrailingZeros(b[..|b| - 1]) == 1 + TrailingZeros(b[..|b| - 1][..|b| - 2]);
  }

  /** With an odd number of zeros at the end the message does not conform either, and a reader of the byte stream does
      not get the payload back. */
  lemma OddSampleFails(f: seq<byte>)
    requires StartsNal(f)
    ensures var p := Payload(ODD_SAMPLE);
            && PairsBeforeSmall(p) && TrailingZeros(p) == 1
            && |Message(p)| >= START_CODE_SIZE && !Conforms(Message(p)[START_CODE_SIZE..])
            && var nals := Split(Message(p) + f);
               nals != [] && Unescape(nals[0]) != NAL_HEAD + p
  {
    hide Split, Message, Unescape, NAL_HEAD, Conforms;
    var p := Payload(ODD_SAMPLE);
    assert p[23] == 0 && forall i :: 0 <= i < 23 ==> p[i] == 1;
    assert TrailingZeros(p[..23]) == 0;
    MessageConformsIff(p);
    PayloadReadIff(p, f);
  }
}
