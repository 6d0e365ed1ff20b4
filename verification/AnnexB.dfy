/** The byte stream format of section B.1 of ITU-T H.264, and what a reader finds when the SEI message stands before a
    frame. */
module AnnexB {
  import opened Bytes
  import opened Sei

  predicate StartCodeAt(b: seq<byte>, i: nat) {
    i + 3 <= |b| && b[i] == 0 && b[i + 1] == 0 && b[i + 2] == 1
  }

  /** Where a NAL unit ends if there is no other byte of it: at 00 00 00, 00 00 01, or the end of the stream. */
  predicate NalEndsAt(b: seq<byte>, i: nat) {
    i >= |b| || (i + 3 <= |b| && b[i] == 0 && b[i + 1] == 0 && b[i + 2] <= 1)
  }

  /** The first start code from `i` on, or the end of the stream. */
  function NextStartCode(b: seq<byte>, i: nat): (k: nat)
    requires i <= |b|
    ensures i <= k <= |b| && (k < |b| ==> StartCodeAt(b, k))
    ensures forall m :: i <= m < k ==> !StartCodeAt(b, m)
    decreases |b| - i
  {
    if i == |b| || StartCodeAt(b, i) then i else NextStartCode(b, i + 1)
  }

  function NalEnd(b: seq<byte>, i: nat): (k: nat)
    requires i <= |b|
    ensures i <= k <= |b| && NalEndsAt(b, k)
    ensures forall m :: i <= m < k ==> !NalEndsAt(b, m)
    decreases |b| - i
  {
    if NalEndsAt(b, i) then i else NalEnd(b, i + 1)
  }

  /** The NAL units of a byte stream. */
  function Split(b: seq<byte>): seq<seq<byte>>
    decreases |b|
  {
    var k := NextStartCode(b, 0);
    if k == |b| then []
    else
      var e := NalEnd(b, k + 3);
      [b[k + 3..e]] + Split(b[e..])
  }

  /** A frame as the encoder gives it. */
  predicate StartsNal(f: seq<byte>) {
    StartCodeAt(f, 0) || (f != [] && f[0] == 0 && StartCodeAt(f, 1))
  }

  /** A zero byte before a start code does not matter. */
  lemma LeadingZeroDropped(f: seq<byte>)
    requires StartsNal(f)
    ensures Split([0] + f) == Split(f)
  {
    var b := [0] + f;
    var k := if StartCodeAt(f, 0) then 0 else 1;
    assert forall i: nat :: StartCodeAt(b, i + 1) <==> StartCodeAt(f, i);
    assert NextStartCode(f, 0) == k && NextStartCode(b, 0) == k + 1;
    NalEndShift(f, k + 3);
    var e := NalEnd(f, k + 3);
    assert b[k + 4..e + 1] == f[k + 3..e] && b[e + 1..] == f[e..];
  }

  lemma {:induction false} NalEndShift(f: seq<byte>, i: nat)
    requires i <= |f|
    ensures NalEnd([0] + f, i + 1) == NalEnd(f, i) + 1
    decreases |f| - i
  {
    assert NalEndsAt([0] + f, i + 1) <==> NalEndsAt(f, i);
    if i < |f| {
      NalEndShift(f, i + 1);
    }
  }

  /** The message without its last byte, if that is zero. */
  function WholePart(sei: seq<byte>): (w: seq<byte>) {
    if sei != [] && sei[|sei| - 1] == 0 then sei[..|sei| - 1] else sei
  }

  /** The NAL unit after the start code ends with the message, but for a last zero byte. */
  lemma SeiEnds(sei: seq<byte>, f: seq<byte>)
    requires |sei| > START_CODE_SIZE && ZeroPairsEscaped(sei[START_CODE_SIZE..]) && StartsNal(f)
    requires sei[START_CODE_SIZE] != 0
    ensures |WholePart(sei)| > START_CODE_SIZE && NalEnd(sei + f, START_CODE_SIZE) == |WholePart(sei)|
  {
    var b, nal, e := sei + f, sei[START_CODE_SIZE..], |WholePart(sei)|;
    forall m | START_CODE_SIZE <= m < e ensures !NalEndsAt(b, m) {
      assert b[m] == nal[m - START_CODE_SIZE];
      if m + 1 < |sei| {
        assert b[m + 1] == nal[m + 1 - START_CODE_SIZE];
        if m + 2 < |sei| {
          assert b[m + 2] == nal[m + 2 - START_CODE_SIZE];
        }
      }
    }
    assert f[0] == 0 && f[1] == 0 && f[2] <= 1;
    assert b[|sei|] == f[0] && b[|sei| + 1] == f[1] && b[|sei| + 2] == f[2];
    assert NalEndsAt(b, e);
    NalEndFirst(b, START_CODE_SIZE, e);
  }

  lemma NalEndFirst(b: seq<byte>, i: nat, e: nat)
    requires i <= e <= |b| && NalEndsAt(b, e) && forall m :: i <= m < e ==> !NalEndsAt(b, m)
    ensures NalEnd(b, i) == e
  {
    assert NalEnd(b, i) < e ==> !NalEndsAt(b, NalEnd(b, i));
    assert NalEndsAt(b, NalEnd(b, i));
  }

  lemma SplitMessage(p: seq<byte>, f: seq<byte>)
    requires StartsNal(f)
    ensures var w := WholePart(Message(p));
            |w| >= START_CODE_SIZE && Split(Message(p) + f) == [w[START_CODE_SIZE..]] + Split(f)
  {
    hide Split, Message;
    MessageStarts(p);
    MessageHidesZeroPairs(p);
    var sei, b, w := Message(p), Message(p) + f, WholePart(Message(p));
    SeiEnds(sei, f);
    SplitFirst(b, 1);
    assert b[START_CODE_SIZE..|w|] == w[START_CODE_SIZE..];
    if w == sei {
      assert b[|w|..] == f;
    } else {
      assert b[|w|..] == [0] + f;
      LeadingZeroDropped(f);
    }
  }

  lemma MessageStarts(p: seq<byte>)
    ensures |Message(p)| > START_CODE_SIZE
    ensures Message(p)[..START_CODE_SIZE] == [0, 0, 0, 1] && Message(p)[START_CODE_SIZE] != 0
  {
  }

  lemma SplitFirst(b: seq<byte>, k: nat)
    requires StartCodeAt(b, k) && forall i: nat :: i < k ==> !StartCodeAt(b, i)
    ensures var e := NalEnd(b, k + 3);
            Split(b) == [b[k + 3..e]] + Split(b[e..])
  {
    var n := NextStartCode(b, 0);
    assert n < |b| ==> StartCodeAt(b, n);
  }

  /** The NAL units are the message with payload `p` and those of the frame. If the payload ends in an odd number of
      zeros, its last byte is missing. */
  predicate CarriesMessage(nals: seq<seq<byte>>, p: seq<byte>, frame: seq<byte>) {
    && nals != [] && nals[1..] == Split(frame)
    && Unescape(nals[0]) == NAL_HEAD + if TrailingZeros(p) % 2 == 1 then p[..|p| - 1] else p
  }

  /** A reader of the stream finds the frame's NAL units unchanged behind one SEI NAL unit with the payload. */
  lemma StreamDecodes(p: seq<byte>, f: seq<byte>)
    requires StartsNal(f)
    ensures CarriesMessage(Split(Message(p) + f), p, f)
  {
    hide Split, Message, Unescape;
    SplitMessage(p, f);
    EndsInZeroIff(p);
    MessageDecodes(p);
    MessageStarts(p);
    if TrailingZeros(p) % 2 == 1 {
      MessageDecodes(p[..|p| - 1]);
    }
  }

  /** The payload is read back exactly if it does not end in an odd number of zeros. */
  lemma PayloadReadIff(p: seq<byte>, f: seq<byte>)
    requires StartsNal(f)
    ensures var nals := Split(Message(p) + f);
            nals != [] && (Unescape(nals[0]) == NAL_HEAD + p <==> TrailingZeros(p) % 2 == 0)
  {
    hide Split, Message, Unescape;
    StreamDecodes(p, f);
    var h := NAL_HEAD;
    if TrailingZeros(p) % 2 == 1 {
      assert |h + p[..|p| - 1]| != |h + p|;
    }
  }
}
