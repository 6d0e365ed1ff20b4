/** The frame buffer between the receiver and the RTSP server: the last frame written, with its SEI message in front,
    is what the server is given when it asks. */
module FramedSources {
  import opened Bytes
  import opened Sei
  import opened AnnexB

  const BUFFER_SIZE: nat := 200 * 1024

  /** What a request of the server is answered with. */
  datatype Delivery = Delivery(bytes: seq<byte>, truncated: nat)

  /** What stands in the buffer behind the first start code. */
  function Deliverable(content: seq<byte>): seq<byte> {
    if |content| > START_CODE_SIZE then content[START_CODE_SIZE..] else []
  }

  /** The answer to a request for at most `max` bytes. */
  function Answer(content: seq<byte>, max: nat, free: bool): Delivery {
    var whole := Deliverable(content);
    if !free then Delivery([], 0)
    else if |whole| > max then Delivery(whole[..max], |whole| - max)
    else Delivery(whole, 0)
  }

  /** Whether writeFrameToBuf takes a frame: it compares the frame alone with the size of the buffer. */
  predicate Accepts(size: nat, references: nat, free: bool) {
    size <= BUFFER_SIZE && references > 0 && free
  }

  /** Whether a message and the frame behind it end inside the buffer. */
  predicate Inside(sei: seq<byte>, frame: seq<byte>) {
    |sei| + |frame| <= BUFFER_SIZE
  }

  /** How many bytes behind the buffer the model keeps: as many as the caller's message array holds. */
  const BEHIND: nat := 128

  class FramedSource {
    const memory: array<byte>  // the frame buffer, and what lies behind it
    var frameSize: nat

    // kept by the library the class derives from
    var awaiting: bool
    var fTo: array<byte>
    var fMaxSize: nat
    var fFrameSize: nat
    var fNumTruncatedBytes: nat

    ghost var events: seq<Event>  // what has happened so far

    /** As long as no write has gone beyond the buffer, the content is what the run says. */
    ghost predicate Valid()
      reads this, memory
    {
      && Shape()
      && (AllInside(events) ==> Content() == ContentAfter(events) && frameSize <= BUFFER_SIZE)
    }

    predicate Shape()
      reads this
    {
      && memory.Length == BUFFER_SIZE + BEHIND && frameSize <= memory.Length && memory != fTo
      && (awaiting ==> fMaxSize <= fTo.Length && fNumTruncatedBytes == 0)
    }

    function Content(): seq<byte>
      requires Shape()
      reads this, memory
    {
      memory[..frameSize]
    }

    constructor ()
      ensures Valid() && !awaiting && events == [] && fresh(memory)
    {
      memory := new byte[BUFFER_SIZE + BEHIND];
      frameSize := 0;
      awaiting := false;
      events := [];
      fTo := new byte[0];
      fMaxSize, fFrameSize, fNumTruncatedBytes := 0, 0, 0;
    }

    /** writeFrameToBuf; `free` says whether the lock could be had. What lies behind the buffer stays if and only if
        the message and the frame end inside it. */
    method WriteFrameToBuf(frame: seq<byte>, sei: seq<byte>, references: nat, free: bool) returns (ret: int)
      requires Valid() && |sei| <= BEHIND
      modifies this`frameSize, this`events, memory
      ensures Valid() && events == old(events) + [Write(frame, sei, references, free)]
      ensures ret == if |frame| <= 204800 && references > 0 && free then 0 else -1
      ensures ret == -1 ==> memory[..] == old(memory[..]) && frameSize == old(frameSize)
      ensures ret == 0 ==> Content() == sei + frame && memory[frameSize..] == old(memory[..])[frameSize..]
      ensures ret == 0 && Inside(sei, frame) ==> memory[BUFFER_SIZE..] == old(memory[..])[BUFFER_SIZE..]
      ensures ret == 0 && !Inside(sei, frame) ==> memory[BUFFER_SIZE..frameSize] == (sei + frame)[BUFFER_SIZE..]
    {
      events := events + [Write(frame, sei, references, free)];
      AllInsideSnoc(old(events), Write(frame, sei, references, free));
      if |frame| > BUFFER_SIZE {
        return -1;
      }
      if references == 0 {
        return -1;
      }
      if !free {
        return -1;
      }
      ghost var before := memory[..];
      Copy(0, sei);
      ghost var between := memory[..];
      Copy(|sei|, frame);
      frameSize := |frame| + |sei|;
      assert between[..|sei|] == sei && between[frameSize..] == before[frameSize..];
      assert memory[..] == sei + frame + before[frameSize..];
      Overwritten(before, sei + frame, memory[..]);
      return 0;
    }

    /** memmove of `data` to offset `o`. */
    method Copy(o: nat, data: seq<byte>)
      requires o + |data| <= memory.Length
      modifies memory
      ensures memory[..] == old(memory[..])[..o] + data + old(memory[..])[o + |data|..]
    {
      forall i | 0 <= i < |data| {
        memory[o + i] := data[i];
      }
    }

    /** The server asks for the next frame. */
    method GetNextFrame(to: array<byte>, max: nat)
      requires Valid() && !awaiting && max <= to.Length && to != memory
      modifies this`awaiting, this`fTo, this`fMaxSize, this`fNumTruncatedBytes
      ensures Valid() && awaiting && fTo == to && fMaxSize == max
      ensures events == old(events) && Content() == old(Content())
    {
      awaiting, fTo, fMaxSize, fNumTruncatedBytes := true, to, max, 0;
    }

    /** memmove of `n` bytes behind the start code to the server's buffer. */
    method CopyOut(n: nat)
      requires memory != fTo && n <= fTo.Length && (n > 0 ==> 4 + n <= memory.Length)
      modifies fTo
      ensures n > 0 ==> fTo[..n] == memory[4..4 + n]
      ensures fTo[n..] == old(fTo[..])[n..]
    {
      forall i | 0 <= i < n {
        fTo[i] := memory[4 + i];
      }
    }

    /** deliverFrame, with the hand-over to the server that ends the request. */
    method DeliverFrame(free: bool)
      requires Valid()
      modifies this`awaiting, this`fFrameSize, this`fNumTruncatedBytes, this`events, fTo
      ensures Valid() && !awaiting && Content() == old(Content())
      ensures events == old(events) + if old(awaiting) then [Deliver(fMaxSize, free)] else []
      ensures !old(awaiting) ==>
                && fFrameSize == old(fFrameSize) && fNumTruncatedBytes == old(fNumTruncatedBytes)
                && fTo[..] == old(fTo[..])
      ensures old(awaiting) ==>
                && fFrameSize <= fMaxSize
                && Delivery(fTo[..fFrameSize], fNumTruncatedBytes) == Answer(Content(), fMaxSize, free)
                && fTo[fFrameSize..] == old(fTo[..])[fFrameSize..]
    {
      if !awaiting {
        return;
      }
      events := events + [Deliver(fMaxSize, free)];
      AllInsideSnoc(old(events), Deliver(fMaxSize, free));
      if free {
        var newFrameSize := if frameSize > 4 then frameSize - 4 else 0;
        if newFrameSize > fMaxSize {
          fFrameSize := fMaxSize;
          fNumTruncatedBytes := newFrameSize - fMaxSize;
        } else {
          fFrameSize := newFrameSize;
        }
        CopyOut(fFrameSize);
        AnswerIs(memory[..], frameSize, fMaxSize, fFrameSize);
        assert memory[..][..frameSize] == memory[..frameSize];
        assert fFrameSize > 0 ==> fTo[..fFrameSize] == memory[..][4..4 + fFrameSize];
        assert fFrameSize == 0 ==> fTo[..fFrameSize] == [];
      } else {
        fFrameSize := 0;
        fNumTruncatedBytes := 0;
      }
      awaiting := false;
    }
  }

  /** How much there is behind the first start code. */
  function SizeBehind(size: nat): nat {
    if size > 4 then size - 4 else 0
  }

  /** The answer from a content of `size` bytes at the front of memory, when `n` bytes of it are copied out. */
  lemma AnswerIs(mem: seq<byte>, size: nat, max: nat, n: nat)
    requires size <= |mem|
    requires n == if SizeBehind(size) > max then max else SizeBehind(size)
    ensures Answer(mem[..size], max, true)
         == Delivery(if n == 0 then [] else mem[4..4 + n], SizeBehind(size) - n)
  {
    var whole := Deliverable(mem[..size]);
    if n > 0 {
      assert whole == mem[4..size];
      assert whole[..n] == mem[4..4 + n];
    }
  }

  /** Memory whose front has been overwritten by `c`. */
  lemma Overwritten(before: seq<byte>, c: seq<byte>, after: seq<byte>)
    requires |c| <= |before| && BUFFER_SIZE <= |before| && after == c + before[|c|..]
    ensures after[..|c|] == c && after[|c|..] == before[|c|..]
    ensures |c| <= BUFFER_SIZE ==> after[BUFFER_SIZE..] == before[BUFFER_SIZE..]
    ensures |c| > BUFFER_SIZE ==> after[BUFFER_SIZE..|c|] == c[BUFFER_SIZE..]
  {
  }

  // ----- runs

  /** What happens to the buffer, in any order: writes by the receiver, deliveries to a server that asked for at most
      `max` bytes. `free` tells whether the lock could be had at that moment. */
  datatype Event =
    | Write(frame: seq<byte>, sei: seq<byte>, references: nat, free: bool)
    | Deliver(max: nat, free: bool)

  predicate Taken(e: Event) {
    e.Write? && Accepts(|e.frame|, e.references, e.free)
  }

  /** No write of the run went beyond the buffer. */
  ghost predicate AllInside(run: seq<Event>) {
    forall k :: 0 <= k < |run| && Taken(run[k]) ==> Inside(run[k].sei, run[k].frame)
  }

  lemma AllInsideSnoc(run: seq<Event>, e: Event)
    ensures AllInside(run + [e]) <==> AllInside(run) && (Taken(e) ==> Inside(e.sei, e.frame))
  {
    if AllInside(run + [e]) {
      forall k | 0 <= k < |run| && Taken(run[k]) ensures Inside(run[k].sei, run[k].frame) {
        assert (run + [e])[k] == run[k];
      }
      assert (run + [e])[|run|] == e;
    }
  }

  /** The contents of the buffer after a run. */
  function ContentAfter(run: seq<Event>): seq<byte> {
    if run == [] then []
    else
      var e := run[|run| - 1];
      if Taken(e) then e.sei + e.frame else ContentAfter(run[..|run| - 1])
  }

  /** The last write taken before event `i`. */
  predicate LastTaken(run: seq<Event>, i: nat, w: nat)
    requires i <= |run|
  {
    w < i && Taken(run[w]) && forall k :: w < k < i ==> !Taken(run[k])
  }

  /** While all writes stay inside the buffer, the content is that of the last one taken, and there is none only if
      nothing was taken. */
  lemma {:induction false} ContentIsLastTaken(run: seq<Event>, i: nat)
    requires i <= |run| && AllInside(run[..i])
    ensures |ContentAfter(run[..i])| <= BUFFER_SIZE
    ensures forall w: nat :: LastTaken(run, i, w) ==> ContentAfter(run[..i]) == run[w].sei + run[w].frame
    ensures || (exists w: nat :: LastTaken(run, i, w))
            || (ContentAfter(run[..i]) == [] && forall k :: 0 <= k < i ==> !Taken(run[k]))
  {
    if i > 0 {
      assert run[..i] == run[..i - 1] + [run[i - 1]];
      AllInsideSnoc(run[..i - 1], run[i - 1]);
      ContentIsLastTaken(run, i - 1);
      assert run[..i][..i - 1] == run[..i - 1] && run[..i][i - 1] == run[i - 1];
      if Taken(run[i - 1]) {
        assert LastTaken(run, i, i - 1);
      } else {
        forall w: nat | w < i ensures LastTaken(run, i, w) <==> LastTaken(run, i - 1, w) {
        }
        var before := i - 1;
        if w: nat :| LastTaken(run, before, w) {
          assert LastTaken(run, i, w);
        }
      }
    }
  }

  /** Each delivery is the front of what one taken write put behind its start code, the newest one at that time, up to
      the size asked for, and what it leaves out is counted. Without a free lock, or before the first write, it is
      empty. */
  lemma EachDeliveryIsOneWrite(run: seq<Event>, i: nat)
    requires i < |run| && run[i].Deliver? && AllInside(run[..i])
    ensures var a, max := Answer(ContentAfter(run[..i]), run[i].max, run[i].free), run[i].max;
            && (!run[i].free ==> a == Delivery([], 0))
            && ((forall w: nat :: !LastTaken(run, i, w)) ==> a == Delivery([], 0))
            && (forall w: nat :: run[i].free && LastTaken(run, i, w) ==>
                  var whole := run[w].sei + run[w].frame;
                  if |whole| <= 4 then a == Delivery([], 0)
                  else if |whole| <= 4 + max then a == Delivery(whole[4..], 0)
                  else a == Delivery(whole[4..4 + max], |whole| - 4 - max))
  {
    ContentIsLastTaken(run, i);
    var c, max := ContentAfter(run[..i]), run[i].max;
    if |c| > 4 + max {
      assert c[4..][..max] == c[4..4 + max];
    }
  }

  /** Deliveries never go back to an older write. */
  lemma DeliveriesInOrder(run: seq<Event>, i: nat, j: nat, w: nat, v: nat)
    requires i <= j <= |run| && LastTaken(run, i, w) && LastTaken(run, j, v)
    ensures w <= v
  {
  }

  /** A delivery with nothing left out, behind a start code, holds the SEI NAL unit and the NAL units of the frame. */
  lemma DeliveryDecodes(p: seq<byte>, frame: seq<byte>, max: nat)
    requires StartsNal(frame)
    ensures var a := Answer(Message(p) + frame, max, true);
            a.truncated == 0 ==> CarriesMessage(Split([0, 0, 0, 1] + a.bytes), p, frame)
  {
    hide Split, Message, Unescape;
    MessageStarts(p);
    StreamDecodes(p, frame);
    var c := Message(p) + frame;
    assert c[..START_CODE_SIZE] == Message(p)[..START_CODE_SIZE];
    assert c == [0, 0, 0, 1] + c[START_CODE_SIZE..];
  }

  // ----- which writes stay inside the buffer

  const SEI_MIN: nat := 47

  /** A frame and the message for a sample stay inside exactly if there is room for the bytes put in as well. */
  lemma MessageInsideIff(g: GpsWords, frame: seq<byte>)
    ensures Inside(Message(Payload(g)), frame) <==> |frame| + SEI_MIN + ZeroPairs(Payload(g)) <= BUFFER_SIZE
    ensures SEI_MIN <= |Message(Payload(g))| <= SEI_MAX
  {
    EscapedLength(Payload(g));
  }

  /** Every message fits before frames of this size if and only if they leave 59 bytes. */
  lemma EveryMessageFitsIff(frame: seq<byte>)
    ensures (forall g :: Inside(Message(Payload(g)), frame)) <==> |frame| <= BUFFER_SIZE - SEI_MAX
  {
    forall g ensures |Message(Payload(g))| <= SEI_MAX {
      EscapedLength(Payload(g));
    }
    ZeroSampleLength();
    assert Inside(Message(Payload(ZERO_SAMPLE)), frame) <==> |frame| <= BUFFER_SIZE - SEI_MAX;
  }

  /** Some message fits before frames of this size if and only if they leave 47 bytes. */
  lemma SomeMessageFitsIff(frame: seq<byte>)
    ensures (exists g :: Inside(Message(Payload(g)), frame)) <==> |frame| <= BUFFER_SIZE - SEI_MIN
  {
    forall g ensures |Message(Payload(g))| >= SEI_MIN {
      EscapedLength(Payload(g));
    }
    OnesSampleLength();
    assert Inside(Message(Payload(ONES_SAMPLE)), frame) <==> |frame| <= BUFFER_SIZE - SEI_MIN;
  }

  /** The smallest frame that can overrun the buffer: it is taken, and with the message for a sample of zeros it
      ends one byte behind. */
  lemma SmallestOverrun(frame: seq<byte>)
    requires |frame| == 204742
    ensures Accepts(|frame|, 1, true) && |Message(Payload(ZERO_SAMPLE))| + |frame| == BUFFER_SIZE + 1
    ensures !AllInside([Write(frame, Message(Payload(ZERO_SAMPLE)), 1, true)])
  {
    ZeroSampleLength();
    var e := Write(frame, Message(Payload(ZERO_SAMPLE)), 1, true);
    assert Taken([e][0]) && !Inside([e][0].sei, [e][0].frame);
  }

  const ZERO_SAMPLE: GpsWords := GpsWords(0, 0, 0, 0, 0, 0)
  const ONES_SAMPLE: GpsWords := GpsWords(ONES, ONES, ONES, ONES, ONES, ONES)
  const ONES: word := 0x0101_0101

  lemma ZeroSampleLength()
    ensures |Message(Payload(ZERO_SAMPLE))| == SEI_MAX
  {
    var p := Payload(ZERO_SAMPLE);
    assert p == Zeros(PAYLOAD_SIZE);
    assert p[PAYLOAD_SIZE..] == [];
    EscapedLength(p);
    assert LeadingZeros(p) == PAYLOAD_SIZE;
  }

  lemma OnesSampleLength()
    ensures |Message(Payload(ONES_SAMPLE))| == SEI_MIN
  {
    var p := Payload(ONES_SAMPLE);
    assert forall i :: 0 <= i < |p| ==> p[i] == 1;
    NoPairs(p);
    EscapedLength(p);
  }

  lemma {:induction false} NoPairs(p: seq<byte>)
    requires forall i :: 0 <= i < |p| ==> p[i] != 0
    ensures ZeroPairs(p) == 0
  {
    if p != [] {
      NoPairs(p[1..]);
    }
  }
}
