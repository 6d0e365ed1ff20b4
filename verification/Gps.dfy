/** The GPS samples kept for the frames: a ring of the newest ones, and the lookup of the sample for a frame's time. */
module Gps {
  import opened Options

  datatype Sample = Sample(
    latitude: int, longitude: int, altitude: int,
    roll: real, pitch: real, yaw: real,
    timeStamp: nat)

  const GPS_BUF_LENGTH: nat := 64
  const SILENCE_MAX: nat := 2000  // milliseconds

  /** A sample with every field but the time set to 0xffffffff, converted to the field's type. */
  function Cleared(s: Sample): Sample {
    Sample(-1, -1, -1, 4294967296.0, 4294967296.0, 4294967296.0, s.timeStamp)
  }

  /** The receiver has been silent too long. */
  predicate Silent(now: nat, received: nat) {
    now > received && now - received > SILENCE_MAX
  }

  // ----- the ring

  /** What a ring of that capacity holds after it was given all of `h`. */
  function Retained(h: seq<Sample>): (b: seq<Sample>)
    ensures |b| <= GPS_BUF_LENGTH && (b == [] <==> h == [])
  {
    if |h| <= GPS_BUF_LENGTH then h else h[|h| - GPS_BUF_LENGTH..]
  }

  function PushBack(b: seq<Sample>, s: Sample): seq<Sample> {
    if |b| < GPS_BUF_LENGTH then b + [s] else b[1..] + [s]
  }

  lemma PushRetains(h: seq<Sample>, s: Sample)
    ensures PushBack(Retained(h), s) == Retained(h + [s])
  {
  }

  // ----- the lookup

  /** How the search from entry `i` on ends: at which entry, and whether because there is no other. */
  datatype Hit = Hit(index: nat, ranOut: bool)

  function Find(b: seq<Sample>, t: nat, i: nat): (r: Hit)
    requires i < |b|
    ensures r.index < |b|
    decreases |b| - i
  {
    if t < b[i].timeStamp && i != 0 then Hit(i - 1, false)
    else if t == b[i].timeStamp then Hit(i, false)
    else if i == |b| - 1 then Hit(i, true)
    else Find(b, t, i + 1)
  }

  /** What a frame of time `t` gets at time `now`, when the last sample came in at `received`. */
  function Lookup(b: seq<Sample>, t: nat, now: nat, received: nat): Option<Sample> {
    if b == [] then None
    else if t == 0 then Some(b[|b| - 1])
    else
      var hit := Find(b, t, 0);
      Some(if hit.ranOut && Silent(now, received) then Cleared(b[hit.index]) else b[hit.index])
  }

  class GpsEstone {
    var buffer: seq<Sample>
    var received: nat
    ghost var history: seq<Sample>

    ghost predicate Valid()
      reads this
    {
      buffer == Retained(history)
    }

    constructor ()
      ensures Valid() && history == []
    {
      buffer, history := [], [];
    }

    /** The end of handleData, for a sample that could be read from the message. */
    method HandleData(s: Sample, now: nat)
      requires Valid()
      modifies this
      ensures Valid() && history == old(history) + [s] && received == now
    {
      received := now;
      PushRetains(history, s);
      history := history + [s];
      if |buffer| == GPS_BUF_LENGTH {
        buffer := buffer[1..];
      }
      buffer := buffer + [s];
    }

    /** getGPSData; nothing is found exactly when it returns -1. */
    method GetGpsData(timeStamp: nat, now: nat) returns (ret: int, data: Option<Sample>)
      ensures data == Lookup(buffer, timeStamp, now, received)
      ensures ret == if buffer == [] then -1 else 0
    {
      if buffer == [] {
        return -1, None;
      }
      ret := 0;
      if timeStamp == 0 {
        data := Some(buffer[|buffer| - 1]);
        return;
      }
      data := None;
      var it := 0;
      while it < |buffer|
        invariant it < |buffer| && Find(buffer, timeStamp, it) == Find(buffer, timeStamp, 0)
      {
        if timeStamp < buffer[it].timeStamp && it != 0 {
          data := Some(buffer[it - 1]);
          break;
        } else if timeStamp == buffer[it].timeStamp {
          data := Some(buffer[it]);
          break;
        } else if it == |buffer| - 1 {
          data := Some(buffer[it]);
          if now > received {
            if now - received > 2 * 1000 {
              data := Some(Cleared(buffer[it]));
            }
          }
          break;
        }
        it := it + 1;
      }
    }
  }

  // ----- agreement with the whole history

  /** Samples come in with times that do not go back. */
  predicate InOrder(h: seq<Sample>) {
    forall i, j :: 0 <= i <= j < |h| ==> h[i].timeStamp <= h[j].timeStamp
  }

  /** `c` is the entry with the greatest time up to `t`. */
  predicate Nearest(h: seq<Sample>, t: nat, c: nat) {
    && c < |h| && h[c].timeStamp <= t
    && forall k :: 0 <= k < |h| && h[k].timeStamp <= t ==> h[k].timeStamp <= h[c].timeStamp
  }

  lemma {:induction false} FindNearest(b: seq<Sample>, t: nat, i: nat)
    requires InOrder(b) && i < |b|
    requires (i == 1 && b[0].timeStamp != t) || forall k :: 0 <= k < i ==> b[k].timeStamp < t
    ensures var hit := Find(b, t, i);
            && (b[0].timeStamp <= t ==> Nearest(b, t, hit.index))
            && (b[0].timeStamp > t ==> hit.index == 0)
            && (hit.ranOut <==> if |b| == 1 then b[0].timeStamp != t else b[|b| - 1].timeStamp < t)
            && (hit.ranOut ==> hit.index == |b| - 1)
    decreases |b| - i
  {
    if i < |b| - 1 && !(t < b[i].timeStamp && i != 0) && t != b[i].timeStamp {
      FindNearest(b, t, i + 1);
    }
  }

  /** The fields are overwritten only if the search ran out and nothing has come in for two seconds. */
  predicate Overwrites(h: seq<Sample>, t: nat, now: nat, received: nat)
    requires h != []
  {
    && (if |h| == 1 then h[0].timeStamp != t else h[|h| - 1].timeStamp < t)
    && now > received + 2000
  }

  /** The three integers are -1 and the three angles 2^32, which is what 0xffffffff is in either type. */
  predicate Overwritten(s: Sample) {
    && s.latitude == -1 && s.longitude == -1 && s.altitude == -1
    && s.roll == 4294967296.0 && s.pitch == 4294967296.0 && s.yaw == 4294967296.0
  }

  /** The sample meant for time `t`: for a time not before the oldest sample retained, one with the greatest time up
      to that time of all samples ever accepted; for an earlier one, the oldest retained. */
  predicate Meant(h: seq<Sample>, t: nat, c: nat) {
    var oldest := |h| - |Retained(h)|;
    oldest <= c < |h| && if h[oldest].timeStamp <= t then Nearest(h, t, c) else c == oldest
  }

  /** `r` is the sample that came in as the `c`-th, as it came in, or with all fields but the time overwritten. */
  predicate GivenAs(h: seq<Sample>, c: nat, overwritten: bool, r: Option<Sample>) {
    && c < |h| && r.Some? && r.value.timeStamp == h[c].timeStamp
    && if overwritten then c == |h| - 1 && Overwritten(r.value) else r.value == h[c]
  }

  /** The lookup in the ring agrees with the whole history. The sample is given as it came in, but for its fields when
      they are overwritten, which happens to the newest sample alone. */
  lemma LookupAgrees(h: seq<Sample>, t: nat, now: nat, received: nat)
    requires InOrder(h) && h != [] && t > 0
    ensures exists c: nat ::
              Meant(h, t, c) && GivenAs(h, c, Overwrites(h, t, now, received), Lookup(Retained(h), t, now, received))
  {
    hide *;
    FoundIsMeant(h, t);
    SampleFound(h, t, now, received);
    var c := |h| - |Retained(h)| + Find(Retained(h), t, 0).index;
    assert Meant(h, t, c);
  }

  lemma SampleFound(h: seq<Sample>, t: nat, now: nat, received: nat)
    requires InOrder(h) && h != [] && t > 0
    ensures var c := |h| - |Retained(h)| + Find(Retained(h), t, 0).index;
            0 <= c && GivenAs(h, c, Overwrites(h, t, now, received), Lookup(Retained(h), t, now, received))
  {
    hide InOrder, Find, Retained, Nearest;
    var o := |h| - |Retained(h)|;
    RetainedTail(h);
    TailInOrder(h, o);
    FindNearest(h[o..], t, 0);
    assert h[o..][Find(h[o..], t, 0).index] == h[o + Find(h[o..], t, 0).index];
  }

  lemma RetainedTail(h: seq<Sample>)
    ensures |Retained(h)| <= |h| && Retained(h) == h[|h| - |Retained(h)|..]
    ensures |h| > 1 ==> |Retained(h)| > 1
  {
  }

  lemma FoundIsMeant(h: seq<Sample>, t: nat)
    requires InOrder(h) && h != []
    ensures Meant(h, t, |h| - |Retained(h)| + Find(Retained(h), t, 0).index)
  {
    hide Find, Nearest, InOrder, Retained;
    var o := |h| - |Retained(h)|;
    RetainedTail(h);
    TailInOrder(h, o);
    FindNearest(h[o..], t, 0);
    if h[o].timeStamp <= t {
      NearestInTail(h, o, t, Find(h[o..], t, 0).index);
    }
  }

  lemma TailInOrder(h: seq<Sample>, o: nat)
    requires InOrder(h) && o <= |h|
    ensures InOrder(h[o..])
  {
  }

  /** Samples that are gone are no nearer than the oldest one left. */
  lemma NearestInTail(h: seq<Sample>, o: nat, t: nat, i: nat)
    requires InOrder(h) && o < |h| && h[o].timeStamp <= t && Nearest(h[o..], t, i)
    ensures Nearest(h, t, o + i)
  {
    forall k | 0 <= k < |h| && h[k].timeStamp <= t ensures h[k].timeStamp <= h[o + i].timeStamp {
      if k >= o {
        assert h[o..][k - o] == h[k];
      }
    }
  }

  /** Time 0 stands for the newest sample, which is never overwritten; and only an empty history has nothing. */
  lemma LookupNewest(h: seq<Sample>, now: nat, received: nat)
    ensures Lookup(Retained(h), 0, now, received) == if h == [] then None else Some(h[|h| - 1])
    ensures forall t: nat :: Lookup(Retained(h), t, now, received) == None <==> h == []
  {
  }

  /** Any time of a retained sample is answered with a sample of exactly that time, whole. */
  lemma ExactTimeFound(h: seq<Sample>, k: nat, now: nat, received: nat)
    requires InOrder(h) && |h| - |Retained(h)| <= k < |h| && h[k].timeStamp > 0
    ensures var r := Lookup(Retained(h), h[k].timeStamp, now, received);
            r.Some? && r.value in h && r.value.timeStamp == h[k].timeStamp
  {
    LookupAgrees(h, h[k].timeStamp, now, received);
  }

  /** The handling of samples, one after the other, keeps the ring at the newest 64. */
  function RingAfter(h: seq<Sample>): seq<Sample> {
    if h == [] then [] else PushBack(RingAfter(h[..|h| - 1]), h[|h| - 1])
  }

  lemma {:induction false} RingIsRetained(h: seq<Sample>)
    ensures RingAfter(h) == Retained(h)
    ensures RingAfter(h) == if |h| <= 64 then h else h[|h| - 64..]
  {
    if h != [] {
      RingIsRetained(h[..|h| - 1]);
      PushRetains(h[..|h| - 1], h[|h| - 1]);
      assert h[..|h| - 1] + [h[|h| - 1]] == h;
    }
  }
}
