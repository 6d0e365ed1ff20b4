/** From the GPS lookup to the message: the sample found, as its fields lie in memory, is what a reader of the message
    gets, and what a silent receiver leaves in it. */
module GpsMessage {
  import opened Options
  import opened Bytes
  import opened Gps
  import opened Sei
  import opened SeiConformance

  // ----- IEEE 754 binary32

  function Pow2(e: int): (p: real)
    ensures p > 0.0
    decreases if e < 0 then -e else e
  {
    if e == 0 then 1.0 else if e > 0 then 2.0 * Pow2(e - 1) else Pow2(e + 1) / 2.0
  }

  const SIGN: int := 0x8000_0000
  const FRACTION: int := 0x80_0000

  /** The number with that many units of 2^e. */
  function Units(n: nat, e: int): (x: real) {
    n as real * Pow2(e)
  }

  /** The number that a 32-bit word stands for, if it is one. */
  function FloatValue(w: word): Option<real> {
    var exponent, fraction := w / FRACTION % 0x100, w % FRACTION;
    if exponent == 0xFF then None
    else
      var size := if exponent == 0 then Units(fraction, -149) else Units(FRACTION + fraction, exponent - 150);
      Some(if w >= SIGN then -size else size)
  }

  /** A 32-bit two's complement integer. */
  predicate IntStands(x: int, w: word) {
    -SIGN <= x < SIGN && x == if w >= SIGN then w - 0x1_0000_0000 else w
  }

  predicate FloatStands(x: real, w: word) {
    FloatValue(w) == Some(x)
  }

  /** The sample as its fields lie in memory. */
  predicate InMemory(s: Gps.Sample, g: GpsWords) {
    && IntStands(s.longitude, g.longitude) && IntStands(s.latitude, g.latitude) && IntStands(s.altitude, g.altitude)
    && FloatStands(s.pitch, g.pitch) && FloatStands(s.yaw, g.yaw) && FloatStands(s.roll, g.roll)
  }

  // ----- powers of two

  lemma Pow2Step(e: int)
    ensures Pow2(e + 1) == 2.0 * Pow2(e)
  {
  }

  lemma {:induction false} Pow2Grows(d: int, e: int)
    requires d <= e
    ensures Pow2(d) <= Pow2(e)
    decreases e - d
  {
    hide Pow2;
    if d < e {
      Pow2Grows(d, e - 1);
      Pow2Step(e - 1);
    }
  }

  lemma Pow2Values()
    ensures Pow2(0) == 1.0 && Pow2(9) == 512.0
  {
    assert Pow2(3) == 8.0;
    assert Pow2(6) == 64.0;
  }

  lemma Product(n: nat, a: real, b: real)
    requires a <= b
    ensures n as real * a <= n as real * b
  {
  }

  /** Which mantissa and exponent give 2^32. */
  lemma UnitsOf(n: nat, e: int)
    requires n < 2 * FRACTION && (n >= FRACTION || e < 9)
    ensures Units(n, e) >= 0.0
    ensures Units(n, e) == 4294967296.0 <==> n == FRACTION && e == 9
  {
    hide Pow2;
    Pow2Values();
    Pow2Step(8);
    Pow2Step(9);
    Product(n, 0.0, Pow2(e));
    if e <= 8 {
      Pow2Grows(e, 8);
      Product(n, Pow2(e), 256.0);
      assert n as real * 256.0 < 4294967296.0;
    } else if e >= 10 {
      Pow2Grows(10, e);
      Product(n, 1024.0, Pow2(e));
    } else {
      Product(n, Pow2(e), 512.0);
      Product(n, 512.0, Pow2(e));
    }
  }

  /** 2^32 stands in memory as 4F 80 00 00, least significant byte first, and in no other way. */
  lemma OnlyWord(w: word)
    ensures FloatValue(w) == Some(4294967296.0) <==> w == 0x4F80_0000
  {
    hide Units;
    var exponent, fraction := w / FRACTION % 0x100, w % FRACTION;
    UnitsOf(fraction, -149);
    if exponent > 0 {
      UnitsOf(FRACTION + fraction, exponent - 150);
    }
  }

  // ----- what the reader gets

  /** A reader of the message gets the sample: two samples with the same message agree in all six fields. */
  lemma MessageTellsSample(s: Gps.Sample, g: GpsWords, r: Gps.Sample, h: GpsWords)
    requires InMemory(s, g) && InMemory(r, h) && Message(Payload(g)) == Message(Payload(h))
    ensures r == s.(timeStamp := r.timeStamp)
  {
    hide FloatValue, Payload, Message;
    SamplesDiffer(g, h);
  }

  /** The overwritten sample lies in memory in one way only. */
  lemma OverwrittenWords(s: Gps.Sample, g: GpsWords)
    requires Overwritten(s)
    ensures InMemory(s, g) <==> g == CLEARED_SAMPLE
  {
    hide FloatValue;
    OnlyWord(g.pitch);
    OnlyWord(g.yaw);
    OnlyWord(g.roll);
  }

  /** A frame that finds no sample of its time or a later one, when nothing has come in for more than two seconds,
      gets a message that does not conform: each time the sample given lies in memory as the one with FF and 4F 80 00
      00 does. */
  lemma SilentMessageFails(samples: seq<Gps.Sample>, t: nat, now: nat, received: nat, s: Gps.Sample, g: GpsWords)
    requires Gps.InOrder(samples) && samples != [] && t > 0 && Overwrites(samples, t, now, received)
    requires Lookup(Retained(samples), t, now, received) == Some(s) && InMemory(s, g)
    ensures g == CLEARED_SAMPLE
    ensures |Message(Payload(g))| >= START_CODE_SIZE && !Conforms(Message(Payload(g))[START_CODE_SIZE..])
  {
    hide Gps.InOrder, Overwrites, Lookup, Retained, InMemory, Payload, Message, Conforms, Meant;
    LookupAgrees(samples, t, now, received);
    OverwrittenWords(s, g);
    ClearedSampleFails();
  }
}
