/** The choice of the video size nearest to the one asked for. */
module Resolution {
  import opened Options

  datatype Size = Size(width: int, height: int)

  const RESOLUTIONS: seq<Size> := [
    Size(4000, 3000), Size(4096, 2304), Size(4096, 2160), Size(4096, 2048), Size(3840, 2160), Size(3840, 1920),
    Size(3000, 3000), Size(2704, 2028), Size(2704, 1520), Size(2560, 1920), Size(1920, 1440), Size(1920, 1080),
    Size(1920, 960), Size(1504, 1504), Size(1440, 1080), Size(1440, 720), Size(1280, 960), Size(1280, 720),
    Size(960, 480), Size(800, 600), Size(864, 480), Size(848, 480), Size(720, 480), Size(640, 480),
    Size(640, 360), Size(432, 240), Size(320, 240), Size(720, 576), Size(1024, 768), Size(1280, 768),
    Size(1280, 1024), Size(5472, 3648)
  ]

  const DEFAULT_INDEX: nat := 11        // 1920 x 1080
  const FIRST_CHANNEL: int := 12        // USER_0_SIZE
  const LAST_CHANNEL: int := 16         // H264_1_SIZE
  const INT_MAX: int := 0x7FFF_FFFF

  function Abs(x: int): nat {
    if x < 0 then -x else x
  }

  function Distance(a: Size, b: Size): nat {
    Abs(a.width - b.width) + Abs(a.height - b.height)
  }

  /** `k` is the first of the sizes nearest to `s`. */
  predicate FirstNearest(sizes: seq<Size>, s: Size, k: nat) {
    && k < |sizes|
    && (forall i :: 0 <= i < |sizes| ==> Distance(sizes[k], s) <= Distance(sizes[i], s))
    && (forall i :: 0 <= i < k ==> Distance(sizes[k], s) < Distance(sizes[i], s))
  }

  /** Not nearer than the empty picture. */
  predicate NoneBelow(sizes: seq<Size>, s: Size, bound: int) {
    forall i :: 0 <= i < |sizes| ==> Distance(sizes[i], s) >= bound
  }

  /** What set_resolution is to choose. */
  predicate Chosen(sizes: seq<Size>, s: Size, k: nat) {
    if NoneBelow(sizes, s, s.width + s.height) then k == DEFAULT_INDEX else FirstNearest(sizes, s, k)
  }

  /** Where the search stands once it has looked at `sizes`. */
  predicate SearchedTo(sizes: seq<Size>, s: Size, dim: int, index: nat) {
    && NoneBelow(sizes, s, dim)
    && if dim == s.width + s.height then index == DEFAULT_INDEX
       else dim < s.width + s.height && FirstNearest(sizes, s, index) && dim == Distance(sizes[index], s)
  }

  /** set_resolution: the index of the size sent for the channel, if any; without one it returns -1. */
  method SetResolution(channel: int, width: int, height: int) returns (sent: Option<nat>)
    requires 0 <= width && 0 <= height && width + height <= INT_MAX
    ensures sent.Some? <==> FIRST_CHANNEL <= channel <= LAST_CHANNEL
    ensures sent.Some? ==> sent.value < |RESOLUTIONS| && Chosen(RESOLUTIONS, Size(width, height), sent.value)
  {
    hide RESOLUTIONS, SearchedTo, Chosen, Abs;
    DefaultInTable();
    TableLarge();
    if channel < FIRST_CHANNEL || channel > LAST_CHANNEL {
      return None;
    }
    ghost var s := Size(width, height);
    var dim := width + height;
    var resultIndex: nat := DEFAULT_INDEX;
    var i := 0;
    StartSearch(s);
    while i < |RESOLUTIONS|
      invariant 0 <= i <= |RESOLUTIONS| && resultIndex < |RESOLUTIONS|
      invariant forall k :: 0 <= k < i ==> RESOLUTIONS[k] != s
      invariant SearchedTo(RESOLUTIONS[..i], s, dim, resultIndex)
    {
      if RESOLUTIONS[i].width == width && RESOLUTIONS[i].height == height {
        resultIndex := i;
        FoundExactly(RESOLUTIONS, s, i);
        break;
      }
      SearchOn(RESOLUTIONS[..i], RESOLUTIONS[i], s, dim, resultIndex);
      assert RESOLUTIONS[..i] + [RESOLUTIONS[i]] == RESOLUTIONS[..i + 1];
      if dim > Abs(RESOLUTIONS[i].width - width) + Abs(RESOLUTIONS[i].height - height) {
        dim := Abs(RESOLUTIONS[i].width - width) + Abs(RESOLUTIONS[i].height - height);
        resultIndex := i;
      }
      i := i + 1;
    }
    if i == |RESOLUTIONS| {
      assert RESOLUTIONS[..i] == RESOLUTIONS;
      SearchEnds(RESOLUTIONS, s, dim, resultIndex);
    }
    sent := Some(resultIndex);
  }

  lemma DefaultInTable()
    ensures DEFAULT_INDEX < |RESOLUTIONS| && RESOLUTIONS[DEFAULT_INDEX] == Size(1920, 1080)
  {
  }

  lemma StartSearch(s: Size)
    ensures SearchedTo(RESOLUTIONS[..0], s, s.width + s.height, DEFAULT_INDEX)
  {
  }

  lemma SearchOn(sizes: seq<Size>, a: Size, s: Size, dim: int, index: nat)
    requires SearchedTo(sizes, s, dim, index)
    ensures var d := Distance(a, s);
            if dim > d then SearchedTo(sizes + [a], s, d, |sizes|) else SearchedTo(sizes + [a], s, dim, index)
  {
  }

  lemma FoundExactly(sizes: seq<Size>, s: Size, i: nat)
    requires 0 < s.width && 0 < s.height
    requires i < |sizes| && sizes[i] == s && forall j :: 0 <= j < i ==> sizes[j] != s
    ensures Chosen(sizes, s, i)
  {
    assert Distance(sizes[i], s) == 0;
  }

  lemma SearchEnds(sizes: seq<Size>, s: Size, dim: int, index: nat)
    requires SearchedTo(sizes, s, dim, index)
    ensures Chosen(sizes, s, index)
  {
  }

  // ----- what that means

  /** There is only one choice. */
  lemma ChosenUnique(sizes: seq<Size>, s: Size, k: nat, l: nat)
    requires Chosen(sizes, s, k) && Chosen(sizes, s, l)
    ensures k == l
  {
  }

  function Min(a: int, b: int): int {
    if a < b then a else b
  }

  /** A size comes into question if and only if it shares more than half of its width and height with the one asked
      for. */
  predicate Overlaps(a: Size, s: Size) {
    2 * (Min(a.width, s.width) + Min(a.height, s.height)) > a.width + a.height
  }

  predicate NoneOverlaps(sizes: seq<Size>, s: Size) {
    forall i :: 0 <= i < |sizes| ==> !Overlaps(sizes[i], s)
  }

  /** The index is the default if and only if no size comes into question or the default is the first nearest; any
      other index is chosen if and only if it is the first nearest and some size comes into question. */
  lemma DefaultIff(sizes: seq<Size>, s: Size, k: nat)
    requires Chosen(sizes, s, k)
    ensures k == DEFAULT_INDEX <==> NoneOverlaps(sizes, s) || FirstNearest(sizes, s, DEFAULT_INDEX)
    ensures forall l: nat :: l != DEFAULT_INDEX ==>
                               (k == l <==> !NoneOverlaps(sizes, s) && FirstNearest(sizes, s, l))
  {
    OverlapIff(sizes, s);
    forall l: nat | FirstNearest(sizes, s, l) && FirstNearest(sizes, s, k) ensures l == k {
    }
  }

  lemma OverlapIff(sizes: seq<Size>, s: Size)
    ensures NoneOverlaps(sizes, s) <==> NoneBelow(sizes, s, s.width + s.height)
  {
    forall a
      ensures Distance(a, s)
           == a.width + a.height + s.width + s.height - 2 * (Min(a.width, s.width) + Min(a.height, s.height))
    {
    }
  }

  /** A size of the table is always chosen itself. */
  lemma EntryChosen(s: Size, k: nat)
    requires s in RESOLUTIONS && Chosen(RESOLUTIONS, s, k)
    ensures k < |RESOLUTIONS| && RESOLUTIONS[k] == s
  {
    hide RESOLUTIONS;
    TableLarge();
    assert Distance(s, s) == 0;
  }

  /** A small picture gets the default size, although others are nearer. */
  lemma SmallGetsDefault()
    ensures var s := Size(160, 120);
            && Chosen(RESOLUTIONS, s, DEFAULT_INDEX)
            && Distance(RESOLUTIONS[26], s) < Distance(RESOLUTIONS[DEFAULT_INDEX], s)
  {
    hide Chosen, NoneBelow;
    var s := Size(160, 120);
    TableLarge();
    NoneBelowSmall(RESOLUTIONS, s);
    ChosenDefault(RESOLUTIONS, s);
    assert RESOLUTIONS[26] == Size(320, 240) && RESOLUTIONS[DEFAULT_INDEX] == Size(1920, 1080);
  }

  lemma TableLarge()
    ensures forall i :: 0 <= i < |RESOLUTIONS| ==> RESOLUTIONS[i].width >= 320 && RESOLUTIONS[i].height >= 240
  {
  }

  lemma NoneBelowSmall(sizes: seq<Size>, s: Size)
    requires forall i :: 0 <= i < |sizes| ==> sizes[i].width >= 2 * s.width >= 0 && sizes[i].height >= 2 * s.height >= 0
    ensures NoneBelow(sizes, s, s.width + s.height)
  {
  }

  lemma ChosenDefault(sizes: seq<Size>, s: Size)
    requires NoneBelow(sizes, s, s.width + s.height)
    ensures Chosen(sizes, s, DEFAULT_INDEX)
  {
  }
}
