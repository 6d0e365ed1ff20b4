/** Recording: the commands that start and stop it, the consumers a frame is handed to, and what gets into the file. */
module Recording {
  import opened Options

  type Consumer = nat

  const RECORDER: Consumer := 0
  const STREAM_VIDEO: int := 0x100

  datatype StreamConsumer = StreamConsumer(streamType: int, streamId: int, consumer: Consumer)

  datatype Frame = Frame(subCommand: int, streamId: int, sample: seq<int>)

  /** What is written to the file. */
  datatype Op = Header | Sample(frame: Frame) | Trailer

  datatype Status = RECORDING | READY

  // ----- the consumer list

  predicate Wants(c: StreamConsumer, f: Frame) {
    c.streamType == f.subCommand && c.streamId == f.streamId
  }

  /** The consumers called for a frame, in order. */
  function Called(list: seq<StreamConsumer>, f: Frame): seq<Consumer> {
    if list == [] then [] else (if Wants(list[0], f) then [list[0].consumer] else []) + Called(list[1..], f)
  }

  /** How many of the first `k` entries are for the stream type and id of the frame. */
  function MatchesBefore(list: seq<StreamConsumer>, f: Frame, k: nat): (n: nat)
    requires k <= |list|
  {
    if k == 0 then 0
    else
      MatchesBefore(list, f, k - 1) +
      if list[k - 1].streamType == f.subCommand && list[k - 1].streamId == f.streamId then 1 else 0
  }

  lemma {:induction false} MatchesTail(list: seq<StreamConsumer>, f: Frame, k: nat)
    requires k < |list|
    ensures MatchesBefore(list, f, k + 1) == MatchesBefore(list, f, 1) + MatchesBefore(list[1..], f, k)
  {
    if k > 0 {
      MatchesTail(list, f, k - 1);
    }
  }

  /** One entry's call, behind those of the entries before it. */
  lemma {:induction false} CalledAt(list: seq<StreamConsumer>, f: Frame, i: nat)
    requires i < |list|
    ensures MatchesBefore(list, f, i + 1) <= MatchesBefore(list, f, |list|) == |Called(list, f)|
    ensures list[i].streamType == f.subCommand && list[i].streamId == f.streamId ==>
              && MatchesBefore(list, f, i) < |Called(list, f)|
              && Called(list, f)[MatchesBefore(list, f, i)] == list[i].consumer
  {
    hide MatchesBefore;
    FirstMatch(list, f);
    MatchesTail(list, f, |list| - 1);
    MatchesTail(list, f, i);
    if i > 0 {
      CalledAt(list[1..], f, i - 1);
      MatchesTail(list, f, i - 1);
    } else if |list| > 1 {
      CalledAt(list[1..], f, 0);
    }
  }

  lemma FirstMatch(list: seq<StreamConsumer>, f: Frame)
    requires list != []
    ensures MatchesBefore(list, f, 0) == 0 && MatchesBefore(list[1..], f, 0) == 0
    ensures MatchesBefore(list, f, 1) == if Wants(list[0], f) then 1 else 0
  {
  }

  /** Each entry for the stream type and id of a frame, whoever's it is, gets one call, in the order of the list, and no
      other entry gets any. */
  lemma CalledExactly(list: seq<StreamConsumer>, f: Frame)
    ensures |Called(list, f)| == MatchesBefore(list, f, |list|)
    ensures forall i :: 0 <= i < |list| && list[i].streamType == f.subCommand && list[i].streamId == f.streamId ==>
              && MatchesBefore(list, f, i) < |Called(list, f)|
              && Called(list, f)[MatchesBefore(list, f, i)] == list[i].consumer
  {
    hide MatchesBefore, Called;
    if list == [] {
      NothingCalled(f);
    } else {
      CalledAt(list, f, 0);
    }
    forall i | 0 <= i < |list| && list[i].streamType == f.subCommand && list[i].streamId == f.streamId
      ensures MatchesBefore(list, f, i) < |Called(list, f)|
      ensures Called(list, f)[MatchesBefore(list, f, i)] == list[i].consumer
    {
      CalledAt(list, f, i);
    }
  }

  lemma NothingCalled(f: Frame)
    ensures Called([], f) == [] && MatchesBefore([], f, 0) == 0
  {
  }

  /** The list without the entries of a consumer. */
  function Without(list: seq<StreamConsumer>, c: Consumer): (r: seq<StreamConsumer>)
    ensures forall i :: 0 <= i < |r| ==> r[i].consumer != c
  {
    if list == [] then [] else (if list[0].consumer == c then [] else [list[0]]) + Without(list[1..], c)
  }

  /** What removeConsumer leaves: it goes on behind the entry that moves up to the place of an erased one. */
  function Skimmed(list: seq<StreamConsumer>, c: Consumer): seq<StreamConsumer> {
    if list == [] then []
    else if list[0].consumer != c then [list[0]] + Skimmed(list[1..], c)
    else if |list| == 1 then []
    else [list[1]] + Skimmed(list[2..], c)
  }

  /** No entry of the consumer stands right behind another of its own. */
  predicate Apart(list: seq<StreamConsumer>, c: Consumer) {
    forall i :: 0 < i < |list| ==> list[i - 1].consumer != c || list[i].consumer != c
  }

  lemma SkimStep(list: seq<StreamConsumer>, c: Consumer)
    requires list != []
    ensures list[0].consumer != c ==> Skimmed(list, c) == [list[0]] + Skimmed(list[1..], c)
    ensures list[0].consumer == c && |list| == 1 ==> Skimmed(list, c) == []
    ensures list[0].consumer == c && |list| > 1 ==> Skimmed(list, c) == [list[1]] + Skimmed(list[2..], c)
  {
  }

  lemma WithoutStep(list: seq<StreamConsumer>, c: Consumer)
    requires list != []
    ensures Without(list, c) == (if list[0].consumer == c then [] else [list[0]]) + Without(list[1..], c)
    ensures |list| == 1 && list[0].consumer == c ==> Without(list, c) == []
  {
  }

  /** removeConsumer removes all entries of the consumer if and only if no two of them are neighbours. */
  lemma {:induction false} RemovesAllIff(list: seq<StreamConsumer>, c: Consumer)
    ensures Skimmed(list, c) == Without(list, c) <==> Apart(list, c)
    decreases |list|
  {
    if list == [] {
      return;
    }
    hide Skimmed, Without, Apart;
    SkimStep(list, c);
    WithoutStep(list, c);
    if list[0].consumer != c {
      RemovesAllIff(list[1..], c);
      assert Skimmed(list, c)[1..] == Skimmed(list[1..], c) && Without(list, c)[1..] == Without(list[1..], c);
      ApartTail(list, c);
    } else if |list| > 1 && list[1].consumer != c {
      assert list[1..][1..] == list[2..];
      WithoutStep(list[1..], c);
      assert Without(list, c) == [list[1]] + Without(list[2..], c);
      RemovesAllIff(list[2..], c);
      assert Skimmed(list, c)[1..] == Skimmed(list[2..], c) && Without(list, c)[1..] == Without(list[2..], c);
      ApartTail(list, c);
      ApartTail(list[1..], c);
    } else {
      Neighbours(list, c);
    }
  }

  lemma Neighbours(list: seq<StreamConsumer>, c: Consumer)
    requires list != [] && list[0].consumer == c
    ensures |list| == 1 ==> Apart(list, c)
    ensures |list| > 1 && list[1].consumer == c ==> !Apart(list, c) && Skimmed(list, c) != Without(list, c)
  {
    hide Without;
    if |list| > 1 && list[1].consumer == c {
      assert Skimmed(list, c)[0].consumer == c;
    }
  }

  lemma ApartTail(list: seq<StreamConsumer>, c: Consumer)
    requires |list| > 0 && (list[0].consumer != c || (|list| > 1 && list[1].consumer != c))
    ensures Apart(list, c) <==> Apart(list[1..], c)
  {
    var t := list[1..];
    if Apart(t, c) {
      forall i | 0 < i < |list| ensures list[i - 1].consumer != c || list[i].consumer != c {
        if i > 1 {
          assert t[i - 2].consumer != c || t[i - 1].consumer != c;
        }
      }
    }
    if Apart(list, c) {
      forall i | 0 < i < |t| ensures t[i - 1].consumer != c || t[i].consumer != c {
        assert list[i + 1 - 1].consumer != c || list[i + 1].consumer != c;
      }
    }
  }

  // ----- the machine

  datatype State = State(status: Status, list: seq<StreamConsumer>, file: seq<Op>)

  /** Commands, with the result of start_record, and frames. */
  datatype Event = Start(streamId: int, ret: int) | Stop | Incoming(frame: Frame)

  /** One sample for each time the recorder is called. */
  function Samples(calls: seq<Consumer>, f: Frame): seq<Op> {
    if calls == [] then [] else (if calls[0] == RECORDER then [Sample(f)] else []) + Samples(calls[1..], f)
  }

  function Step(s: State, e: Event): State {
    match e
    case Start(id, ret) =>
      if s.status == RECORDING then s
      else
        State(if ret == 0 then RECORDING else READY,
              s.list + [StreamConsumer(STREAM_VIDEO, id, RECORDER)],
              s.file + if ret == 0 then [Header] else [])
    case Stop =>
      if s.status != RECORDING then s
      else State(READY, Skimmed(s.list, RECORDER), s.file + [Trailer])
    case Incoming(f) =>
      s.(file := s.file + if s.status == RECORDING then Samples(Called(s.list, f), f) else [])
  }

  class MediaRecorder {
    var status: Status
    var file: seq<Op>

    constructor ()
      ensures status == READY && file == []
    {
      status, file := READY, [];
    }

    /** start_record; `ret` is what the file library gave. */
    method StartRecord(ret: int)
      modifies this
      ensures ret != 0 ==> status == old(status) && file == old(file)
      ensures ret == 0 ==> status == RECORDING && file == old(file) + [Header]
    {
      if ret != 0 {
        return;
      }
      file := file + [Header];
      status := RECORDING;
    }

    method StopRecord()
      modifies this
      ensures status == READY && file == old(file) + [Trailer]
    {
      status := READY;
      file := file + [Trailer];
    }

    method OnFrameReceived(f: Frame)
      modifies this
      ensures status == old(status) && file == old(file) + if status == RECORDING then [Sample(f)] else []
    {
      if status == RECORDING {
        file := file + [Sample(f)];
      }
    }
  }

  class StreamReceiver {
    var consumerList: seq<StreamConsumer>

    constructor (others: seq<StreamConsumer>)
      ensures consumerList == others
    {
      consumerList := others;
    }

    method AddConsumer(streamType: int, id: int, consumer: Consumer)
      modifies this
      ensures consumerList == old(consumerList) + [StreamConsumer(streamType, id, consumer)]
    {
      consumerList := consumerList + [StreamConsumer(streamType, id, consumer)];
    }

    method RemoveConsumer(consumer: Consumer)
      modifies this
      ensures consumerList == Skimmed(old(consumerList), consumer)
    {
      hide Skimmed;
      var i := 0;
      ghost var done, rest := [], consumerList;
      while i < |consumerList|
        invariant consumerList == done + rest
        invariant i == |done| || (rest == [] && i == |done| + 1)
        invariant done + Skimmed(rest, consumer) == Skimmed(old(consumerList), consumer)
        decreases |consumerList| - i
      {
        SkimTurn(done, rest, consumer);
        if consumerList[i].consumer == consumer {
          consumerList := consumerList[..i] + consumerList[i + 1..];
          rest := rest[1..];
        }
        if rest != [] {
          done, rest := done + [rest[0]], rest[1..];
        }
        i := i + 1;
      }
      NothingSkimmed(consumer);
    }

    /** cb: the recorder is called each time its entries want the frame. */
    method Cb(f: Frame, recorder: MediaRecorder) returns (calls: seq<Consumer>)
      modifies recorder
      ensures calls == Called(consumerList, f)
      ensures recorder.status == old(recorder.status)
      ensures recorder.file == old(recorder.file) + if recorder.status == RECORDING then Samples(calls, f) else []
    {
      hide Called, Samples;
      calls := [];
      CalledNone(f);
      for i := 0 to |consumerList|
        invariant calls + Called(consumerList[i..], f) == Called(consumerList, f)
        invariant recorder.status == old(recorder.status)
        invariant recorder.file == old(recorder.file) + if recorder.status == RECORDING then Samples(calls, f) else []
      {
        var c := consumerList[i];
        assert consumerList[i..][1..] == consumerList[i + 1..];
        CalledTurn(calls, consumerList[i..], f);
        if Wants(c, f) {
          SamplesSnoc(calls, c.consumer, f);
          calls := calls + [c.consumer];
          if c.consumer == RECORDER {
            recorder.OnFrameReceived(f);
          }
        }
      }
    }
  }

  /** One turn of the loop: `done` is behind the index, `rest` from the index on. */
  lemma SkimTurn(done: seq<StreamConsumer>, rest: seq<StreamConsumer>, c: Consumer)
    requires rest != []
    ensures (done + rest)[|done|] == rest[0]
    ensures (done + rest)[..|done|] + (done + rest)[|done| + 1..] == done + rest[1..]
    ensures var left := if rest[0].consumer == c then rest[1..] else rest;
            && (left == [] ==> done + Skimmed(rest, c) == done == done + left + Skimmed([], c))
            && (left != [] ==>
                  && done + left == done + [left[0]] + left[1..]
                  && done + Skimmed(rest, c) == done + [left[0]] + Skimmed(left[1..], c))
  {
    hide Skimmed;
    SkimStep(rest, c);
    NothingSkimmed(c);
    var left := if rest[0].consumer == c then rest[1..] else rest;
    if left != [] {
      assert rest[0].consumer == c ==> left[0] == rest[1] && left[1..] == rest[2..];
      assert done + ([left[0]] + Skimmed(left[1..], c)) == done + [left[0]] + Skimmed(left[1..], c);
    }
  }

  lemma NothingSkimmed(c: Consumer)
    ensures Skimmed([], c) == []
  {
  }

  lemma CalledNone(f: Frame)
    ensures Called([], f) == [] && Samples([], f) == []
  {
  }

  lemma CalledTurn(calls: seq<Consumer>, list: seq<StreamConsumer>, f: Frame)
    requires list != []
    ensures calls + Called(list, f)
         == (if Wants(list[0], f) then calls + [list[0].consumer] else calls) + Called(list[1..], f)
  {
    hide Wants;
  }

  lemma {:induction false} SamplesSnoc(calls: seq<Consumer>, c: Consumer, f: Frame)
    ensures Samples(calls + [c], f) == Samples(calls, f) + if c == RECORDER then [Sample(f)] else []
  {
    if calls != [] {
      assert (calls + [c])[1..] == calls[1..] + [c];
      SamplesSnoc(calls[1..], c, f);
    }
  }

  class App {
    const recorder: MediaRecorder
    const receiver: StreamReceiver

    ghost function Value(): State
      reads recorder, receiver
    {
      State(recorder.status, receiver.consumerList, recorder.file)
    }

    constructor (others: seq<StreamConsumer>)
      ensures Value() == State(READY, others, [])
      ensures fresh(recorder) && fresh(receiver)
    {
      recorder := new MediaRecorder();
      receiver := new StreamReceiver(others);
    }

    /** VideoStart; start_record's result is not looked at. */
    method VideoStart(streamId: int, ret: int) returns (ok: bool)
      modifies recorder, receiver
      ensures Value() == Step(old(Value()), Start(streamId, ret))
      ensures ok <==> old(recorder.status) == READY
    {
      if recorder.status == RECORDING {
        return false;
      }
      recorder.StartRecord(ret);
      receiver.AddConsumer(STREAM_VIDEO, streamId, RECORDER);
      return true;
    }

    method VideoStop() returns (ok: bool)
      modifies recorder, receiver
      ensures Value() == Step(old(Value()), Stop)
      ensures ok <==> old(recorder.status) == RECORDING
    {
      if recorder.status != RECORDING {
        return false;
      }
      recorder.StopRecord();
      receiver.RemoveConsumer(RECORDER);
      return true;
    }

    method FrameArrives(f: Frame) returns (calls: seq<Consumer>)
      modifies recorder
      ensures Value() == Step(old(Value()), Incoming(f)) && calls == Called(receiver.consumerList, f)
    {
      calls := receiver.Cb(f, recorder);
      assert Value().list == old(Value()).list;
    }
  }

  // ----- runs

  /** The state after the first `n` events, starting with the consumers of others. */
  function After(others: seq<StreamConsumer>, run: seq<Event>, n: nat): State
    requires n <= |run|
  {
    if n == 0 then State(READY, others, []) else Step(After(others, run, n - 1), run[n - 1])
  }

  /** What a recording should be: the stream that is recorded, if any, and the file, without any list of consumers. */
  datatype Plan = Plan(recorded: Option<int>, file: seq<Op>)

  function Planned(run: seq<Event>, n: nat): Plan
    requires n <= |run|
  {
    if n == 0 then Plan(None, [])
    else
      var p := Planned(run, n - 1);
      match run[n - 1]
      case Start(id, _) => if p.recorded.Some? then p else Plan(Some(id), p.file + [Header])
      case Stop => if p.recorded.None? then p else Plan(None, p.file + [Trailer])
      case Incoming(f) =>
        if f.subCommand == STREAM_VIDEO && p.recorded == Some(f.streamId) then p.(file := p.file + [Sample(f)]) else p
  }

  /** The run is as planned: the recorder is in the list once while it records, and not at all otherwise. */
  predicate AsPlanned(others: seq<StreamConsumer>, run: seq<Event>, n: nat)
    requires n <= |run|
  {
    var p := Planned(run, n);
    After(others, run, n) == State(
      if p.recorded.Some? then RECORDING else READY,
      others + if p.recorded.Some? then [StreamConsumer(STREAM_VIDEO, p.recorded.value, RECORDER)] else [],
      p.file)
  }

  /** No start that was carried out, up to event `n`, failed. */
  predicate StartsSucceed(others: seq<StreamConsumer>, run: seq<Event>, n: nat)
    requires n <= |run|
  {
    forall i :: 0 <= i < n && run[i].Start? && After(others, run, i).status == READY ==> run[i].ret == 0
  }

  predicate NoRecorder(list: seq<StreamConsumer>) {
    forall i :: 0 <= i < |list| ==> list[i].consumer != RECORDER
  }

  lemma {:induction false} CalledOne(others: seq<StreamConsumer>, id: int, f: Frame)
    requires NoRecorder(others)
    ensures Samples(Called(others, f), f) == []
    ensures Samples(Called(others + [StreamConsumer(STREAM_VIDEO, id, RECORDER)], f), f)
         == if f.subCommand == STREAM_VIDEO && f.streamId == id then [Sample(f)] else []
  {
    var e := StreamConsumer(STREAM_VIDEO, id, RECORDER);
    if others == [] {
      assert others + [e] == [e] && [e][1..] == [];
    } else {
      assert (others + [e])[1..] == others[1..] + [e];
      CalledOne(others[1..], id, f);
      var c := others[0].consumer;
      forall r: seq<Consumer> ensures ([c] + r)[1..] == r && [] + r == r {
      }
    }
  }

  lemma {:induction false} SkimmedLast(others: seq<StreamConsumer>, e: StreamConsumer)
    requires NoRecorder(others) && e.consumer == RECORDER
    ensures Skimmed(others + [e], RECORDER) == others
  {
    var list := others + [e];
    hide Skimmed;
    SkimStep(list, RECORDER);
    if others == [] {
      assert list == [e];
    } else {
      assert list[1..] == others[1..] + [e];
      SkimmedLast(others[1..], e);
    }
  }

  /** One event keeps the run as planned, if it is not a failing start that is carried out. */
  lemma StepAsPlanned(others: seq<StreamConsumer>, run: seq<Event>, n: nat)
    requires n < |run| && NoRecorder(others) && AsPlanned(others, run, n)
    requires run[n].Start? && Planned(run, n).recorded.None? ==> run[n].ret == 0
    ensures AsPlanned(others, run, n + 1)
  {
    hide Called, Samples, Skimmed, NoRecorder;
    var p := Planned(run, n);
    var id := if p.recorded.Some? then p.recorded.value else 0;
    var e := StreamConsumer(STREAM_VIDEO, id, RECORDER);
    SkimmedLast(others, e);
    assert others + [] == others;
    match run[n]
    case Start(_, _) =>
    case Stop =>
    case Incoming(f) =>
      CalledOne(others, id, f);
      assert p.file + [] == p.file;
  }

  /** A failing start that is carried out leaves the recorder in the list although nothing is recorded. */
  lemma FailedStartStrays(others: seq<StreamConsumer>, run: seq<Event>, n: nat)
    requires n < |run| && NoRecorder(others) && AsPlanned(others, run, n)
    requires run[n].Start? && Planned(run, n).recorded.None? && run[n].ret != 0
    ensures !AsPlanned(others, run, n + 1)
    ensures var s := After(others, run, n + 1);
            s.status == READY && !NoRecorder(s.list)
  {
    hide NoRecorder;
    var s := After(others, run, n + 1);
    assert s.list[|others|].consumer == RECORDER;
    assert |s.list| == |others| + 1;
    RecorderIn(s.list, |others|);
  }

  lemma RecorderIn(list: seq<StreamConsumer>, i: nat)
    requires i < |list| && list[i].consumer == RECORDER
    ensures !NoRecorder(list)
  {
  }

  /** Every command and frame of a run leaves the file as planned, and the recorder in the list exactly once while it
      records and never otherwise, if and only if every start that was carried out succeeded. */
  lemma {:induction false} AsPlannedIff(others: seq<StreamConsumer>, run: seq<Event>, n: nat)
    requires n <= |run| && NoRecorder(others)
    ensures (forall i :: 0 <= i <= n ==> AsPlanned(others, run, i)) <==> StartsSucceed(others, run, n)
  {
    hide NoRecorder;
    if n == 0 {
      assert others + [] == others;
    } else {
      AsPlannedIff(others, run, n - 1);
      hide Step, Planned;
      if forall i :: 0 <= i <= n - 1 ==> AsPlanned(others, run, i) {
        assert AsPlanned(others, run, n - 1);
        if run[n - 1].Start? && Planned(run, n - 1).recorded.None? && run[n - 1].ret != 0 {
          FailedStartStrays(others, run, n - 1);
        } else {
          StepAsPlanned(others, run, n - 1);
        }
      }
    }
  }

  // ----- the planned file

  /** Recordings, each from header to trailer, the last one perhaps still open. */
  predicate Recordings(file: seq<Op>, open: bool) {
    if file == [] then !open
    else
      var rest := file[..|file| - 1];
      match file[|file| - 1]
      case Header => open && Recordings(rest, false)
      case Sample(_) => open && Recordings(rest, true)
      case Trailer => !open && Recordings(rest, true)
  }

  lemma {:induction false} PlannedRecordings(run: seq<Event>, n: nat)
    requires n <= |run|
    ensures Recordings(Planned(run, n).file, Planned(run, n).recorded.Some?)
  {
    hide Recordings;
    if n == 0 {
      NoRecordings();
    } else {
      PlannedRecordings(run, n - 1);
      var p := Planned(run, n - 1);
      forall op: Op
        ensures Recordings(p.file + [op], true) <==>
                  (op.Header? && Recordings(p.file, false)) || (op.Sample? && Recordings(p.file, true))
        ensures Recordings(p.file + [op], false) <==> op.Trailer? && Recordings(p.file, true)
      {
        RecordingsSnoc(p.file, op);
      }
    }
  }

  lemma NoRecordings()
    ensures Recordings([], false)
  {
  }

  lemma RecordingsSnoc(file: seq<Op>, op: Op)
    ensures Recordings(file + [op], true) <==>
              (op.Header? && Recordings(file, false)) || (op.Sample? && Recordings(file, true))
    ensures Recordings(file + [op], false) <==> op.Trailer? && Recordings(file, true)
  {
    assert (file + [op])[..|file|] == file;
  }

  /** The frames in a file, in order. */
  function Frames(file: seq<Op>): seq<Frame> {
    if file == [] then []
    else
      var rest, op := file[..|file| - 1], file[|file| - 1];
      Frames(rest) + if op.Sample? then [op.frame] else []
  }

  /** The frames that came in while their own stream was being recorded. */
  function Wanted(run: seq<Event>, n: nat): seq<Frame>
    requires n <= |run|
  {
    if n == 0 then []
    else
      Wanted(run, n - 1) +
      match run[n - 1]
      case Incoming(f) =>
        if f.subCommand == STREAM_VIDEO && Planned(run, n - 1).recorded == Some(f.streamId) then [f] else []
      case _ => []
  }

  lemma {:induction false} PlannedFrames(run: seq<Event>, n: nat)
    requires n <= |run|
    ensures Frames(Planned(run, n).file) == Wanted(run, n)
  {
    hide Frames;
    if n == 0 {
      NoFrames();
    } else {
      PlannedFrames(run, n - 1);
      var file := Planned(run, n - 1).file;
      match run[n - 1]
      case Start(_, _) => FramesSnoc(file, Header);
      case Stop => FramesSnoc(file, Trailer);
      case Incoming(f) => FramesSnoc(file, Sample(f));
    }
  }

  lemma NoFrames()
    ensures Frames([]) == []
  {
  }

  lemma FramesSnoc(file: seq<Op>, op: Op)
    ensures Frames(file + [op]) == Frames(file) + if op.Sample? then [op.frame] else []
  {
    assert (file + [op])[..|file|] == file;
  }

  /** In a run whose starts succeed the file consists of whole recordings, but for the last while it is open, and
      holds each wanted frame once, in order; the recorder is called for while it records, and only then. */
  lemma RecordsWanted(others: seq<StreamConsumer>, run: seq<Event>, n: nat)
    requires n <= |run| && NoRecorder(others) && StartsSucceed(others, run, n)
    ensures var s := After(others, run, n);
            && Recordings(s.file, s.status == RECORDING)
            && Frames(s.file) == Wanted(run, n)
            && (s.status == READY ==> s.list == others)
            && (s.status == RECORDING ==>
                exists e: StreamConsumer :: e.consumer == RECORDER && s.list == others + [e])
  {
    hide *;
    AsPlannedIff(others, run, n);
    assert AsPlanned(others, run, n);
    PlannedRecordings(run, n);
    PlannedFrames(run, n);
    PlanHolds(others, run, n);
  }

  lemma PlanHolds(others: seq<StreamConsumer>, run: seq<Event>, n: nat)
    requires n <= |run| && AsPlanned(others, run, n)
    ensures var s, p := After(others, run, n), Planned(run, n);
            && s.file == p.file && (s.status == RECORDING <==> p.recorded.Some?)
            && (s.status == READY ==> s.list == others)
            && (s.status == RECORDING ==>
                exists e: StreamConsumer :: e.consumer == RECORDER && s.list == others + [e])
  {
    hide Planned, After;
    assert others + [] == others;
    var p := Planned(run, n);
    if p.recorded.Some? {
      var e := StreamConsumer(STREAM_VIDEO, p.recorded.value, RECORDER);
      assert e.consumer == RECORDER && After(others, run, n).list == others + [e];
    }
  }

  /** A start that fails, one that succeeds, and a frame of that stream: the frame is written twice. */
  lemma FrameWrittenTwice(id: int, f: Frame)
    requires Wants(StreamConsumer(STREAM_VIDEO, id, RECORDER), f)
    ensures After([], [Start(id, 1), Start(id, 0), Incoming(f)], 3).file == [Header, Sample(f), Sample(f)]
  {
    var run := [Start(id, 1), Start(id, 0), Incoming(f)];
    var e := StreamConsumer(STREAM_VIDEO, id, RECORDER);
    assert After([], run, 1) == State(READY, [e], []);
    assert After([], run, 2) == State(RECORDING, [e, e], [Header]);
    assert [e, e][1..] == [e] && [e][1..] == [];
    assert Called([e], f) == [RECORDER] && Called([e, e], f) == [RECORDER, RECORDER];
    assert [RECORDER, RECORDER][1..] == [RECORDER] && [RECORDER][1..] == [];
    assert Samples([RECORDER], f) == [Sample(f)] && Samples([RECORDER, RECORDER], f) == [Sample(f), Sample(f)];
  }
}
