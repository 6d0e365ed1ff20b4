/** The messages of the stream interface: their fields, how they are delivered and how they are released. */
module StreamMessage {
  import opened Bytes

  const COMMAND_MAX := 256          // bytes in a node's command buffer
  const STREAM_MAGIC := 0x9999EEEE  // MagicCode of an incoming message
  const SUB_META := 0x00010000      // Sub_Command of a meta message

  // Byte offsets of the message fields.
  const MAGIC := 0
  const SUB_COMMAND := 12
  const STYPE := 16
  const SFORMAT := 20
  const STREAM_ID := 24
  const STREAM_END := 28
  const AREA_INDEX := 32
  const SAMPLE_ADDRESS := 40

  /** A received message: its raw bytes. */
  type Msg = seq<byte>

  /** A filled command buffer. */
  type Command = c: seq<byte> | |c| == COMMAND_MAX witness Zeros(COMMAND_MAX)

  /** Address translation of sample addresses: the identity when physical addresses are asked for. */
  type Translation = word -> word

  /** What release_stream sends; MagicCode, Format_Version and Command of the reply are constants. */
  datatype Release =
    | StreamRelease(subCommand: word, stype: word, sformat: word, streamId: word, streamEnd: word, areaIndex: word)
    | MetaRelease(stype: word, streamId: word, sampleAddress: word)

  /** memcpy of the message over the start of a command buffer. */
  function Overlay(buffer: Command, m: Msg): (c: Command)
    requires |m| <= COMMAND_MAX
    ensures forall off: nat :: off < |m| ==> c[off] == m[off]
  {
    m + buffer[|m|..]
  }

  /** The command buffer holding `m`: a zeroed buffer with the message copied over its start. */
  function Stored(m: Msg): (c: Command)
    requires |m| <= COMMAND_MAX
  {
    Overlay(Zeros(COMMAND_MAX), m)
  }

  predicate ValidMagic(c: seq<byte>) {
    WordAt(c, MAGIC) == STREAM_MAGIC
  }

  /** Whether recv_stream calls back for this command: every other command is dropped in silence. */
  predicate Deliverable(c: seq<byte>) {
    && ValidMagic(c)
    && WordAt(c, SUB_COMMAND) in {0x100, 0x200, 0x300, 0x400, 0x500, SUB_META}
  }

  lemma DeliverableMagic(c: seq<byte>)
    requires Deliverable(c)
    ensures ValidMagic(c)
  {
  }

  /** The command as the callback sees it: its sample address is translated in place. */
  function Converted(conv: Translation, c: Command): (r: Command) {
    PutWord(c, SAMPLE_ADDRESS, conv(WordAt(c, SAMPLE_ADDRESS)))
  }

  /** The release that release_stream sends for a message with valid magic. */
  function ReleaseOf(c: seq<byte>): Release {
    if WordAt(c, SUB_COMMAND) != SUB_META then
      StreamRelease(WordAt(c, SUB_COMMAND), WordAt(c, STYPE), WordAt(c, SFORMAT), WordAt(c, STREAM_ID),
                    WordAt(c, STREAM_END), WordAt(c, AREA_INDEX))
    else
      MetaRelease(WordAt(c, STYPE), WordAt(c, STREAM_ID), WordAt(c, SAMPLE_ADDRESS))
  }

  /** Storing a message keeps every field of it. */
  lemma StoredReads(m: Msg, off: nat)
    requires |m| <= COMMAND_MAX
    ensures WordAt(Stored(m), off) == WordAt(m, off)
  {
    forall i: nat
      ensures ByteAt(Stored(m), i) == ByteAt(m, i)
    {
    }
  }

  /** Translating the sample address keeps every field before it. */
  lemma ConvertedReads(conv: Translation, c: Command, off: nat)
    requires off + 4 <= SAMPLE_ADDRESS
    ensures WordAt(Converted(conv, c), off) == WordAt(c, off)
  {
  }

  /** Whether there is a callback, byte by byte: the magic EE EE 99 99, and the sub-command of video, audio, raw, YUV,
      JPEG or meta data. */
  lemma DeliverableBytes(c: seq<byte>)
    ensures ValidMagic(c) <==>
              ByteAt(c, 0) == 0xEE && ByteAt(c, 1) == 0xEE && ByteAt(c, 2) == 0x99 && ByteAt(c, 3) == 0x99
    ensures Deliverable(c) <==>
              && ValidMagic(c) && ByteAt(c, 12) == 0 && ByteAt(c, 15) == 0
              && if ByteAt(c, 13) == 0 then ByteAt(c, 14) == 1 else ByteAt(c, 13) <= 5 && ByteAt(c, 14) == 0
  {
  }

  /** The callback sees the translated address at byte 40, whatever kind of message it is, and all else as it was. */
  lemma OnlyAddressConverted(conv: Translation, c: Command)
    ensures var r := Converted(conv, c);
            && WordAt(r, 40) == conv(WordAt(c, 40))
            && forall i :: 0 <= i < 256 && !(40 <= i < 44) ==> r[i] == c[i]
  {
    PutWordReadsBack(c, SAMPLE_ADDRESS, conv(WordAt(c, SAMPLE_ADDRESS)));
  }

  /** The release sent for a message after delivery: field for field that of the received message, except that
      a meta release carries the translated sample address. */
  lemma ReleaseAfterDelivery(conv: Translation, m: Msg)
    requires |m| <= COMMAND_MAX
    ensures var r := ReleaseOf(Converted(conv, Stored(m)));
            if WordAt(m, SUB_COMMAND) != SUB_META then
              r == StreamRelease(WordAt(m, SUB_COMMAND), WordAt(m, STYPE), WordAt(m, SFORMAT), WordAt(m, STREAM_ID),
                                 WordAt(m, STREAM_END), WordAt(m, AREA_INDEX))
            else
              r == MetaRelease(WordAt(m, STYPE), WordAt(m, STREAM_ID), conv(WordAt(m, SAMPLE_ADDRESS)))
  {
    var c := Stored(m);
    forall off: nat
      ensures WordAt(c, off) == WordAt(m, off)
    {
      StoredReads(m, off);
    }
    forall off: nat | off + 4 <= SAMPLE_ADDRESS
      ensures WordAt(Converted(conv, c), off) == WordAt(c, off)
    {
      ConvertedReads(conv, c, off);
    }
    PutWordReadsBack(c, SAMPLE_ADDRESS, conv(WordAt(c, SAMPLE_ADDRESS)));
  }

  /** Delivery changes the release of a message exactly when it is a meta message whose address is translated. */
  lemma ReleaseKeptIff(conv: Translation, m: Msg)
    requires |m| <= COMMAND_MAX
    ensures ReleaseOf(Converted(conv, Stored(m))) == ReleaseOf(m)
        <==> (WordAt(m, SUB_COMMAND) == SUB_META ==> conv(WordAt(m, SAMPLE_ADDRESS)) == WordAt(m, SAMPLE_ADDRESS))
  {
    ReleaseAfterDelivery(conv, m);
  }

  // ----- messages as the structs of the interface

  /** struct cif_stream_send, and cif_stream_meta_send, which has the same fields up to the address. */
  datatype StreamSend = StreamSend(
    magic: word, formatVersion: word, command: word, subCommand: word,
    stype: word, sformat: word, streamId: word, streamEnd: word, areaIndex: word,
    sampleSize: word, sampleAddress: word, media: seq<byte>)

  function Laid(h: StreamSend): (m: Msg)
    ensures |m| == 44 + |h.media|
  {
    WordBytes(h.magic) + WordBytes(h.formatVersion) + WordBytes(h.command) + WordBytes(h.subCommand)
    + WordBytes(h.stype) + WordBytes(h.sformat) + WordBytes(h.streamId) + WordBytes(h.streamEnd)
    + WordBytes(h.areaIndex) + WordBytes(h.sampleSize) + WordBytes(h.sampleAddress) + h.media
  }

  /** The fields are read where the struct has them. */
  lemma LaidReads(h: StreamSend)
    ensures var m := Laid(h);
            && WordAt(m, MAGIC) == h.magic && WordAt(m, SUB_COMMAND) == h.subCommand
            && WordAt(m, STYPE) == h.stype && WordAt(m, SFORMAT) == h.sformat
            && WordAt(m, STREAM_ID) == h.streamId && WordAt(m, STREAM_END) == h.streamEnd
            && WordAt(m, AREA_INDEX) == h.areaIndex && WordAt(m, SAMPLE_ADDRESS) == h.sampleAddress
  {
    var m := Laid(h);
    LaidParts(h);
    hide WordAt, WordBytes, Laid;
    WordStands(m, MAGIC, h.magic);
    WordStands(m, SUB_COMMAND, h.subCommand);
    WordStands(m, STYPE, h.stype);
    WordStands(m, SFORMAT, h.sformat);
    WordStands(m, STREAM_ID, h.streamId);
    WordStands(m, STREAM_END, h.streamEnd);
    WordStands(m, AREA_INDEX, h.areaIndex);
    WordStands(m, SAMPLE_ADDRESS, h.sampleAddress);
  }

  lemma LaidParts(h: StreamSend)
    ensures var m := Laid(h);
            && m[0..4] == WordBytes(h.magic) && m[12..16] == WordBytes(h.subCommand)
            && m[16..20] == WordBytes(h.stype) && m[20..24] == WordBytes(h.sformat)
            && m[24..28] == WordBytes(h.streamId) && m[28..32] == WordBytes(h.streamEnd)
            && m[32..36] == WordBytes(h.areaIndex) && m[40..44] == WordBytes(h.sampleAddress)
  {
    hide WordBytes;
  }

  /** A struct that comes in is handed to the callback with its address translated and nothing else changed, and its
      release has the fields of the struct. */
  lemma StructDelivered(conv: Translation, h: StreamSend)
    requires |h.media| <= 212
    ensures |Laid(h)| <= COMMAND_MAX
    ensures Laid(h.(sampleAddress := conv(h.sampleAddress))) <= Converted(conv, Stored(Laid(h)))
    ensures ReleaseOf(Converted(conv, Stored(Laid(h))))
         == if h.subCommand == 0x10000 then MetaRelease(h.stype, h.streamId, conv(h.sampleAddress))
            else StreamRelease(h.subCommand, h.stype, h.sformat, h.streamId, h.streamEnd, h.areaIndex)
  {
    hide ReleaseOf, Converted, WordAt, WordBytes, Laid;
    LaidReads(h);
    ReleaseAfterDelivery(conv, Laid(h));
    AddressInPlace(conv, h);
  }

  lemma AddressInPlace(conv: Translation, h: StreamSend)
    requires |h.media| <= 212
    ensures Laid(h.(sampleAddress := conv(h.sampleAddress))) <= Converted(conv, Stored(Laid(h)))
  {
    var h', c := h.(sampleAddress := conv(h.sampleAddress)), Stored(Laid(h));
    var r := Converted(conv, c);
    LaidReads(h);
    StoredReads(Laid(h), SAMPLE_ADDRESS);
    OnlyAddressConverted(conv, c);
    hide WordAt, Converted, Stored, WordBytes;
    WordStands(r, 40, h'.sampleAddress);
    LaidParts(h');
    assert forall i :: 40 <= i < 44 ==> r[i] == r[40..44][i - 40] && Laid(h')[i] == Laid(h')[40..44][i - 40];
    assert forall i :: 0 <= i < |Laid(h')| && !(40 <= i < 44) ==> Laid(h')[i] == Laid(h)[i];
  }

  lemma DeliverableStored(m: Msg)
    requires |m| <= COMMAND_MAX
    ensures Deliverable(Stored(m)) == Deliverable(m) && ValidMagic(Stored(m)) == ValidMagic(m)
  {
    StoredReads(m, MAGIC);
    StoredReads(m, SUB_COMMAND);
  }

  lemma DeliverableConverted(conv: Translation, c: Command)
    ensures Deliverable(Converted(conv, c)) == Deliverable(c) && ValidMagic(Converted(conv, c)) == ValidMagic(c)
  {
    ConvertedReads(conv, c, MAGIC);
    ConvertedReads(conv, c, SUB_COMMAND);
  }
}
