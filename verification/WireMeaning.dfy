/** What the proxy makes of responses, byte by byte. */
module WireMeanings {
  import opened Domain
  import opened Checksums
  import opened Wire

  /** How long a response is: an exception has five bytes, a register read five and as many as it announces, a
      register write eight, anything else five. */
  lemma FrameLengthMeans(code: bv8, third: bv8)
    ensures FrameLength(code, third) ==
            if code >= 0x80 then 5
            else if code in {0x03, 0x04} then 5 + third as nat
            else if code in {0x06, 0x10} then 8
            else 5
  {
    ExceptionBit(code);
  }

  lemma ExceptionBit(code: bv8)
    ensures IsException(code) <==> code >= 0x80
  {
  }

  /** Everything but byte `at` and the two checksum bytes is as it was. */
  ghost predicate OnlyByte(at: nat, frame: Bytes, out: Bytes) {
    && |out| == |frame|
    && forall i :: 0 <= i < |frame| - 2 && i != at ==> out[i] == frame[i]
  }

  /** The low bit of the last byte is flipped; its other bits and all other bytes are as they were. */
  ghost predicate LastBitFlipped(frame: Bytes, out: Bytes) {
    && |out| == |frame| > 0
    && (forall i :: 0 <= i < |frame| - 1 ==> out[i] == frame[i])
    && out[|out| - 1] >> 1 == frame[|frame| - 1] >> 1 && out[|out| - 1] & 1 != frame[|frame| - 1] & 1
  }

  /** The byte spells `value`. */
  ghost predicate Spells(byte: bv8, value: int) {
    byte as int == value
  }

  /** The same slave and function, a byte count for `words`, and the words, each high byte first. */
  ghost predicate CarriesWords(frame: Bytes, out: Bytes, words: seq<Word>) {
    && |frame| >= 2 && |out| == 5 + 2 * |words|
    && out[0] == frame[0] && out[1] == frame[1] && Spells(out[2], 2 * |words|)
    && forall i :: 0 <= i < |words| ==> Spells(out[3 + 2 * i], words[i] / 256) && Spells(out[4 + 2 * i], words[i] % 256)
  }

  /** What each fault makes of a frame it applies to. */
  ghost predicate Becomes(frame: Bytes, fault: Fault, out: Bytes) {
    match fault
    case BadCrc => LastBitFlipped(frame, out)
    case Truncated(count) => out <= frame && |out| == if |frame| > count then |frame| - count else Min(1, |frame|)
    case WrongLength => |frame| >= 5 && OnlyByte(2, frame, out) && Spells(out[2], Min(frame[2] as int + 2, 255))
    case WrongFunction(code) => |frame| >= 4 && OnlyByte(1, frame, out) && out[1] == code
    case WrongSlave(slave) => |frame| >= 4 && OnlyByte(0, frame, out) && out[0] == slave
    case UnexpectedWords(words) => CarriesWords(frame, out, words)
    case Delay(_) => out == frame
    case InterByteGap(_) => out == frame
  }

  lemma FlipMeans(byte: bv8)
    ensures Flipped(byte) >> 1 == byte >> 1 && Flipped(byte) & 1 != byte & 1
  {
  }

  lemma SaturatingMeans(byte: bv8)
    ensures SaturatingByte(byte) as int == Min(byte as int + 2, 255)
  {
    if byte <= 0xFD {
      assert byte as int <= 253;
    } else {
      assert byte as int >= 254;
    }
  }

  lemma SealedLength(bytes: Bytes)
    ensures |Sealed(bytes)| == |bytes| + 2 && bytes <= Sealed(bytes)
  {
    hide Crc;
  }

  lemma {:induction false} WordBytesMean(words: seq<Word>)
    ensures |WordBytes(words)| == 2 * |words|
    ensures forall i :: 0 <= i < |words| ==>
              WordBytes(words)[2 * i] == HighByte(words[i]) && WordBytes(words)[2 * i + 1] == LowByte(words[i])
  {
    hide HighByte, LowByte;
    if words != [] {
      var n := |words| - 1;
      WordBytesMean(words[..n]);
      forall i | 0 <= i < |words|
        ensures WordBytes(words)[2 * i] == HighByte(words[i]) && WordBytes(words)[2 * i + 1] == LowByte(words[i])
      {
        if i < n { assert words[..n][i] == words[i]; }
      }
    }
  }

  lemma ByteBack(x: int)
    requires 0 <= x < 256
    ensures Spells(x as bv8, x)
  {
  }

  lemma BytesOfWord(word: Word)
    ensures Spells(HighByte(word), word / 256) && Spells(LowByte(word), word % 256)
  {
    hide Spells;
    ByteBack(word / 256);
    ByteBack(word % 256);
  }

  lemma CountOfWords(words: seq<Word>)
    requires |words| <= 127
    ensures Spells(ByteCount(words), 2 * |words|)
  {
    hide Spells;
    ByteBack(2 * |words|);
  }

  lemma WordsAreCarried(frame: Bytes, words: seq<Word>)
    requires |frame| >= 5 && |words| <= 127
    ensures CarriesWords(frame, Sealed(frame[..2] + [ByteCount(words)] + WordBytes(words)), words)
  {
    hide Sealed, WordBytes, HighByte, LowByte, Spells, ByteCount;
    var body := frame[..2] + [ByteCount(words)] + WordBytes(words);
    SealedLength(body);
    WordBytesMean(words);
    CountOfWords(words);
    forall i | 0 <= i < |words| ensures Spells(body[3 + 2 * i], words[i] / 256) && Spells(body[4 + 2 * i], words[i] % 256) {
      BytesOfWord(words[i]);
      assert body[3 + 2 * i] == WordBytes(words)[2 * i] && body[4 + 2 * i] == WordBytes(words)[2 * i + 1];
    }
  }

  /** Every fault that applies changes exactly what it is meant to change. */
  lemma FaultsMean(frame: Bytes, fault: Fault)
    requires Applicable(frame, fault)
    ensures Becomes(frame, fault, Mutated(frame, fault))
  {
    hide Sealed, SaturatingByte, Flipped, WordBytes, CarriesWords, IsRegisterRead;
    match fault
    case BadCrc => FlipMeans(frame[|frame| - 1]);
    case WrongLength =>
      SaturatingMeans(frame[2]);
      SealedLength(Body(frame)[2 := SaturatingByte(frame[2])]);
    case WrongFunction(code) => SealedLength(Body(frame)[1 := code]);
    case WrongSlave(slave) => SealedLength(Body(frame)[0 := slave]);
    case UnexpectedWords(words) => WordsAreCarried(frame, words);
    case _ =>
  }

  /** Which faults apply: the ones about a register read to its whole response, the ones about a header byte to a
      frame with a body, words only as many as a byte can count. */
  lemma AppliesExactlyWhen(frame: Bytes, fault: Fault)
    ensures var readsRegisters := |frame| >= 5 && (frame[1] == 0x03 || frame[1] == 0x04);
            Applicable(frame, fault) <==>
            match fault
            case BadCrc => |frame| > 0
            case WrongLength => readsRegisters
            case WrongFunction(_) => |frame| >= 4
            case WrongSlave(_) => |frame| >= 4
            case UnexpectedWords(words) => readsRegisters && 2 * |words| <= 255
            case Truncated(_) => true
            case Delay(_) => true
            case InterByteGap(_) => true
  {
  }

  // ---------------------------------------------------------------- schedules

  /** The bytes in order, nothing between them. */
  ghost predicate InOnePiece(bytes: Bytes, actions: seq<Action>) {
    |actions| == |bytes| && forall i :: 0 <= i < |bytes| ==> actions[i] == Put(bytes[i])
  }

  /** Each byte in order, with a pause right after it. */
  ghost predicate Paused(bytes: Bytes, microseconds: nat, actions: seq<Action>) {
    && |actions| == 2 * |bytes|
    && forall i :: 0 <= i < |bytes| ==> actions[2 * i] == Put(bytes[i]) && actions[2 * i + 1] == Pause(microseconds)
  }

  /** How a response is sent: only a delay holds back its first byte, only a gap pauses between its bytes. */
  ghost predicate SentAs(bytes: Bytes, fault: Fault, actions: seq<Action>) {
    match fault
    case Delay(milliseconds) =>
      if milliseconds == 0 then InOnePiece(bytes, actions)
      else |actions| > 0 && actions[0] == Pause(1000 * milliseconds) && InOnePiece(bytes, actions[1..])
    case InterByteGap(microseconds) => Paused(bytes, microseconds, actions)
    case _ => InOnePiece(bytes, actions)
  }

  lemma {:induction false} SpacedMeans(bytes: Bytes, gap: nat)
    ensures Paused(bytes, gap, Spaced(bytes, gap))
  {
    if bytes != [] {
      var n := |bytes| - 1;
      SpacedMeans(bytes[..n], gap);
      var before, after := Spaced(bytes[..n], gap), Spaced(bytes, gap);
      forall i | 0 <= i < |bytes| ensures after[2 * i] == Put(bytes[i]) && after[2 * i + 1] == Pause(gap) {
        if i < n { assert before[2 * i] == Put(bytes[..n][i]) && before[2 * i + 1] == Pause(gap); }
      }
    }
  }

  /** Every response goes out once, in one piece unless its own fault delays or spaces it. */
  lemma ActionsMean(frame: Bytes, index: nat, schedule: map<nat, Fault>)
    requires MayPass(frame, index, schedule)
    ensures index !in schedule ==> InOnePiece(frame, ActionsFor(frame, index, schedule))
    ensures index in schedule ==>
              exists bytes: Bytes :: Becomes(frame, schedule[index], bytes) && SentAs(bytes, schedule[index], ActionsFor(frame, index, schedule))
  {
    hide Becomes, Applicable, Mutated, Spaced, Paused;
    if index in schedule {
      var fault := schedule[index];
      FaultsMean(frame, fault);
      var bytes := Mutated(frame, fault);
      if fault.InterByteGap? { SpacedMeans(bytes, fault.microseconds); }
      var actions := ActionsFor(frame, index, schedule);
      if fault.Delay? && fault.milliseconds > 0 { assert actions[1..] == Puts(bytes); }
      if fault.InterByteGap? { assert actions == Spaced(bytes, fault.microseconds); }
      assert SentAs(bytes, fault, actions);
    }
  }

  /** The position of a response in the stream, from one, as the schedule counts. */
  function Counted(i: nat): nat {
    if i < U64_MAX then i + 1 else U64_MAX
  }

  /** What the client gets for each response, in order: the response itself, or what its fault makes of it. */
  lemma {:induction false} EmittedMeans(frames: seq<Bytes>, schedule: map<nat, Fault>)
    requires AllPass(frames, schedule)
    ensures |Emitted(frames, schedule)| == |frames|
    ensures forall i :: 0 <= i < |frames| ==>
              if Counted(i) in schedule then Becomes(frames[i], schedule[Counted(i)], Emitted(frames, schedule)[i])
              else Emitted(frames, schedule)[i] == frames[i]
  {
    hide Becomes, Applicable, Mutated;
    if frames != [] {
      var n := |frames| - 1;
      EmittedMeans(frames[..n], schedule);
      assert MayPass(frames[n], IndexOf(n), schedule);
      if Counted(n) in schedule { FaultsMean(frames[n], schedule[Counted(n)]); }
      forall i | 0 <= i < n ensures Emitted(frames, schedule)[i] == Emitted(frames[..n], schedule)[i] && frames[..n][i] == frames[i] {
      }
    }
  }

  /** `hits` are the positions of the responses the schedule names, ascending. */
  ghost predicate Hits(hits: seq<nat>, count: nat, schedule: map<nat, Fault>) {
    && (forall i, j :: 0 <= i < j < |hits| ==> hits[i] < hits[j])
    && (forall at: nat :: at in hits <==> at < count && Counted(at) in schedule)
  }

  /** One record for each of these responses, of what came in, the fault, and what went out. */
  ghost predicate RecordedAt(hits: seq<nat>, frames: seq<Bytes>, schedule: map<nat, Fault>, records: seq<FaultRecord>) {
    && |records| == |hits|
    && forall k :: 0 <= k < |hits| ==>
        && hits[k] < |frames| && Counted(hits[k]) in schedule
        && Tells(records[k], Counted(hits[k]), schedule[Counted(hits[k])], frames[hits[k]])
  }

  ghost predicate Tells(record: FaultRecord, index: nat, fault: Fault, frame: Bytes) {
    record.index == index && record.fault == fault && record.original == frame && Becomes(frame, fault, record.emitted)
  }

  lemma HitsExtend(hits: seq<nat>, n: nat, schedule: map<nat, Fault>)
    requires Hits(hits, n, schedule)
    ensures Hits(if Counted(n) in schedule then hits + [n] else hits, n + 1, schedule)
  {
    assert forall k :: 0 <= k < |hits| ==> hits[k] in hits;
  }

  lemma RecordedExtends(hits: seq<nat>, frames: seq<Bytes>, frame: Bytes, schedule: map<nat, Fault>, records: seq<FaultRecord>)
    requires RecordedAt(hits, frames, schedule, records) && MayPass(frame, IndexOf(|frames|), schedule)
    ensures var n := |frames|;
            RecordedAt(if Counted(n) in schedule then hits + [n] else hits, frames + [frame], schedule,
                       records + RecordsFor(frame, IndexOf(n), schedule))
  {
    hide Becomes, Applicable, Mutated;
    var n := |frames|;
    if Counted(n) in schedule {
      FaultsMean(frame, schedule[Counted(n)]);
    }
  }

  lemma NothingRecorded(schedule: map<nat, Fault>)
    ensures Hits([], 0, schedule) && RecordedAt([], [], schedule, Records([], schedule))
  {
  }

  /** The log holds exactly one record for each scheduled response, in stream order. */
  lemma {:induction false} RecordsMean(frames: seq<Bytes>, schedule: map<nat, Fault>)
    requires AllPass(frames, schedule)
    ensures exists hits: seq<nat> :: Hits(hits, |frames|, schedule) && RecordedAt(hits, frames, schedule, Records(frames, schedule))
  {
    hide RecordedAt, Hits, MayPass, RecordsFor;
    if frames == [] {
      NothingRecorded(schedule);
    } else {
      var n := |frames| - 1;
      var before := frames[..n];
      assert frames == before + [frames[n]];
      assert forall i :: 0 <= i < n ==> before[i] == frames[i];
      RecordsMean(before, schedule);
      var hits: seq<nat> :| Hits(hits, n, schedule) && RecordedAt(hits, before, schedule, Records(before, schedule));
      HitsExtend(hits, n, schedule);
      RecordedExtends(hits, before, frames[n], schedule, Records(before, schedule));
    }
  }
}
