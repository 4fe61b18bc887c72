/** The byte-level fault proxy: framing of responses and the scheduled mutations. */
module Wire {
  import opened Domain
  import opened Checksums

  // ---------------------------------------------------------------- framing

  /** The stream a response is read from. A read that asks for more than is left fails. */
  class Reader {
    var rest: Bytes

    constructor (bytes: Bytes)
      ensures rest == bytes
    {
      rest := bytes;
    }

    method ReadExact(count: nat) returns (taken: Option<Bytes>)
      modifies this
      ensures taken == if count <= |old(rest)| then Some(old(rest)[..count]) else None
      ensures rest == if count <= |old(rest)| then old(rest)[count..] else []
    {
      if count > |rest| {
        rest := [];
        return None;
      }
      taken := Some(rest[..count]);
      rest := rest[count..];
    }
  }

  predicate IsException(function_: bv8) {
    function_ & 0x80 != 0
  }

  predicate IsRegisterRead(function_: bv8) {
    function_ == 0x03 || function_ == 0x04
  }

  predicate IsRegisterWrite(function_: bv8) {
    function_ == 0x06 || function_ == 0x10
  }

  /** How many bytes a response occupies, as its first three bytes announce it. */
  function FrameLength(function_: bv8, third: bv8): (length: nat)
    ensures length >= 5
  {
    if IsException(function_) then 5
    else if IsRegisterRead(function_) then 5 + third as nat
    else if IsRegisterWrite(function_) then 8
    else 5
  }

  /** A whole response: exception, FC03/FC04 read, FC06/FC16 write, or anything of five bytes. */
  predicate WellFramed(frame: Bytes) {
    |frame| >= 3 && |frame| == FrameLength(frame[1], frame[2])
  }

  /** Whether the bytes begin with a whole response. */
  predicate StartsWithFrame(bytes: Bytes) {
    |bytes| >= 3 && FrameLength(bytes[1], bytes[2]) <= |bytes|
  }

  datatype FrameRead = Frame(bytes: Bytes) | End | Broken

  method ReadMore(reader: Reader, start: Bytes, length: nat) returns (read: FrameRead)
    modifies reader
    ensures length <= |old(reader.rest)| ==> read.Frame? && |reader.rest| == |old(reader.rest)| - length
    ensures length > |old(reader.rest)| ==> read == Broken
    ensures read.Frame? ==> read.bytes + reader.rest == start + old(reader.rest) && |read.bytes| == |start| + length
    ensures read.Frame? ==> start <= read.bytes
    ensures |reader.rest| <= |old(reader.rest)|
  {
    var taken := reader.ReadExact(length);
    if taken.None? {
      return Broken;
    }
    assert old(reader.rest) == taken.value + reader.rest;
    return Frame(start + taken.value);
  }

  /** One response off the stream. An end of stream inside the two header bytes is a regular end. */
  method ReadResponseFrame(reader: Reader) returns (read: FrameRead)
    modifies reader
    ensures read.End? <==> |old(reader.rest)| < 2
    ensures read.Frame? ==>
              WellFramed(read.bytes) && old(reader.rest) == read.bytes + reader.rest
    ensures read.Broken? <==> |old(reader.rest)| >= 2 && !StartsWithFrame(old(reader.rest))
    ensures !read.End? ==> |reader.rest| < |old(reader.rest)|
  {
    hide IsException, IsRegisterRead, IsRegisterWrite;
    ghost var before := reader.rest;
    var header := reader.ReadExact(2);
    if header.None? {
      return End;
    }
    var function_ := header.value[1];
    assert before == header.value + reader.rest;
    if IsException(function_) {
      read := ReadMore(reader, header.value, 3);
    } else if IsRegisterRead(function_) {
      var count := reader.ReadExact(1);
      if count.None? {
        return Broken;
      }
      assert before == (header.value + count.value) + reader.rest;
      read := ReadMore(reader, header.value + count.value, count.value[0] as nat + 2);
    } else if IsRegisterWrite(function_) {
      read := ReadMore(reader, header.value, 6);
    } else {
      read := ReadMore(reader, header.value, 3);
    }
  }

  function Concat(frames: seq<Bytes>): Bytes {
    if frames == [] then [] else frames[0] + Concat(frames[1..])
  }

  /** Two ways to cut one stream into responses are the same. */
  lemma {:induction false} FramingIsUnique(xs: seq<Bytes>, ys: seq<Bytes>)
    requires forall i :: 0 <= i < |xs| ==> WellFramed(xs[i])
    requires forall i :: 0 <= i < |ys| ==> WellFramed(ys[i])
    requires Concat(xs) == Concat(ys)
    ensures xs == ys
  {
    if xs != [] && ys != [] {
      SameFirstFrame(xs[0], Concat(xs[1..]), ys[0], Concat(ys[1..]));
      FramingIsUnique(xs[1..], ys[1..]);
    }
  }

  lemma SameFirstFrame(x: Bytes, xRest: Bytes, y: Bytes, yRest: Bytes)
    requires WellFramed(x) && WellFramed(y) && x + xRest == y + yRest
    ensures x == y && xRest == yRest
  {
    assert (x + xRest)[1] == x[1] && (x + xRest)[2] == x[2];
    assert (y + yRest)[1] == y[1] && (y + yRest)[2] == y[2];
    assert x == (x + xRest)[..|x|] && y == (y + yRest)[..|y|];
    assert xRest == (x + xRest)[|x|..] && yRest == (y + yRest)[|y|..];
  }

  /** Reading responses one after another splits any sequence of well-framed responses back into exactly
      those responses. */
  method SplitResponses(reader: Reader, ghost frames: seq<Bytes>) returns (read: seq<Bytes>)
    requires forall i :: 0 <= i < |frames| ==> WellFramed(frames[i])
    requires reader.rest == Concat(frames)
    modifies reader
    ensures read == frames
  {
    hide WellFramed;
    read := [];
    while true
      invariant |read| <= |frames| && read == frames[..|read|]
      invariant reader.rest == Concat(frames[|read|..])
      decreases |reader.rest|
    {
      ghost var left := frames[|read|..];
      FirstFrameFits(left);
      var next := ReadResponseFrame(reader);
      if next.End? {
        return;
      }
      SameFirstFrame(next.bytes, reader.rest, left[0], Concat(left[1..]));
      assert left[1..] == frames[|read| + 1..] && left[0] == frames[|read|];
      read := read + [next.bytes];
    }
  }

  lemma FirstFrameFits(frames: seq<Bytes>)
    requires forall i :: 0 <= i < |frames| ==> WellFramed(frames[i])
    ensures frames == [] ==> Concat(frames) == []
    ensures frames != [] ==>
              |Concat(frames)| >= 3 && StartsWithFrame(Concat(frames))
  {
    if frames != [] {
      assert WellFramed(frames[0]);
      assert Concat(frames)[1] == frames[0][1] && Concat(frames)[2] == frames[0][2];
    }
  }

  // ---------------------------------------------------------------- mutations

  datatype Fault =
    | BadCrc
    | Truncated(count: nat)
    | WrongLength
    | WrongFunction(wrongFunction: bv8)
    | WrongSlave(slave: bv8)
    | UnexpectedWords(words: seq<Word>)
    | Delay(milliseconds: nat)
    | InterByteGap(microseconds: nat)

  datatype Mutation = Mutation(failed: bool, delay: nat, gap: Option<nat>)

  function SaturatingByte(x: bv8): bv8 {
    if x > 0xFD then 0xFF else x + 2
  }

  function WordBytes(words: seq<Word>): Bytes {
    if words == [] then []
    else WordBytes(words[..|words| - 1]) + [HighByte(words[|words| - 1]), LowByte(words[|words| - 1])]
  }

  function HighByte(word: Word): bv8 {
    (word / 256) as bv8
  }

  function LowByte(word: Word): bv8 {
    (word % 256) as bv8
  }

  function ByteCount(words: seq<Word>): bv8
    requires |words| <= 127
  {
    (2 * |words|) as bv8
  }

  function Flipped(byte: bv8): bv8 {
    byte ^ 0x01
  }

  predicate IsReadResponse(frame: Bytes) {
    |frame| >= 5 && IsRegisterRead(frame[1])
  }

  function Body(frame: Bytes): Bytes {
    if |frame| >= 2 then frame[..|frame| - 2] else frame
  }

  /** Whether `fault` can be applied to `frame`. */
  predicate Applicable(frame: Bytes, fault: Fault) {
    match fault
    case BadCrc => frame != []
    case WrongLength => IsReadResponse(frame)
    case WrongFunction(_) => |frame| >= 4
    case WrongSlave(_) => |frame| >= 4
    case UnexpectedWords(words) => IsReadResponse(frame) && |words| <= 127
    case _ => true
  }

  /** The mutated frame. A list of words too long for a byte count leaves the frame cut down to its first
      two bytes; any other inapplicable fault leaves it alone. */
  function Mutated(frame: Bytes, fault: Fault): Bytes {
    match fault
    case BadCrc => if frame == [] then frame else frame[..|frame| - 1] + [Flipped(frame[|frame| - 1])]
    case Truncated(count) => frame[..Min(Max(|frame| - count, 1), |frame|)]
    case WrongLength => if IsReadResponse(frame) then Sealed(Body(frame)[2 := SaturatingByte(frame[2])]) else frame
    case WrongFunction(f) => if |frame| >= 4 then Sealed(Body(frame)[1 := f]) else frame
    case WrongSlave(slave) => if |frame| >= 4 then Sealed(Body(frame)[0 := slave]) else frame
    case UnexpectedWords(words) =>
      if !IsReadResponse(frame) then frame
      else if |words| > 127 then frame[..2]
      else Sealed(frame[..2] + [ByteCount(words)] + WordBytes(words))
    case _ => frame
  }

  class WireFrame {
    var bytes: Bytes

    constructor (bytes: Bytes)
      ensures this.bytes == bytes
    {
      this.bytes := bytes;
    }

    method AppendCrc()
      modifies this
      ensures bytes == Sealed(old(bytes))
    {
      var crc := ModbusCrc(bytes);
      bytes := bytes + [Low(crc), High(crc)];
    }

    method ReplaceCrc()
      modifies this
      ensures bytes == if |old(bytes)| >= 2 then Sealed(Body(old(bytes))) else old(bytes)
    {
      if |bytes| >= 2 {
        bytes := bytes[..|bytes| - 2];
        AppendCrc();
      }
    }

    method PushWords(words: seq<Word>)
      modifies this
      ensures bytes == old(bytes) + WordBytes(words)
    {
      for i := 0 to |words|
        invariant bytes == old(bytes) + WordBytes(words[..i])
      {
        assert words[..i + 1][..i] == words[..i];
        bytes := bytes + [HighByte(words[i]), LowByte(words[i])];
      }
      assert words[..|words|] == words;
    }

    method ApplyFault(fault: Fault) returns (mutation: Mutation)
      modifies this
      ensures bytes == Mutated(old(bytes), fault)
      ensures mutation.failed <==> !Applicable(old(bytes), fault)
      ensures mutation.delay == DelayOf(fault) && mutation.gap == GapOf(fault)
    {
      hide Sealed, SaturatingByte, ByteCount, Flipped, IsRegisterRead, WordBytes;
      mutation := Mutation(false, 0, None);
      match fault
      case BadCrc =>
        if bytes == [] {
          return mutation.(failed := true);
        }
        bytes := bytes[|bytes| - 1 := Flipped(bytes[|bytes| - 1])];
        assert bytes == old(bytes)[..|bytes| - 1] + [Flipped(old(bytes)[|bytes| - 1])];
      case Truncated(count) =>
        var keep := Max(if count <= |bytes| then |bytes| - count else 0, 1);
        bytes := bytes[..Min(keep, |bytes|)];
      case WrongLength =>
        if |bytes| < 5 || !IsRegisterRead(bytes[1]) {
          return mutation.(failed := true);
        }
        bytes := bytes[2 := SaturatingByte(bytes[2])];
        assert Body(bytes) == Body(old(bytes))[2 := SaturatingByte(old(bytes)[2])];
        ReplaceCrc();
      case WrongFunction(f) =>
        if |bytes| < 4 {
          return mutation.(failed := true);
        }
        bytes := bytes[1 := f];
        assert Body(bytes) == Body(old(bytes))[1 := f];
        ReplaceCrc();
      case WrongSlave(slave) =>
        if |bytes| < 4 {
          return mutation.(failed := true);
        }
        bytes := bytes[0 := slave];
        assert Body(bytes) == Body(old(bytes))[0 := slave];
        ReplaceCrc();
      case UnexpectedWords(words) =>
        if |bytes| < 5 || !IsRegisterRead(bytes[1]) {
          return mutation.(failed := true);
        }
        bytes := [bytes[0], bytes[1]];
        assert bytes == old(bytes)[..2];
        if 2 * |words| > 255 {
          return mutation.(failed := true);
        }
        bytes := bytes + [ByteCount(words)];
        PushWords(words);
        AppendCrc();
      case Delay(milliseconds) => mutation := mutation.(delay := milliseconds);
      case InterByteGap(microseconds) => mutation := mutation.(gap := Some(microseconds));
    }
  }

  /** A corrupted checksum is always noticed: a frame whose checksum was right is left with a non-zero one. */
  lemma BadCrcIsNoticed(frame: Bytes)
    requires frame != [] && Crc(frame) == 0
    ensures Crc(Mutated(frame, BadCrc)) != 0
  {
    hide Crc;
    var n := |frame| - 1;
    FlipChanges(frame[n]);
    OneByteChangesCrc(frame[..n], frame[n], Flipped(frame[n]), []);
    assert frame[..n] + [frame[n]] + [] == frame;
    assert frame[..n] + [Flipped(frame[n])] + [] == Mutated(frame, BadCrc);
  }

  lemma FlipChanges(byte: bv8)
    ensures Flipped(byte) != byte
  {
  }

  /** The faults that lie about content keep the checksum right, so that only their content gives them away. */
  lemma LyingFaultsAreSealed(frame: Bytes, fault: Fault)
    requires fault.WrongLength? || fault.WrongFunction? || fault.WrongSlave? || fault.UnexpectedWords?
    requires Applicable(frame, fault)
    ensures Crc(Mutated(frame, fault)) == 0
  {
    hide Crc, Sealed;
    match fault
    case WrongLength => SealedHasNoResidue(Body(frame)[2 := SaturatingByte(frame[2])]);
    case WrongFunction(f) => SealedHasNoResidue(Body(frame)[1 := f]);
    case WrongSlave(slave) => SealedHasNoResidue(Body(frame)[0 := slave]);
    case UnexpectedWords(words) => SealedHasNoResidue(frame[..2] + [ByteCount(words)] + WordBytes(words));
  }

  // ---------------------------------------------------------------- the response loop

  /** What the client sees of the proxy: one byte, or a pause in microseconds. */
  datatype Action = Put(byte: bv8) | Pause(microseconds: nat)

  datatype FaultRecord = FaultRecord(index: nat, fault: Fault, original: Bytes, emitted: Bytes)

  /** How forwarding ends: at the end of the stream, inside a response, at a fault that cannot be applied, or
      at a failing write. */
  datatype Ending = Finished | Unreadable | Refused | Unwritable

  /** The index the schedule knows the `n`-th response (from zero) by. */
  function IndexOf(n: nat): nat {
    Min(n + 1, U64_MAX)
  }

  predicate MayPass(frame: Bytes, index: nat, schedule: map<nat, Fault>) {
    index in schedule ==> Applicable(frame, schedule[index])
  }

  function EmittedFor(frame: Bytes, index: nat, schedule: map<nat, Fault>): Bytes {
    if index in schedule then Mutated(frame, schedule[index]) else frame
  }

  function Puts(bytes: Bytes): (actions: seq<Action>)
    ensures |actions| == |bytes|
  {
    seq(|bytes|, i requires 0 <= i < |bytes| => Put(bytes[i]))
  }

  /** A pause after every byte. */
  function Spaced(bytes: Bytes, gap: nat): seq<Action> {
    if bytes == [] then [] else Spaced(bytes[..|bytes| - 1], gap) + [Put(bytes[|bytes| - 1]), Pause(gap)]
  }

  /** Emitting `bytes` after a delay in milliseconds, in one piece or with a gap in microseconds. */
  function Timed(bytes: Bytes, delay: nat, gap: Option<nat>): seq<Action> {
    (if delay == 0 then [] else [Pause(1000 * delay)]) + if gap.Some? then Spaced(bytes, gap.value) else Puts(bytes)
  }

  function DelayOf(fault: Fault): nat {
    if fault.Delay? then fault.milliseconds else 0
  }

  function GapOf(fault: Fault): Option<nat> {
    if fault.InterByteGap? then Some(fault.microseconds) else None
  }

  function ActionsFor(frame: Bytes, index: nat, schedule: map<nat, Fault>): seq<Action> {
    if index !in schedule then Timed(frame, 0, None)
    else Timed(Mutated(frame, schedule[index]), DelayOf(schedule[index]), GapOf(schedule[index]))
  }

  function RecordsFor(frame: Bytes, index: nat, schedule: map<nat, Fault>): seq<FaultRecord> {
    if index in schedule then [FaultRecord(index, schedule[index], frame, Mutated(frame, schedule[index]))] else []
  }

  function Emitted(frames: seq<Bytes>, schedule: map<nat, Fault>): seq<Bytes> {
    if frames == [] then []
    else
      var n := |frames| - 1;
      Emitted(frames[..n], schedule) + [EmittedFor(frames[n], IndexOf(n), schedule)]
  }

  function Actions(frames: seq<Bytes>, schedule: map<nat, Fault>): seq<Action> {
    if frames == [] then []
    else
      var n := |frames| - 1;
      Actions(frames[..n], schedule) + ActionsFor(frames[n], IndexOf(n), schedule)
  }

  function Records(frames: seq<Bytes>, schedule: map<nat, Fault>): seq<FaultRecord> {
    if frames == [] then []
    else
      var n := |frames| - 1;
      Records(frames[..n], schedule) + RecordsFor(frames[n], IndexOf(n), schedule)
  }

  predicate AllPass(frames: seq<Bytes>, schedule: map<nat, Fault>) {
    forall i :: 0 <= i < |frames| ==> MayPass(frames[i], IndexOf(i), schedule)
  }

  lemma ForwardedExtends(frames: seq<Bytes>, frame: Bytes, schedule: map<nat, Fault>)
    ensures Actions(frames + [frame], schedule) == Actions(frames, schedule) + ActionsFor(frame, IndexOf(|frames|), schedule)
    ensures Records(frames + [frame], schedule) == Records(frames, schedule) + RecordsFor(frame, IndexOf(|frames|), schedule)
    ensures AllPass(frames, schedule) && MayPass(frame, IndexOf(|frames|), schedule) ==> AllPass(frames + [frame], schedule)
  {
    hide ActionsFor, RecordsFor, MayPass;
    assert (frames + [frame])[..|frames|] == frames;
  }

  lemma NothingForwarded(schedule: map<nat, Fault>)
    ensures Actions([], schedule) == [] && Records([], schedule) == [] && AllPass([], schedule)
  {
  }

  lemma {:induction false} SpacedGrows(bytes: Bytes, n: nat, gap: nat)
    requires n <= |bytes|
    ensures Spaced(bytes[..n], gap) <= Spaced(bytes, gap)
  {
    if n == |bytes| {
      assert bytes[..n] == bytes;
    } else {
      SpacedGrows(bytes[..|bytes| - 1], n, gap);
      assert bytes[..|bytes| - 1][..n] == bytes[..n];
    }
  }

  class FaultProxy {
    const reader: Reader
    const schedule: map<nat, Fault>
    var records: seq<FaultRecord>
    /** Everything the client has seen so far. */
    ghost var seen: seq<Action>

    constructor (reader: Reader, schedule: map<nat, Fault>)
      ensures this.reader == reader && this.schedule == schedule && records == [] && seen == []
    {
      this.reader, this.schedule, records, seen := reader, schedule, [], [];
    }

    /** A write and its flush. It may fail after any number of its bytes. */
    method WriteAll(bytes: Bytes) returns (ok: bool)
      modifies this`seen
      ensures ok ==> seen == old(seen) + Puts(bytes)
      ensures !ok ==> old(seen) <= seen <= old(seen) + Puts(bytes)
    {
      ok := *;
      assert ok ==> Puts(bytes)[..|bytes|] == Puts(bytes);
      ghost var sent: nat :| sent <= |bytes| && (ok ==> sent == |bytes|);
      seen := seen + Puts(bytes)[..sent];
    }

    method Sleep(microseconds: nat)
      modifies this`seen
      ensures seen == old(seen) + [Pause(microseconds)]
    {
      seen := seen + [Pause(microseconds)];
    }

    method WriteSpaced(bytes: Bytes, gap: nat) returns (ok: bool)
      modifies this`seen
      ensures ok ==> seen == old(seen) + Spaced(bytes, gap)
      ensures !ok ==> old(seen) <= seen <= old(seen) + Spaced(bytes, gap)
    {
      ghost var before := seen;
      for i := 0 to |bytes|
        invariant seen == before + Spaced(bytes[..i], gap)
      {
        assert bytes[..i + 1][..i] == bytes[..i];
        SpacedGrows(bytes, i + 1, gap);
        ghost var spaced := seen;
        ok := WriteAll([bytes[i]]);
        assert Puts([bytes[i]]) == [Put(bytes[i])];
        if !ok {
          assert spaced + [Put(bytes[i])] <= before + Spaced(bytes[..i + 1], gap);
          return;
        }
        Sleep(gap);
      }
      assert bytes[..|bytes|] == bytes;
      ok := true;
    }

    method Emit(bytes: Bytes, delay: nat, gap: Option<nat>) returns (ok: bool)
      modifies this`seen
      ensures ok ==> seen == old(seen) + Timed(bytes, delay, gap)
      ensures !ok ==> old(seen) <= seen <= old(seen) + Timed(bytes, delay, gap)
    {
      hide Puts, Spaced;
      if delay != 0 {
        Sleep(1000 * delay);
      }
      if gap.Some? {
        ok := WriteSpaced(bytes, gap.value);
      } else {
        ok := WriteAll(bytes);
      }
    }

    /** Mutates, records and emits one response. */
    method ForwardOne(response: Bytes, index: nat) returns (failure: Option<Ending>)
      modifies this`records, this`seen
      ensures failure in {None, Some(Refused), Some(Unwritable)}
      ensures failure == Some(Refused) <==> !MayPass(response, index, schedule)
      ensures failure == Some(Refused) ==> unchanged(this)
      ensures failure != Some(Refused) ==> records == old(records) + RecordsFor(response, index, schedule)
      ensures failure.None? ==> seen == old(seen) + ActionsFor(response, index, schedule)
      ensures failure == Some(Unwritable) ==> old(seen) <= seen <= old(seen) + ActionsFor(response, index, schedule)
    {
      hide Timed, DelayOf, GapOf, Applicable, Mutated;
      var frame := new WireFrame(response);
      var delay, gap := 0, None;
      if index in schedule {
        var mutation := frame.ApplyFault(schedule[index]);
        if mutation.failed {
          return Some(Refused);
        }
        delay, gap := mutation.delay, mutation.gap;
        records := records + [FaultRecord(index, schedule[index], response, frame.bytes)];
      }
      var ok := Emit(frame.bytes, delay, gap);
      failure := if ok then None else Some(Unwritable);
    }

    /** Splits the stream into responses and forwards them in order until something ends it. `frames` are the
        responses taken off the stream, `left` is what follows them. */
    method ForwardResponses() returns (ending: Ending, ghost frames: seq<Bytes>, ghost left: Bytes)
      modifies this`records, this`seen, reader
      ensures forall i :: 0 <= i < |frames| ==> WellFramed(frames[i])
      ensures old(reader.rest) == Concat(frames) + left
      ensures ending.Finished? ==> |left| < 2
      ensures ending.Unreadable? ==> |left| >= 2 && !StartsWithFrame(left)
      ensures ending.Finished? || ending.Unreadable? ==>
                && AllPass(frames, schedule)
                && seen == old(seen) + Actions(frames, schedule)
                && records == old(records) + Records(frames, schedule)
      ensures ending.Refused? ==>
                && frames != []
                && var passed := frames[..|frames| - 1];
                && AllPass(passed, schedule) && !MayPass(frames[|passed|], IndexOf(|passed|), schedule)
                && seen == old(seen) + Actions(passed, schedule)
                && records == old(records) + Records(passed, schedule)
      ensures ending.Unwritable? ==>
                && frames != []
                && AllPass(frames, schedule)
                && old(seen) + Actions(frames[..|frames| - 1], schedule) <= seen <= old(seen) + Actions(frames, schedule)
                && records == old(records) + Records(frames, schedule)
    {
      hide Actions, Records, ActionsFor, RecordsFor, AllPass, MayPass, WellFramed, StartsWithFrame;
      frames, left := [], reader.rest;
      NothingForwarded(schedule);
      var responseIndex := 0;
      while true
        invariant responseIndex == Min(|frames|, U64_MAX)
        invariant forall i :: 0 <= i < |frames| ==> WellFramed(frames[i])
        invariant old(reader.rest) == Concat(frames) + left && left == reader.rest
        invariant AllPass(frames, schedule)
        invariant seen == old(seen) + Actions(frames, schedule)
        invariant records == old(records) + Records(frames, schedule)
        decreases |reader.rest|
      {
        var read := ReadResponseFrame(reader);
        if read.Broken? {
          return Unreadable, frames, left;
        }
        if read.End? {
          return Finished, frames, left;
        }
        responseIndex := SaturatingAdd(responseIndex, 1, U64_MAX);
        ConcatExtends(frames, read.bytes);
        ForwardedExtends(frames, read.bytes, schedule);
        ghost var passed := frames;
        frames, left := frames + [read.bytes], reader.rest;
        assert frames[..|frames| - 1] == passed;
        var failure := ForwardOne(read.bytes, responseIndex);
        if failure.Some? {
          return failure.value, frames, left;
        }
      }
    }
  }

  lemma {:induction false} ConcatExtends(frames: seq<Bytes>, frame: Bytes)
    ensures Concat(frames + [frame]) == Concat(frames) + frame
  {
    if frames == [] {
      assert [] + [frame] == [frame];
    } else {
      ConcatExtends(frames[1..], frame);
      assert (frames + [frame])[1..] == frames[1..] + [frame];
    }
  }

  // ---------------------------------------------------------------- what the client receives

  /** The bytes of a run, without its pauses. */
  function Received(actions: seq<Action>): Bytes {
    if actions == [] then []
    else
      var n := |actions| - 1;
      Received(actions[..n]) + if actions[n].Put? then [actions[n].byte] else []
  }

  lemma {:induction false} ReceivedSplits(before: seq<Action>, after: seq<Action>)
    ensures Received(before + after) == Received(before) + Received(after)
  {
    if after == [] {
      assert before + after == before;
    } else {
      var n := |after| - 1;
      ReceivedSplits(before, after[..n]);
      assert (before + after)[..|before| + n] == before + after[..n];
    }
  }

  lemma {:induction false} PutsAreReceived(bytes: Bytes)
    ensures Received(Puts(bytes)) == bytes
  {
    if bytes != [] {
      PutsAreReceived(bytes[..|bytes| - 1]);
      assert Puts(bytes)[..|bytes| - 1] == Puts(bytes[..|bytes| - 1]);
    }
  }

  lemma {:induction false} SpacedAreReceived(bytes: Bytes, gap: nat)
    ensures Received(Spaced(bytes, gap)) == bytes
  {
    if bytes != [] {
      var n := |bytes| - 1;
      SpacedAreReceived(bytes[..n], gap);
      ReceivedSplits(Spaced(bytes[..n], gap), [Put(bytes[n]), Pause(gap)]);
      assert [Put(bytes[n]), Pause(gap)][..1] == [Put(bytes[n])];
      assert Received([Put(bytes[n])]) == [bytes[n]];
    }
  }

  lemma TimedIsReceived(bytes: Bytes, delay: nat, gap: Option<nat>)
    ensures Received(Timed(bytes, delay, gap)) == bytes
  {
    hide Puts, Spaced;
    PutsAreReceived(bytes);
    var pause := if delay == 0 then [] else [Pause(1000 * delay)];
    assert pause != [] ==> pause[..0] == [];
    if gap.Some? {
      SpacedAreReceived(bytes, gap.value);
      ReceivedSplits(pause, Spaced(bytes, gap.value));
    } else {
      ReceivedSplits(pause, Puts(bytes));
    }
  }

  lemma ResponseIsReceived(frame: Bytes, index: nat, schedule: map<nat, Fault>)
    ensures Received(ActionsFor(frame, index, schedule)) == EmittedFor(frame, index, schedule)
  {
    hide Timed, Mutated;
    if index in schedule {
      TimedIsReceived(Mutated(frame, schedule[index]), DelayOf(schedule[index]), GapOf(schedule[index]));
    } else {
      TimedIsReceived(frame, 0, None);
    }
  }

  /** Pauses aside, the client receives the emitted responses one after another. */
  lemma {:induction false} EmittedIsReceived(frames: seq<Bytes>, schedule: map<nat, Fault>)
    ensures Received(Actions(frames, schedule)) == Concat(Emitted(frames, schedule))
  {
    hide ActionsFor, EmittedFor;
    if frames != [] {
      var n := |frames| - 1;
      EmittedIsReceived(frames[..n], schedule);
      ResponseIsReceived(frames[n], IndexOf(n), schedule);
      ReceivedSplits(Actions(frames[..n], schedule), ActionsFor(frames[n], IndexOf(n), schedule));
      ConcatExtends(Emitted(frames[..n], schedule), EmittedFor(frames[n], IndexOf(n), schedule));
    }
  }

  predicate TimingOnly(schedule: map<nat, Fault>) {
    forall index :: index in schedule ==> schedule[index].Delay? || schedule[index].InterByteGap?
  }

  /** A schedule of delays and gaps never refuses a response and leaves every byte as it was. */
  lemma {:induction false} TimingKeepsTheBytes(frames: seq<Bytes>, schedule: map<nat, Fault>)
    requires TimingOnly(schedule)
    ensures AllPass(frames, schedule) && Received(Actions(frames, schedule)) == Concat(frames)
  {
    hide Actions, Received, Concat, Emitted;
    EmittedIsReceived(frames, schedule);
    TimingKeepsTheResponses(frames, schedule);
  }

  lemma {:induction false} TimingKeepsTheResponses(frames: seq<Bytes>, schedule: map<nat, Fault>)
    requires TimingOnly(schedule)
    ensures Emitted(frames, schedule) == frames
  {
    if frames != [] {
      TimingKeepsTheResponses(frames[..|frames| - 1], schedule);
    }
  }
}
