/**
Requests that must not be retried blindly: the framed write under a deadline, the mark that says
the request may have reached the daemon, and how exec, create-directory and shutdown report a
failure on either side of that mark.
*/
module Submission {
  import opened Common

  const MAX_REQUEST_FRAME: nat := 512 * 1024
  const MAX_CONTROL_FRAME: nat := 16 * 1024
  const MAX_COMMAND_OUTPUT: nat := 8 * 1024 * 1024
  const U32_END: nat := 0x1_0000_0000

  // ---------------------------------------------------------------- frames on the wire

  function BigEndian(n: nat): (b: Bytes)
    requires n < U32_END
    ensures |b| == 4
  {
    [(n / 0x100_0000) as byte, (n / 0x1_0000 % 256) as byte, (n / 256 % 256) as byte, (n % 256) as byte]
  }

  function Number(b: Bytes): nat
    requires |b| == 4
  {
    b[0] as nat * 0x100_0000 + b[1] as nat * 0x1_0000 + b[2] as nat * 256 + b[3] as nat
  }

  lemma NumberOfBigEndian(n: nat)
    requires n < U32_END
    ensures Number(BigEndian(n)) == n
  {
    assert n / 0x1_0000 == n / 256 / 256 && n / 0x100_0000 == n / 0x1_0000 / 256;
  }

  function Wire(json: Bytes): Bytes
    requires |json| < U32_END
  {
    BigEndian(|json|) + json
  }

  /** The first complete frame in what the peer has been given, if there is one. */
  function Received(given: Bytes): Option<Bytes> {
    if |given| < 4 || |given| - 4 < Number(given[..4]) then None
    else Some(given[4..4 + Number(given[..4])])
  }

  /** The peer can decode the request exactly when it was given all of the frame. */
  lemma ReceivedExactlyWhenWhole(json: Bytes, given: Bytes)
    requires |json| < U32_END && given <= Wire(json)
    ensures Received(given) == if given == Wire(json) then Some(json) else None
  {
    NumberOfBigEndian(|json|);
    if |given| >= 4 {
      assert given[..4] == Wire(json)[..4] == BigEndian(|json|);
      if |given| == |Wire(json)| {
        assert given == Wire(json);
        assert given[4..4 + |json|] == json;
      }
    }
  }

  // ---------------------------------------------------------------- writing under a deadline

  /** What the writer does if it is polled. A flush treats any `Took` as done. */
  datatype Answer = Pending | Took(n: nat) | Broken

  /** One poll of the write: the clock it reads and what the writer would answer. */
  datatype Turn = Turn(clock: nat, answer: Answer)

  datatype Poll = Waiting | Ready(n: nat) | PollFailed | PollLate

  /** `Abandoned`: the timeout fired, or the future was dropped, while the write was suspended. */
  datatype Outcome = Written | TooLarge | DeadlinePassed | WriteZero | WriterFailed | Abandoned

  /** What becomes of a write: its outcome, the turns it takes, and the bytes the writer accepts. */
  datatype Fate = Fate(outcome: Outcome, turns: nat, bytes: nat)

  /** The fate of `need` bytes from turn `i` on. */
  function BufferFate(script: seq<Turn>, deadline: nat, i: nat, need: nat): (f: Fate)
    requires i <= |script|
    ensures i + f.turns <= |script| && f.bytes <= need && (f.outcome == Written <==> f.bytes == need)
    ensures f.outcome != TooLarge
    decreases |script| - i
  {
    if need == 0 then Fate(Written, 0, 0)
    else if i == |script| then Fate(Abandoned, 0, 0)
    else if script[i].clock >= deadline then Fate(DeadlinePassed, 1, 0)
    else match script[i].answer
      case Broken => Fate(WriterFailed, 1, 0)
      case Pending =>
        var f := BufferFate(script, deadline, i + 1, need);
        f.(turns := f.turns + 1)
      case Took(n) =>
        if n == 0 then Fate(WriteZero, 1, 0)
        else
          var took := Min(n, need);
          var f := BufferFate(script, deadline, i + 1, need - took);
          Fate(f.outcome, f.turns + 1, f.bytes + took)
  }

  /** The fate of a flush from turn `i` on. */
  function FlushFate(script: seq<Turn>, deadline: nat, i: nat): (f: Fate)
    requires i <= |script|
    ensures i + f.turns <= |script| && f.bytes == 0 && f.outcome != TooLarge && f.outcome != WriteZero
    decreases |script| - i
  {
    if i == |script| then Fate(Abandoned, 0, 0)
    else if script[i].clock >= deadline then Fate(DeadlinePassed, 1, 0)
    else match script[i].answer
      case Broken => Fate(WriterFailed, 1, 0)
      case Took(_) => Fate(Written, 1, 0)
      case Pending =>
        var f := FlushFate(script, deadline, i + 1);
        f.(turns := f.turns + 1)
  }

  /** One fate after another. */
  function After(first: Fate, second: Fate): Fate {
    Fate(second.outcome, first.turns + second.turns, first.bytes + second.bytes)
  }

  /** The fate of a frame with a payload of `size` bytes: length prefix, payload, flush. */
  function FrameFate(script: seq<Turn>, deadline: nat, start: nat, size: nat, limit: nat): (f: Fate)
    ensures f.turns <= |script| && f.bytes <= 4 + size
    ensures f.outcome == Written ==> f.bytes == 4 + size
  {
    if start >= deadline then Fate(DeadlinePassed, 0, 0)
    else if size > limit || size >= U32_END then Fate(TooLarge, 0, 0)
    else
      var header := BufferFate(script, deadline, 0, 4);
      if header.outcome != Written then header
      else
        var body := BufferFate(script, deadline, header.turns, size);
        var both := After(header, body);
        if body.outcome != Written then both else After(both, FlushFate(script, deadline, both.turns))
  }

  /** What the peer is given of the frame. */
  function Given(json: Bytes, f: Fate): Bytes
    requires f.bytes <= 4 + |json|
  {
    if |json| < U32_END then Wire(json)[..f.bytes] else []
  }

  /** The peer can decode the request exactly when all bytes of the frame were accepted, otherwise nothing. */
  lemma DecodableExactlyWhenAccepted(json: Bytes, f: Fate)
    requires f.bytes <= 4 + |json| && (|json| >= U32_END ==> f.bytes == 0)
    ensures Received(Given(json, f)) == if f.bytes == 4 + |json| then Some(json) else None
  {
    if |json| < U32_END {
      ReceivedExactlyWhenWhole(json, Given(json, f));
    }
  }

  /** The turns account for the outcome: the last one taken shows the failure, and none before it failed or was late. */
  predicate Explains(script: seq<Turn>, deadline: nat, i: nat, f: Fate)
    requires i + f.turns <= |script|
  {
    && (forall k :: i <= k < i + f.turns - 1 ==> script[k].clock < deadline && script[k].answer != Broken)
    && (match f.outcome
        case Written => f.turns > 0 ==> Punctually(script[i + f.turns - 1], deadline)
        case DeadlinePassed => f.turns > 0 && script[i + f.turns - 1].clock >= deadline
        case WriterFailed => f.turns > 0 && script[i + f.turns - 1] == Turn(script[i + f.turns - 1].clock, Broken)
        case WriteZero => f.turns > 0 && script[i + f.turns - 1].answer == Took(0)
        case Abandoned => i + f.turns == |script| && (f.turns > 0 ==> Punctually(script[i + f.turns - 1], deadline))
        case TooLarge => false)
  }

  predicate Punctually(t: Turn, deadline: nat) {
    t.clock < deadline && t.answer != Broken
  }

  lemma {:induction false} BufferFateExplained(script: seq<Turn>, deadline: nat, i: nat, need: nat)
    requires i <= |script|
    ensures Explains(script, deadline, i, BufferFate(script, deadline, i, need))
    decreases |script| - i
  {
    if need > 0 && i < |script| && Punctually(script[i], deadline) {
      match script[i].answer
      case Pending => BufferFateExplained(script, deadline, i + 1, need);
      case Took(n) => if n > 0 { BufferFateExplained(script, deadline, i + 1, need - Min(n, need)); }
    }
  }

  lemma {:induction false} FlushFateExplained(script: seq<Turn>, deadline: nat, i: nat)
    requires i <= |script|
    ensures Explains(script, deadline, i, FlushFate(script, deadline, i))
    decreases |script| - i
  {
    if i < |script| && script[i].clock < deadline && script[i].answer == Pending {
      FlushFateExplained(script, deadline, i + 1);
    }
  }

  lemma ExplainsAfter(script: seq<Turn>, deadline: nat, first: Fate, second: Fate)
    requires first.turns + second.turns <= |script| && first.outcome == Written
    requires Explains(script, deadline, 0, first) && Explains(script, deadline, first.turns, second)
    ensures Explains(script, deadline, 0, After(first, second))
  {
  }

  /** A frame fails only by its size, for a late start, or for what the last turn it took shows. */
  lemma FrameFateExplained(script: seq<Turn>, deadline: nat, start: nat, size: nat, limit: nat)
    requires start < deadline && size <= limit && size < U32_END
    ensures Explains(script, deadline, 0, FrameFate(script, deadline, start, size, limit))
  {
    var header := BufferFate(script, deadline, 0, 4);
    BufferFateExplained(script, deadline, 0, 4);
    if header.outcome == Written {
      var body := BufferFate(script, deadline, header.turns, size);
      BufferFateExplained(script, deadline, header.turns, size);
      ExplainsAfter(script, deadline, header, body);
      if body.outcome == Written {
        var both := After(header, body);
        FlushFateExplained(script, deadline, both.turns);
        ExplainsAfter(script, deadline, both, FlushFate(script, deadline, both.turns));
      }
    }
  }

  lemma MoreAccepted(before: Bytes, buffer: Bytes, at: nat, n: nat)
    requires at + n <= |buffer|
    ensures (before + buffer[..at]) + buffer[at..][..n] == before + buffer[..at + n]
  {
    assert buffer[..at] + buffer[at..][..n] == buffer[..at + n];
  }

  class DeadlineAwareWriter {
    const deadline: nat
    /** How the writer splits, delays or fails, and when it is polled; `next` is the turn to come. */
    const script: seq<Turn>
    var next: nat
    /** Everything the writer behind this one has accepted. */
    var accepted: Bytes
    /** Clock readings of the polls that reached the writer behind this one. */
    ghost var reached: seq<nat>

    constructor (deadline: nat, script: seq<Turn>)
      ensures this.deadline == deadline && this.script == script && Fresh() && Punctual()
    {
      this.deadline, this.script := deadline, script;
      next, accepted, reached := 0, [], [];
    }

    predicate Fresh()
      reads this`next, this`accepted
    {
      next == 0 && accepted == []
    }

    /** No poll reached the writer behind this one at or after the deadline. */
    ghost predicate Punctual()
      reads this
    {
      next <= |script| && forall i :: 0 <= i < |reached| ==> reached[i] < deadline
    }

    /** Only turns taken reach the writer behind this one. */
    twostate predicate PolledByTurn()
      reads this
    {
      old(next) <= next && old(reached) <= reached && |reached| - |old(reached)| <= next - old(next)
    }

    /** `poll_write` and `poll_flush`: the deadline is checked before the writer is polled. */
    method PollWrite(buffer: Bytes) returns (r: Poll)
      requires Punctual() && next < |script|
      modifies this
      ensures Punctual() && PolledByTurn() && next == old(next) + 1
      ensures var turn := script[old(next)];
        && (r == PollLate <==> turn.clock >= deadline)
        && (r == PollFailed <==> turn.clock < deadline && turn.answer == Broken)
        && (r == Waiting <==> turn.clock < deadline && turn.answer == Pending)
        && (r.Ready? ==> turn.answer.Took? && r.n == Min(turn.answer.n, |buffer|))
        && accepted == old(accepted) + (if r.Ready? then buffer[..r.n] else [])
        && reached == old(reached) + if turn.clock < deadline then [turn.clock] else []
    {
      var turn := script[next];
      next := next + 1;
      if turn.clock >= deadline {
        return PollLate;
      }
      reached := reached + [turn.clock];
      match turn.answer {
        case Pending => r := Waiting;
        case Broken => r := PollFailed;
        case Took(n) =>
          r := Ready(Min(n, |buffer|));
          accepted := accepted + buffer[..r.n];
      }
    }

    /** `write_all`: polls until the whole buffer is accepted, an error, or the script ends. */
    method WriteAll(buffer: Bytes) returns (r: Outcome)
      requires Punctual()
      modifies this
      ensures Punctual() && PolledByTurn()
      ensures var f := BufferFate(script, deadline, old(next), |buffer|);
        r == f.outcome && next == old(next) + f.turns && accepted == old(accepted) + buffer[..f.bytes]
    {
      ghost var f := BufferFate(script, deadline, next, |buffer|);
      var at := 0;
      while at < |buffer|
        invariant Punctual() && PolledByTurn() && at <= |buffer|
        invariant accepted == old(accepted) + buffer[..at]
        invariant var g := BufferFate(script, deadline, next, |buffer| - at);
          f == Fate(g.outcome, next - old(next) + g.turns, at + g.bytes)
        decreases |script| - next
      {
        if next == |script| {
          return Abandoned;
        }
        var poll := PollWrite(buffer[at..]);
        match poll {
          case PollLate => return DeadlinePassed;
          case PollFailed => return WriterFailed;
          case Waiting =>
          case Ready(n) =>
            if n == 0 {
              return WriteZero;
            }
            MoreAccepted(old(accepted), buffer, at, n);
            at := at + n;
        }
      }
      r := Written;
    }

    method Flush() returns (r: Outcome)
      requires Punctual()
      modifies this
      ensures Punctual() && PolledByTurn() && accepted == old(accepted)
      ensures var f := FlushFate(script, deadline, old(next)); r == f.outcome && next == old(next) + f.turns
    {
      ghost var f := FlushFate(script, deadline, next);
      while true
        invariant Punctual() && PolledByTurn() && accepted == old(accepted)
        invariant var g := FlushFate(script, deadline, next);
          f == Fate(g.outcome, next - old(next) + g.turns, 0)
        decreases |script| - next
      {
        if next == |script| {
          return Abandoned;
        }
        var poll := PollWrite([]);
        match poll {
          case PollLate => return DeadlinePassed;
          case PollFailed => return WriterFailed;
          case Waiting =>
          case Ready(_) => return Written;
        }
      }
    }

    /**
    The request write shared by exec, create-directory and shutdown, on a new writer. `start` is the
    clock of the first poll. `mark` says that the request may have been submitted.
    */
    method WriteFrame(start: nat, json: Bytes, limit: nat) returns (r: Outcome, mark: bool)
      requires Punctual() && Fresh()
      modifies this
      ensures Punctual()
      ensures var f := FrameFate(script, deadline, start, |json|, limit);
        && r == f.outcome && next == f.turns && accepted == Given(json, f)
      ensures PolledByTurn()
      ensures mark <==> IsSubmitted(this, start, |json|, limit)
      ensures mark <==> Received(accepted) == Some(json)
      ensures !mark ==> Received(accepted) == None
      ensures r == Written ==> mark
    {
      mark := false;
      DecodableExactlyWhenAccepted(json, FrameFate(script, deadline, start, |json|, limit));
      if start >= deadline {
        return DeadlinePassed, mark;
      }
      if |json| > limit || |json| >= U32_END {
        return TooLarge, mark;
      }
      var header := BigEndian(|json|);
      r := WriteAll(header);
      if r == Written {
        assert accepted == header;
        r := WriteAll(json);
        if r == Written {
          mark := true;
          r := Flush();
        }
      }
    }
  }

  // ---------------------------------------------------------------- outcome unknown

  /** Failures raised on this side, whose text is part of the wording. */
  datatype Fault = WriteFault(outcome: Outcome) | ReadLate | ReadFault | Disconnected | Unexpected | NoExitStatus
                 | OutputTooLarge

  /** The fixed words of one kind of request: exec and create-directory differ only in these. */
  datatype Wording = Wording(prefix: string, guidance: string, text: Fault -> string)

  datatype Error = Plain(text: string) | Rejected(text: string) | OutcomeUnknown(text: string)

  predicate OccursAt(s: string, part: string, i: nat) {
    i + |part| <= |s| && s[i..i + |part|] == part
  }

  predicate Contains(s: string, part: string) {
    exists i | 0 <= i <= |s| :: OccursAt(s, part, i)
  }

  /** `from_wire_message` accepts the text. */
  predicate SaysUnknown(w: Wording, text: string) {
    w.prefix <= text && Contains(text, w.guidance)
  }

  /** `classify`: once the request may have been submitted, every failure means the outcome is unknown. */
  function Classify(w: Wording, mark: bool, e: Error): Error {
    if !mark || e.OutcomeUnknown? then e
    else if SaysUnknown(w, e.text) then OutcomeUnknown(e.text)
    else OutcomeUnknown(w.prefix + " " + e.text + "; " + w.guidance)
  }

  /** An error message of the peer. */
  function FromPeer(w: Wording, text: string): Error {
    if SaysUnknown(w, text) then OutcomeUnknown(text) else Rejected(text)
  }

  /** A classified failure keeps its meaning, word for word, when one side relays its text to the other. */
  lemma ClassifiedSurvivesRelay(w: Wording, e: Error)
    requires e.OutcomeUnknown? ==> SaysUnknown(w, e.text)
    ensures FromPeer(w, Classify(w, true, e).text) == Classify(w, true, e)
    ensures Classify(w, true, Classify(w, true, e)) == Classify(w, true, e)
  {
    var text := Classify(w, true, e).text;
    if !e.OutcomeUnknown? && !SaysUnknown(w, e.text) {
      assert text == w.prefix + (" " + e.text + "; " + w.guidance);
      assert OccursAt(text, w.guidance, |text| - |w.guidance|);
    }
  }

  // ---------------------------------------------------------------- exec

  datatype Reply = Out(data: Bytes) | Err(data: Bytes) | Exit(code: Option<int>) | PeerError(text: string)
                 | OtherFrame | Eof | ReadFailed

  datatype Result<T> = Ok(value: T) | Failed(error: Error)

  datatype CommandOutput = CommandOutput(stdout: Bytes, stderr: Bytes, code: int)

  predicate Carries(r: Reply) {
    r.Out? || r.Err?
  }

  /** What a reply adds to standard output, or else to standard error. */
  function Carried(r: Reply, out: bool): Bytes {
    if (if out then r.Out? else r.Err?) then r.data else []
  }

  /** What the first `n` replies add to one of the streams. */
  function Stream(replies: seq<Reply>, n: nat, out: bool): Bytes
    requires n <= |replies|
  {
    if n == 0 then [] else Stream(replies, n - 1, out) + Carried(replies[n - 1], out)
  }

  function Stdout(replies: seq<Reply>, n: nat): Bytes
    requires n <= |replies|
  {
    Stream(replies, n, true)
  }

  function Stderr(replies: seq<Reply>, n: nat): Bytes
    requires n <= |replies|
  {
    Stream(replies, n, false)
  }

  function Total(replies: seq<Reply>, n: nat): nat
    requires n <= |replies|
  {
    |Stdout(replies, n)| + |Stderr(replies, n)|
  }

  /** The first reply from `i` on that does not carry output, or the end. */
  function OutputEnd(replies: seq<Reply>, i: nat): (k: nat)
    requires i <= |replies|
    ensures i <= k <= |replies|
    ensures forall j :: i <= j < k ==> Carries(replies[j])
    ensures k < |replies| ==> !Carries(replies[k])
    decreases |replies| - i
  {
    if i == |replies| || !Carries(replies[i]) then i else OutputEnd(replies, i + 1)
  }

  /** What the output and the reply that ended it mean; `None` is the deadline. */
  function Judge(w: Wording, out: Bytes, err: Bytes, end: Option<Reply>): Result<CommandOutput> {
    if |out| + |err| > MAX_COMMAND_OUTPUT then Failed(Plain(w.text(OutputTooLarge)))
    else match end
      case None => Failed(Plain(w.text(ReadLate)))
      case Some(Exit(Some(code))) => Ok(CommandOutput(out, err, code))
      case Some(Exit(None)) => Failed(Plain(w.text(NoExitStatus)))
      case Some(PeerError(text)) => Failed(FromPeer(w, text))
      case Some(Eof) => Failed(Plain(w.text(Disconnected)))
      case Some(ReadFailed) => Failed(Plain(w.text(ReadFault)))
      case Some(_) => Failed(Plain(w.text(Unexpected)))
  }

  function EndReply(replies: seq<Reply>): Option<Reply> {
    var k := OutputEnd(replies, 0);
    if k < |replies| then Some(replies[k]) else None
  }

  /** What the replies mean, taken all at once; they end where the deadline passed. */
  function Meaning(w: Wording, replies: seq<Reply>): Result<CommandOutput> {
    var k := OutputEnd(replies, 0);
    Judge(w, Stdout(replies, k), Stderr(replies, k), EndReply(replies))
  }

  lemma Regroup(a: Bytes, b: Bytes, c: Bytes)
    ensures (a + b) + c == a + (b + c)
  {
  }

  lemma {:induction false} FirstOfStream(f: Reply, replies: seq<Reply>, n: nat, out: bool)
    requires n <= |replies|
    ensures Stream([f] + replies, n + 1, out) == Carried(f, out) + Stream(replies, n, out)
  {
    var all := [f] + replies;
    if n == 0 {
      assert all[0] == f && Stream(all, 0, out) == Stream(replies, 0, out) == [];
      assert [] + Carried(f, out) == Carried(f, out) + [];
    } else {
      FirstOfStream(f, replies, n - 1, out);
      assert all[n] == replies[n - 1];
      Regroup(Carried(f, out), Stream(replies, n - 1, out), Carried(replies[n - 1], out));
    }
  }

  lemma OutputEndShifts(f: Reply, replies: seq<Reply>, i: nat)
    requires i <= |replies|
    ensures OutputEnd([f] + replies, i + 1) == 1 + OutputEnd(replies, i)
    decreases |replies| - i
  {
    if i < |replies| {
      assert ([f] + replies)[i + 1] == replies[i];
      OutputEndShifts(f, replies, i + 1);
    }
  }

  /** `f.data` in front of what the command wrote to the stream of `f`. */
  function InFront(f: Reply, o: CommandOutput): CommandOutput
    requires Carries(f)
  {
    if f.Out? then o.(stdout := f.data + o.stdout) else o.(stderr := f.data + o.stderr)
  }

  /**
  A reply that carries output comes first in its own stream, and changes nothing else unless the
  output is too large with it.
  */
  lemma OutputComesFirst(w: Wording, f: Reply, replies: seq<Reply>)
    requires Carries(f)
    ensures var rest := Meaning(w, replies);
      Meaning(w, [f] + replies) ==
        if |f.data| + Total(replies, OutputEnd(replies, 0)) > MAX_COMMAND_OUTPUT
        then Failed(Plain(w.text(OutputTooLarge)))
        else if rest.Ok? then Ok(InFront(f, rest.value)) else rest
  {
    PartsShift(f, replies);
  }

  lemma PartsShift(f: Reply, replies: seq<Reply>)
    requires Carries(f)
    ensures var all, k := [f] + replies, OutputEnd(replies, 0);
      && OutputEnd(all, 0) == 1 + k && EndReply(all) == EndReply(replies)
      && Stdout(all, 1 + k) == (if f.Out? then f.data + Stdout(replies, k) else Stdout(replies, k))
      && Stderr(all, 1 + k) == (if f.Err? then f.data + Stderr(replies, k) else Stderr(replies, k))
  {
    var all, k := [f] + replies, OutputEnd(replies, 0);
    assert all[0] == f;
    OutputEndShifts(f, replies, 0);
    assert k < |replies| ==> all[1 + k] == replies[k];
    FirstOfStream(f, replies, k, true);
    FirstOfStream(f, replies, k, false);
    assert [] + Stdout(replies, k) == Stdout(replies, k) && [] + Stderr(replies, k) == Stderr(replies, k);
  }

  /** Any other first reply decides: an exit status is success with what was written, here nothing. */
  lemma FirstReplyDecides(w: Wording, f: Reply, rest: seq<Reply>)
    requires !Carries(f)
    ensures var m := Meaning(w, [f] + rest);
      match f
      case Exit(Some(code)) => m == Ok(CommandOutput([], [], code))
      case PeerError(text) => m == Failed(if SaysUnknown(w, text) then OutcomeUnknown(text) else Rejected(text))
      case _ => m.Failed? && m.error.Plain?
  {
    assert ([f] + rest)[0] == f;
    assert OutputEnd([f] + rest, 0) == 0;
  }

  /** No reply in time is a plain failure. */
  lemma SilenceFails(w: Wording)
    ensures Meaning(w, []) == Failed(Plain(w.text(ReadLate)))
  {
  }

  lemma {:induction false} TotalGrows(replies: seq<Reply>, i: nat, j: nat)
    requires i <= j <= |replies|
    ensures Total(replies, i) <= Total(replies, j)
    decreases j
  {
    if i < j {
      TotalGrows(replies, i, j - 1);
    }
  }

  /** `read_exec_response`: frame by frame, refusing as soon as the output exceeds the limit. */
  method ReadExecResponse(w: Wording, replies: seq<Reply>) returns (r: Result<CommandOutput>)
    ensures r == Meaning(w, replies)
  {
    var stdout, stderr := [], [];
    ghost var k := OutputEnd(replies, 0);
    for i := 0 to |replies|
      invariant i <= k
      invariant stdout == Stdout(replies, i) && stderr == Stderr(replies, i)
      invariant |stdout| + |stderr| <= MAX_COMMAND_OUTPUT
    {
      if Carries(replies[i]) {
        var data := replies[i].data;
        if |stdout| + |stderr| + |data| > MAX_COMMAND_OUTPUT {
          TotalGrows(replies, i + 1, k);
          return Failed(Plain(w.text(OutputTooLarge)));
        }
        if replies[i].Out? {
          stdout := stdout + data;
        } else {
          stderr := stderr + data;
        }
      } else {
        match replies[i] {
          case Exit(Some(code)) => return Ok(CommandOutput(stdout, stderr, code));
          case Exit(None) => return Failed(Plain(w.text(NoExitStatus)));
          case PeerError(text) => return Failed(FromPeer(w, text));
          case Eof => return Failed(Plain(w.text(Disconnected)));
          case ReadFailed => return Failed(Plain(w.text(ReadFault)));
          case _ => return Failed(Plain(w.text(Unexpected)));
        }
      }
    }
    return Failed(Plain(w.text(ReadLate)));
  }

  /** The daemon itself said no, and did not say that the outcome is unknown. */
  predicate PlainlyRejected(w: Wording, replies: seq<Reply>) {
    Meaning(w, replies).Failed? && Meaning(w, replies).error.Rejected?
  }

  /** The whole request was written and flushed in time. */
  predicate IsWritten(writer: DeadlineAwareWriter, start: nat, size: nat, limit: nat) {
    FrameFate(writer.script, writer.deadline, start, size, limit).outcome == Written
  }

  /** The daemon can decode the request. */
  predicate IsSubmitted(writer: DeadlineAwareWriter, start: nat, size: nat, limit: nat) {
    FrameFate(writer.script, writer.deadline, start, size, limit).bytes == 4 + size
  }

  /**
  `exec_capture_with_timeout_inner` after the connection: a failure is outcome-unknown exactly when
  the daemon was given the complete request and did not plainly reject it. So any other failure is
  safe to retry: the daemon rejected the request or can never decode it.
  */
  method ExecCapture(w: Wording, writer: DeadlineAwareWriter, start: nat, json: Bytes, replies: seq<Reply>)
    returns (r: Result<CommandOutput>)
    requires writer.Punctual() && writer.Fresh()
    modifies writer
    ensures writer.Punctual()
    ensures Received(writer.accepted) == Some(json) <==> IsSubmitted(writer, start, |json|, MAX_REQUEST_FRAME)
    ensures var written := IsWritten(writer, start, |json|, MAX_REQUEST_FRAME);
      var submitted := IsSubmitted(writer, start, |json|, MAX_REQUEST_FRAME);
      && (r.Ok? <==> written && Meaning(w, replies).Ok?)
      && (r.Ok? ==> r == Meaning(w, replies))
      && (r.Failed? ==> (r.error.OutcomeUnknown? <==> submitted && !(written && PlainlyRejected(w, replies))))
      && (r.Failed? && r.error.Rejected? ==> r == Meaning(w, replies))
    ensures r.Failed? && !r.error.OutcomeUnknown? ==> r.error.Rejected? || Received(writer.accepted) == None
  {
    var outcome, mark := writer.WriteFrame(start, json, MAX_REQUEST_FRAME);
    r := ConcludeExec(w, outcome, mark, replies);
  }

  /** The exchange after the write. */
  method ConcludeExec(w: Wording, outcome: Outcome, mark: bool, replies: seq<Reply>) returns (r: Result<CommandOutput>)
    requires outcome == Written ==> mark
    ensures r.Ok? <==> outcome == Written && Meaning(w, replies).Ok?
    ensures r.Ok? ==> r == Meaning(w, replies)
    ensures r.Failed? ==>
      (r.error.OutcomeUnknown? <==> mark && !(outcome == Written && PlainlyRejected(w, replies)))
    ensures r.Failed? && r.error.Rejected? ==> r == Meaning(w, replies)
    ensures r.Failed? && !r.error.OutcomeUnknown? ==> r.error.Rejected? || !mark
  {
    if outcome != Written {
      r := Failed(Classify(w, mark, Plain(w.text(WriteFault(outcome)))));
      return;
    }
    r := ReadExecResponse(w, replies);
    if r.Failed? && !r.error.Rejected? {
      r := Failed(Classify(w, mark, r.error));
    }
  }

  // ---------------------------------------------------------------- create-directory

  datatype OneReply = Ack | Said(text: string) | OtherReply | NoReply(fault: Fault)

  /** `create_dir` after the connection, with its single reply; `NoReply` covers deadline, disconnect and read error. */
  method CreateDirectory(w: Wording, writer: DeadlineAwareWriter, start: nat, json: Bytes, reply: OneReply)
    returns (r: Result<()>)
    requires writer.Punctual() && writer.Fresh()
    modifies writer
    ensures writer.Punctual()
    ensures Received(writer.accepted) == Some(json) <==> IsSubmitted(writer, start, |json|, MAX_REQUEST_FRAME)
    ensures var written := IsWritten(writer, start, |json|, MAX_REQUEST_FRAME);
      var submitted := IsSubmitted(writer, start, |json|, MAX_REQUEST_FRAME);
      var rejected := written && reply.Said? && !SaysUnknown(w, reply.text);
      && (r.Ok? <==> written && reply == Ack)
      && (r.Failed? ==> (r.error.OutcomeUnknown? <==> submitted && !rejected))
      && (rejected ==> r == Failed(Rejected(reply.text)))
    ensures r.Failed? && !r.error.OutcomeUnknown? ==> r.error.Rejected? || Received(writer.accepted) == None
  {
    var outcome, mark := writer.WriteFrame(start, json, MAX_REQUEST_FRAME);
    r := ConcludeCreation(w, outcome, mark, reply);
  }

  method ConcludeCreation(w: Wording, outcome: Outcome, mark: bool, reply: OneReply) returns (r: Result<()>)
    requires outcome == Written ==> mark
    ensures r.Ok? <==> outcome == Written && reply == Ack
    ensures var rejected := outcome == Written && reply.Said? && !SaysUnknown(w, reply.text);
      && (r.Failed? ==> (r.error.OutcomeUnknown? <==> mark && !rejected))
      && (rejected ==> r == Failed(Rejected(reply.text)))
    ensures r.Failed? && !r.error.OutcomeUnknown? ==> r.error.Rejected? || !mark
  {
    if outcome != Written {
      r := Failed(Classify(w, mark, Plain(w.text(WriteFault(outcome)))));
      return;
    }
    match reply {
      case Ack => r := Ok(());
      case Said(text) => r := Failed(FromPeer(w, text));
      case OtherReply => r := Failed(Classify(w, mark, Plain(w.text(Unexpected))));
      case NoReply(fault) => r := Failed(Classify(w, mark, Plain(w.text(fault))));
    }
  }

  // ---------------------------------------------------------------- shutdown

  datatype Stop = Absent | Stopped | ShutdownRejected | NotSent | StopUnconfirmed

  /**
  `down_quiet`, from the exchange to its reconciliation. `published` says whether a daemon was
  found, `reply` is the answer to the request, and `released` whether the descriptor was seen to
  disappear in time. A lost acknowledgement is not a failure if the daemon is seen to stop.
  */
  method ShutDown(writer: DeadlineAwareWriter, start: nat, json: Bytes, published: bool, reply: OneReply,
                  released: bool) returns (r: Stop)
    requires writer.Punctual() && writer.Fresh()
    modifies writer
    ensures writer.Punctual()
    ensures published ==>
      (Received(writer.accepted) == Some(json) <==> IsSubmitted(writer, start, |json|, MAX_CONTROL_FRAME))
    ensures var written := IsWritten(writer, start, |json|, MAX_CONTROL_FRAME);
      var submitted := IsSubmitted(writer, start, |json|, MAX_CONTROL_FRAME);
      r == if !published then Absent
           else if written && reply.Said? then ShutdownRejected
           else if !submitted then NotSent
           else if released then Stopped
           else StopUnconfirmed
    ensures r == NotSent || r == Absent ==> Received(writer.accepted) == None
  {
    if !published {
      return Absent;
    }
    var outcome, mark := writer.WriteFrame(start, json, MAX_CONTROL_FRAME);
    r := Reconcile(outcome, mark, reply, released);
  }

  /** `reconcile_shutdown_exchange`, which a rejection does not reach. */
  method Reconcile(outcome: Outcome, mark: bool, reply: OneReply, released: bool) returns (r: Stop)
    requires outcome == Written ==> mark
    ensures r == if outcome == Written && reply.Said? then ShutdownRejected
                 else if !mark then NotSent
                 else if released then Stopped
                 else StopUnconfirmed
  {
    if outcome == Written && reply.Said? {
      return ShutdownRejected;
    }
    var acknowledged := outcome == Written && reply == Ack;
    if acknowledged || mark {
      r := if released then Stopped else StopUnconfirmed;
    } else {
      r := NotSent;
    }
  }
}
