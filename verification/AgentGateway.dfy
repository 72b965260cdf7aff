/**
The agent's JSONL gateway: a bounded line reader over arbitrarily split input buffers, and the
loop that answers every non-blank line with exactly one result line.
*/
module AgentGateway {
  import opened Common

  const LF: byte := 10
  const CR: byte := 13
  const MAX_LINE_BYTES: nat := 1024 * 1024

  // ---------------------------------------------------------------- lines of a flat input

  function StripCr(line: Bytes): Bytes {
    if line != [] && line[|line| - 1] == CR then line[..|line| - 1] else line
  }

  datatype Next = Line(text: Bytes, rest: Bytes) | EndOfInput | TooLong | Unreadable

  /**
  The first line of `input`: ended by LF, which may be preceded by one CR, or by the end.
  `broken` says that behind `input` there is a read error, not the end.
  */
  function NextLine(input: Bytes, broken: bool): Next {
    var k := Find(input, LF);
    if k > MAX_LINE_BYTES then TooLong
    else if k < |input| then Line(StripCr(input[..k]), input[k + 1..])
    else if broken then Unreadable
    else if input == [] then EndOfInput
    else Line(input, [])
  }

  /** Why reading stops. */
  datatype Stop = Ended | Overlong | Broken

  /** All lines before reading stops. */
  datatype Session = Session(lines: seq<Bytes>, stop: Stop)

  function ReadAll(input: Bytes, broken: bool): Session
    decreases |input|
  {
    match NextLine(input, broken)
    case EndOfInput => Session([], Ended)
    case TooLong => Session([], Overlong)
    case Unreadable => Session([], Broken)
    case Line(text, rest) => var more := ReadAll(rest, broken); Session([text] + more.lines, more.stop)
  }

  /** The pieces between LFs; a final LF ends the last piece and starts no other. */
  function Pieces(input: Bytes): seq<Bytes>
    decreases |input|
  {
    var k := Find(input, LF);
    if input == [] then [] else [input[..k]] + if k < |input| then Pieces(input[k + 1..]) else []
  }

  /** Every piece is within the limit. */
  predicate Fit(pieces: seq<Bytes>) {
    forall i :: 0 <= i < |pieces| ==> |pieces[i]| <= MAX_LINE_BYTES
  }

  lemma FitCons(piece: Bytes, others: seq<Bytes>)
    ensures Fit([piece] + others) <==> |piece| <= MAX_LINE_BYTES && Fit(others)
  {
    var all := [piece] + others;
    assert all[0] == piece;
    assert forall i :: 0 <= i < |others| ==> all[i + 1] == others[i];
  }

  /** Every stretch before an LF or the end is within the limit. */
  predicate StretchesFit(input: Bytes)
    decreases |input|
  {
    var k := Find(input, LF);
    k <= MAX_LINE_BYTES && (k < |input| ==> StretchesFit(input[k + 1..]))
  }

  lemma FirstPiece(input: Bytes)
    requires Find(input, LF) < |input|
    ensures var k := Find(input, LF); Pieces(input) == [input[..k]] + Pieces(input[k + 1..])
  {
  }

  lemma FirstPieceFits(input: Bytes)
    requires Find(input, LF) < |input|
    ensures var k := Find(input, LF);
      Fit(Pieces(input)) <==> k <= MAX_LINE_BYTES && Fit(Pieces(input[k + 1..]))
  {
    var k := Find(input, LF);
    FirstPiece(input);
    FitCons(input[..k], Pieces(input[k + 1..]));
  }

  lemma LastPieceFits(input: Bytes)
    requires Find(input, LF) == |input|
    ensures Fit(Pieces(input)) <==> |input| <= MAX_LINE_BYTES
  {
    if input != [] {
      assert Pieces(input) == [input[..|input|]] + [];
      FitCons(input[..|input|], []);
    }
  }

  lemma {:induction false} StretchesArePieces(input: Bytes)
    ensures StretchesFit(input) <==> Fit(Pieces(input))
    decreases |input|
  {
    var k := Find(input, LF);
    if k < |input| {
      StretchesArePieces(input[k + 1..]);
      FirstPieceFits(input);
    } else {
      LastPieceFits(input);
    }
  }

  lemma {:induction false} StopsAtStretch(input: Bytes, broken: bool)
    ensures ReadAll(input, broken).stop ==
      if !StretchesFit(input) then Overlong else if broken then Broken else Ended
    decreases |input|
  {
    var k := Find(input, LF);
    if k < |input| {
      StopsAtStretch(input[k + 1..], broken);
    } else if k <= MAX_LINE_BYTES {
      LastLine(input, broken);
    }
  }

  /** Reading stops for a line that is too long exactly when some piece is, otherwise where the input does. */
  lemma StopsAtOverlongPiece(input: Bytes, broken: bool)
    ensures ReadAll(input, broken).stop ==
      if !Fit(Pieces(input)) then Overlong else if broken then Broken else Ended
  {
    StopsAtStretch(input, broken);
    StretchesArePieces(input);
  }

  lemma LastLine(input: Bytes, broken: bool)
    requires Find(input, LF) == |input| <= MAX_LINE_BYTES
    ensures ReadAll(input, broken).stop == if broken then Broken else Ended
    ensures input == [] ==> ReadAll(input, broken).lines == []
  {
    if !broken && input != [] {
      assert NextLine(input, broken) == Line(input, []);
      assert ReadAll([], broken).stop == Ended;
    }
  }

  /** A line that survives reading unchanged: with LF it must not end in CR, with CR LF it may. */
  predicate Plain(line: Bytes, crlf: bool) {
    LF !in line && |line| < MAX_LINE_BYTES && (crlf || line == [] || line[|line| - 1] != CR)
  }

  /** A line with its terminator. */
  function Terminated(line: Bytes, crlf: bool): Bytes {
    (if crlf then line + [CR] else line) + [LF]
  }

  function Print(lines: seq<Bytes>, crlf: seq<bool>): Bytes
    requires |crlf| == |lines|
  {
    if lines == [] then [] else Terminated(lines[0], crlf[0]) + Print(lines[1..], crlf[1..])
  }

  lemma ReadOne(line: Bytes, crlf: bool, tail: Bytes, broken: bool)
    requires Plain(line, crlf)
    ensures NextLine(Terminated(line, crlf) + tail, broken) == Line(line, tail)
  {
    var head := if crlf then line + [CR] else line;
    assert StripCr(head) == line by {
      if crlf { assert head[..|line|] == line; }
    }
    LineAt(head, tail, broken);
  }

  lemma ReadOneMore(line: Bytes, crlf: bool, tail: Bytes, others: seq<Bytes>, broken: bool, stop: Stop)
    requires Plain(line, crlf) && ReadAll(tail, broken) == Session(others, stop)
    ensures ReadAll(Terminated(line, crlf) + tail, broken) == Session([line] + others, stop)
  {
    ReadOne(line, crlf, tail, broken);
  }

  predicate AllPlain(lines: seq<Bytes>, crlf: seq<bool>)
    requires |crlf| == |lines|
  {
    forall i :: 0 <= i < |lines| ==> Plain(lines[i], crlf[i])
  }

  lemma FirstAndOthers(lines: seq<Bytes>, crlf: seq<bool>)
    requires |crlf| == |lines| > 0 && AllPlain(lines, crlf)
    ensures Plain(lines[0], crlf[0]) && AllPlain(lines[1..], crlf[1..]) && lines == [lines[0]] + lines[1..]
    ensures Print(lines, crlf) == Terminated(lines[0], crlf[0]) + Print(lines[1..], crlf[1..])
  {
  }

  /** Reading undoes printing, whichever terminator each line was given. */
  lemma {:induction false} ReadingUndoesPrinting(lines: seq<Bytes>, crlf: seq<bool>, broken: bool)
    requires |crlf| == |lines| && AllPlain(lines, crlf)
    ensures ReadAll(Print(lines, crlf), broken) == Session(lines, if broken then Broken else Ended)
  {
    var stop := if broken then Broken else Ended;
    if lines == [] {
      LastLine([], broken);
    } else {
      FirstAndOthers(lines, crlf);
      ReadingUndoesPrinting(lines[1..], crlf[1..], broken);
      ReadOneMore(lines[0], crlf[0], Print(lines[1..], crlf[1..]), lines[1..], broken, stop);
    }
  }

  /** An unterminated last line is kept as it is, with a final CR. */
  lemma LastLineIsKept(line: Bytes)
    requires LF !in line && 0 < |line| <= MAX_LINE_BYTES
    ensures ReadAll(line, false) == Session([line], Ended) && ReadAll(line, true) == Session([], Broken)
  {
    EndsWithoutLf(line, false);
    EndsWithoutLf(line, true);
    assert ReadAll([], false) == Session([], Ended);
  }

  // ---------------------------------------------------------------- the buffered reader

  function Flatten(buffers: seq<Bytes>): Bytes {
    if buffers == [] then [] else buffers[0] + Flatten(buffers[1..])
  }

  datatype LineRead = Got(line: Bytes) | Eof | Oversized | ReadError

  /**
  A buffered reader: the buffers it will hand out, none of them empty, and then the end of input
  or, if `broken`, a read error.
  */
  class BufferedReader {
    var pending: seq<Bytes>
    const broken: bool

    constructor (pending: seq<Bytes>, broken: bool)
      ensures this.pending == pending && this.broken == broken
    {
      this.pending, this.broken := pending, broken;
    }

    ghost predicate Valid()
      reads this
    {
      forall i :: 0 <= i < |pending| ==> pending[i] != []
    }

    function Rest(): Bytes
      reads this
    {
      Flatten(pending)
    }

    /** `None` is a read error. */
    method FillBuf() returns (available: Option<Bytes>)
      requires Valid()
      ensures available == None <==> Rest() == [] && broken
      ensures available == Some([]) <==> Rest() == [] && !broken
      ensures available.Some? && available.value != [] ==>
        pending != [] && available.value == pending[0] && available.value <= Rest()
    {
      available := if pending != [] then Some(pending[0]) else if broken then None else Some([]);
    }

    /** Give up the first `n` bytes of the current buffer. */
    method Consume(n: nat)
      requires Valid() && 0 < n && pending != [] && n <= |pending[0]|
      modifies this
      ensures Valid() && Rest() == old(pending[0])[n..] + old(Flatten(pending[1..]))
    {
      var first, others := pending[0], pending[1..];
      assert first + Flatten(others) == Flatten(pending);
      if n == |first| {
        pending := others;
      } else {
        pending := [first[n..]] + others;
        assert pending[1..] == others;
      }
    }

    /** `read_bounded_agent_line`: the first line of the flat rest, however it is split. */
    method ReadBoundedLine() returns (r: LineRead)
      requires Valid()
      modifies this
      ensures Valid() && Answers(NextLine(old(Rest()), broken), r, Rest())
    {
      var line: Bytes := [];
      ghost var input := Rest();
      assert line + Rest() == input;
      while true
        invariant Valid() && line + Rest() == input
        invariant LF !in line && |line| <= MAX_LINE_BYTES
        decreases |Rest()|
      {
        var done;
        line, done := TakeBuffer(line);
        if done.Some? {
          return done.value;
        }
      }
    }

    /** One turn of the loop: look at the next buffer and take what belongs to the line. */
    method TakeBuffer(line: Bytes) returns (line': Bytes, done: Option<LineRead>)
      requires Valid() && LF !in line && |line| <= MAX_LINE_BYTES
      modifies this
      ensures Valid()
      ensures done.Some? ==> Answers(NextLine(line + old(Rest()), broken), done.value, Rest())
      ensures done.None? ==> line' + Rest() == line + old(Rest()) && |Rest()| < |old(Rest())|
      ensures done.None? ==> LF !in line' && |line'| <= MAX_LINE_BYTES
    {
      var buffer := FillBuf();
      if buffer == None || buffer == Some([]) {
        EndsWithoutLf(line, broken);
        assert line + Rest() == line;
        return line, Some(if buffer == None then ReadError else if line == [] then Eof else Got(line));
      }
      line', done := TakeBytes(line, buffer.value);
    }

    /** The rest of the turn, with a buffer that is not empty. */
    method TakeBytes(line: Bytes, available: Bytes) returns (line': Bytes, done: Option<LineRead>)
      requires Valid() && LF !in line && |line| <= MAX_LINE_BYTES
      requires pending != [] && available == pending[0]
      modifies this
      ensures Valid()
      ensures done.Some? ==> Answers(NextLine(line + old(Rest()), broken), done.value, Rest())
      ensures done.None? ==> line' + Rest() == line + old(Rest()) && |Rest()| < |old(Rest())|
      ensures done.None? ==> LF !in line' && |line'| <= MAX_LINE_BYTES
    {
      ghost var later := Flatten(pending[1..]);
      assert Rest() == available + later;
      var newline := Find(available, LF);
      var found := newline < |available|;
      var consumed := if found then newline + 1 else |available|;
      if found { LfEndsLine(line, available, later, broken); } else { LineGoesOn(line, available, later, broken); }
      if |line| + consumed > MAX_LINE_BYTES + (if found then 1 else 0) {
        return line, Some(Oversized);
      }
      Consume(consumed);
      if found {
        // The source appends the LF as well and pops it again.
        return line, Some(Got(StripCr(line + available[..newline])));
      }
      assert available[consumed..] + later == later;
      line', done := line + available, None;
    }
  }

  /** `r` is what reading should give, and `rest` what it should leave; nothing is left to say after an error. */
  predicate Answers(next: Next, r: LineRead, rest: Bytes) {
    match next
    case Line(text, more) => r == Got(text) && rest == more
    case EndOfInput => r == Eof && rest == []
    case TooLong => r == Oversized
    case Unreadable => r == ReadError
  }

  lemma EndsWithoutLf(line: Bytes, broken: bool)
    requires LF !in line && |line| <= MAX_LINE_BYTES
    ensures NextLine(line, broken) == if broken then Unreadable else if line == [] then EndOfInput else Line(line, [])
  {
    assert Find(line, LF) == |line|;
  }

  /** A buffer with an LF completes the line. */
  lemma LfEndsLine(line: Bytes, available: Bytes, later: Bytes, broken: bool)
    requires LF !in line && Find(available, LF) < |available|
    ensures var here := Find(available, LF);
      NextLine(line + (available + later), broken) ==
        if |line| + here > MAX_LINE_BYTES then TooLong
        else Line(StripCr(line + available[..here]), available[here + 1..] + later)
  {
    var here := Find(available, LF);
    SplitAt(line, available, later, here);
    LineAt(line + available[..here], available[here + 1..] + later, broken);
  }

  lemma SplitAt(line: Bytes, available: Bytes, later: Bytes, here: nat)
    requires here < |available| && available[here] == LF
    ensures line + (available + later) == (line + available[..here]) + [LF] + (available[here + 1..] + later)
  {
  }

  lemma LineAt(head: Bytes, tail: Bytes, broken: bool)
    requires LF !in head
    ensures NextLine(head + [LF] + tail, broken) ==
      if |head| > MAX_LINE_BYTES then TooLong else Line(StripCr(head), tail)
  {
    var input := head + [LF] + tail;
    FindAfter(head, LF, tail);
    assert input[..|head|] == head && input[|head| + 1..] == tail;
  }

  /** A buffer without an LF extends the line, and may already make it too long. */
  lemma LineGoesOn(line: Bytes, available: Bytes, later: Bytes, broken: bool)
    requires LF !in line && Find(available, LF) == |available|
    ensures LF !in line + available
    ensures line + (available + later) == (line + available) + later
    ensures |line| + |available| > MAX_LINE_BYTES ==> NextLine(line + (available + later), broken) == TooLong
  {
    assert available[..|available|] == available;
    assert line + (available + later) == (line + available) + later;
    if |line| + |available| > MAX_LINE_BYTES {
      AlreadyTooLong(line + available, later, broken);
    }
  }

  lemma AlreadyTooLong(known: Bytes, later: Bytes, broken: bool)
    requires LF !in known && |known| > MAX_LINE_BYTES
    ensures NextLine(known + later, broken) == TooLong
  {
    var k := Find(known + later, LF);
    assert k < |known + later| ==> (known + later)[k] == LF;
  }

  // ---------------------------------------------------------------- the gateway

  const AGENT_SCHEMA_VERSION: nat := 1

  datatype Request = Request(id: nat, schema: nat, operation: string)

  datatype ErrorCode = InvalidRequest | SchemaUnsupported | ScopeDenied | OperationFailed

  /** What the relayed operation itself came to. */
  datatype Relay = Done | NotInScope | RelayFailed

  datatype ResultLine = ResultLine(requestId: nat, error: Option<ErrorCode>)

  /** Everything outside the loop; `clock` and `relay` answer for the k-th relayed line. */
  datatype Gateway = Gateway(
    parse: Bytes -> Option<Request>,
    operations: set<string>,
    expiresMs: nat,
    clock: nat -> nat,
    relay: (nat, Request) -> Relay)

  predicate Blank(line: Bytes) {
    forall i :: 0 <= i < |line| ==> line[i] == 9 || line[i] == 10 || line[i] == 12 || line[i] == 13 || line[i] == 32
  }

  /** `dispatch_agent_request`: the gates in order, then the relayed operation. */
  function Dispatch(g: Gateway, k: nat, r: Request): (result: ResultLine)
    ensures result.requestId == r.id
    ensures result.error == None <==>
      && r.schema == AGENT_SCHEMA_VERSION && 0 < g.clock(k) < g.expiresMs
      && r.operation in g.operations && g.relay(k, r) == Done
    ensures result.error == Some(SchemaUnsupported) <==> r.schema != AGENT_SCHEMA_VERSION
    ensures result.error == Some(ScopeDenied) <==>
      && r.schema == AGENT_SCHEMA_VERSION && 0 < g.clock(k) < g.expiresMs
      && (r.operation !in g.operations || g.relay(k, r) == NotInScope)
    ensures result.error != Some(InvalidRequest)
  {
    var now := g.clock(k);
    if r.schema != AGENT_SCHEMA_VERSION then ResultLine(r.id, Some(SchemaUnsupported))
    else if now == 0 || now >= g.expiresMs then ResultLine(r.id, Some(OperationFailed))
    else if r.operation !in g.operations then ResultLine(r.id, Some(ScopeDenied))
    else match g.relay(k, r)
      case Done => ResultLine(r.id, None)
      case NotInScope => ResultLine(r.id, Some(ScopeDenied))
      case RelayFailed => ResultLine(r.id, Some(OperationFailed))
  }

  function Answer(g: Gateway, k: nat, line: Bytes): (result: ResultLine)
    ensures result.error == Some(InvalidRequest) <==> g.parse(line).None?
    ensures g.parse(line).None? ==> result.requestId == 0
  {
    match g.parse(line)
    case None => ResultLine(0, Some(InvalidRequest))
    case Some(r) => Dispatch(g, k, r)
  }

  function NonBlank(lines: seq<Bytes>): seq<Bytes> {
    if lines == [] then []
    else (if Blank(lines[0]) then [] else [lines[0]]) + NonBlank(lines[1..])
  }

  /** The results for `lines` when `k` results have been given before. */
  function Results(g: Gateway, k: nat, lines: seq<Bytes>): seq<ResultLine>
    decreases |lines|
  {
    if lines == [] then []
    else if Blank(lines[0]) then Results(g, k, lines[1..])
    else [Answer(g, k, lines[0])] + Results(g, k + 1, lines[1..])
  }

  datatype End = InputEnded | LineTooLong | ReadFailed | WriteFailed

  function StopOf(read: LineRead): Stop
    requires !read.Got?
  {
    match read
    case Eof => Ended
    case Oversized => Overlong
    case ReadError => Broken
  }

  function EndOf(stop: Stop): End {
    match stop
    case Ended => InputEnded
    case Overlong => LineTooLong
    case Broken => ReadFailed
  }

  /**
  `agent_stdio_loop_with_credentials`: the k-th result answers the k-th non-blank line of the
  flat input, in order and one for one, however the input is split into buffers.  `writes` is how
  many result lines the output takes before a write fails.
  */
  method RunGateway(g: Gateway, reader: BufferedReader, writes: nat) returns (out: seq<ResultLine>, end: End)
    requires reader.Valid()
    modifies reader
    ensures var session := ReadAll(old(reader.Rest()), reader.broken);
      var all := Results(g, 0, session.lines);
      && out == all[..Min(writes, |all|)]
      && end == if writes < |all| then WriteFailed else EndOf(session.stop)
  {
    out := [];
    ghost var session := ReadAll(reader.Rest(), reader.broken);
    ghost var todo := session.lines;
    var failed := false;
    while true
      invariant reader.Valid() && |out| <= writes
      invariant ReadAll(reader.Rest(), reader.broken) == Session(todo, session.stop)
      invariant out + Results(g, |out|, todo) == Results(g, 0, session.lines)
      decreases |reader.Rest()|
    {
      var read := NextRequest(reader, todo);
      if !read.Got? {
        assert out == Results(g, 0, session.lines);
        return out, EndOf(StopOf(read));
      }
      out, failed := AnswerLine(g, out, read.line, writes, todo);
      if failed {
        return out, WriteFailed;
      }
      todo := todo[1..];
    }
  }

  method NextRequest(reader: BufferedReader, ghost todo: seq<Bytes>) returns (read: LineRead)
    requires reader.Valid() && ReadAll(reader.Rest(), reader.broken).lines == todo
    modifies reader
    ensures reader.Valid()
    ensures read.Got? ==> todo != [] && todo[0] == read.line
    ensures read.Got? ==>
      ReadAll(reader.Rest(), reader.broken) == Session(todo[1..], ReadAll(old(reader.Rest()), reader.broken).stop)
    ensures read.Got? ==> |reader.Rest()| < |old(reader.Rest())|
    ensures !read.Got? ==> todo == []
    ensures !read.Got? ==> ReadAll(old(reader.Rest()), reader.broken).stop == StopOf(read)
  {
    read := reader.ReadBoundedLine();
  }

  /** Answers one line unless it is blank; the write fails when the output has taken all it will. */
  method AnswerLine(g: Gateway, out: seq<ResultLine>, line: Bytes, writes: nat, ghost todo: seq<Bytes>)
    returns (out': seq<ResultLine>, failed: bool)
    requires todo != [] && todo[0] == line && |out| <= writes
    ensures |out'| <= writes
    ensures failed ==> out' == out && |out| == writes && Results(g, |out|, todo) != []
    ensures !failed ==> out' + Results(g, |out'|, todo[1..]) == out + Results(g, |out|, todo)
  {
    out', failed := out, false;
    if !Blank(line) {
      var result := Answer(g, |out|, line);
      if |out| == writes {
        failed := true;
      } else {
        out' := out + [result];
      }
    }
  }

  lemma {:induction false} ResultsAnswerLines(g: Gateway, k: nat, lines: seq<Bytes>, i: nat)
    ensures |Results(g, k, lines)| == |NonBlank(lines)|
    ensures i < |NonBlank(lines)| ==> Results(g, k, lines)[i] == Answer(g, k + i, NonBlank(lines)[i])
    decreases |lines|
  {
    if lines != [] {
      if Blank(lines[0]) {
        ResultsAnswerLines(g, k, lines[1..], i);
      } else {
        ResultsAnswerLines(g, k + 1, lines[1..], if i > 0 then i - 1 else 0);
      }
    }
  }

  lemma {:induction false} NonBlankAppend(a: seq<Bytes>, b: seq<Bytes>)
    ensures NonBlank(a + b) == NonBlank(a) + NonBlank(b)
  {
    if a == [] {
      assert a + b == b;
    } else {
      assert (a + b)[1..] == a[1..] + b;
      NonBlankAppend(a[1..], b);
    }
  }

  /**
  Every non-blank line has its own result, after those of the non-blank lines before it, and the
  result carries that request's id, or 0 when the line is not a request.
  */
  lemma LineHasItsResult(g: Gateway, lines: seq<Bytes>, i: nat)
    requires i < |lines| && !Blank(lines[i])
    ensures |Results(g, 0, lines)| == |NonBlank(lines)|
    ensures var k := |NonBlank(lines[..i])|;
      && k < |Results(g, 0, lines)|
      && Results(g, 0, lines)[k] == Answer(g, k, lines[i])
      && Results(g, 0, lines)[k].requestId == (match g.parse(lines[i]) case Some(r) => r.id case None => 0)
  {
    var k := |NonBlank(lines[..i])|;
    assert lines == lines[..i] + lines[i..];
    NonBlankAppend(lines[..i], lines[i..]);
    assert NonBlank(lines)[k] == lines[i];
    ResultsAnswerLines(g, 0, lines, k);
  }
}
