/**
 `internal/mcp/client.go`: concurrent calls share one pipe to a server. Each call registers a fresh
 id and a channel of capacity one, writes its request and waits; a single reader matches responses
 to calls by id (JSON-RPC 2.0 specification, section 5). Callers, the reader and the server
 interleave at every lock and channel operation.
 */
module McpClient {
  import opened Options

  /** A line of the server's output. `id` is the raw text of the response's id field. */
  datatype Line =
    | Blank
    | Garbage
    | Frame(id: string, body: string)

  datatype Result = Answer(response: Line) | TimedOut | ServerGone | NotSent

  datatype Phase =
    // Registered; request written; a result in hand but still registered; returned to the caller.
    | Registered
    | Waiting
    | Leaving(result: Result)
    | Returned(result: Result)

  /** One call. `channel` is its buffer of capacity one, `sends` how often the reader sent on it. */
  datatype Call = Call(phase: Phase, channel: Option<Line>, sends: nat)

  datatype Reader = Reading | Delivering(call: nat, response: Line) | Exited

  /** Call number `i` has id `i + 1`, so `|calls|` is the client's counter. */
  datatype System = System(calls: seq<Call>, pending: map<string, nat>, reader: Reader)

  /** The decimal text of an id, as `strconv.FormatInt` writes it. */
  function Decimal(n: nat): string {
    if n < 10 then [Digit(n)] else Decimal(n / 10) + [Digit(n % 10)]
  }

  function Digit(d: nat): char
    requires d < 10
  {
    "0123456789"[d]
  }

  function IdOf(call: nat): string {
    Decimal(call + 1)
  }

  lemma {:induction false} DecimalInjective(m: nat, n: nat)
    requires Decimal(m) == Decimal(n)
    ensures m == n
    decreases m
  {
    var a, b := Decimal(m), Decimal(n);
    assert a[|a| - 1] == b[|b| - 1];
    if m >= 10 && n >= 10 {
      assert a[..|a| - 1] == Decimal(m / 10) && b[..|b| - 1] == Decimal(n / 10);
      DecimalInjective(m / 10, n / 10);
    } else {
      DecimalNonEmpty(m / 10);
      DecimalNonEmpty(n / 10);
    }
  }

  /** What `strconv.ParseInt` makes of a text of digits. */
  ghost function NumberOf(s: string): int {
    if s == "" then 0 else NumberOf(s[..|s| - 1]) * 10 + (s[|s| - 1] as int - '0' as int)
  }

  /** The text of an id reads back as its number; it has digits only, and no leading zero. */
  lemma {:induction false} DecimalReadsBack(n: nat)
    ensures var text := Decimal(n);
            && NumberOf(text) == n && (forall c :: c in text ==> '0' <= c <= '9')
            && |text| > 0 && (text[0] == '0' ==> n == 0)
  {
    if n >= 10 {
      DecimalReadsBack(n / 10);
      assert Decimal(n)[..|Decimal(n)| - 1] == Decimal(n / 10);
    } else {
      assert [Digit(n)][..0] == "";
    }
  }

  lemma DecimalNonEmpty(n: nat)
    ensures |Decimal(n)| > 0
  {
  }

  // ---- the steps ----

  datatype Op =
    // A caller takes a fresh id and registers its channel.
    | Register
    // It writes the request, or fails to.
    | Write(call: nat, ok: bool)
    // One arm of its select is taken: the context ends, the server is gone, or a response is there.
    | GiveUp(call: nat)
    | NoticeExit(call: nat)
    | Receive(call: nat)
    // It unregisters and returns.
    | Unregister(call: nat)
    // The reader takes a line (and unregisters the call it answers), sends it on, or sees the end.
    | ReadLine(line: Line)
    | Deliver
    | Exit

  ghost function SetPhase(s: System, i: nat, phase: Phase): System
    requires i < |s.calls|
  {
    s.(calls := s.calls[i := s.calls[i].(phase := phase)])
  }

  ghost function StepCall(s: System, i: nat, op: Op): System
    requires i < |s.calls|
  {
    var c := s.calls[i];
    match op
    case Write(_, ok) =>
      if c.phase.Registered? then SetPhase(s, i, if ok then Waiting else Leaving(NotSent)) else s
    case GiveUp(_) => if c.phase.Waiting? then SetPhase(s, i, Leaving(TimedOut)) else s
    case NoticeExit(_) => if c.phase.Waiting? && s.reader.Exited? then SetPhase(s, i, Leaving(ServerGone)) else s
    case Receive(_) =>
      if c.phase.Waiting? && c.channel.Some?
      then s.(calls := s.calls[i := Call(Leaving(Answer(c.channel.value)), None, c.sends)])
      else s
    case Unregister(_) =>
      if c.phase.Leaving?
      then SetPhase(s.(pending := s.pending - {IdOf(i)}), i, Returned(c.phase.result))
      else s
    case _ => s
  }

  ghost function Step(s: System, op: Op): System {
    match op
    case Register =>
      var i := |s.calls|;
      s.(calls := s.calls + [Call(Registered, None, 0)], pending := s.pending[IdOf(i) := i])
    case ReadLine(line) =>
      if s.reader != Reading || !line.Frame? || line.id == "" then s
      else if line.id in s.pending
      then s.(pending := s.pending - {line.id}, reader := Delivering(s.pending[line.id], line))
      else s
    case Deliver =>
      // Sending on a full channel would block the reader for good.
      if s.reader.Delivering? && s.reader.call < |s.calls| && s.calls[s.reader.call].channel.None?
      then
        var i := s.reader.call;
        s.(calls := s.calls[i := s.calls[i].(channel := Some(s.reader.response), sends := s.calls[i].sends + 1)],
           reader := Reading)
      else s
    case Exit => if s.reader.Reading? then s.(reader := Exited) else s
    case _ => if op.call < |s.calls| then StepCall(s, op.call, op) else s
  }

  ghost function Run(s: System, ops: seq<Op>): System
    decreases |ops|
  {
    if ops == [] then s else Run(Step(s, ops[0]), ops[1..])
  }

  const START := System([], map[], Reading)

  // ---- the invariant ----

  ghost predicate Addressed(response: Line, call: nat) {
    response.Frame? && response.id == IdOf(call)
  }

  ghost predicate Untouched(s: System, i: nat)
    requires i < |s.calls|
  {
    s.calls[i].sends == 0 && s.calls[i].channel.None?
  }

  ghost predicate CallOk(s: System, i: nat)
    requires i < |s.calls|
  {
    var c := s.calls[i];
    && c.sends <= 1
    && (c.channel.Some? ==> c.sends == 1 && Addressed(c.channel.value, i))
    && ((c.phase.Leaving? || c.phase.Returned?) && c.phase.result.Answer? ==>
          c.sends == 1 && Addressed(c.phase.result.response, i))
    // A call still waiting is registered until the reader takes its response.
    && ((c.phase.Registered? || c.phase.Waiting?) ==>
          (IdOf(i) in s.pending <==> c.sends == 0 && !(s.reader.Delivering? && s.reader.call == i)))
    && (c.phase.Returned? ==> IdOf(i) !in s.pending)
  }

  ghost predicate Ok(s: System) {
    && (forall i :: 0 <= i < |s.calls| ==> CallOk(s, i))
    && (forall id :: id in s.pending ==>
          s.pending[id] < |s.calls| && id == IdOf(s.pending[id]) && Untouched(s, s.pending[id]))
    && (s.reader.Delivering? ==>
          && s.reader.call < |s.calls|
          && Addressed(s.reader.response, s.reader.call)
          && Untouched(s, s.reader.call)
          && IdOf(s.reader.call) !in s.pending)
  }

  lemma IdsDiffer()
    ensures forall i: nat, j: nat {:trigger IdOf(i), IdOf(j)} :: IdOf(i) == IdOf(j) ==> i == j
  {
    forall i: nat, j: nat {:trigger IdOf(i), IdOf(j)} | IdOf(i) == IdOf(j) ensures i == j {
      DecimalInjective(i + 1, j + 1);
    }
  }

  lemma RegisterKeepsOk(s: System)
    requires Ok(s)
    ensures Ok(Step(s, Register))
  {
    hide IdOf;
    IdsDiffer();
    var s' := Step(s, Register);
    assert IdOf(|s.calls|) !in s.pending;
    forall i | 0 <= i < |s'.calls| ensures CallOk(s', i) {
      assert i < |s.calls| ==> CallOk(s, i);
    }
  }

  lemma ReadLineKeepsOk(s: System, line: Line)
    requires Ok(s)
    ensures Ok(Step(s, ReadLine(line)))
  {
    hide IdOf;
    IdsDiffer();
    var s' := Step(s, ReadLine(line));
    forall i | 0 <= i < |s'.calls| ensures CallOk(s', i) {
      assert CallOk(s, i);
    }
  }

  lemma DeliverKeepsOk(s: System)
    requires Ok(s)
    ensures Ok(Step(s, Deliver))
  {
    hide IdOf;
    IdsDiffer();
    var s' := Step(s, Deliver);
    forall i | 0 <= i < |s'.calls| ensures CallOk(s', i) {
      assert CallOk(s, i);
    }
  }

  lemma StepCallKeepsOk(s: System, i: nat, op: Op)
    requires Ok(s) && i < |s.calls|
    ensures Ok(StepCall(s, i, op))
  {
    hide IdOf;
    IdsDiffer();
    var s' := StepCall(s, i, op);
    assert CallOk(s, i);
    forall j | 0 <= j < |s'.calls| ensures CallOk(s', j) {
      assert CallOk(s, j);
    }
  }

  lemma StepKeepsOk(s: System, op: Op)
    requires Ok(s)
    ensures Ok(Step(s, op))
  {
    hide CallOk, StepCall;
    match op {
      case Register => RegisterKeepsOk(s);
      case ReadLine(line) => ReadLineKeepsOk(s, line);
      case Deliver => DeliverKeepsOk(s);
      case Exit => ExitKeepsOk(s);
      case _ => if op.call < |s.calls| { StepCallKeepsOk(s, op.call, op); }
    }
  }

  lemma ExitKeepsOk(s: System)
    requires Ok(s)
    ensures Ok(Step(s, Exit))
  {
    var s' := Step(s, Exit);
    forall j | 0 <= j < |s'.calls| ensures CallOk(s', j) {
      assert CallOk(s, j);
    }
  }

  lemma {:induction false} RunKeepsOk(s: System, ops: seq<Op>)
    requires Ok(s)
    ensures Ok(Run(s, ops))
    decreases |ops|
  {
    hide Ok, Step;
    if ops != [] {
      StepKeepsOk(s, ops[0]);
      RunKeepsOk(Step(s, ops[0]), ops[1..]);
    }
  }

  // ---- what every run guarantees ----

  /**
   A call that returns an answer returns a response that carries its own id, and no other call
   is ever answered with that response: ids tell calls apart.
   */
  lemma OwnResponseOnly(ops: seq<Op>, i: nat, j: nat)
    requires var s := Run(START, ops);
             && i < |s.calls| && s.calls[i].phase.Returned? && s.calls[i].phase.result.Answer?
             && j < |s.calls| && s.calls[j].phase.Returned? && s.calls[j].phase.result.Answer?
    ensures var s := Run(START, ops);
            && s.calls[i].phase.result.response.Frame?
            && s.calls[i].phase.result.response.id == IdOf(i)
            && (s.calls[i].phase.result == s.calls[j].phase.result ==> i == j)
  {
    hide Run, IdOf;
    RunKeepsOk(START, ops);
    IdsDiffer();
    var s := Run(START, ops);
    assert CallOk(s, i) && CallOk(s, j);
  }

  /**
   The reader never blocks: whenever it holds a response, the channel it is to send on is empty.
   So it is sent, and each channel sees one send at most, over any mix of duplicate, unknown and late responses.
   */
  lemma ReaderNeverBlocks(ops: seq<Op>)
    ensures var s := Run(START, ops);
            && (s.reader.Delivering? ==> Step(s, Deliver).reader == Reading)
            && (forall i :: 0 <= i < |s.calls| ==> s.calls[i].sends <= 1)
  {
    hide Run, IdOf;
    RunKeepsOk(START, ops);
    var s := Run(START, ops);
    forall i | 0 <= i < |s.calls| ensures s.calls[i].sends <= 1 {
      assert CallOk(s, i);
    }
  }

  lemma RegisteredNotReturned(s: System)
    requires Ok(s)
    ensures forall id :: id in s.pending ==> s.pending[id] < |s.calls| && !s.calls[s.pending[id]].phase.Returned?
  {
    forall id | id in s.pending ensures !s.calls[s.pending[id]].phase.Returned? {
      assert CallOk(s, s.pending[id]);
    }
  }

  /** Nothing is left behind: once every call has returned, no channel is registered. */
  lemma NothingPendingAfterReturn(ops: seq<Op>)
    requires var s := Run(START, ops); forall i :: 0 <= i < |s.calls| ==> s.calls[i].phase.Returned?
    ensures Run(START, ops).pending == map[]
  {
    hide Run, IdOf;
    RunKeepsOk(START, ops);
    var s := Run(START, ops);
    RegisteredNotReturned(s);
    assert s.pending.Keys == {};
  }

  /**
   A response reaches the call it belongs to: for a call that waits and has not been answered,
   reading a line, sending it and taking the select's response arm answers the call, if and only
   if the line carries the call's id.
   */
  lemma AnswersExactlyItsCall(ops: seq<Op>, i: nat, line: Line)
    requires var s := Run(START, ops);
             && i < |s.calls| && s.calls[i].phase.Waiting? && s.calls[i].sends == 0 && s.reader.Reading?
    ensures var s := Run(START, ops);
            var s' := Step(Step(Step(s, ReadLine(line)), Deliver), Receive(i));
            s'.calls[i].phase == Leaving(Answer(line)) <==> Addressed(line, i)
  {
    hide Run, IdOf;
    RunKeepsOk(START, ops);
    IdsDiffer();
    var s := Run(START, ops);
    assert CallOk(s, i);
    IdNonEmpty(i);
  }

  lemma IdNonEmpty(i: nat)
    ensures IdOf(i) != ""
  {
    DecimalNonEmpty(i + 1);
  }

  // ---- the client ----

  class StdioClient {
    // `calls` is what the callers' goroutines hold; `pending` is under the mutex.
    var calls: seq<Call>
    var pending: map<string, nat>
    var reader: Reader

    ghost function State(): System
      reads this
    {
      System(calls, pending, reader)
    }

    constructor ()
      ensures State() == START
    {
      calls, pending, reader := [], map[], Reading;
    }

    method Enter() returns (call: nat)
      modifies this
      ensures State() == Step(old(State()), Register)
      ensures call == |old(calls)| && call < |calls|
      ensures calls == old(calls) + [Call(Registered, None, 0)]
      ensures pending == old(pending)[Decimal(call + 1) := call] && reader == old(reader)
    {
      call := |calls|;
      calls := calls + [Call(Registered, None, 0)];
      pending := pending[IdOf(call) := call];
    }

    /** The deferred unregistration, then the return. */
    method Leave(call: nat) returns (result: Result)
      requires call < |calls| && calls[call].phase.Leaving?
      modifies this
      ensures State() == Step(old(State()), Unregister(call))
      ensures calls[call].phase == Returned(result)
      ensures result == old(calls)[call].phase.result
      ensures calls == old(calls)[call := old(calls)[call].(phase := Returned(result))]
      ensures pending == old(pending) - {Decimal(call + 1)} && reader == old(reader)
    {
      pending := pending - {IdOf(call)};
      result := calls[call].phase.result;
      calls := calls[call := calls[call].(phase := Returned(result))];
    }

    /** One turn of the read loop. Its send cannot block. */
    method HandleLine(line: Line)
      requires Ok(State()) && reader.Reading?
      modifies this
      ensures State() == Step(Step(old(State()), ReadLine(line)), Deliver)
      ensures reader.Reading?
      // A frame whose id is registered goes to that call alone, once; any other line is passed over.
      ensures if line.Frame? && line.id != "" && line.id in old(pending)
              then var i := old(pending)[line.id];
                && i < |old(calls)| && pending == old(pending) - {line.id}
                && calls == old(calls)[i := old(calls)[i].(channel := Some(line), sends := old(calls)[i].sends + 1)]
              else calls == old(calls) && pending == old(pending)
    {
      if line.Blank? || line.Garbage? { return; }
      if |line.id| == 0 { return; }
      var ok := line.id in pending;
      if ok {
        var i := pending[line.id];
        assert Untouched(State(), i);
        pending := pending - {line.id};
        calls := calls[i := calls[i].(channel := Some(line), sends := calls[i].sends + 1)];
      }
    }
  }

  // ---- the last lines of stderr ----

  ghost function LastLines(lines: seq<string>, n: nat): seq<string> {
    if |lines| <= n then lines else lines[|lines| - n..]
  }

  /** Keeps the last `n` lines added; `added` is all of them. */
  class RingBuffer {
    var lines: seq<string>
    const n: nat
    ghost var added: seq<string>

    ghost predicate Valid()
      reads this
    {
      lines == LastLines(added, n)
    }

    constructor (n: nat)
      ensures Valid() && this.n == n && added == []
    {
      this.n := n;
      lines, added := [], [];
    }

    method Add(line: string)
      requires Valid()
      modifies this
      ensures Valid() && added == old(added) + [line]
      ensures lines == LastLines(old(added) + [line], n)
      ensures |lines| == (if |added| <= n then |added| else n) && lines == added[|added| - |lines|..]
    {
      lines := lines + [line];
      if |lines| > n {
        lines := lines[|lines| - n..];
      }
      added := added + [line];
    }
  }
}
