/** The handle of a running worker: line framing of its output, the window of recent lines,
    the usage it reports, and the signals sent to it. */
module WorkerStream {
  import opened Wrappers
  import opened CostAccounting

  newtype Byte = x: int | 0 <= x < 256

  const NEWLINE: Byte := 10
  const CAPTURE_WINDOW: nat := 50
  const HEARTBEAT_INTERVAL := 5.0
  const ESCALATION_WAIT := 5.0

  // ----- Framing -----

  predicate NewlineFree(s: seq<Byte>) {
    NEWLINE !in s
  }

  function FirstNewline(s: seq<Byte>): (i: nat)
    requires !NewlineFree(s)
    ensures i < |s| && s[i] == NEWLINE && NewlineFree(s[..i])
  {
    if s[0] == NEWLINE then 0
    else
      var i := 1 + FirstNewline(s[1..]);
      assert s[..i] == [s[0]] + s[1..][..i - 1];
      i
  }

  /** All the pieces between newlines; the last one is what follows the last newline. */
  function Split(s: seq<Byte>): (pieces: seq<seq<Byte>>)
    ensures pieces != []
  {
    if NewlineFree(s) then [s]
    else
      var i := FirstNewline(s);
      [s[..i]] + Split(s[i + 1..])
  }

  /** The lines, each with its newline, and then the rest. */
  function Join(lines: seq<seq<Byte>>, rest: seq<Byte>): seq<Byte> {
    if lines == [] then rest
    else Join(lines[..|lines| - 1], lines[|lines| - 1] + [NEWLINE] + rest)
  }

  ghost predicate Framed(read: seq<Byte>, lines: seq<seq<Byte>>, rest: seq<Byte>) {
    read == Join(lines, rest) && forall l | l in lines :: NewlineFree(l)
  }

  lemma {:induction false} JoinAppend(lines: seq<seq<Byte>>, rest: seq<Byte>, more: seq<Byte>)
    ensures Join(lines, rest + more) == Join(lines, rest) + more
  {
    if lines != [] {
      var l := lines[|lines| - 1];
      assert l + [NEWLINE] + (rest + more) == l + [NEWLINE] + rest + more;
      JoinAppend(lines[..|lines| - 1], l + [NEWLINE] + rest, more);
    }
  }

  lemma {:induction false} JoinFirst(lines: seq<seq<Byte>>, rest: seq<Byte>)
    requires lines != []
    ensures Join(lines, rest) == lines[0] + [NEWLINE] + Join(lines[1..], rest)
  {
    var n := |lines| - 1;
    if n > 0 {
      JoinFirst(lines[..n], lines[n] + [NEWLINE] + rest);
      assert lines[..n][1..] == lines[1..][..n - 1];
    }
  }

  lemma FirstNewlineIs(s: seq<Byte>, i: nat)
    requires i < |s| && s[i] == NEWLINE && NewlineFree(s[..i])
    ensures !NewlineFree(s) && FirstNewline(s) == i
  {
    var j := FirstNewline(s);
    assert forall k | 0 <= k < i :: s[k] in s[..i];
    assert forall k | 0 <= k < j :: s[k] in s[..j];
  }

  /** There is one way to cut a stream into lines and a rest: the one-shot split. */
  lemma {:induction false} FramingIsUnique(read: seq<Byte>, lines: seq<seq<Byte>>, rest: seq<Byte>)
    requires Framed(read, lines, rest) && NewlineFree(rest)
    ensures Split(read) == lines + [rest]
    decreases |lines|
  {
    if lines != [] {
      JoinFirst(lines, rest);
      var l, tail := lines[0], Join(lines[1..], rest);
      SplitFirst(read, l, tail);
      FramingIsUnique(tail, lines[1..], rest);
      assert [l] + (lines[1..] + [rest]) == lines + [rest];
    }
  }

  lemma SplitFirst(s: seq<Byte>, l: seq<Byte>, tail: seq<Byte>)
    requires NewlineFree(l) && s == l + [NEWLINE] + tail
    ensures Split(s) == [l] + Split(tail)
  {
    assert s[..|l|] == l && s[|l|] == NEWLINE && s[|l| + 1..] == tail;
    FirstNewlineIs(s, |l|);
  }

  lemma CutOne(read: seq<Byte>, lines: seq<seq<Byte>>, buf: seq<Byte>, i: nat)
    requires Framed(read, lines, buf) && i < |buf| && buf[i] == NEWLINE && NewlineFree(buf[..i])
    ensures Framed(read, lines + [buf[..i]], buf[i + 1..])
  {
    assert buf == buf[..i] + [NEWLINE] + buf[i + 1..];
    assert (lines + [buf[..i]])[..|lines|] == lines;
  }

  // ----- Handled lines and their window -----

  /** Decoded and stripped on the right; blank lines are dropped. */
  function HandledOf(decode: seq<Byte> -> string, lines: seq<seq<Byte>>): seq<string> {
    if lines == [] then []
    else
      var line := decode(lines[|lines| - 1]);
      HandledOf(decode, lines[..|lines| - 1]) + if line == "" then [] else [line]
  }

  lemma HandledPush(decode: seq<Byte> -> string, lines: seq<seq<Byte>>, l: seq<Byte>)
    ensures HandledOf(decode, lines + [l]) == HandledOf(decode, lines) + if decode(l) == "" then [] else [decode(l)]
  {
    assert (lines + [l])[..|lines|] == lines;
  }

  function Last<T>(s: seq<T>, n: nat): seq<T> {
    if n <= |s| then s[|s| - n..] else s
  }

  /** The length of the window after `n` lines: it drops back to 50 whenever it passes 100. */
  function WindowLength(n: nat): nat {
    if n == 0 then 0
    else if WindowLength(n - 1) == 2 * CAPTURE_WINDOW then CAPTURE_WINDOW
    else WindowLength(n - 1) + 1
  }

  lemma {:induction false} WindowBounds(n: nat)
    ensures WindowLength(n) <= 2 * CAPTURE_WINDOW
    ensures if n <= 2 * CAPTURE_WINDOW then WindowLength(n) == n else CAPTURE_WINDOW <= WindowLength(n) < n
  {
    if n > 0 {
      WindowBounds(n - 1);
    }
  }

  /** The window has at most 100 lines, and its last 50 are the last 50 lines ever handled. */
  lemma WindowShowsLast(handled: seq<string>, recent: seq<string>)
    requires recent == Last(handled, WindowLength(|handled|))
    ensures |recent| <= 2 * CAPTURE_WINDOW && (recent == [] <==> handled == [])
    ensures Last(recent, CAPTURE_WINDOW) == Last(handled, CAPTURE_WINDOW)
  {
    WindowBounds(|handled|);
  }

  // ----- Usage -----

  /** What a line says: not JSON, a result with its cost and token counts, another message,
      or one whose handling raises, such as JSON that is not an object. */
  datatype Message = Raw | ResultMessage(cost: Option<real>, tokensIn: int, tokensOut: int) | OtherMessage | Malformed

  /** A missing, null or zero cost is not used as a cost. */
  function UsageOf(m: Message): Usage
    requires m.ResultMessage?
  {
    Usage(m.tokensIn, m.tokensOut, if m.cost.Some? && m.cost.value != 0.0 then m.cost else None)
  }

  predicate Reports(m: Message) {
    m.ResultMessage? && m.tokensIn >= 0 && m.tokensOut >= 0
  }

  /** Handling raises for malformed messages and, in the guard, for negative token counts. */
  predicate Raises(m: Message) {
    m.Malformed? || (m.ResultMessage? && !Reports(m))
  }

  /** What handling a line adds to the guard's history. */
  function EntryOf(id: string, m: Message, at: real): seq<Entry> {
    if Reports(m) then [Used(id, UsageOf(m), at)] else []
  }

  function EntriesOf(id: string, parse: string -> Message, at: real, lines: seq<string>): seq<Entry> {
    if lines == [] then []
    else EntriesOf(id, parse, at, lines[..|lines| - 1]) + EntryOf(id, parse(lines[|lines| - 1]), at)
  }

  function ReportedBy(parse: string -> Message, handled: seq<string>): seq<Usage> {
    if handled == [] then []
    else
      var m := parse(handled[|handled| - 1]);
      ReportedBy(parse, handled[..|handled| - 1]) + if Reports(m) then [UsageOf(m)] else []
  }

  function UsagesOf(es: seq<Entry>, w: string): seq<Usage> {
    if es == [] then []
    else
      var e := es[|es| - 1];
      UsagesOf(es[..|es| - 1], w) + if e.Used? && e.worker == w then [e.usage] else []
  }

  /** From `handled` to `handled'` lines, the guard has gained exactly the usage of the new ones. */
  ghost predicate Recorded(id: string, parse: string -> Message, at: real, es: seq<Entry>, handled: seq<string>,
                           es': seq<Entry>, handled': seq<string>) {
    handled <= handled' && es' == es + EntriesOf(id, parse, at, handled'[|handled|..])
  }

  /** Of the new lines exactly the last one raised, or none did. */
  ghost predicate StopsAtRaise(parse: string -> Message, handled: seq<string>, handled': seq<string>, raised: bool) {
    && handled <= handled'
    && (raised ==> |handled'| > |handled| && Raises(parse(handled'[|handled'| - 1])))
    && forall k | |handled| <= k < |handled'| && (raised ==> k < |handled'| - 1) :: !Raises(parse(handled'[k]))
  }

  lemma Associative<T>(a: seq<T>, b: seq<T>, c: seq<T>)
    ensures a + b + c == a + (b + c)
  {
  }

  lemma LastOff<T>(a: seq<T>, b: seq<T>)
    requires b != []
    ensures (a + b)[..|a + b| - 1] == a + b[..|b| - 1] && (a + b)[|a + b| - 1] == b[|b| - 1]
  {
  }

  lemma {:induction false} EntriesAppend(id: string, parse: string -> Message, at: real, a: seq<string>, b: seq<string>)
    ensures EntriesOf(id, parse, at, a + b) == EntriesOf(id, parse, at, a) + EntriesOf(id, parse, at, b)
  {
    if b == [] {
      assert a + b == a;
    } else {
      var init, e := b[..|b| - 1], EntryOf(id, parse(b[|b| - 1]), at);
      EntriesAppend(id, parse, at, a, init);
      LastOff(a, b);
      Associative(EntriesOf(id, parse, at, a), EntriesOf(id, parse, at, init), e);
    }
  }

  lemma TwoSteps<T>(a: seq<T>, b: seq<T>, c: seq<T>)
    requires a <= b <= c
    ensures a <= c && c[|a|..] == b[|a|..] + c[|b|..]
  {
  }

  lemma RecordedThen(id: string, parse: string -> Message, at: real, es: seq<Entry>, h: seq<string>,
                     es': seq<Entry>, h': seq<string>, es'': seq<Entry>, h'': seq<string>)
    requires Recorded(id, parse, at, es, h, es', h') && Recorded(id, parse, at, es', h', es'', h'')
    ensures Recorded(id, parse, at, es, h, es'', h'')
  {
    TwoSteps(h, h', h'');
    EntriesAppend(id, parse, at, h'[|h|..], h''[|h'|..]);
    Associative(es, EntriesOf(id, parse, at, h'[|h|..]), EntriesOf(id, parse, at, h''[|h'|..]));
  }

  lemma StopsThen(parse: string -> Message, h: seq<string>, h': seq<string>, h'': seq<string>, raised: bool)
    requires StopsAtRaise(parse, h, h', false) && StopsAtRaise(parse, h', h'', raised)
    ensures StopsAtRaise(parse, h, h'', raised)
  {
    TwoSteps(h, h', h'');
  }

  lemma RecordedNothing(id: string, parse: string -> Message, at: real, es: seq<Entry>, h: seq<string>)
    ensures Recorded(id, parse, at, es, h, es, h) && StopsAtRaise(parse, h, h, false)
  {
    assert es + [] == es && h[|h|..] == [];
  }

  lemma RecordedOne(id: string, parse: string -> Message, at: real, es: seq<Entry>, h: seq<string>, line: string)
    ensures Recorded(id, parse, at, es, h, es + EntryOf(id, parse(line), at), h + [line])
  {
    assert (h + [line])[|h|..] == [line];
    assert EntriesOf(id, parse, at, [line]) == EntryOf(id, parse(line), at) by {
      assert [line][..0] == [];
      assert [] + EntryOf(id, parse(line), at) == EntryOf(id, parse(line), at);
    }
  }

  lemma EntryIsReported(id: string, parse: string -> Message, at: real, es: seq<Entry>, h: seq<string>, line: string)
    requires UsagesOf(es, id) == ReportedBy(parse, h)
    ensures UsagesOf(es + EntryOf(id, parse(line), at), id) == ReportedBy(parse, h + [line])
  {
    assert (h + [line])[..|h|] == h;
    assert es + [] == es;
    if Reports(parse(line)) {
      LastOff(es, EntryOf(id, parse(line), at));
    }
  }

  lemma {:induction false} EntriesAreReported(id: string, parse: string -> Message, at: real, es: seq<Entry>,
                                              h: seq<string>, lines: seq<string>)
    requires UsagesOf(es, id) == ReportedBy(parse, h)
    ensures UsagesOf(es + EntriesOf(id, parse, at, lines), id) == ReportedBy(parse, h + lines)
  {
    if lines == [] {
      assert es + [] == es && h + [] == h;
    } else {
      var init, line := lines[..|lines| - 1], lines[|lines| - 1];
      EntriesAreReported(id, parse, at, es, h, init);
      EntriesLast(id, parse, at, es, h, lines);
      EntryIsReported(id, parse, at, es + EntriesOf(id, parse, at, init), h + init, line);
    }
  }

  lemma EntriesLast(id: string, parse: string -> Message, at: real, es: seq<Entry>, h: seq<string>, lines: seq<string>)
    requires lines != []
    ensures var init, line := lines[..|lines| - 1], lines[|lines| - 1];
      && es + EntriesOf(id, parse, at, lines) == es + EntriesOf(id, parse, at, init) + EntryOf(id, parse(line), at)
      && h + lines == h + init + [line]
  {
    var init, line := lines[..|lines| - 1], lines[|lines| - 1];
    Associative(es, EntriesOf(id, parse, at, init), EntryOf(id, parse(line), at));
    assert lines == init + [line];
    Associative(h, init, [line]);
  }

  lemma {:induction false} EntriesKeepOthers(id: string, parse: string -> Message, at: real, es: seq<Entry>,
                                             lines: seq<string>, w: string)
    requires w != id
    ensures UsagesOf(es + EntriesOf(id, parse, at, lines), w) == UsagesOf(es, w)
  {
    assert es + [] == es;
    if lines != [] {
      var init, entry := lines[..|lines| - 1], EntryOf(id, parse(lines[|lines| - 1]), at);
      EntriesKeepOthers(id, parse, at, es, init, w);
      var before := es + EntriesOf(id, parse, at, init);
      Associative(es, EntriesOf(id, parse, at, init), entry);
      assert before + [] == before;
      if entry != [] {
        LastOff(before, entry);
      }
    }
  }

  /** New usage goes to this worker's account, and only there. */
  lemma RecordedUsage(id: string, parse: string -> Message, at: real, es: seq<Entry>, h: seq<string>,
                      es': seq<Entry>, h': seq<string>)
    requires Recorded(id, parse, at, es, h, es', h') && UsagesOf(es, id) == ReportedBy(parse, h)
    ensures UsagesOf(es', id) == ReportedBy(parse, h')
  {
    EntriesAreReported(id, parse, at, es, h, h'[|h|..]);
    assert h + h'[|h|..] == h';
  }

  lemma RecordedKeepsOthers(id: string, parse: string -> Message, at: real, es: seq<Entry>, h: seq<string>,
                            es': seq<Entry>, h': seq<string>, w: string)
    requires Recorded(id, parse, at, es, h, es', h') && w != id
    ensures UsagesOf(es', w) == UsagesOf(es, w)
  {
    EntriesKeepOthers(id, parse, at, es, h'[|h|..], w);
  }

  function SumOfUsages(us: seq<Usage>): Amount {
    if us == [] then ZERO else Plus(SumOfUsages(us[..|us| - 1]), AmountOf(us[|us| - 1]))
  }

  lemma {:induction false} SpentIsSum(es: seq<Entry>, w: string)
    requires Reset(w) !in es
    ensures Spent(es, w) == SumOfUsages(UsagesOf(es, w))
  {
    if es != [] {
      var before, e := es[..|es| - 1], es[|es| - 1];
      assert e in es;
      SpentIsSum(before, w);
      var us := UsagesOf(es, w);
      if e.worker == w {
        assert us[..|us| - 1] == UsagesOf(before, w);
      } else {
        assert us == UsagesOf(before, w);
      }
    }
  }

  // ----- Escalation -----

  /** A signal with the time since the escalation began. */
  datatype Sent = Sent(signal: Signal, since: real)

  /** Every signal is the rung for its time, and the times go up to `clock`. */
  ghost predicate EscalationOk(sent: seq<Sent>, started: Option<real>, clock: real) {
    if sent == [] then true
    else
      var s := sent[|sent| - 1];
      && started.Some? && s.since <= clock - started.value
      && s.signal == EscalationStep(s.since)
      && EscalationOk(sent[..|sent| - 1], started, started.value + s.since)
  }

  /** The ladder, by the seconds since the escalation began. */
  predicate OnRung(signal: Signal, e: real) {
    && (signal == Interrupt <==> e < 5.0)
    && (signal == Terminate <==> 5.0 <= e < 10.0)
    && (signal == Kill <==> e >= 10.0)
  }

  /** Nothing but the given signal, if any, is sent: the rung for the time since the first one
      was due. */
  ghost predicate Escalated(started: Option<real>, started': Option<real>, startAt: real, signalAt: real,
                            before: seq<Sent>, after: seq<Sent>, signal: Option<Signal>) {
    if signal.None? then after == before && started' == started
    else
      && started' == (if started.Some? then started else Some(startAt))
      && signal.value == EscalationStep(signalAt - started'.value)
      && after == before + [Sent(signal.value, signalAt - started'.value)]
  }

  lemma ClockAdvances(sent: seq<Sent>, started: Option<real>, clock: real, clock': real)
    requires EscalationOk(sent, started, clock) && clock <= clock'
    ensures EscalationOk(sent, started, clock')
  {
  }

  lemma EscalationPush(sent: seq<Sent>, started: Option<real>, clock: real, since: real)
    requires EscalationOk(sent, started, clock) && started.Some? && clock - started.value <= since
    ensures EscalationOk(sent + [Sent(EscalationStep(since), since)], started, started.value + since)
  {
    ClockAdvances(sent, started, clock, started.value + since);
    assert (sent + [Sent(EscalationStep(since), since)])[..|sent|] == sent;
  }

  lemma {:induction false} SentInTime(sent: seq<Sent>, started: Option<real>, clock: real, i: nat)
    requires EscalationOk(sent, started, clock) && i < |sent|
    ensures started.Some? && sent[i].since <= clock - started.value && sent[i].signal == EscalationStep(sent[i].since)
    decreases |sent|
  {
    var n := |sent| - 1;
    if i < n {
      SentInTime(sent[..n], started, started.value + sent[n].since, i);
    }
  }

  /** The signals to one worker never soften. */
  lemma {:induction false} SignalsNeverSoften(sent: seq<Sent>, started: Option<real>, clock: real, i: nat, j: nat)
    requires EscalationOk(sent, started, clock) && i <= j < |sent|
    ensures Force(sent[i].signal) <= Force(sent[j].signal)
    decreases |sent|
  {
    var n := |sent| - 1;
    if j < n {
      SignalsNeverSoften(sent[..n], started, started.value + sent[n].since, i, j);
    } else {
      SentInTime(sent, started, clock, j);
      if i < n {
        SentInTime(sent[..n], started, started.value + sent[n].since, i);
      }
    }
  }

  /** The surroundings of one poll, in the order in which they are consulted. */
  datatype PollInput = PollInput(
    now: real,
    selectFails: bool,
    chunk: seq<Byte>,
    lineAt: real,
    stuck: bool,
    stuckAgain: bool,
    escalateAt: real,
    signalAt: real)

  predicate InOrder(input: PollInput) {
    input.now <= input.lineAt <= input.escalateAt <= input.signalAt
  }

  class WorkerHandle {
    const id: string
    const guard: CostGuard
    const decode: seq<Byte> -> string
    const parse: string -> Message
    const selRegistered: bool
    var stdoutBuf: seq<Byte>
    var recentLines: seq<string>
    var lastHeartbeat: real
    var exitEscalationStarted: Option<real>
    var killed: bool
    /** All bytes read, the lines cut off them, and the lines handled. */
    ghost var read: seq<Byte>
    ghost var cut: seq<seq<Byte>>
    ghost var handled: seq<string>
    /** The signals sent by escalation, and the clock when it last looked. */
    ghost var sent: seq<Sent>
    ghost var clock: real

    /** The buffer and the window are functions of the bytes read. */
    ghost predicate StreamOk()
      reads `read, `cut, `stdoutBuf, `handled, `recentLines
    {
      && Framed(read, cut, stdoutBuf)
      && handled == HandledOf(decode, cut)
      && recentLines == Last(handled, WindowLength(|handled|))
    }

    /** The guard has exactly the usage that the handled lines report. */
    ghost predicate UsageOk()
      reads `handled, guard`history
    {
      UsagesOf(guard.history, id) == ReportedBy(parse, handled)
    }

    ghost predicate Valid()
      reads this, guard, guard.workers.Values
    {
      && guard.Valid()
      && StreamOk() && UsageOk()
      && SignalsOk()
    }

    ghost predicate SignalsOk()
      reads `sent, `exitEscalationStarted, `clock, `killed
    {
      && EscalationOk(sent, exitEscalationStarted, clock)
      && (sent != [] && sent[|sent| - 1].signal == Kill ==> killed)
    }

    constructor (id: string, guard: CostGuard, decode: seq<Byte> -> string, parse: string -> Message,
                 selRegistered: bool, now: real)
      ensures Started(now)
      ensures this.id == id && this.guard == guard && this.decode == decode && this.parse == parse
      ensures guard.Valid() && UsagesOf(guard.history, id) == [] ==> Valid()
    {
      this.id, this.guard, this.decode, this.parse := id, guard, decode, parse;
      this.selRegistered := selRegistered;
      stdoutBuf, recentLines, lastHeartbeat, exitEscalationStarted, killed := [], [], now, None, false;
      read, cut, handled, sent, clock := [], [], [], [], now;
      new;
      if guard.Valid() && UsagesOf(guard.history, id) == [] {
        StartedIsValid(now);
      }
    }

    ghost predicate Started(now: real)
      reads this
    {
      && stdoutBuf == [] && recentLines == [] && lastHeartbeat == now && exitEscalationStarted == None && !killed
      && read == [] && cut == [] && handled == [] && sent == [] && clock == now
    }

    /** A new handle on a guard that has no usage under its id. */
    lemma StartedIsValid(now: real)
      requires Started(now) && guard.Valid() && UsagesOf(guard.history, id) == []
      ensures Valid()
    {
    }

    method PushLine(line: string)
      requires recentLines == Last(handled, WindowLength(|handled|))
      modifies this`recentLines, this`handled
      ensures handled == old(handled) + [line]
      ensures recentLines == Last(handled, WindowLength(|handled|))
      ensures recentLines ==
        if |old(recentLines)| < 100 then old(recentLines) + [line] else old(recentLines)[|old(recentLines)| - 49..] + [line]
    {
      WindowBounds(|handled|);
      recentLines := recentLines + [line];
      if |recentLines| > 2 * CAPTURE_WINDOW {
        recentLines := recentLines[|recentLines| - CAPTURE_WINDOW..];
      }
      handled := handled + [line];
    }

    /** Negative token counts raise in the guard. */
    method RecordUsage(m: Message, at: real) returns (raised: bool)
      requires guard.Valid()
      modifies guard, guard.workers.Values
      ensures guard.Valid() && fresh(guard.workers.Values - old(guard.workers.Values))
      ensures raised <==> Raises(m)
      ensures unchanged(this)
      ensures guard.history == old(guard.history) + EntryOf(id, m, at)
    {
      raised := m.Malformed?;
      if m.ResultMessage? {
        var r := guard.AddUsage(id, UsageOf(m), at);
        raised := r.Err?;
      }
    }

    /** A line enters the window first, and its usage is recorded unless that raises. */
    method HandleStdoutLine(line: string, at: real) returns (raised: bool)
      requires guard.Valid()
      requires recentLines == Last(handled, WindowLength(|handled|))
      modifies this`recentLines, this`handled, guard, guard.workers.Values
      ensures guard.Valid() && fresh(guard.workers.Values - old(guard.workers.Values))
      ensures recentLines == Last(handled, WindowLength(|handled|))
      ensures handled == old(handled) + [line]
      ensures raised <==> Raises(parse(line))
      ensures guard.history == old(guard.history) + EntryOf(id, parse(line), at)
      ensures match parse(line)
        case Raw => !raised && guard.history == old(guard.history)
        case OtherMessage => !raised && guard.history == old(guard.history)
        case Malformed => raised && guard.history == old(guard.history)
        case ResultMessage(cost, i, o) =>
          if i < 0 || o < 0 then raised && guard.history == old(guard.history)
          else !raised && guard.history == old(guard.history) + [
            Used(id, Usage(i, o, if cost.None? || cost.value == 0.0 then None else cost), at)]
      ensures unchanged(`sent, `exitEscalationStarted, `killed, `clock)
    {
      PushLine(line);
      raised := RecordUsage(parse(line), at);
    }

    /** Cut one line off the buffer and decode it. */
    method CutLine() returns (line: string)
      requires Framed(read, cut, stdoutBuf) && !NewlineFree(stdoutBuf)
      modifies this`stdoutBuf, this`cut
      ensures Framed(read, cut, stdoutBuf) && |stdoutBuf| < |old(stdoutBuf)|
      ensures HandledOf(decode, cut) == HandledOf(decode, old(cut)) + if line == "" then [] else [line]
    {
      var i := FirstNewline(stdoutBuf);
      var lineBytes := stdoutBuf[..i];
      CutOne(read, cut, stdoutBuf, i);
      HandledPush(decode, cut, lineBytes);
      stdoutBuf := stdoutBuf[i + 1..];
      cut := cut + [lineBytes];
      line := decode(lineBytes);
    }

    method TakeLine(at: real) returns (raised: bool)
      requires guard.Valid() && StreamOk() && !NewlineFree(stdoutBuf)
      modifies this`stdoutBuf, this`recentLines, this`cut, this`handled, guard, guard.workers.Values
      ensures guard.Valid() && StreamOk() && fresh(guard.workers.Values - old(guard.workers.Values))
      ensures |stdoutBuf| < |old(stdoutBuf)|
      ensures unchanged(`sent, `exitEscalationStarted, `killed, `clock)
      ensures Recorded(id, parse, at, old(guard.history), old(handled), guard.history, handled)
      ensures StopsAtRaise(parse, old(handled), handled, raised)
    {
      RecordedNothing(id, parse, at, guard.history, handled);
      var line := CutLine();
      raised := false;
      if line != "" {
        RecordedOne(id, parse, at, guard.history, handled, line);
        raised := HandleStdoutLine(line, at);
      }
    }

    /** Cut off and handle every complete line, unless one raises. */
    method HandleLines(at: real) returns (raised: bool)
      requires guard.Valid() && StreamOk()
      modifies this`stdoutBuf, this`recentLines, this`cut, this`handled, guard, guard.workers.Values
      ensures guard.Valid() && StreamOk() && fresh(guard.workers.Values - old(guard.workers.Values))
      ensures !raised ==> NewlineFree(stdoutBuf)
      ensures unchanged(`sent, `exitEscalationStarted, `killed, `clock)
      ensures Recorded(id, parse, at, old(guard.history), old(handled), guard.history, handled)
      ensures StopsAtRaise(parse, old(handled), handled, raised)
    {
      raised := false;
      RecordedNothing(id, parse, at, guard.history, handled);
      while NEWLINE in stdoutBuf
        invariant guard.Valid() && StreamOk() && fresh(guard.workers.Values - old(guard.workers.Values))
        invariant unchanged(`sent, `exitEscalationStarted, `killed, `clock)
        invariant Recorded(id, parse, at, old(guard.history), old(handled), guard.history, handled)
        invariant StopsAtRaise(parse, old(handled), handled, false)
        decreases |stdoutBuf|
      {
        ghost var es, h := guard.history, handled;
        raised := TakeLine(at);
        RecordedThen(id, parse, at, old(guard.history), old(handled), es, h, guard.history, handled);
        StopsThen(parse, old(handled), h, handled, raised);
        if raised {
          return;
        }
      }
    }

    method AppendChunk(chunk: seq<Byte>)
      requires StreamOk()
      modifies this`stdoutBuf, this`read
      ensures StreamOk() && read == old(read) + chunk && stdoutBuf == old(stdoutBuf) + chunk
    {
      JoinAppend(cut, stdoutBuf, chunk);
      stdoutBuf := stdoutBuf + chunk;
      read := read + chunk;
    }

    /** Take in one chunk and handle the lines it completes. */
    method ReadChunk(chunk: seq<Byte>, at: real) returns (raised: bool)
      requires guard.Valid() && StreamOk() && UsageOk()
      modifies this`stdoutBuf, this`recentLines, this`read, this`cut, this`handled, guard, guard.workers.Values
      ensures guard.Valid() && StreamOk() && UsageOk() && fresh(guard.workers.Values - old(guard.workers.Values))
      ensures read == old(read) + chunk
      ensures !raised ==> NewlineFree(stdoutBuf) && 10 !in stdoutBuf
      ensures unchanged(`sent, `exitEscalationStarted, `killed, `clock)
      ensures Recorded(id, parse, at, old(guard.history), old(handled), guard.history, handled)
      ensures StopsAtRaise(parse, old(handled), handled, raised)
    {
      AppendChunk(chunk);
      raised := HandleLines(at);
      RecordedUsage(id, parse, at, old(guard.history), old(handled), guard.history, handled);
    }

    ghost predicate OverBudget()
      reads guard
    {
      || Total(guard.history).usd > guard.globalUsd
      || Spent(guard.history, id).usd > guard.perWorkerUsd
    }

    method IsOverBudget() returns (over: bool)
      requires guard.Valid()
      ensures over <==> OverBudget()
    {
      var cost := guard.Check(id);
      over := cost in {OverPerWorker, OverGlobal};
    }

    /** One rung of the ladder, if the worker is over budget or a kill candidate. */
    method KillEscalation(stuck: bool, startAt: real, signalAt: real) returns (signal: Option<Signal>)
      requires guard.Valid() && SignalsOk()
      requires clock <= startAt <= signalAt
      modifies this`exitEscalationStarted, this`killed, this`sent, this`clock
      ensures SignalsOk() && clock == signalAt
      ensures signal.Some? <==> OverBudget() || stuck
      ensures Escalated(old(exitEscalationStarted), exitEscalationStarted, startAt, signalAt, old(sent), sent, signal)
      ensures killed <==> old(killed) || signal == Some(Kill)
      ensures signal.Some? ==>
        && exitEscalationStarted == (if old(exitEscalationStarted).Some? then old(exitEscalationStarted) else Some(startAt))
        && var e := signalAt - exitEscalationStarted.value;
        && (signal == Some(Interrupt) <==> e < 5.0)
        && (signal == Some(Terminate) <==> 5.0 <= e < 10.0)
        && (signal == Some(Kill) <==> e >= 10.0)
      ensures killed && !old(killed) ==>
        (OverBudget() || stuck) && exitEscalationStarted.Some? && signalAt - exitEscalationStarted.value >= 10.0
    {
      var over := IsOverBudget();
      ClockAdvances(sent, exitEscalationStarted, clock, signalAt);
      ghost var before := clock;
      clock := signalAt;
      if !over && !stuck {
        return None;
      }
      if exitEscalationStarted.None? {
        exitEscalationStarted := Some(startAt);
      }
      var sinceOver := signalAt - exitEscalationStarted.value;
      EscalationPush(sent, exitEscalationStarted, before, sinceOver);
      if sinceOver < ESCALATION_WAIT {
        signal := Some(Interrupt);
      } else if sinceOver < ESCALATION_WAIT * 2.0 {
        signal := Some(Terminate);
      } else {
        signal := Some(Kill);
        killed := true;
      }
      sent := sent + [Sent(signal.value, sinceOver)];
    }

    /** Within a poll the stuck status is read twice, and must hold both times. */
    method MaybeEscalate(stuck: bool, stuckAgain: bool, startAt: real, signalAt: real) returns (signal: Option<Signal>)
      requires guard.Valid() && SignalsOk()
      requires clock <= startAt <= signalAt
      modifies this`exitEscalationStarted, this`killed, this`sent, this`clock
      ensures guard.Valid() && SignalsOk() && clock <= signalAt
      ensures signal.Some? <==> OverBudget() || (stuck && stuckAgain)
      ensures Escalated(old(exitEscalationStarted), exitEscalationStarted, startAt, signalAt, old(sent), sent, signal)
      ensures killed <==> old(killed) || signal == Some(Kill)
      ensures signal.Some? ==> exitEscalationStarted.Some? && OnRung(signal.value, signalAt - exitEscalationStarted.value)
      ensures killed && !old(killed) ==>
        (OverBudget() || (stuck && stuckAgain)) && exitEscalationStarted.Some? && signalAt - exitEscalationStarted.value >= 10.0
    {
      signal := None;
      var over := IsOverBudget();
      if over || stuck {
        signal := KillEscalation(stuckAgain, startAt, signalAt);
      }
    }

    /** The reading part of a poll, up to what the stuck detector is shown. */
    method ReadReady(chunk: seq<Byte>, at: real) returns (raised: bool, capture: Option<seq<string>>)
      requires guard.Valid() && StreamOk() && UsageOk()
      modifies this`stdoutBuf, this`recentLines, this`read, this`cut, this`handled, guard, guard.workers.Values
      ensures guard.Valid() && StreamOk() && UsageOk() && fresh(guard.workers.Values - old(guard.workers.Values))
      ensures read == old(read) + chunk
      ensures !raised && (chunk != [] || NewlineFree(old(stdoutBuf))) ==> cut + [stdoutBuf] == Split(read)
      ensures !raised ==> capture == if handled == [] then None else Some(Last(handled, CAPTURE_WINDOW))
      ensures unchanged(`sent, `exitEscalationStarted, `killed, `clock)
      ensures Recorded(id, parse, at, old(guard.history), old(handled), guard.history, handled)
      ensures StopsAtRaise(parse, old(handled), handled, raised)
    {
      raised, capture := false, None;
      if chunk == [] {
        RecordedNothing(id, parse, at, guard.history, handled);
      } else {
        raised := ReadChunk(chunk, at);
        if raised {
          return;
        }
      }
      if NewlineFree(stdoutBuf) {
        FramingIsUnique(read, cut, stdoutBuf);
      }
      WindowShowsLast(handled, recentLines);
      if recentLines != [] {
        capture := Some(Last(recentLines, CAPTURE_WINDOW));
      }
    }

    predicate ReadsNothing(input: PollInput)
      reads this`lastHeartbeat
    {
      input.now - lastHeartbeat >= HEARTBEAT_INTERVAL || !selRegistered || input.selectFails
    }

    /** The part of a poll after the heartbeat: every complete line is handled, unless that
        raises; the stuck detector sees the last 50; then a signal may be due. */
    method ReadAndEscalate(input: PollInput) returns (raised: bool, capture: Option<seq<string>>, signal: Option<Signal>)
      requires Valid() && clock <= input.now && InOrder(input)
      modifies this`stdoutBuf, this`recentLines, this`read, this`cut, this`handled, guard, guard.workers.Values
      modifies this`exitEscalationStarted, this`killed, this`sent, this`clock
      ensures Valid() && fresh(guard.workers.Values - old(guard.workers.Values))
      ensures Recorded(id, parse, input.lineAt, old(guard.history), old(handled), guard.history, handled)
      ensures StopsAtRaise(parse, old(handled), handled, raised)
      ensures read == old(read) + input.chunk
      ensures !raised && (input.chunk != [] || NewlineFree(old(stdoutBuf))) ==> cut + [stdoutBuf] == Split(read)
      ensures !raised ==> capture == if handled == [] then None else Some(Last(handled, CAPTURE_WINDOW))
      ensures signal.Some? <==> !raised && (OverBudget() || (input.stuck && input.stuckAgain))
      ensures Escalated(old(exitEscalationStarted), exitEscalationStarted, input.escalateAt, input.signalAt,
                        old(sent), sent, signal)
      ensures killed <==> old(killed) || signal == Some(Kill)
      ensures signal.Some? ==> exitEscalationStarted.Some? && OnRung(signal.value, input.signalAt - exitEscalationStarted.value)
    {
      signal := None;
      raised, capture := ReadReady(input.chunk, input.lineAt);
      assert SignalsOk() && clock == old(clock);
      if !raised {
        signal := MaybeEscalate(input.stuck, input.stuckAgain, input.escalateAt, input.signalAt);
      }
    }

    /** One poll. With a heartbeat due, or nothing to select on, nothing is read and no signal
        is sent. */
    method PollOnce(input: PollInput) returns (raised: bool, capture: Option<seq<string>>, signal: Option<Signal>)
      requires Valid() && clock <= input.now && InOrder(input)
      modifies this, guard, guard.workers.Values
      ensures Valid() && fresh(guard.workers.Values - old(guard.workers.Values))
      ensures old(ReadsNothing(input)) ==> !raised && capture.None? && signal.None?
      ensures old(ReadsNothing(input)) ==>
        unchanged(guard) && unchanged(`read, `handled, `sent, `exitEscalationStarted, `killed)
      ensures !old(ReadsNothing(input)) ==>
        && read == old(read) + input.chunk
        && Recorded(id, parse, input.lineAt, old(guard.history), old(handled), guard.history, handled)
        && StopsAtRaise(parse, old(handled), handled, raised)
        && (!raised && (input.chunk != [] || NewlineFree(old(stdoutBuf))) ==> cut + [stdoutBuf] == Split(read))
        && (!raised ==> capture == if handled == [] then None else Some(Last(handled, CAPTURE_WINDOW)))
        && (signal.Some? <==> !raised && (OverBudget() || (input.stuck && input.stuckAgain)))
        && Escalated(old(exitEscalationStarted), exitEscalationStarted, input.escalateAt, input.signalAt,
                     old(sent), sent, signal)
        && (killed <==> old(killed) || signal == Some(Kill))
      ensures signal.Some? ==>
        && exitEscalationStarted == (if old(exitEscalationStarted).Some? then old(exitEscalationStarted) else Some(input.escalateAt))
        && var e := input.signalAt - exitEscalationStarted.value;
        && (signal == Some(Interrupt) <==> e < 5.0)
        && (signal == Some(Terminate) <==> 5.0 <= e < 10.0)
        && (signal == Some(Kill) <==> e >= 10.0)
      ensures killed && !old(killed) ==>
        && (OverBudget() || (input.stuck && input.stuckAgain))
        && exitEscalationStarted.Some? && input.signalAt - exitEscalationStarted.value >= 10.0
      ensures lastHeartbeat == if input.now - old(lastHeartbeat) >= 5.0 then input.now else old(lastHeartbeat)
    {
      raised, capture, signal := false, None, None;
      if input.now - lastHeartbeat >= HEARTBEAT_INTERVAL {
        lastHeartbeat := input.now;
        return;
      }
      if !selRegistered || input.selectFails {
        return;
      }
      raised, capture, signal := ReadAndEscalate(input);
    }
  }

  /** However the bytes came in chunks, the buffer, the handled lines and the window depend
      on the bytes alone. */
  lemma ChunksDoNotMatter(a: WorkerHandle, b: WorkerHandle)
    requires a.StreamOk() && NewlineFree(a.stdoutBuf) && b.StreamOk() && NewlineFree(b.stdoutBuf)
    requires a.read == b.read && a.decode == b.decode
    ensures a.stdoutBuf == b.stdoutBuf && a.handled == b.handled && a.recentLines == b.recentLines
    ensures a.handled == HandledOf(a.decode, Split(a.read)[..|Split(a.read)| - 1])
  {
    FramingIsUnique(a.read, a.cut, a.stdoutBuf);
    FramingIsUnique(b.read, b.cut, b.stdoutBuf);
    var pieces := Split(a.read);
    assert a.cut == pieces[..|pieces| - 1] && b.cut == pieces[..|pieces| - 1];
    assert a.stdoutBuf == pieces[|pieces| - 1] && b.stdoutBuf == pieces[|pieces| - 1];
  }

  /** A worker's account is the sum, over its handled result lines, of the reported non-zero
      cost or else the estimate. */
  lemma AccountIsReported(h: WorkerHandle)
    requires h.Valid() && Reset(h.id) !in h.guard.history
    ensures Spent(h.guard.history, h.id) == SumOfUsages(ReportedBy(h.parse, h.handled))
  {
    SpentIsSum(h.guard.history, h.id);
  }
}
