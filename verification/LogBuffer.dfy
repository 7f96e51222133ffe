/** The log service: one task appends lines to a shared string, another writes the
    string to the log file, a channel of capacity one asks for early writes. */
module LogBuffer {
  import opened Common

  const FLUSH_ABOVE: nat := 65_000
  const NEWLINE: byte := 10

  /** The appending task: waiting for a log, for the lock with a line in hand, for
      room in the channel after a long append, or finished. */
  datatype Appender = Receiving | Waiting(line: Bytes) | Blocked | Stopped

  /** The flushing task: waiting for a token or the timer, for the lock, holding
      the lock, holding it with the string written but not yet cleared. */
  datatype Flusher = Selecting | Woken | Locked | Written

  /** `received`, `flushed` (lines in the file) and `overflows` (long appends since
      the last clear) are history. */
  datatype State = State(
    file: Bytes, buffer: Bytes, tokens: nat, appender: Appender, flusher: Flusher,
    received: seq<Bytes>, flushed: nat, overflows: nat)

  datatype Event =
    | Receive(line: Bytes) | Append | SendToken | Close
    | TakeToken | Timer | Lock | WriteAll | Clear

  function Start(): State {
    State([], [], 0, Receiving, Selecting, [], 0, 0)
  }

  /** The flusher holds the lock; the appender never keeps it between steps. */
  predicate LockHeld(s: State) {
    s.flusher.Locked? || s.flusher.Written?
  }

  /** The lines already in the shared string or the file. */
  function AppendedLines(s: State): seq<Bytes>
    requires s.appender.Waiting? ==> s.received != []
  {
    if s.appender.Waiting? then s.received[..|s.received| - 1] else s.received
  }

  /** One step of one task; a step that is not possible changes nothing. */
  function Step(s: State, e: Event): State {
    match e
    case Receive(line) =>
      if s.appender.Receiving? then s.(appender := Waiting(line), received := s.received + [line]) else s
    case Append =>
      if s.appender.Waiting? && !LockHeld(s) then
        var buffer := s.buffer + s.appender.line + [NEWLINE];
        if |buffer| > FLUSH_ABOVE
        then s.(buffer := buffer, appender := Blocked, overflows := s.overflows + 1)
        else s.(buffer := buffer, appender := Receiving)
      else s
    case SendToken =>
      if s.appender.Blocked? && s.tokens == 0 then s.(tokens := 1, appender := Receiving) else s
    case Close =>
      if s.appender.Receiving? then s.(appender := Stopped) else s
    case TakeToken =>
      if s.flusher.Selecting? && s.tokens == 1 then s.(tokens := 0, flusher := Woken) else s
    case Timer =>
      if s.flusher.Selecting? then s.(flusher := Woken) else s
    case Lock =>
      if s.flusher.Woken? then s.(flusher := Locked) else s
    case WriteAll =>
      if s.flusher.Locked?
      then s.(file := s.file + s.buffer, flusher := Written,
              flushed := |s.received| - if s.appender.Waiting? && s.received != [] then 1 else 0)
      else s
    case Clear =>
      if s.flusher.Written? then s.(buffer := [], flusher := Selecting, overflows := 0) else s
  }

  function Run(events: seq<Event>): State {
    if events == [] then Start()
    else Step(Run(events[..|events| - 1]), events[|events| - 1])
  }

  /** The two tasks' atomic sections over the shared objects. */
  class LogService {
    var file: Bytes
    var logsToWrite: Bytes
    var tokens: nat
    var appender: Appender
    var flusher: Flusher
    ghost var received: seq<Bytes>
    ghost var flushed: nat
    ghost var overflows: nat

    ghost function View(): State
      reads this
    {
      State(file, logsToWrite, tokens, appender, flusher, received, flushed, overflows)
    }

    constructor ()
      ensures View() == Start()
    {
      file, logsToWrite, tokens, appender, flusher := [], [], 0, Receiving, Selecting;
      received, flushed, overflows := [], 0, 0;
    }

    method ReceiveLog(line: Bytes)
      requires appender.Receiving?
      modifies this
      ensures View() == Step(old(View()), Receive(line))
    {
      appender := Waiting(line);
      received := received + [line];
    }

    method AppendLine()
      requires appender.Waiting? && !flusher.Locked? && !flusher.Written?
      modifies this
      ensures View() == Step(old(View()), Append)
    {
      logsToWrite := logsToWrite + appender.line;
      logsToWrite := logsToWrite + [NEWLINE];
      if |logsToWrite| > FLUSH_ABOVE {
        appender := Blocked;
        overflows := overflows + 1;
      } else {
        appender := Receiving;
      }
    }

    method ForceWrite()
      requires appender.Blocked? && tokens == 0
      modifies this
      ensures View() == Step(old(View()), SendToken)
    {
      tokens := tokens + 1;
      appender := Receiving;
    }

    method Select(byToken: bool)
      requires flusher.Selecting? && (byToken ==> tokens == 1)
      modifies this
      ensures View() == Step(old(View()), if byToken then TakeToken else Timer)
    {
      if byToken {
        tokens := tokens - 1;
      }
      flusher := Woken;
    }

    /** Lock, write and clear: a whole turn of the flushing loop. */
    method Flush()
      requires flusher.Woken?
      modifies this
      ensures View() == Step(Step(Step(old(View()), Lock), WriteAll), Clear)
    {
      flusher := Locked;
      file := file + logsToWrite;
      flusher := Written;
      flushed := |received| - if appender.Waiting? && received != [] then 1 else 0;
      logsToWrite := [];
      flusher := Selecting;
      overflows := 0;
    }
  }

  // ---------- nothing is lost ----------

  /** Lines as they stand in the file. */
  function TextOf(lines: seq<Bytes>): Bytes {
    if lines == [] then [] else TextOf(lines[..|lines| - 1]) + lines[|lines| - 1] + [NEWLINE]
  }

  lemma TextOfMore(lines: seq<Bytes>, line: Bytes)
    ensures TextOf(lines + [line]) == TextOf(lines) + line + [NEWLINE]
  {
    assert (lines + [line])[..|lines|] == lines;
  }

  ghost predicate Shape(s: State) {
    && s.tokens <= 1
    && (s.appender.Waiting? ==> s.received != [] && s.received[|s.received| - 1] == s.appender.line)
    && s.flushed <= |s.received|
  }

  ghost predicate Kept(s: State)
    requires Shape(s)
  {
    && s.file == TextOf(s.received[..s.flushed])
    && if s.flusher.Written? then s.file == TextOf(AppendedLines(s)) && s.received[..s.flushed] == AppendedLines(s)
       else s.file + s.buffer == TextOf(AppendedLines(s))
  }

  lemma AppendKeeps(s: State)
    requires Shape(s) && Kept(s)
    ensures Shape(Step(s, Append)) && Kept(Step(s, Append))
  {
    if s.appender.Waiting? && !LockHeld(s) {
      var s' := Step(s, Append);
      var before := AppendedLines(s);
      assert s.received == before + [s.appender.line];
      TextOfMore(before, s.appender.line);
      assert s.file + s'.buffer == (s.file + s.buffer) + s.appender.line + [NEWLINE];
    }
  }

  lemma ReceiveKeeps(s: State, line: Bytes)
    requires Shape(s) && Kept(s)
    ensures Shape(Step(s, Receive(line))) && Kept(Step(s, Receive(line)))
  {
    if s.appender.Receiving? {
      var received := s.received + [line];
      assert received[..|s.received|] == s.received;
      assert received[..s.flushed] == s.received[..s.flushed];
    }
  }

  lemma WriteAllKeeps(s: State)
    requires Shape(s) && Kept(s)
    ensures Shape(Step(s, WriteAll)) && Kept(Step(s, WriteAll))
  {
    if s.flusher.Locked? {
      var s' := Step(s, WriteAll);
      assert s'.received[..s'.flushed] == AppendedLines(s);
    }
  }

  lemma StepKeepsText(s: State, e: Event)
    requires Shape(s) && Kept(s)
    ensures Shape(Step(s, e)) && Kept(Step(s, e))
  {
    match e
    case Receive(line) => ReceiveKeeps(s, line);
    case Append => AppendKeeps(s);
    case WriteAll => WriteAllKeeps(s);
    case Clear => assert s.file + [] == s.file;
    case _ =>
  }

  lemma {:induction false} TextKept(events: seq<Event>)
    ensures Shape(Run(events)) && Kept(Run(events))
  {
    if events == [] {
      assert Start().received[..0] == [];
    } else {
      TextKept(events[..|events| - 1]);
      StepKeepsText(Run(events[..|events| - 1]), events[|events| - 1]);
    }
  }

  /** For every interleaving the file holds whole lines, the first of those
      received, and file and shared string together hold every line appended,
      once and in order. */
  lemma NothingLost(events: seq<Event>)
    ensures var s := Run(events);
            && s.flushed <= |s.received| && s.file == TextOf(s.received[..s.flushed])
            && (s.appender.Waiting? ==> s.received != [])
            && s.file + (if s.flusher.Written? then [] else s.buffer) == TextOf(AppendedLines(s))
  {
    TextKept(events);
    assert Run(events).file + [] == Run(events).file;
  }

  // ---------- the memory bound ----------

  function One(b: bool): nat {
    if b then 1 else 0
  }

  /** Every line, its newline included, is at most `l` bytes. */
  ghost predicate LinesAtMost(s: State, l: nat) {
    forall line :: line in s.received ==> |line| + 1 <= l
  }

  ghost predicate Small(s: State, l: nat) {
    && s.overflows <= s.tokens + One(!s.flusher.Selecting?) + One(s.appender.Blocked?)
    && |s.buffer| <= FLUSH_ABOVE + s.overflows * l
  }

  lemma StepKeepsSmall(s: State, e: Event, l: nat)
    requires Shape(s) && Small(s, l) && LinesAtMost(Step(s, e), l)
    ensures Small(Step(s, e), l)
  {
    if e == Append && s.appender.Waiting? && !LockHeld(s) {
      assert s.appender.line in s.received;
      assert (s.overflows + 1) * l == s.overflows * l + l;
    }
  }

  lemma {:induction false} SmallKept(events: seq<Event>, l: nat)
    requires LinesAtMost(Run(events), l)
    ensures Small(Run(events), l)
  {
    if events == [] {
    } else {
      var before := events[..|events| - 1];
      var s, s' := Run(before), Run(events);
      assert s' == Step(s, events[|events| - 1]);
      assert forall line :: line in s.received ==> line in s'.received;
      SmallKept(before, l);
      TextKept(before);
      StepKeepsSmall(s, events[|events| - 1], l);
    }
  }

  lemma SmallIsBounded(s: State, l: nat)
    requires Shape(s) && Small(s, l)
    ensures s.overflows <= 3 && |s.buffer| <= 65_000 + 3 * l
  {
    assert s.overflows * l <= 3 * l;
  }

  /** The shared string never holds more than 65,000 bytes and three lines. */
  lemma BufferBounded(events: seq<Event>, l: nat)
    requires LinesAtMost(Run(events), l)
    ensures |Run(events).buffer| <= 65_000 + 3 * l
    ensures Run(events).overflows <= 3
  {
    SmallKept(events, l);
    TextKept(events);
    SmallIsBounded(Run(events), l);
  }

  // ---------- the bound is attained ----------

  lemma RunMore(events: seq<Event>, e: Event)
    ensures Run(events + [e]) == Step(Run(events), e)
  {
    assert (events + [e])[..|events|] == events;
  }

  /** Reception and append of one line. */
  lemma OneLine(events: seq<Event>, line: Bytes) returns (more: seq<Event>)
    requires Run(events).appender.Receiving? && !LockHeld(Run(events))
    ensures Run(more) == Step(Step(Run(events), Receive(line)), Append)
    ensures |Run(more).buffer| == |Run(events).buffer| + |line| + 1
    ensures Run(more).received == Run(events).received + [line]
  {
    var r := events + [Receive(line)];
    RunMore(events, Receive(line));
    more := r + [Append];
    RunMore(r, Append);
  }

  /** A serialised log for every length, newline included, from `m` to `l`. */
  ghost predicate Serialised(log: nat -> Bytes, m: nat, l: nat) {
    1 <= m <= l && forall k :: m <= k <= l ==> |log(k)| + 1 == k
  }

  /** Only such lines have been received. */
  ghost predicate OnlyLogs(s: State, log: nat -> Bytes, m: nat, l: nat) {
    forall line :: line in s.received ==> exists k :: m <= k <= l && line == log(k)
  }

  /** `n` lines of `m` to `l` bytes can make up `size` bytes. */
  predicate MakeUp(n: nat, size: nat, m: nat, l: nat) {
    n * m <= size <= n * l
  }

  lemma OneLineMore(n: nat, size: nat, k: nat, m: nat, l: nat)
    requires MakeUp(n, size, m, l) && m <= k <= l
    ensures MakeUp(n + 1, size + k, m, l)
  {
    assert (n + 1) * m == n * m + m && (n + 1) * l == n * l + l;
  }

  /** A last line that leaves the others enough to make up the rest. */
  lemma LastLine(n: nat, size: nat, m: nat, l: nat) returns (k: nat)
    requires n > 0 && 1 <= m <= l && MakeUp(n, size, m, l)
    ensures m <= k <= l && k <= size && MakeUp(n - 1, size - k, m, l)
  {
    assert n * m == (n - 1) * m + m && n * l == (n - 1) * l + l;
    assert 0 <= (n - 1) * m <= (n - 1) * l;
    k := Max(m, size - (n - 1) * l);
  }

  lemma {:induction false} FillUp(n: nat, size: nat, log: nat -> Bytes, m: nat, l: nat) returns (events: seq<Event>)
    requires size <= FLUSH_ABOVE && Serialised(log, m, l) && MakeUp(n, size, m, l)
    ensures var s := Run(events);
            && |s.buffer| == size && s.tokens == 0 && s.appender.Receiving? && s.flusher.Selecting?
            && OnlyLogs(s, log, m, l)
  {
    if n == 0 {
      events := [];
    } else {
      var k := LastLine(n, size, m, l);
      events := FillUp(n - 1, size - k, log, m, l);
      events := OneLine(events, log(k));
    }
  }

  /** A long append whose token the flusher has taken but not yet acted on. */
  lemma FirstOverflow(n: nat, log: nat -> Bytes, m: nat, l: nat) returns (events: seq<Event>)
    requires Serialised(log, m, l) && MakeUp(n, FLUSH_ABOVE, m, l)
    ensures var s := Run(events);
            && |s.buffer| == FLUSH_ABOVE + l
            && s.tokens == 0 && s.appender.Receiving? && s.flusher.Woken?
            && OnlyLogs(s, log, m, l)
  {
    var e0 := FillUp(n, FLUSH_ABOVE, log, m, l);
    var e1 := OneLine(e0, log(l));
    var e2 := e1 + [SendToken];
    RunMore(e1, SendToken);
    events := e2 + [TakeToken];
    RunMore(e2, TakeToken);
  }

  lemma Attains(n: nat, log: nat -> Bytes, m: nat, l: nat) returns (events: seq<Event>)
    requires Serialised(log, m, l) && MakeUp(n, FLUSH_ABOVE, m, l)
    ensures OnlyLogs(Run(events), log, m, l) && |Run(events).buffer| == 65_000 + 3 * l
  {
    var e3 := FirstOverflow(n, log, m, l);
    var e4 := OneLine(e3, log(l));
    var e5 := e4 + [SendToken];
    RunMore(e4, SendToken);
    events := OneLine(e5, log(l));
  }

  /** `n` lines made up `size` bytes before the string became long; every long
      append since has added one line. */
  ghost predicate Layered(s: State, n: nat, size: nat, m: nat, l: nat) {
    && MakeUp(n, size, m, l) && size <= FLUSH_ABOVE
    && |s.buffer| <= size + s.overflows * l
    && (s.overflows == 0 ==> |s.buffer| == size)
    && (s.overflows > 0 ==> |s.buffer| > FLUSH_ABOVE)
  }

  lemma AppendLayers(s: State, n: nat, size: nat, m: nat, l: nat) returns (n': nat, size': nat)
    requires s.appender.Waiting? && m <= |s.appender.line| + 1 <= l && Layered(s, n, size, m, l)
    ensures Layered(Step(s, Append), n', size', m, l)
  {
    n', size' := n, size;
    if !LockHeld(s) {
      var k := |s.appender.line| + 1;
      assert (s.overflows + 1) * l == s.overflows * l + l;
      if |s.buffer| + k <= FLUSH_ABOVE {
        OneLineMore(n, size, k, m, l);
        n', size' := n + 1, size + k;
      }
    }
  }

  lemma StepLayers(s: State, e: Event, n: nat, size: nat, m: nat, l: nat) returns (n': nat, size': nat)
    requires Layered(s, n, size, m, l)
    requires s.appender.Waiting? ==> m <= |s.appender.line| + 1 <= l
    ensures Layered(Step(s, e), n', size', m, l)
  {
    n', size' := n, size;
    if e.Append? && s.appender.Waiting? {
      n', size' := AppendLayers(s, n, size, m, l);
    } else if e.Clear? && s.flusher.Written? {
      n', size' := 0, 0;
    }
  }

  lemma {:induction false} RunLayers(events: seq<Event>, log: nat -> Bytes, m: nat, l: nat) returns (n: nat, size: nat)
    requires Serialised(log, m, l) && OnlyLogs(Run(events), log, m, l)
    ensures Layered(Run(events), n, size, m, l)
  {
    n, size := 0, 0;
    if events != [] {
      var before := events[..|events| - 1];
      var s := Run(before);
      assert forall line :: line in s.received ==> line in Run(events).received;
      TextKept(before);
      assert s.appender.Waiting? ==> s.appender.line in s.received;
      n, size := RunLayers(before, log, m, l);
      n, size := StepLayers(s, events[|events| - 1], n, size, m, l);
    }
  }

  lemma LogsAtMost(events: seq<Event>, log: nat -> Bytes, m: nat, l: nat)
    requires Serialised(log, m, l) && OnlyLogs(Run(events), log, m, l)
    ensures LinesAtMost(Run(events), l)
  {
  }

  /** When logs come in all lengths from `m` to `l`, the bound is met exactly if and
      only if some number of logs makes up 65,000 bytes. */
  lemma BoundAttained(log: nat -> Bytes, m: nat, l: nat)
    requires Serialised(log, m, l)
    ensures (exists events :: OnlyLogs(Run(events), log, m, l) && |Run(events).buffer| == 65_000 + 3 * l)
       <==> (exists n: nat :: MakeUp(n, 65_000, m, l))
  {
    if n: nat :| MakeUp(n, 65_000, m, l) {
      var events := Attains(n, log, m, l);
    }
    if events :| OnlyLogs(Run(events), log, m, l) && |Run(events).buffer| == 65_000 + 3 * l {
      LogsAtMost(events, log, m, l);
      BufferBounded(events, l);
      var n, size := RunLayers(events, log, m, l);
      Tight(Run(events), n, size, m, l);
    }
  }

  lemma Tight(s: State, n: nat, size: nat, m: nat, l: nat)
    requires Layered(s, n, size, m, l) && s.overflows <= 3 && |s.buffer| == FLUSH_ABOVE + 3 * l
    ensures MakeUp(n, FLUSH_ABOVE, m, l)
  {
    assert s.overflows * l <= 3 * l;
  }

  // ---------- progress ----------

  /** In every reachable state four flusher steps empty the shared string into the
      file, and then the appender gets its token in or its line appended: no task
      waits for ever. */
  lemma FlushIsNear(events: seq<Event>)
    ensures var s := Run(events);
            var s4 := Step(Step(Step(Step(s, Timer), Lock), WriteAll), Clear);
            var s5 := Step(Step(s4, TakeToken), SendToken);
            && (s.appender.Waiting? ==> s.received != [])
            && s4.buffer == [] && s4.file == TextOf(AppendedLines(s))
            && (s.appender.Blocked? ==> s5.appender.Receiving?)
            && (s.appender.Waiting? ==> !Step(s4, Append).appender.Waiting?)
  {
    TextKept(events);
  }
}
