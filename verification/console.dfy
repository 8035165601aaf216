/**
 Console output of native/uxb_runtime/uxb_runtime_mir.cpp: every task has its own unfinished line, and only
 whole lines leave it while the task pool is active. A character stands for one byte. Each operation is one
 step: a write runs under the CONSOLE lock once the pool is active, and alone before that.
 */
module Console {
  // TaskConsoleState.
  datatype TaskConsole = TaskConsole(line: string, column: nat, row: nat)

  // What wrote a chunk: a write before the pool was active, a write afterwards, or a flush.
  datatype Origin = Direct | WholeLines | Flushed

  datatype Chunk = Chunk(task: nat, text: string, origin: Origin)

  datatype State = State(active: bool, states: map<nat, TaskConsole>, out: seq<Chunk>)

  const BACKSPACE: char := 8 as char

  const FRESH: TaskConsole := TaskConsole("", 0, 1)

  function Of(s: State, k: nat): TaskConsole {
    if k in s.states then s.states[k] else FRESH
  }

  function Pending(s: State, k: nat): string {
    Of(s, k).line
  }

  // ---------------------------------------------------------------- one write

  // std::string::rfind('\n') + 1, or 0.
  function Cut(s: string): (n: nat)
    ensures n <= |s|
    ensures n > 0 ==> s[n - 1] == '\n'
    ensures '\n' !in s[n..]
  {
    if s == "" then 0
    else if s[|s| - 1] == '\n' then |s|
    else Cut(s[..|s| - 1])
  }

  // Continuation bytes of UTF-8 and control characters do not advance the column.
  predicate Advances(ch: char) {
    var b := ch as int;
    b >= 32 && b != 127 && !(128 <= b < 192)
  }

  function Tracked(c: TaskConsole, ch: char): TaskConsole {
    if ch == '\n' then c.(row := c.row + 1, column := 0)
    else if ch == '\r' then c.(column := 0)
    else if ch == '\t' then c.(column := c.column + (8 - c.column % 8))
    else if ch == BACKSPACE then c.(column := if c.column > 0 then c.column - 1 else 0)
    else if Advances(ch) then c.(column := c.column + 1)
    else c
  }

  function Track(c: TaskConsole, text: string): (r: TaskConsole)
    ensures r.line == c.line
  {
    if text == "" then c else Tracked(Track(c, text[..|text| - 1]), text[|text| - 1])
  }

  function Write(s: State, k: nat, text: string): State {
    var c := Track(Of(s, k), text);
    if !s.active && c.line == "" then
      s.(states := s.states[k := c], out := s.out + [Chunk(k, text, Direct)])
    else
      var line := c.line + text;
      var n := Cut(line);
      if n == 0 then s.(states := s.states[k := c.(line := line)])
      else s.(states := s.states[k := c.(line := line[n..])], out := s.out + [Chunk(k, line[..n], WholeLines)])
  }

  // console_flush_current_thread.
  function Flush(s: State, k: nat): State {
    var c := Of(s, k);
    if c.line == "" then s.(states := s.states[k := c])
    else s.(states := s.states[k := c.(line := "")], out := s.out + [Chunk(k, c.line, Flushed)])
  }

  // console_finish_current_task; key 0 is the main program and is kept.
  function Finish(s: State, k: nat): State {
    if k !in s.states then s
    else
      var u := if s.states[k].line == "" then s else Flush(s, k);
      if k != 0 then u.(states := u.states - {k}) else u
  }

  // ---------------------------------------------------------------- runs

  datatype Op = WriteOp(task: nat, text: string) | FlushOp(task: nat) | FinishOp(task: nat) | ActivateOp

  function Do(s: State, op: Op): State {
    match op
    case WriteOp(k, text) => Write(s, k, text)
    case FlushOp(k) => Flush(s, k)
    case FinishOp(k) => Finish(s, k)
    case ActivateOp => s.(active := true)
  }

  ghost predicate IsRun(run: seq<State>, ops: seq<Op>) {
    && |run| == |ops| + 1
    && run[0] == State(false, map[], [])
    && forall i :: 0 <= i < |ops| ==> run[i + 1] == Do(run[i], ops[i])
  }

  // Everything the chunks of a task hold, in order.
  function Emitted(out: seq<Chunk>, k: nat): string {
    if out == [] then ""
    else Emitted(out[..|out| - 1], k) + if out[|out| - 1].task == k then out[|out| - 1].text else ""
  }

  // Everything a task has written, in order.
  function Written(ops: seq<Op>, k: nat): string {
    if ops == [] then ""
    else Written(ops[..|ops| - 1], k) + WrittenBy(ops[|ops| - 1], k)
  }

  function WrittenBy(op: Op, k: nat): string {
    if op.WriteOp? && op.task == k then op.text else ""
  }

  // At most one chunk of task t leaves, and t's text is neither lost nor reordered.
  ghost predicate Moves(s: State, u: State, t: nat, text: string) {
    && (forall k :: k != t ==> Pending(u, k) == Pending(s, k))
    && (if |u.out| == |s.out| + 1 then
          && u.out[..|s.out|] == s.out && u.out[|s.out|].task == t
          && u.out[|s.out|].text + Pending(u, t) == Pending(s, t) + text
        else
          u.out == s.out && Pending(u, t) == Pending(s, t) + text)
  }

  lemma ChunkMoves(s: State, u: State, c: Chunk, text: string)
    requires forall k :: k != c.task ==> Pending(u, k) == Pending(s, k)
    requires u.out == s.out + [c] && c.text + Pending(u, c.task) == Pending(s, c.task) + text
    ensures Moves(s, u, c.task, text)
  {
  }

  lemma WriteMoves(s: State, k: nat, text: string)
    ensures Moves(s, Write(s, k, text), k, text)
  {
    hide Track, Advances;
    var u := Write(s, k, text);
    var line := Pending(s, k) + text;
    assert forall j :: j != k ==> Pending(u, j) == Pending(s, j);
    if !s.active && Pending(s, k) == "" {
      assert text + "" == text == "" + text;
      ChunkMoves(s, u, Chunk(k, text, Direct), text);
    } else if Cut(line) == 0 {
      assert u.out == s.out && Pending(u, k) == line;
    } else {
      assert Pending(u, k) == line[Cut(line)..];
      assert line[..Cut(line)] + line[Cut(line)..] == line;
      ChunkMoves(s, u, Chunk(k, line[..Cut(line)], WholeLines), text);
    }
  }

  lemma FlushMoves(s: State, k: nat)
    ensures Moves(s, Flush(s, k), k, "") && Moves(s, Finish(s, k), k, "")
  {
    var line := Pending(s, k);
    assert line + "" == line;
  }

  lemma MovesConserves(s: State, u: State, t: nat, text: string, k: nat)
    requires Moves(s, u, t, text)
    ensures Emitted(u.out, k) + Pending(u, k) == Emitted(s.out, k) + Pending(s, k) + if k == t then text else ""
  {
    hide Pending;
    var before := Emitted(s.out, k);
    if k != t {
      assert before + "" == before && before + Pending(s, k) + "" == before + Pending(s, k);
    } else {
      assert before + (Pending(s, k) + text) == before + Pending(s, k) + text;
      if |u.out| == |s.out| + 1 {
        var chunk := u.out[|s.out|].text;
        assert before + chunk + Pending(u, k) == before + (chunk + Pending(u, k));
      }
    }
  }

  // One operation moves text from the pending line to the output and loses none.
  lemma StepConserves(s: State, op: Op, k: nat)
    ensures var u := Do(s, op);
            Emitted(u.out, k) + Pending(u, k) == Emitted(s.out, k) + Pending(s, k) + WrittenBy(op, k)
  {
    hide Moves, Emitted, Write, Flush, Finish;
    match op
    case WriteOp(t, text) =>
      WriteMoves(s, t, text);
      MovesConserves(s, Do(s, op), t, text, k);
    case FlushOp(t) =>
      FlushMoves(s, t);
      MovesConserves(s, Do(s, op), t, "", k);
    case FinishOp(t) =>
      FlushMoves(s, t);
      MovesConserves(s, Do(s, op), t, "", k);
    case ActivateOp =>
      assert Emitted(s.out, k) + Pending(s, k) + "" == Emitted(s.out, k) + Pending(s, k);
  }

  // In every interleaving, what a task has emitted followed by its unfinished line is what it has written.
  lemma {:induction false} NothingIsLostOrReordered(run: seq<State>, ops: seq<Op>, n: nat, k: nat)
    requires IsRun(run, ops) && n < |run|
    ensures Emitted(run[n].out, k) + Pending(run[n], k) == Written(ops[..n], k)
    decreases n
  {
    hide Do;
    if n > 0 {
      NothingIsLostOrReordered(run, ops, n - 1, k);
      assert run[n - 1 + 1] == Do(run[n - 1], ops[n - 1]);
      assert ops[..n][..n - 1] == ops[..n - 1];
      StepConserves(run[n - 1], ops[n - 1], k);
    }
  }

  // ---------------------------------------------------------------- lines

  ghost predicate LinesOk(s: State) {
    && (forall k :: k in s.states ==> '\n' !in s.states[k].line)
    && (!s.active ==> forall k :: k in s.states ==> s.states[k].line == "")
  }

  ghost predicate EndsLine(text: string) {
    |text| > 0 && text[|text| - 1] == '\n'
  }

  ghost predicate ChunksOk(out: seq<Chunk>) {
    forall i :: 0 <= i < |out| && out[i].origin == WholeLines ==> EndsLine(out[i].text)
  }

  ghost predicate NewChunksEndLines(s: State, u: State) {
    forall i :: |s.out| <= i < |u.out| ==> EndsLine(u.out[i].text)
  }

  lemma StepKeepsLines(s: State, op: Op)
    requires LinesOk(s) && ChunksOk(s.out)
    ensures var u := Do(s, op);
            LinesOk(u) && ChunksOk(u.out) && (s.active ==> u.active)
            && (op.WriteOp? && s.active ==> NewChunksEndLines(s, u))
  {
    hide Track;
    if op.WriteOp? {
      var line := Pending(s, op.task) + op.text;
      assert '\n' !in line[Cut(line)..];
      if Cut(line) == 0 {
        assert line[0..] == line;
      }
    }
  }

  // A pending line never holds a newline, nothing is pending before the pool is active, and every chunk that
  // a write emits afterwards ends in a newline.
  lemma {:induction false} OnlyWholeLinesLeave(run: seq<State>, ops: seq<Op>, n: nat)
    requires IsRun(run, ops) && n < |run|
    ensures LinesOk(run[n]) && ChunksOk(run[n].out)
    decreases n
  {
    hide Do, LinesOk, ChunksOk;
    if n > 0 {
      OnlyWholeLinesLeave(run, ops, n - 1);
      assert run[n - 1 + 1] == Do(run[n - 1], ops[n - 1]);
      StepKeepsLines(run[n - 1], ops[n - 1]);
    } else {
      EmptyIsOk(run[0]);
    }
  }

  // Once the pool is active, what a write emits is whole lines.
  lemma ActiveWritesEmitLines(run: seq<State>, ops: seq<Op>, n: nat)
    requires IsRun(run, ops) && n < |ops| && run[n].active && ops[n].WriteOp?
    ensures NewChunksEndLines(run[n], run[n + 1])
  {
    hide Do, LinesOk, ChunksOk, NewChunksEndLines;
    OnlyWholeLinesLeave(run, ops, n);
    StepKeepsLines(run[n], ops[n]);
  }

  lemma EmptyIsOk(s: State)
    requires s == State(false, map[], [])
    ensures LinesOk(s) && ChunksOk(s.out)
  {
  }

  // Every chunk of the task is whole lines that a write has emitted.
  ghost predicate OnlyLines(out: seq<Chunk>, k: nat) {
    forall i :: 0 <= i < |out| && out[i].task == k ==> out[i].origin == WholeLines
  }

  // The task has written nothing before the pool was active, and was neither flushed nor finished.
  ghost predicate IsBuffered(run: seq<State>, ops: seq<Op>, n: nat, k: nat)
    requires n <= |ops| <= |run|
  {
    forall j :: 0 <= j < n ==>
      ops[j] != FlushOp(k) && ops[j] != FinishOp(k) && (ops[j].WriteOp? && ops[j].task == k ==> run[j].active)
  }

  lemma StepKeepsOnlyLines(s: State, op: Op, k: nat)
    requires OnlyLines(s.out, k) && op != FlushOp(k) && op != FinishOp(k)
    requires op.WriteOp? && op.task == k ==> s.active
    ensures OnlyLines(Do(s, op).out, k)
  {
    hide Track, Cut;
  }

  lemma {:induction false} BufferedIsOnlyLines(run: seq<State>, ops: seq<Op>, n: nat, k: nat)
    requires IsRun(run, ops) && n < |run| && IsBuffered(run, ops, n, k)
    ensures OnlyLines(run[n].out, k)
    decreases n
  {
    hide Do;
    if n > 0 {
      BufferedIsOnlyLines(run, ops, n - 1, k);
      hide OnlyLines;
      assert run[n - 1 + 1] == Do(run[n - 1], ops[n - 1]);
      StepKeepsOnlyLines(run[n - 1], ops[n - 1], k);
    }
  }

  lemma {:induction false} EmittedEndsLine(out: seq<Chunk>, k: nat)
    requires ChunksOk(out) && OnlyLines(out, k)
    ensures Emitted(out, k) == "" || EndsLine(Emitted(out, k))
  {
    if out != [] {
      EmittedEndsLine(out[..|out| - 1], k);
      var c := out[|out| - 1];
      assert c.task == k ==> EndsLine(c.text);
    }
  }

  lemma {:induction false} CutIsUnique(a: string, b: string)
    requires (a == "" || EndsLine(a)) && '\n' !in b
    ensures Cut(a + b) == |a|
    decreases |b|
  {
    if b == "" {
      assert a + b == a;
    } else {
      CutIsUnique(a, b[..|b| - 1]);
      assert (a + b)[..|a + b| - 1] == a + b[..|b| - 1];
      assert (a + b)[|a + b| - 1] == b[|b| - 1];
    }
  }

  // However its writes were cut up and interleaved, such a task has emitted exactly the text up to the last
  // newline it wrote, and what follows that newline is pending.
  lemma BufferingSplitsAtTheLastNewline(run: seq<State>, ops: seq<Op>, n: nat, k: nat)
    requires IsRun(run, ops) && n < |run| && IsBuffered(run, ops, n, k)
    ensures var text := Written(ops[..n], k);
            Emitted(run[n].out, k) == text[..Cut(text)] && Pending(run[n], k) == text[Cut(text)..]
  {
    BufferedIsOnlyLines(run, ops, n, k);
    OnlyWholeLinesLeave(run, ops, n);
    NothingIsLostOrReordered(run, ops, n, k);
    EmittedEndsLine(run[n].out, k);
    CutIsUnique(Emitted(run[n].out, k), Pending(run[n], k));
  }

  // ---------------------------------------------------------------- after a task has ended

  lemma StepKeepsEmptyLine(s: State, op: Op, k: nat)
    requires Pending(s, k) == "" && WrittenBy(op, k) == "" && (op.WriteOp? ==> op.task != k)
    ensures Pending(Do(s, op), k) == ""
  {
  }

  // After a task has finished, everything it wrote is out.
  lemma {:induction false} FinishedTaskHasEmittedAll(run: seq<State>, ops: seq<Op>, f: nat, n: nat, k: nat)
    requires IsRun(run, ops) && f < n < |run| && ops[f] == FinishOp(k)
    requires forall j :: f < j < n ==> !(ops[j].WriteOp? && ops[j].task == k)
    ensures Pending(run[n], k) == "" && Emitted(run[n].out, k) == Written(ops[..n], k)
    decreases n
  {
    hide Do;
    assert run[n - 1 + 1] == Do(run[n - 1], ops[n - 1]);
    if n == f + 1 {
      FinishClears(run[f], k);
    } else {
      FinishedTaskHasEmittedAll(run, ops, f, n - 1, k);
      StepKeepsEmptyLine(run[n - 1], ops[n - 1], k);
    }
    NothingIsLostOrReordered(run, ops, n, k);
  }

  lemma FinishClears(s: State, k: nat)
    ensures Pending(Do(s, FinishOp(k)), k) == ""
  {
  }

  // A task's console is forgotten with it, and only the main program keeps its row and column.
  lemma FinishForgets(s: State, k: nat)
    ensures var u := Do(s, FinishOp(k));
            k !in u.states || (k == 0 && u.states[0] == Of(s, 0).(line := ""))
  {
  }

  // ---------------------------------------------------------------- row and column

  // Only a write of the task itself moves its cursor, and the cursor depends on nothing but the text.
  lemma {:induction false} TrackTwice(c: TaskConsole, a: string, b: string)
    ensures Track(Track(c, a), b) == Track(c, a + b)
    decreases |b|
  {
    if b == "" {
      assert a + b == a;
    } else {
      TrackTwice(c, a, b[..|b| - 1]);
      assert (a + b)[..|a + b| - 1] == a + b[..|b| - 1];
    }
  }

  ghost predicate SameCursor(a: TaskConsole, b: TaskConsole) {
    a.row == b.row && a.column == b.column
  }

  lemma {:induction false} CursorIgnoresLine(a: TaskConsole, b: TaskConsole, text: string)
    requires SameCursor(a, b)
    ensures SameCursor(Track(a, text), Track(b, text))
  {
    if text != "" {
      CursorIgnoresLine(a, b, text[..|text| - 1]);
    }
  }

  lemma StepMovesCursor(s: State, op: Op, k: nat)
    requires op != FinishOp(k) || k == 0
    ensures SameCursor(Of(Do(s, op), k), Track(Of(s, k), WrittenBy(op, k)))
  {
    assert Track(Of(s, k), "") == Of(s, k);
    hide Track, Cut;
  }

  // The row and column of a task follow from all it has written, whatever was flushed in between.
  lemma {:induction false} CursorFollowsTheText(run: seq<State>, ops: seq<Op>, n: nat, k: nat)
    requires IsRun(run, ops) && n < |run|
    requires k == 0 || forall j :: 0 <= j < n ==> ops[j] != FinishOp(k)
    ensures SameCursor(Of(run[n], k), Track(FRESH, Written(ops[..n], k)))
    decreases n
  {
    hide Do;
    if n > 0 {
      CursorFollowsTheText(run, ops, n - 1, k);
      assert run[n - 1 + 1] == Do(run[n - 1], ops[n - 1]);
      assert ops[..n][..n - 1] == ops[..n - 1];
      StepMovesCursor(run[n - 1], ops[n - 1], k);
      var text := Written(ops[..n - 1], k);
      CursorIgnoresLine(Of(run[n - 1], k), Track(FRESH, text), WrittenBy(ops[n - 1], k));
      TrackTwice(FRESH, text, WrittenBy(ops[n - 1], k));
    }
  }

  // The row is one more than the newlines written.
  function Newlines(text: string): nat {
    if text == "" then 0 else Newlines(text[..|text| - 1]) + if text[|text| - 1] == '\n' then 1 else 0
  }

  lemma {:induction false} RowCountsNewlines(c: TaskConsole, text: string)
    ensures Track(c, text).row == c.row + Newlines(text)
  {
    if text != "" {
      RowCountsNewlines(c, text[..|text| - 1]);
    }
  }

  // Text of one line: no control character, that is no byte below 32 and no 127.
  predicate IsPlain(text: string) {
    forall i :: 0 <= i < |text| ==> text[i] as int >= 32 && text[i] as int != 127
  }

  // The UTF-8 characters that begin in the text: continuation bytes are those of the form 10xxxxxx.
  function CharactersIn(text: string): nat {
    if text == "" then 0
    else CharactersIn(text[..|text| - 1]) + if text[|text| - 1] as int / 64 == 2 then 0 else 1
  }

  // The column advances by the number of characters, not of bytes.
  lemma {:induction false} ColumnCountsCharacters(c: TaskConsole, text: string)
    requires IsPlain(text)
    ensures Track(c, text).column == c.column + CharactersIn(text)
  {
    if text != "" {
      ColumnCountsCharacters(c, text[..|text| - 1]);
      assert text[|text| - 1] as int >= 32;
    }
  }

  // A newline or a carriage return begins a line: the column depends on nothing before it.
  lemma ColumnRestarts(c: TaskConsole, before: string, start: char, text: string)
    requires start == '\n' || start == '\r'
    ensures Track(c, before + [start] + text).column == Track(FRESH, text).column
  {
    TrackTwice(c, before, [start]);
    TrackTwice(c, before + [start], text);
    var d := Track(c, before + [start]);
    assert [start][..0] == "";
    assert d.column == 0;
    ColumnIgnoresRow(d, FRESH, text);
  }

  lemma {:induction false} ColumnIgnoresRow(a: TaskConsole, b: TaskConsole, text: string)
    requires a.column == b.column
    ensures Track(a, text).column == Track(b, text).column
  {
    if text != "" {
      ColumnIgnoresRow(a, b, text[..|text| - 1]);
    }
  }

  // A tab goes to the next multiple of 8, a backspace takes back one character but not beyond the margin, and
  // any other control character moves nothing.
  lemma ControlMovesColumn(c: TaskConsole, text: string, ch: char)
    ensures var d, e := Track(c, text), Track(c, text + [ch]);
            && (ch == '\t' ==> d.column < e.column <= d.column + 8 && e.column % 8 == 0)
            && (ch == BACKSPACE ==> (d.column > 0 ==> e.column + 1 == d.column) && (d.column == 0 ==> e.column == 0))
            && (!IsPlain([ch]) && ch != '\t' && ch != BACKSPACE && ch != '\n' && ch != '\r' ==> e == d)
            && (ch != '\n' ==> e.row == d.row)
  {
    assert (text + [ch])[..|text|] == text;
  }

  // ---------------------------------------------------------------- the source's own form

  class ConsoleTable {
    var poolActive: bool
    var states: map<nat, TaskConsole>
    var out: seq<Chunk>

    ghost function View(): State
      reads this
    {
      State(poolActive, states, out)
    }

    // console_write.
    method ConsoleWrite(k: nat, text: string)
      modifies this`states, this`out
      ensures View() == Write(old(View()), k, text)
    {
      var c := Of(State(poolActive, states, out), k);
      var start := c;
      for i := 0 to |text|
        invariant c == Track(start, text[..i])
      {
        assert text[..i + 1][..i] == text[..i];
        var ch := text[i];
        if ch == '\n' {
          c := c.(row := c.row + 1, column := 0);
        } else if ch == '\r' {
          c := c.(column := 0);
        } else if ch == '\t' {
          c := c.(column := c.column + (8 - c.column % 8));
        } else if ch == BACKSPACE {
          if c.column > 0 {
            c := c.(column := c.column - 1);
          }
        } else if Advances(ch) {
          c := c.(column := c.column + 1);
        }
      }
      assert text[..|text|] == text;
      if !poolActive && c.line == "" {
        out := out + [Chunk(k, text, Direct)];
        states := states[k := c];
        return;
      }
      c := c.(line := c.line + text);
      var n := Cut(c.line);
      if n > 0 {
        out := out + [Chunk(k, c.line[..n], WholeLines)];
        c := c.(line := c.line[n..]);
      }
      states := states[k := c];
    }

    // console_flush_current_thread.
    method ConsoleFlush(k: nat)
      modifies this`states, this`out
      ensures View() == Flush(old(View()), k)
    {
      var c := Of(State(poolActive, states, out), k);
      if c.line != "" {
        out := out + [Chunk(k, c.line, Flushed)];
        c := c.(line := "");
      }
      states := states[k := c];
    }

    // console_finish_current_task.
    method ConsoleFinish(k: nat)
      modifies this`states, this`out
      ensures View() == Finish(old(View()), k)
    {
      if k !in states {
        return;
      }
      if states[k].line != "" {
        ConsoleFlush(k);
      }
      if k != 0 {
        states := states - {k};
      }
    }
  }
}
