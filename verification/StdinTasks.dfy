/** stdin_task.c: reading lines into a fixed buffer, and initialisation with its unwinding. */
module StdinTasks {
  import opened Prelude
  import opened TaskHelpers

  const NEWLINE: char := '\n'

  /** How a read on the standard input ends: with at most k bytes, but at least one if there is any, or with -1. */
  datatype Answer = Bytes(k: nat) | Fails

  datatype Message = Overflow(limit: nat) | ReadFailed | Received(text: string)

  /** The message about a text; it is printed as a C string, so a NUL in it cuts it. */
  function Shown(text: string): Message { Received(UpToNul(text)) }

  /** The input still to come, the answers of the next reads, and the log. */
  datatype World = World(input: string, answers: seq<Answer>, logged: seq<Message>)

  function Min(a: nat, b: nat): nat { if a < b then a else b }

  // Lines ------------------------------------------------------------------------------------------------

  /** The length of the first line, without its newline. */
  function LineLength(input: string): (n: nat)
    ensures n <= |input|
  {
    if input == [] || input[0] == NEWLINE then 0 else 1 + LineLength(input[1..])
  }

  lemma {:induction false} LineEndsAtNewline(input: string)
    ensures LineLength(input) < |input| ==> input[LineLength(input)] == NEWLINE
    ensures forall k | 0 <= k < LineLength(input) :: input[k] != NEWLINE
  {
    if input != [] && input[0] != NEWLINE { LineEndsAtNewline(input[1..]); }
  }

  /** The length of the first line with its newline, if it has one. */
  function LineEnd(input: string): nat { Min(LineLength(input) + 1, |input|) }

  function FirstLine(input: string): string { input[..LineLength(input)] }

  function AfterLine(input: string): string { input[LineEnd(input)..] }

  /** What a line of the input should be logged as: cut to the buffer, with a warning, and not at all if it is empty. */
  function Echo(line: string, size: nat): seq<Message>
    requires size >= 1
  {
    if line == [] then []
    else if |line| < size - 1 then [Shown(line)]
    else [Overflow(size - 1), Shown(line[..size - 1])]
  }

  lemma {:induction false} LineLengthIs(input: string, n: nat)
    requires n <= |input| && (n < |input| ==> input[n] == NEWLINE) && forall k | 0 <= k < n :: input[k] != NEWLINE
    ensures LineLength(input) == n
  {
    if input != [] && input[0] != NEWLINE { LineLengthIs(input[1..], n - 1); }
  }

  /** Dropping a piece of a line does not change where the next line begins. */
  lemma AfterPrefix(input: string, n: nat)
    requires n <= LineLength(input)
    ensures LineLength(input[n..]) == LineLength(input) - n && LineEnd(input[n..]) == LineEnd(input) - n
    ensures AfterLine(input[n..]) == AfterLine(input)
  {
    LineEndsAtNewline(input);
    LineLengthIs(input[n..], LineLength(input) - n);
  }

  /** A prefix has no newline exactly when it is a piece of the first line. */
  lemma PieceOfLine(input: string, n: nat)
    requires n <= |input|
    ensures NEWLINE !in input[..n] <==> n <= LineLength(input)
  {
    LineEndsAtNewline(input);
    if n > LineLength(input) { assert input[..n][LineLength(input)] == NEWLINE; }
  }

  // What the code does ------------------------------------------------------------------------------------

  /**
   * The number of bytes that a read of at most n bytes returns, if it does not fail. Where no answer is
   * prescribed it is that of a terminal in line mode, which does not go beyond a newline.
   */
  function Granted(w: World, n: nat): Option<nat> {
    if w.answers != [] && w.answers[0].Fails? then None
    else
      var k := if w.answers == [] then LineEnd(w.input) else if w.answers[0].k == 0 then 1 else w.answers[0].k;
      Some(Min(k, Min(n, |w.input|)))
  }

  function Taken(w: World, got: nat): World
    requires got <= |w.input|
  {
    w.(input := w.input[got..], answers := if w.answers == [] then [] else w.answers[1..])
  }

  /** The flush loop: reads of 64 bytes until one of them holds a newline, or fails, or finds the end. */
  function Flushed(w: World): World
    decreases |w.input|
  {
    var got := Granted(w, 64);
    if got.None? || got.value == 0 then Taken(w, 0)
    else if NEWLINE in w.input[..got.value] then Taken(w, got.value)
    else Flushed(Taken(w, got.value))
  }

  /** What the loop of stdin_task does with the text that its read has returned. */
  function Handled(w: World, text: string, size: nat): World
    requires size >= 1 && text != []
  {
    var last := |text| - 1;
    var full := |text| == size - 1 && text[last] != NEWLINE;
    var rest := if full then Flushed(w.(logged := w.logged + [Overflow(size - 1)])) else w;
    var kept := if text[last] == NEWLINE then text[..last] else text;
    rest.(logged := rest.logged + if kept == [] then [] else [Shown(kept)])
  }

  /** One pass of the loop of stdin_task on readable input. */
  function Pass(w: World, size: nat): World
    requires size >= 1
  {
    var got := Granted(w, size - 1);
    if got.None? then Taken(w, 0).(logged := w.logged + [ReadFailed])
    else if got.value == 0 then Taken(w, 0)
    else Handled(Taken(w, got.value), w.input[..got.value], size)
  }

  /** The worlds before and after each of a number of passes. */
  predicate IsHistory(ws: seq<World>, size: nat)
    requires size >= 1
  {
    ws != [] && forall i, j | 0 <= i < |ws| && 0 <= j < |ws| && j == i + 1 :: ws[j] == Pass(ws[i], size)
  }

  class StdinTask {
    var line: array<char>
    var input: string
    var answers: seq<Answer>
    var logged: seq<Message>

    constructor (size: nat, input: string, answers: seq<Answer>)
      ensures fresh(line) && line.Length == size && Now() == World(input, answers, [])
    {
      line := new char[size];
      this.input, this.answers, logged := input, answers, [];
    }

    function Now(): World
      reads this
    {
      World(input, answers, logged)
    }

    /** read into buf, at most n bytes. */
    method Read(buf: array<char>, n: nat) returns (got: int)
      requires n <= buf.Length
      modifies this`input, this`answers, buf
      ensures var g := old(Granted(Now(), n));
        if g.None? then got == -1 && Now() == old(Taken(Now(), 0))
        else got == g.value && buf[..got] == old(input)[..got] && Now() == old(Taken(Now(), Granted(Now(), n).value))
    {
      var g := Granted(Now(), n);
      answers := if answers == [] then [] else answers[1..];
      if g.None? {
        return -1;
      }
      got := g.value;
      forall k | 0 <= k < got {
        buf[k] := input[k];
      }
      input := input[got..];
    }

    /** One pass of the loop on readable input. */
    method HandleInput()
      requires line.Length >= 1
      modifies this`input, this`answers, this`logged, line
      ensures Now() == Pass(old(Now()), line.Length)
    {
      var bytesRead := Read(line, line.Length - 1);
      if bytesRead == -1 {
        logged := logged + [ReadFailed];
        return;
      }
      if bytesRead == 0 {
        return;
      }
      HandleText(bytesRead, line[..bytesRead]);
    }

    /** The rest of the pass: line holds the text of the read. */
    method HandleText(got: nat, ghost text: string)
      requires 0 < got < line.Length && line[..got] == text
      modifies this`input, this`answers, this`logged, line
      ensures Now() == Handled(old(Now()), text, line.Length)
    {
      var bytesRead := got;
      line[bytesRead] := '\0';
      var overflowed := bytesRead == line.Length - 1 && line[bytesRead - 1] != NEWLINE;
      if overflowed {
        logged := logged + [Overflow(line.Length - 1)];
        Flush();
      }
      if line[bytesRead - 1] == NEWLINE {
        line[bytesRead - 1] := '\0';
        bytesRead := bytesRead - 1;
      }
      assert line[..bytesRead] == text[..bytesRead];
      if bytesRead == 0 {
        assert logged + [] == logged;
        return;
      }
      assert text[..got] == text;
      CutAtNul(line[..], bytesRead);
      assert line[..][..bytesRead] == line[..bytesRead];
      logged := logged + [Shown(line[..])];
    }

    /** Discards the rest of an overlong line, 64 bytes at a time. */
    method Flush()
      modifies this`input, this`answers
      ensures Now() == Flushed(old(Now()))
    {
      var buf := new char[64];
      while true
        invariant Flushed(Now()) == Flushed(old(Now()))
        invariant logged == old(logged)
        decreases |input|
      {
        var n := Read(buf, 64);
        if n <= 0 {
          break;
        }
        if NEWLINE in buf[..n] {
          break;
        }
      }
    }

    /** The loop of stdin_task, which makes some number of passes on input until it is told to stop. */
    method Run(passes: nat) returns (ghost history: seq<World>)
      requires line.Length >= 1
      modifies this`input, this`answers, this`logged, line
      ensures |history| == passes + 1 && IsHistory(history, line.Length)
      ensures history[0] == old(Now()) && history[passes] == Now()
    {
      history := [Now()];
      var i := 0;
      while i < passes
        invariant 0 <= i <= passes && |history| == i + 1 && IsHistory(history, line.Length)
        invariant history[0] == old(Now()) && history[i] == Now()
      {
        HandleInput();
        history := history + [Now()];
        i := i + 1;
      }
    }
  }

  // What it amounts to -------------------------------------------------------------------------------------

  /** Where the flush loop ends: at the end of the line exactly if no read of it fails within the line or goes beyond. */
  predicate FlushStops(w: World)
    decreases |w.input|
  {
    var got := Granted(w, 64);
    if w.input == [] then true
    else if got.None? || got.value > LineEnd(w.input) then false
    else got.value == LineEnd(w.input) || FlushStops(Taken(w, got.value))
  }

  /**
   * The reads of one pass respect the line: the first takes the whole line, or fills the buffer with
   * the beginning of one that does not fit, and then the reads of the flush loop stop at its end.
   */
  predicate Respects(w: World, size: nat)
    requires size >= 2
  {
    var got := Granted(w, size - 1);
    && got.Some?
    && (got.value == LineEnd(w.input) < size
        || (got.value == size - 1 <= LineLength(w.input) && FlushStops(Taken(w, size - 1))))
  }

  lemma {:induction false} FlushedIff(w: World)
    ensures Flushed(w).logged == w.logged
    ensures |Flushed(w).input| <= |w.input|
    ensures Flushed(w).input == AfterLine(w.input) <==> FlushStops(w)
    decreases |w.input|
  {
    var got := Granted(w, 64);
    if got.Some? && got.value > 0 {
      PieceOfLine(w.input, got.value);
      FlushedIff(Taken(w, got.value));
      if got.value <= LineLength(w.input) { AfterPrefix(w.input, got.value); }
    }
  }

  /** The message shows the text of the first read, without a newline at its end. */
  predicate IsText(m: Message, text: string)
    requires text != []
  {
    var last := |text| - 1;
    m.Received? && m.text == UpToNul(if text[last] == NEWLINE then text[..last] else text)
  }

  /**
   * What every pass logs, whatever its reads return: a failure exactly when its first read fails; a
   * warning exactly when that read fills the buffer without ending a line; what that read returned,
   * without a newline at its end, unless nothing is left of it; and so nothing at the end of the input,
   * where a pass changes nothing else either.
   */
  lemma PassLogs(w: World, size: nat)
    requires size >= 1
    ensures var got, logged := Granted(w, size - 1), Pass(w, size).logged;
      && (got.None? ==> logged == w.logged + [ReadFailed] && Pass(w, size).input == w.input)
      && (got == Some(0) ==> logged == w.logged && Pass(w, size).input == w.input)
      && (got.Some? && got.value > 0 ==>
            var text := w.input[..got.value];
            if text == [NEWLINE] then logged == w.logged
            else exists m :: IsText(m, text) && logged == w.logged + Warning(text, size) + [m])
  {
    var got := Granted(w, size - 1);
    if got.Some? && got.value > 0 {
      PassLogsText(w, size, got.value);
    } else {
      assert w.input[0..] == w.input;
    }
  }

  /** The warning about a read that fills the buffer without ending a line. */
  function Warning(text: string, size: nat): seq<Message>
    requires size >= 1 && text != []
  {
    if |text| == size - 1 && text[|text| - 1] != NEWLINE then [Overflow(size - 1)] else []
  }

  lemma PassLogsText(w: World, size: nat, got: nat)
    requires size >= 1 && Granted(w, size - 1) == Some(got) && 0 < got <= |w.input|
    ensures var text, logged := w.input[..got], Pass(w, size).logged;
      if text == [NEWLINE] then logged == w.logged
      else exists m :: IsText(m, text) && logged == w.logged + Warning(text, size) + [m]
  {
    var text := w.input[..got];
    var kept := if text[got - 1] == NEWLINE then text[..got - 1] else text;
    if Warning(text, size) != [] {
      FullPass(w, size);
      assert Pass(w, size).logged == w.logged + Warning(text, size) + [Shown(kept)];
    } else {
      assert w.logged + [] == w.logged;
    }
    if text != [NEWLINE] { assert IsText(Shown(kept), text); }
  }

  /** Passes at the end of the input, whose reads do not fail, change nothing but the answers. */
  lemma {:induction false} NothingAfterTheEnd(ws: seq<World>, size: nat, n: nat)
    requires size >= 1 && n < |ws| && IsHistory(ws, size) && ws[0].input == []
    requires forall k | 0 <= k < |ws[0].answers| :: ws[0].answers[k].Bytes?
    ensures ws[n].input == [] && ws[n].logged == ws[0].logged
    ensures forall k | 0 <= k < |ws[n].answers| :: ws[n].answers[k].Bytes?
    decreases n
  {
    if n > 0 {
      NothingAfterTheEnd(ws, size, n - 1);
      PassLogs(ws[n - 1], size);
    }
  }

  /**
   * Exactly when a pass does what it is for: it consumes one line and logs that line, cut to the
   * buffer, if and only if its reads respect the line.
   */
  lemma PassIff(w: World, size: nat)
    requires size >= 2 && w.input != []
    ensures Pass(w, size).input == AfterLine(w.input) && Pass(w, size).logged == w.logged + Echo(FirstLine(w.input), size)
      <==> Respects(w, size)
  {
    var got := Granted(w, size - 1);
    if got.Some? {
      PieceOfLine(w.input, got.value);
      if got.value == size - 1 && w.input[got.value - 1] != NEWLINE {
        FullPassIff(w, size);
      } else {
        ShortPassIff(w, size, got.value);
      }
    }
  }

  /** After a read that fills the buffer without ending a line, the rest is flushed. */
  lemma FullPass(w: World, size: nat)
    requires size >= 2 && Granted(w, size - 1) == Some(size - 1) && size - 1 <= |w.input| && w.input[size - 2] != NEWLINE
    ensures var n := size - 1;
      && Pass(w, size).logged == w.logged + [Overflow(n), Shown(w.input[..n])]
      && (Pass(w, size).input == AfterLine(w.input[n..]) <==> FlushStops(Taken(w, n)))
      && |Pass(w, size).input| <= |w.input| - n
  {
    var n := size - 1;
    var w1 := Taken(w, n).(logged := w.logged + [Overflow(n)]);
    FlushedIff(w1);
    SameStops(Taken(w, n), w1);
    assert w.input[..n][n - 1] == w.input[n - 1];
    assert w.logged + [Overflow(n)] + [Shown(w.input[..n])] == w.logged + [Overflow(n), Shown(w.input[..n])];
  }

  lemma FullPassIff(w: World, size: nat)
    requires size >= 2 && Granted(w, size - 1) == Some(size - 1) && size - 1 <= |w.input| && w.input[size - 2] != NEWLINE
    ensures Pass(w, size).input == AfterLine(w.input) && Pass(w, size).logged == w.logged + Echo(FirstLine(w.input), size)
      <==> Respects(w, size)
  {
    LineEndsAtNewline(w.input);
    FullPass(w, size);
    if size - 1 <= LineLength(w.input) {
      AfterPrefix(w.input, size - 1);
      assert FirstLine(w.input)[..size - 1] == w.input[..size - 1];
      AtTheEnd(w, size);
    } else {
      TooShort(w, size, Pass(w, size).logged);
    }
  }

  /** A buffer filled by the very last bytes leaves nothing to flush. */
  lemma AtTheEnd(w: World, size: nat)
    requires size >= 2 && size - 1 <= LineLength(w.input)
    ensures LineEnd(w.input) < size ==> FlushStops(Taken(w, size - 1))
  {}

  lemma TooShort(w: World, size: nat, shown: seq<Message>)
    requires size >= 2 && LineLength(w.input) < size - 1 && |shown| == |w.logged| + 2
    ensures shown != w.logged + Echo(FirstLine(w.input), size)
  {}

  lemma {:induction false} SameStops(w: World, v: World)
    requires w.input == v.input && w.answers == v.answers
    ensures FlushStops(w) == FlushStops(v)
    decreases |w.input|
  {
    var got := Granted(w, 64);
    if w.input != [] && got.Some? { SameStops(Taken(w, got.value), Taken(v, got.value)); }
  }

  /** A read that ends with a newline or leaves room. */
  lemma ShortPassIff(w: World, size: nat, got: nat)
    requires size >= 2 && w.input != [] && Granted(w, size - 1) == Some(got) && 0 < got <= |w.input|
    requires got < size - 1 || w.input[got - 1] == NEWLINE
    ensures Pass(w, size).input == AfterLine(w.input) && Pass(w, size).logged == w.logged + Echo(FirstLine(w.input), size)
      <==> Respects(w, size)
  {
    var l, text := LineLength(w.input), w.input[..got];
    LineEndsAtNewline(w.input);
    assert Pass(w, size).input == w.input[got..];
    if got == LineEnd(w.input) {
      if l < |w.input| { assert text[..got - 1] == FirstLine(w.input); } else { assert text == FirstLine(w.input); }
    } else {
      assert |w.input[got..]| != |AfterLine(w.input)|;
    }
  }

  /** The terminal's input for a list of lines. */
  function Typed(lines: seq<string>): string {
    if lines == [] then [] else lines[0] + [NEWLINE] + Typed(lines[1..])
  }

  function EchoLines(lines: seq<string>, size: nat): seq<Message>
    requires size >= 1
  {
    if lines == [] then [] else Echo(lines[0], size) + EchoLines(lines[1..], size)
  }

  /** The pass from v to w takes exactly the first of the lines and logs it. */
  predicate TakesLine(v: World, w: World, lines: seq<string>, size: nat)
    requires size >= 1 && lines != []
  {
    w.input == Typed(lines[1..]) && w.logged == v.logged + Echo(lines[0], size)
  }

  predicate LineByLine(ws: seq<World>, lines: seq<string>, size: nat)
    requires size >= 1 && |ws| == |lines| + 1
  {
    forall k | 0 <= k < |lines| :: TakesLine(ws[k], ws[k + 1], lines[k..], size)
  }

  lemma FirstTyped(lines: seq<string>)
    requires lines != [] && NEWLINE !in lines[0]
    ensures FirstLine(Typed(lines)) == lines[0] && AfterLine(Typed(lines)) == Typed(lines[1..])
  {
    var input := Typed(lines);
    assert input[|lines[0]|] == NEWLINE;
    LineLengthIs(input, |lines[0]|);
  }

  /**
   * Lines of any lengths are handled one by one if and only if the reads respect them; then all of
   * them are logged, each once, in order and cut to the buffer, and the input is used up.
   */
  lemma EveryLineOnce(ws: seq<World>, lines: seq<string>, size: nat)
    requires size >= 2 && |ws| == |lines| + 1 && IsHistory(ws, size) && ws[0].input == Typed(lines)
    requires forall k | 0 <= k < |lines| :: NEWLINE !in lines[k]
    ensures LineByLine(ws, lines, size) <==> forall k | 0 <= k < |lines| :: Respects(ws[k], size)
    ensures LineByLine(ws, lines, size) ==>
      ws[|lines|].input == [] && ws[|lines|].logged == ws[0].logged + EchoLines(lines, size)
  {
    if forall k | 0 <= k < |lines| :: Respects(ws[k], size) { StaysInStep(ws, lines, size, |lines|); }
    if LineByLine(ws, lines, size) {
      forall k | 0 <= k < |lines| ensures Respects(ws[k], size) { StartsAtLine(ws, lines, size, k); }
      AllLogged(ws, lines, size);
    }
  }

  /** As long as the reads respect the lines, each pass starts at the beginning of one. */
  lemma {:induction false} StaysInStep(ws: seq<World>, lines: seq<string>, size: nat, n: nat)
    requires size >= 2 && n <= |lines| < |ws| && IsHistory(ws, size) && ws[0].input == Typed(lines)
    requires forall k | 0 <= k < |lines| :: NEWLINE !in lines[k]
    requires forall k | 0 <= k < n :: Respects(ws[k], size)
    ensures ws[n].input == Typed(lines[n..])
    ensures forall k | 0 <= k < n :: TakesLine(ws[k], ws[k + 1], lines[k..], size)
    decreases n
  {
    if n > 0 {
      StaysInStep(ws, lines, size, n - 1);
      OneLine(ws[n - 1], ws[n], lines[n - 1..], size);
      assert lines[n - 1..][1..] == lines[n..];
    }
  }

  lemma StartsAtLine(ws: seq<World>, lines: seq<string>, size: nat, k: nat)
    requires size >= 2 && k < |lines| && |ws| == |lines| + 1 && IsHistory(ws, size) && ws[0].input == Typed(lines)
    requires LineByLine(ws, lines, size) && NEWLINE !in lines[k]
    ensures Respects(ws[k], size)
  {
    assert TakesLine(ws[k], ws[k + 1], lines[k..], size);
    if k > 0 {
      assert TakesLine(ws[k - 1], ws[k], lines[k - 1..], size) && lines[k - 1..][1..] == lines[k..];
    }
    OneLine(ws[k], ws[k + 1], lines[k..], size);
  }

  lemma {:induction false} AllLogged(ws: seq<World>, lines: seq<string>, size: nat)
    requires size >= 1 && |ws| == |lines| + 1 && ws[0].input == Typed(lines) && LineByLine(ws, lines, size)
    ensures ws[|lines|].input == [] && ws[|lines|].logged == ws[0].logged + EchoLines(lines, size)
    decreases |lines|
  {
    if lines == [] {
      assert ws[0].logged + [] == ws[0].logged;
    } else {
      assert TakesLine(ws[0], ws[1], lines[0..], size);
      forall k | 0 <= k < |lines| - 1 ensures TakesLine(ws[1..][k], ws[1..][k + 1], lines[1..][k..], size) {
        assert lines[1..][k..] == lines[k + 1..] && TakesLine(ws[k + 1], ws[k + 2], lines[k + 1..], size);
      }
      AllLogged(ws[1..], lines[1..], size);
      Associative(ws[0].logged, Echo(lines[0], size), EchoLines(lines[1..], size));
    }
  }

  lemma OneLine(v: World, w: World, lines: seq<string>, size: nat)
    requires size >= 2 && lines != [] && NEWLINE !in lines[0] && v.input == Typed(lines) && w == Pass(v, size)
    ensures Respects(v, size) <==> TakesLine(v, w, lines, size)
  {
    FirstTyped(lines);
    PassIff(v, size);
  }

  lemma Associative<T>(a: seq<T>, b: seq<T>, c: seq<T>)
    ensures (a + b) + c == a + (b + c)
  {}

  /** The reads of a terminal in line mode respect every line. */
  lemma {:induction false} TerminalRespects(ws: seq<World>, size: nat, n: nat)
    requires size >= 2 && n < |ws| && IsHistory(ws, size) && ws[0].answers == []
    ensures ws[n].answers == [] && Respects(ws[n], size)
    decreases n
  {
    if n > 0 {
      TerminalRespects(ws, size, n - 1);
      TerminalPass(ws[n - 1], size);
    }
    TerminalPass(ws[n], size);
  }

  lemma {:induction false} TerminalStops(w: World)
    requires w.answers == []
    ensures FlushStops(w) && Flushed(w).answers == []
    decreases |w.input|
  {
    var got := Granted(w, 64).value;
    if got > 0 {
      TerminalStops(Taken(w, got));
      if got < LineEnd(w.input) { AfterPrefix(w.input, got); }
    }
  }

  lemma TerminalPass(w: World, size: nat)
    requires size >= 2 && w.answers == []
    ensures Respects(w, size) && Pass(w, size).answers == []
  {
    var got := Granted(w, size - 1).value;
    TerminalStops(Taken(w, got));
    TerminalStops(Taken(w, got).(logged := w.logged + [Overflow(size - 1)]));
  }

  /** Redirected input need not respect lines: one read can return two of them, logged as one message. */
  lemma LinesMerged(size: nat)
    requires size >= 5
    ensures var w := World("a\nb\n", [Bytes(4)], []);
      Pass(w, size).input == [] && Pass(w, size).logged == [Received("a\nb")]
  {
    var w := World("a\nb\n", [Bytes(4)], []);
    WithoutNul("a\nb");
    assert Granted(w, size - 1) == Some(4);
    assert w.input[..4] == w.input && w.input[..4][..3] == "a\nb" && w.input[3] == NEWLINE;
  }

  /** And the flush of an overlong line can discard the line after it. */
  lemma LineDiscarded()
    ensures var w := World("ab\nc\n", [Bytes(1), Bytes(64)], []);
      Pass(w, 2).input == [] && Pass(w, 2).logged == [Overflow(1), Received("a")]
  {
    var w := World("ab\nc\n", [Bytes(1), Bytes(64)], []);
    var v := Taken(w, 1).(logged := [Overflow(1)]);
    WithoutNul("a");
    assert v.input == "b\nc\n" && v.input[..4] == v.input && v.input[1] == NEWLINE;
    assert Flushed(v).input == [];
    assert w.input[..1] == "a";
  }

  /** The end of a failing stdin_task_init, once the handle has been added to the array. */
  method Unwind(arr: TaskArray, handle: TaskHandle)
    requires arr.Valid() && handle.owner == arr && AllConsistent({arr}, {handle})
    modifies arr, arr.slots, handle`owner, handle`doneFd, handle`closes, handle`state
    ensures arr.Valid() && fresh(arr.slots) && arr.slots.Length == 0
    ensures handle.owner == null && handle.doneFd == -1
    ensures handle.closes == old(handle.closes) + if old(handle.doneFd) != -1 then 1 else 0
  {
    handle.Destroy({handle}, {arr});
    arr.Destroy();
  }

  /**
   * stdin_task_init on its array and its handle, in whatever state earlier calls have left them. It
   * fails exactly when one of its four system calls fails, so a second initialisation is not refused:
   * it forgets the registration, the slot, the thread and the descriptor of the first, and a descriptor
   * that was open then is in no handle any more and is never closed. A failure leaves no slot and no
   * descriptor of its own behind.
   */
  method InitTask(arr: TaskArray, handle: TaskHandle, fd: nat, thread: nat,
                  callocFails: bool, eventfdFails: bool, mallocFails: bool, createFails: bool) returns (r: int)
    modifies arr, handle
    ensures r == if callocFails || eventfdFails || mallocFails || createFails then -1 else 0
    ensures fresh(arr.slots)
    ensures r == 0 ==> arr.Valid() && arr.slots[..] == [handle] && AllConsistent({arr}, {handle})
    ensures r == 0 ==> handle.owner == arr && handle.doneFd == fd && handle.thread == thread && !handle.IsDone()
    ensures r == 0 ==> handle.state == Init && handle.hasOnCleanup && !handle.hasOnStop
    ensures r == -1 ==> arr.slots.Length == 0
    ensures r == -1 && !callocFails ==> arr.Valid() && handle.owner == null && handle.doneFd == -1
    ensures r == -1 && callocFails ==> unchanged(handle)
    ensures r == 0 ==> handle.opens == old(handle.opens) + 1 && handle.closes == old(handle.closes)
    ensures r == -1 ==> handle.opens - handle.closes == old(handle.opens - handle.closes)
    ensures handle.stops == old(handle.stops) && handle.cleanups == old(handle.cleanups)
    ensures handle.joins == old(handle.joins) && handle.cancels == old(handle.cancels)
  {
    r := arr.Initialize(1, callocFails);
    if r != 0 {
      return -1;
    }
    r := handle.Initialize(fd, eventfdFails);
    if r != 0 {
      arr.Destroy();
      return -1;
    }
    handle.hasOnCleanup := true;
    assert arr.slots[0] == null && null in arr.slots[..];
    r := arr.Add(handle, {handle}, {arr});
    if r != 0 || mallocFails || createFails {
      Unwind(arr, handle);
      return -1;
    }
    handle.thread := thread;
    r := 0;
  }

  /**
   * What main does with this task array at the end, in order: it tells the task to stop, joins it if it
   * is done by then, and destroys its handle and the array.
   */
  method StopAndDestroy(arr: TaskArray, handle: TaskHandle, finishes: bool) returns (told: TaskState)
    requires arr.Valid() && arr.slots[..] == [handle] && AllConsistent({arr}, {handle}) && !handle.IsDone()
    requires handle.doneFd >= 0
    modifies arr, arr.slots, handle
    ensures told == if old(handle.hasOnStop) then old(handle.state) else Stopping
    ensures handle.stops == old(handle.stops) + if old(handle.hasOnStop) then 1 else 0
    ensures handle.state == Stopped && handle.owner == null && handle.doneFd == -1 && arr.slots.Length == 0
    ensures handle.joins == old(handle.joins) + if finishes then 1 else 0
    ensures handle.cleanups == old(handle.cleanups) + if old(handle.hasOnCleanup) then 1 else 0
    ensures handle.opens == old(handle.opens) && handle.closes == old(handle.closes) + 1
  {
    assert arr.slots[..][0] == handle;
    assert arr.Members() == {handle};
    arr.StopAll({handle});
    told := handle.state;
    if finishes {
      handle.MarkDone();
    }
    var joined, skipped := JoinAndDestroy(arr, {handle}, {arr});
    arr.Destroy();
  }

  /**
   * The whole life of the task, from whatever state earlier uses have left: a successful initialisation
   * is undone completely. The task is told to stop by its state, since it has no callback for that; it
   * is joined exactly if it has marked itself done; its cleanup callback is called once, and its
   * descriptor is closed.
   */
  method StartAndStop(arr: TaskArray, handle: TaskHandle, fd: nat, thread: nat,
                      callocFails: bool, eventfdFails: bool, mallocFails: bool, createFails: bool, finishes: bool)
    returns (r: int, told: TaskState)
    modifies arr, handle
    ensures r == if callocFails || eventfdFails || mallocFails || createFails then -1 else 0
    ensures r == 0 ==> told == Stopping
    ensures r == 0 ==> handle.state == Stopped && handle.owner == null && handle.doneFd == -1
    ensures r == 0 ==> handle.cleanups == old(handle.cleanups) + 1 && handle.stops == old(handle.stops)
    ensures r == 0 ==> handle.joins == old(handle.joins) + if finishes then 1 else 0
    ensures r == 0 ==> handle.opens == old(handle.opens) + 1 && handle.closes == old(handle.closes) + 1
    ensures arr.slots.Length == 0
  {
    told := Init;
    r := InitTask(arr, handle, fd, thread, callocFails, eventfdFails, mallocFails, createFails);
    if r == 0 {
      told := StopAndDestroy(arr, handle, finishes);
    }
  }
}
