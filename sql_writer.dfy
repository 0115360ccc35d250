// SqlWriter: a string writer that indents every line it starts by the
// current number of tabs.
module SqlWriters {
  import opened Text

  /** `n` tab characters. */
  function Tabs(n: nat): (r: string)
    ensures |r| == n
    ensures forall i :: 0 <= i < n ==> r[i] == '\t'
  {
    if n == 0 then "" else Tabs(n - 1) + "\t"
  }

  /** What precedes a string written at the given line state: the indent
      in tabs at the start of a line when the indent is positive, nothing
      otherwise. */
  function LinePrefix(atBeginningOfLine: bool, indent: int): (r: string)
    ensures |r| == (if atBeginningOfLine && indent > 0 then indent else 0)
    ensures forall i :: 0 <= i < |r| ==> r[i] == '\t'
  {
    if atBeginningOfLine && indent > 0 then Tabs(indent) else ""
  }

  /** One call on the writer: Write(string) at the indent current at the
      time of the call, or Write(char). */
  datatype WriteEvent = Str(value: string, indent: int) | Chr(c: char)

  /** The text one call adds at the given line state, and the line state
      it leaves. */
  function Step(atBeginningOfLine: bool, e: WriteEvent): (r: (string, bool))
  {
    match e
    case Chr(c) => ([c], atBeginningOfLine)
    case Str(v, indent) =>
      if v == NewLine then (NewLine, true) else (LinePrefix(atBeginningOfLine, indent) + v, false)
  }

  /** The text a sequence of calls adds, starting from the given line
      state, and the line state it leaves. */
  function Render(events: seq<WriteEvent>, atBeginningOfLine: bool): (r: (string, bool))
    ensures |events| == 0 ==> r == ("", atBeginningOfLine)
  {
    if |events| == 0 then ("", atBeginningOfLine)
    else
      var init := Render(events[..|events| - 1], atBeginningOfLine);
      var last := Step(init.1, events[|events| - 1]);
      (init.0 + last.0, last.1)
  }

  /** Rendering two sequences of calls one after the other renders the
      second from the line state the first leaves. */
  lemma {:induction false} RenderAppend(a: seq<WriteEvent>, b: seq<WriteEvent>, bol: bool)
    ensures Render(a + b, bol).0 == Render(a, bol).0 + Render(b, Render(a, bol).1).0
    ensures Render(a + b, bol).1 == Render(b, Render(a, bol).1).1
    decreases |b|
  {
    if |b| == 0 {
      assert a + b == a;
    } else {
      var n := |b| - 1;
      assert (a + b)[..|a + b| - 1] == a + b[..n];
      assert (a + b)[|a + b| - 1] == b[n];
      RenderAppend(a, b[..n], bol);
      var ra := Render(a, bol);
      var rb := Render(b[..n], ra.1);
      var st := Step(rb.1, b[n]);
      assert Render(a + b, bol) == (ra.0 + rb.0 + st.0, st.1);
      assert Render(b, ra.1) == (rb.0 + st.0, st.1);
    }
  }

  /** Strings written in the middle of a line, none of them the newline,
      come out as they are, one after the other. */
  lemma {:induction false} RenderMidLine(events: seq<WriteEvent>)
    requires forall i :: 0 <= i < |events| ==> events[i].Str? && events[i].value != NewLine
    ensures Render(events, false) == (Flatten(events), false)
  {
    if |events| > 0 {
      var n := |events| - 1;
      assert forall i :: 0 <= i < n ==> events[..n][i] == events[i];
      RenderMidLine(events[..n]);
      assert LinePrefix(false, events[n].indent) == "";
      assert "" + events[n].value == events[n].value;
      assert Step(false, events[n]) == (events[n].value, false);
    }
  }

  /** The strings and characters of the calls, one after the other. */
  function Flatten(events: seq<WriteEvent>): string {
    if |events| == 0 then ""
    else
      var last := events[|events| - 1];
      Flatten(events[..|events| - 1]) + (match last case Chr(c) => [c] case Str(v, _) => v)
  }

  class SqlWriter {
    /** Everything written so far. */
    var text: string
    /** The number of tabs put before each new line. */
    var indent: int
    var atBeginningOfLine: bool
    /** The calls made on the writer so far. */
    ghost var log: seq<WriteEvent>

    /** The text and line state are the rendering of the calls made. */
    ghost predicate Valid()
      reads this
    {
      text == Render(log, true).0 && atBeginningOfLine == Render(log, true).1
    }

    /** A new writer is empty, at the beginning of a line, with indent -1. */
    constructor ()
      ensures Valid() && log == []
      ensures text == "" && indent == -1 && atBeginningOfLine
    {
      text := "";
      indent := -1;
      atBeginningOfLine := true;
      log := [];
    }

    /** Write(string): the newline string ends the line; any other string is
        written after the line's indentation if it starts a line. */
    method Write(value: string)
      requires Valid()
      modifies this`text, this`atBeginningOfLine, this`log
      ensures Valid() && log == old(log) + [Str(value, indent)]
      ensures value == NewLine ==> text == old(text) + NewLine && atBeginningOfLine
      ensures value != NewLine ==>
                text == old(text) + LinePrefix(old(atBeginningOfLine), indent) + value && !atBeginningOfLine
    {
      if value == NewLine {
        text := text + NewLine;
        atBeginningOfLine := true;
      } else {
        if atBeginningOfLine {
          if indent > 0 {
            text := text + Tabs(indent);
          }
          atBeginningOfLine := false;
        }
        text := text + value;
        assert text == old(text) + (LinePrefix(old(atBeginningOfLine), indent) + value);
      }
      log := log + [Str(value, indent)];
      RenderSnoc(old(log), Str(value, indent));
    }

    /** WriteLine(): a newline, after which the next string starts a line. */
    method WriteLine()
      requires Valid()
      modifies this`text, this`atBeginningOfLine, this`log
      ensures Valid() && log == old(log) + [Str(NewLine, indent)]
      ensures text == old(text) + NewLine && atBeginningOfLine
    {
      text := text + NewLine;
      atBeginningOfLine := true;
      log := log + [Str(NewLine, indent)];
      RenderSnoc(old(log), Str(NewLine, indent));
    }

    /** Write(char) is the base writer's: the character is appended as it
        is and the line state is not consulted. */
    method WriteChar(c: char)
      requires Valid()
      modifies this`text, this`log
      ensures Valid() && log == old(log) + [Chr(c)]
      ensures text == old(text) + [c]
    {
      text := text + [c];
      log := log + [Chr(c)];
      RenderSnoc(old(log), Chr(c));
    }

    method SetIndent(value: int)
      modifies this`indent
      ensures indent == value
    {
      indent := value;
    }
  }

  /** One more call renders as one more step. */
  lemma RenderSnoc(log: seq<WriteEvent>, e: WriteEvent)
    ensures Render(log + [e], true) ==
            (Render(log, true).0 + Step(Render(log, true).1, e).0, Step(Render(log, true).1, e).1)
  {
    assert (log + [e])[..|log|] == log;
  }
}
