/**
 * The driver of pylox/pylox.py: the error reporter's excerpt of the offending
 * source line with a caret indicator under the reported span, and `PyLox`,
 * whose `run` lexes a source, prints the tokens and maps a lexing error to
 * exit code 65.
 *
 * The printing itself is not modelled: the excerpt is the value `__report`
 * prints, and the token list is the value `run` prints, one token per line.
 */
module PyLox {
  import opened Wrappers
  import opened LoxAst
  import opened Errors
  import opened PyStr
  import Lexer

  /** The two lines `__report` prints under its heading: a source line, and spaces then carets. */
  datatype Excerpt = Excerpt(line: string, indicator: string)

  /** Where a line ends: the first newline from `begin` on, or the end of the source. */
  function LineFinish(source: string, begin: nat): (e: nat)
    ensures e <= |source|
  {
    var k := Find(Slice(source, begin, |source|), '\n');
    if k == -1 then |source| else begin + k
  }

  /** The caret line: a space per column before `start`, then a caret per character of the span. */
  function Indicator(position: SourcePosition, begin: int): string
  {
    Repeat(' ', position.start - begin) + Repeat('^', position.current - position.start)
  }

  /**
   * `__report` as written: the last newline before `start`, with -1 (no
   * newline) clamped to 0, so that the line is taken to begin at index 1.
   */
  function ExcerptAsWritten(source: string, position: SourcePosition): Excerpt
  {
    var found := RFind(Slice(source, 0, position.start), '\n');
    var lineStart: nat := if found == -1 then 0 else found;
    var lineEnd := LineFinish(source, lineStart + 1);
    Excerpt(Slice(source, lineStart + 1, lineEnd), Indicator(position, lineStart + 1))
  }

  /** Where the line holding `start` begins: just after the last newline before it, or at 0. */
  function LineBegin(source: string, start: nat): (b: nat)
    ensures b <= start && b <= |source|
  {
    RFind(Slice(source, 0, start), '\n') + 1
  }

  /** `__report` as intended: the whole line holding `start`, and the carets under the span. */
  function ExcerptOf(source: string, position: SourcePosition): Excerpt
  {
    var begin := LineBegin(source, position.start);
    Excerpt(Slice(source, begin, LineFinish(source, begin)), Indicator(position, begin))
  }

  // ----- what the excerpt guarantees -----

  /**
   * With the clamp, an error in the first character of the first line shows
   * that line without its first character, and the caret under the second one.
   */
  lemma FirstLineClipped()
    ensures ExcerptAsWritten("@b", SourcePosition(1, 0, 1)) == Excerpt("b", "^")
    ensures ExcerptOf("@b", SourcePosition(1, 0, 1)) == Excerpt("@b", "^")
  {
    assert Slice("@b", 0, 0) == "";
    assert Slice("@b", 1, 2) == "b";
    assert "b"[0] == 'b';
    assert '\n' !in "b";
    assert Slice("@b", 0, 2) == "@b";
    assert '\n' !in "@b";
    assert Repeat('^', 1) == "^" + Repeat('^', 0);
  }

  /** Past the first line the clamp plays no part: the two excerpts agree. */
  lemma AgreeAfterFirstLine(source: string, position: SourcePosition)
    requires '\n' in Slice(source, 0, position.start)
    ensures ExcerptAsWritten(source, position) == ExcerptOf(source, position)
  {
    var found := RFind(Slice(source, 0, position.start), '\n');
    assert found != -1;
    assert LineBegin(source, position.start) == found + 1;
  }

  /** The line begins at 0 or just after a newline, and no newline lies between it and `start`. */
  lemma LineBeginFacts(source: string, start: nat)
    requires start <= |source|
    ensures var begin := LineBegin(source, start);
      && (begin == 0 || source[begin - 1] == '\n')
      && (forall j :: begin <= j < start ==> source[j] != '\n')
  {
    var before := Slice(source, 0, start);
    assert before == source[..start];
    var begin := LineBegin(source, start);
    forall j | begin <= j < start ensures source[j] != '\n' {
      assert before[begin..][j - begin] == source[j];
    }
  }

  /** The line ends at the first newline from `begin` on, or at the end of the source. */
  lemma LineFinishFacts(source: string, begin: nat)
    requires begin <= |source|
    ensures var end := LineFinish(source, begin);
      && begin <= end
      && (forall j :: begin <= j < end ==> source[j] != '\n')
      && (end == |source| || source[end] == '\n')
  {
    var rest := Slice(source, begin, |source|);
    assert rest == source[begin..];
    var k := Find(rest, '\n');
    var end := LineFinish(source, begin);
    forall j | begin <= j < end ensures source[j] != '\n' {
      assert rest[j - begin] == source[j];
      if k != -1 {
        assert rest[..k][j - begin] == source[j];
      }
    }
  }

  /** The line that begins before `start` runs at least up to it. */
  lemma LineHoldsStart(source: string, start: nat)
    requires start <= |source|
    ensures start <= LineFinish(source, LineBegin(source, start))
  {
    var begin := LineBegin(source, start);
    LineBeginFacts(source, start);
    LineFinishFacts(source, begin);
  }

  /** The line shown is the whole line holding `start`: from just after a newline (or 0) to the next newline (or the end). */
  lemma ExcerptIsLine(source: string, position: SourcePosition)
    requires position.start <= |source|
    ensures var begin := LineBegin(source, position.start);
      var end := LineFinish(source, begin);
      && begin <= position.start <= end
      && ExcerptOf(source, position).line == source[begin..end]
      && '\n' !in ExcerptOf(source, position).line
      && (begin == 0 || source[begin - 1] == '\n')
      && (end == |source| || source[end] == '\n')
  {
    var begin := LineBegin(source, position.start);
    LineBeginFacts(source, position.start);
    var end := LineFinish(source, begin);
    LineFinishFacts(source, begin);
    LineHoldsStart(source, position.start);
    assert ExcerptOf(source, position).line == Slice(source, begin, end) == source[begin..end];
    NoNewlineBetween(source, begin, end);
  }

  lemma NoNewlineBetween(source: string, begin: nat, end: nat)
    requires begin <= end <= |source|
    requires forall j :: begin <= j < end ==> source[j] != '\n'
    ensures '\n' !in source[begin..end]
  {
    var line := source[begin..end];
    forall j | 0 <= j < |line| ensures line[j] != '\n' {
      assert line[j] == source[begin + j];
    }
  }

  /** The carets sit exactly under the reported span `[start, current)` of the line shown. */
  lemma CaretsUnderSpan(source: string, position: SourcePosition)
    requires position.start <= position.current
    ensures var begin := LineBegin(source, position.start);
      var indicator := ExcerptOf(source, position).indicator;
      && begin + |indicator| == position.current
      && (forall k :: 0 <= k < |indicator| ==> (indicator[k] == '^' <==> begin + k >= position.start))
      && (forall k :: 0 <= k < |indicator| ==> (indicator[k] == ' ' <==> begin + k < position.start))
  {
  }

  // ----- the driver -----

  /** The exit code `run` returns: 65 when the lexer reported an unexpected character, else 0. */
  function ExitCode(hadError: bool): (code: int)
    ensures code == 0 || code == 65
    ensures code == 65 <==> hadError
  {
    if hadError then 65 else 0
  }

  /** `PyLox`: the interpreter driver and its sticky `had_error` flag. */
  class PyLox {
    var hadError: bool

    constructor ()
      ensures !hadError
    {
      hadError := false;
    }

    /**
     * `run`: lex the source with a fresh lexer, hand back the tokens it
     * prints, set `had_error` on a lexing error and return the exit code.
     */
    method Run(source: string) returns (code: int, printed: seq<Token>)
      modifies this
      ensures printed == Lexer.Lex(source).tokens
      ensures code == ExitCode(Lexer.Lex(source).hadError)
      ensures hadError == (old(hadError) || Lexer.Lex(source).hadError)
    {
      var lexer := new Lexer.Lexer(source);
      printed := lexer.Scan();
      if lexer.hadError {
        hadError := true;
        return 65, printed;
      }
      return 0, printed;
    }

    /**
     * `run_file`: 66 when the file cannot be opened (`contents` is `None`),
     * otherwise `run` on its text and 65 if `had_error` is set, earlier runs included.
     */
    method RunFile(contents: Option<string>) returns (code: int, printed: seq<Token>)
      modifies this
      ensures contents.None? ==> code == 66 && printed == [] && hadError == old(hadError)
      ensures contents.Some? ==>
        && printed == Lexer.Lex(contents.value).tokens
        && hadError == (old(hadError) || Lexer.Lex(contents.value).hadError)
        && code == ExitCode(hadError)
    {
      if contents.None? {
        return 66, [];
      }
      var _, tokens := Run(contents.value);
      printed := tokens;
      code := if hadError then 65 else 0;
    }

    /**
     * `run_prompt`: `run` on each line read until end of input, clearing
     * `had_error` after each; the session always ends with 0.
     */
    method RunPrompt(lines: seq<string>) returns (code: int, printed: seq<Token>)
      modifies this
      ensures code == 0
      ensures printed == PromptTokens(lines)
      ensures hadError == (old(hadError) && lines == [])
    {
      printed := [];
      var i := 0;
      while i < |lines|
        invariant i <= |lines|
        invariant printed == PromptTokens(lines[..i])
        invariant hadError == (old(hadError) && i == 0)
      {
        var _, tokens := Run(lines[i]);
        PromptTokensSnoc(lines[..i], lines[i]);
        assert lines[..i + 1] == lines[..i] + [lines[i]];
        printed := printed + tokens;
        hadError := false;
        i := i + 1;
      }
      assert lines[..i] == lines;
      code := 0;
    }
  }

  /** The tokens a prompt session prints: those of each line, in order. */
  function PromptTokens(lines: seq<string>): seq<Token>
  {
    if lines == [] then [] else PromptTokens(lines[..|lines| - 1]) + Lexer.Lex(lines[|lines| - 1]).tokens
  }

  lemma PromptTokensSnoc(lines: seq<string>, line: string)
    ensures PromptTokens(lines + [line]) == PromptTokens(lines) + Lexer.Lex(line).tokens
  {
    assert (lines + [line])[..|lines|] == lines;
  }

  /** The EOF tokens in a token list. */
  function EofCount(tokens: seq<Token>): nat
  {
    if tokens == [] then 0
    else EofCount(tokens[..|tokens| - 1]) + (if tokens[|tokens| - 1].kind == Eof then 1 else 0)
  }

  lemma {:induction false} EofCountAppend(a: seq<Token>, b: seq<Token>)
    ensures EofCount(a + b) == EofCount(a) + EofCount(b)
  {
    if b != [] {
      assert (a + b)[..|a + b| - 1] == a + b[..|b| - 1];
      EofCountAppend(a, b[..|b| - 1]);
    } else {
      assert a + b == a;
    }
  }

  lemma {:induction false} NoEof(tokens: seq<Token>)
    requires forall i :: 0 <= i < |tokens| ==> tokens[i].kind != Eof
    ensures EofCount(tokens) == 0
  {
    if tokens != [] {
      NoEof(tokens[..|tokens| - 1]);
    }
  }

  /** Each line is lexed on its own and ends with its own EOF token: a session prints one EOF per line. */
  lemma {:induction false} OneEofPerLine(lines: seq<string>)
    ensures EofCount(PromptTokens(lines)) == |lines|
  {
    if lines != [] {
      var init := lines[..|lines| - 1];
      var tokens := Lexer.Lex(lines[|lines| - 1]).tokens;
      OneEofPerLine(init);
      Lexer.LexTokens(lines[|lines| - 1]);
      NoEof(tokens[..|tokens| - 1]);
      EofCountAppend(PromptTokens(init), tokens);
    }
  }
}
