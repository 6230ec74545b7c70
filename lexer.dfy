/**
 * The scanner of pylox/lexer.py: a cursor over the source string that appends
 * tokens as it recognises them.
 *
 * `ScanTokenSpec` says what one call of `__scan_token` does to the lexer's state
 * and `ScanFrom` what `scan` does; the `Lexer` class mirrors the Python class
 * field by field and method by method, and its methods are proved to perform
 * exactly those state changes. The lemmas at the end state the scanner's
 * guarantees about the spec functions.
 */
module Lexer {
  import opened Wrappers
  import opened LoxAst
  import opened Errors
  import opened PyStr

  /** `KEYWORD_TYPE`: the reserved words and their token kinds. */
  const KeywordType: map<string, TokenType> := map[
    "and" := And,
    "class" := Class,
    "else" := Else,
    "false" := False,
    "fun" := Fun,
    "for" := For,
    "if" := If,
    "nil" := Nil,
    "or" := Or,
    "print" := Print,
    "return" := Return,
    "super" := Super,
    "this" := This,
    "true" := True,
    "var" := Var,
    "while" := While,
    "break" := Break
  ]

  predicate IsNumeric(c: char) { '0' <= c <= '9' }

  predicate IsAlpha(c: char) { 'a' <= c <= 'z' || 'A' <= c <= 'Z' || c == '_' }

  predicate IsAlphanumeric(c: char) { IsAlpha(c) || IsNumeric(c) }

  /** The characters `__scan_token` recognises as the first character of something. */
  predicate IsKnownStart(c: char)
  {
    c in "(){},.;+-*?: \r\t\n!=<>/\"" || IsNumeric(c) || IsAlpha(c)
  }

  // ----- the inner loops, as functions of the source and the cursor -----

  /**
   * Where a scan for the character `c` stops: its next occurrence, or the end
   * of the source. A `//` comment stops at `'\n'`, a string at `'"'`.
   */
  function CharEnd(s: string, i: nat, c: char): (j: nat)
    requires i <= |s|
    ensures i <= j <= |s|
    ensures j < |s| ==> s[j] == c
    ensures forall k :: i <= k < j ==> s[k] != c
    decreases |s| - i
  {
    if i == |s| || s[i] == c then i else CharEnd(s, i + 1, c)
  }

  /** Where a run of digits stops. */
  function DigitsEnd(s: string, i: nat): (j: nat)
    requires i <= |s|
    ensures i <= j <= |s|
    ensures j < |s| ==> !IsNumeric(s[j])
    ensures forall k :: i <= k < j ==> IsNumeric(s[k])
    decreases |s| - i
  {
    if i == |s| || !IsNumeric(s[i]) then i else DigitsEnd(s, i + 1)
  }

  /** Where a run of letters, digits and underscores stops. */
  function WordEnd(s: string, i: nat): (j: nat)
    requires i <= |s|
    ensures i <= j <= |s|
    ensures j < |s| ==> !IsAlphanumeric(s[j])
    ensures forall k :: i <= k < j ==> IsAlphanumeric(s[k])
    decreases |s| - i
  {
    if i == |s| || !IsAlphanumeric(s[i]) then i else WordEnd(s, i + 1)
  }

  /** Whether a fraction follows at `j`: a `.` and then at least one digit. */
  predicate FractionAt(s: string, j: nat)
  {
    j + 1 < |s| && s[j] == '.' && IsNumeric(s[j + 1])
  }

  /** Where a number that continues at `i` stops: digits, then `.` and digits if a digit follows the `.`. */
  function NumberEnd(s: string, i: nat): (j: nat)
    requires i <= |s|
    ensures i <= j <= |s|
  {
    var d := DigitsEnd(s, i);
    if FractionAt(s, d) then DigitsEnd(s, d + 1) else d
  }

  // ----- the value of a number lexeme -----

  function DigitValue(c: char): nat
  {
    if IsNumeric(c) then c as int - '0' as int else 0
  }

  function DigitsValue(ds: string): nat
  {
    if |ds| == 0 then 0 else DigitsValue(ds[..|ds| - 1]) * 10 + DigitValue(ds[|ds| - 1])
  }

  /** `n / 10^places`. */
  function Scaled(n: nat, places: nat): real
  {
    if places == 0 then n as real else Scaled(n, places - 1) / 10.0
  }

  /**
   * `float(lexeme)` for the lexemes the scanner produces (digits, optionally a
   * `.` and digits), as the exact decimal value.
   */
  function NumberValue(w: string): real
  {
    var k := Find(w, '.');
    if k == -1 then DigitsValue(w) as real
    else DigitsValue(w[..k]) as real + Scaled(DigitsValue(w[k + 1..]), |w| - k - 1)
  }

  // ----- the lexer's state as a value, and what each step does to it -----

  /**
   * The lexer's mutable state: the token list, the three fields of its
   * `SourcePosition`, `had_error`, and the messages handed to the error reporter.
   */
  datatype LexState = LexState(
    tokens: seq<Token>,
    start: nat,
    current: nat,
    line: nat,
    hadError: bool,
    reports: seq<Report>)

  /** A lexer as `Lexer.__init__` leaves it. */
  const Initial: LexState := LexState([], 0, 0, 1, false, [])

  /** The token `__add_token` appends: the lexeme is the text between start and cursor. */
  function TokenAt(s: string, st: LexState, kind: TokenType, literal: Lit): Token
    requires st.start <= st.current <= |s|
  {
    Token(kind, s[st.start..st.current], SourcePosition(st.line, st.start, st.current), literal)
  }

  function AddToken(s: string, st: LexState, kind: TokenType, literal: Lit): LexState
    requires st.start <= st.current <= |s|
  {
    st.(tokens := st.tokens + [TokenAt(s, st, kind, literal)])
  }

  /** `!`, `=`, `<`, `>`: the two-character kind if `=` follows, else the one-character kind. */
  function OneOrTwo(s: string, st: LexState, one: TokenType, two: TokenType): LexState
    requires st.start < st.current <= |s|
  {
    if st.current < |s| && s[st.current] == '=' then AddToken(s, st.(current := st.current + 1), two, LitNil)
    else AddToken(s, st, one, LitNil)
  }

  /** A string literal whose opening quote has been consumed. */
  function StringSpec(s: string, st: LexState): LexState
    requires st.start < st.current <= |s|
  {
    var e := CharEnd(s, st.current, '"');
    if e == |s| then
      var reported := st.(current := |s|,
                          reports := st.reports + [Report(SourcePosition(st.line, st.start, |s|), UnfinishedMessage)]);
      AddToken(s, reported, String, LitString(Slice(s, st.start + 1, |s| - 1)))
    else
      AddToken(s, st.(current := e + 1), String, LitString(s[st.start + 1..e]))
  }

  /** A number whose first digit has been consumed. */
  function NumberSpec(s: string, st: LexState): LexState
    requires st.start < st.current <= |s|
  {
    var e := NumberEnd(s, st.current);
    AddToken(s, st.(current := e), Number, LitNumber(NumberValue(s[st.start..e])))
  }

  /** An identifier or keyword whose first character has been consumed. */
  function WordSpec(s: string, st: LexState): LexState
    requires st.start < st.current <= |s|
  {
    var e := WordEnd(s, st.current);
    var word := s[st.start..e];
    if word in KeywordType then AddToken(s, st.(current := e), KeywordType[word], LitNil)
    else AddToken(s, st.(current := e), Identifier, LitString(word))
  }

  /** The characters that always form a token of their own. */
  function SingleCharKind(c: char): Option<TokenType>
  {
    match c
    case '(' => Some(LeftParen)
    case ')' => Some(RightParen)
    case '{' => Some(LeftBrace)
    case '}' => Some(RightBrace)
    case ',' => Some(Comma)
    case '.' => Some(Dot)
    case ';' => Some(Semicolon)
    case '+' => Some(Plus)
    case '-' => Some(Minus)
    case '*' => Some(Star)
    case '?' => Some(QuestionMark)
    case ':' => Some(Colon)
    case _ => None
  }

  /** The characters that form a token alone or, followed by `=`, a two-character token. */
  function OperatorKinds(c: char): Option<(TokenType, TokenType)>
  {
    match c
    case '!' => Some((Bang, BangEqual))
    case '=' => Some((Equal, EqualEqual))
    case '<' => Some((Less, LessEqual))
    case '>' => Some((Greater, GreaterEqual))
    case _ => None
  }

  /** What one call of `__scan_token` does, the cursor being at the start of a token. */
  function ScanTokenSpec(s: string, st: LexState): (r: LexState)
    requires st.start == st.current < |s|
  {
    var c := s[st.current];
    var next := st.(current := st.current + 1);
    if SingleCharKind(c).Some? then AddToken(s, next, SingleCharKind(c).value, LitNil)
    else if c == ' ' || c == '\r' || c == '\t' then next
    else if c == '\n' then next.(line := next.line + 1)
    else if OperatorKinds(c).Some? then OneOrTwo(s, next, OperatorKinds(c).value.0, OperatorKinds(c).value.1)
    else if c == '/' then
      if next.current < |s| && s[next.current] == '/' then next.(current := CharEnd(s, next.current + 1, '\n'))
      else AddToken(s, next, Slash, LitNil)
    else if c == '"' then StringSpec(s, next)
    else if IsNumeric(c) then NumberSpec(s, next)
    else if IsAlpha(c) then WordSpec(s, next)
    else next.(reports := next.reports + [Report(SourcePosition(next.line, next.start, next.current), UnexpectedMessage)],
               hadError := true)
  }

  /**
   * What one step may do: the cursor moves forward, the token list grows by at
   * most one token that is not EOF and whose lexeme is the source text it spans,
   * and `had_error` is set only together with an "Unexpected character." report.
   */
  ghost predicate StepEffect(s: string, st: LexState, r: LexState)
    requires st.current < |s|
  {
    && r.start == st.start
    && st.current < r.current <= |s|
    && r.line >= st.line
    && |st.tokens| <= |r.tokens| <= |st.tokens| + 1
    && r.tokens[..|st.tokens|] == st.tokens
    && (forall i :: |st.tokens| <= i < |r.tokens| ==>
          r.tokens[i].kind != Eof && LexemeMatches(s, r.tokens[i]))
    && |st.reports| <= |r.reports| <= |st.reports| + 1
    && r.reports[..|st.reports|] == st.reports
    && (r.hadError <==> st.hadError || (|r.reports| > |st.reports| && r.reports[|st.reports|].message == UnexpectedMessage))
  }

  const UnexpectedMessage: string := "Unexpected character."

  const UnfinishedMessage: string := "Unfinished string at end of file."

  /** A token's lexeme is the source text between the start and cursor recorded in its position. */
  ghost predicate LexemeMatches(s: string, t: Token)
  {
    t.position.start <= t.position.current <= |s| && t.lexeme == s[t.position.start..t.position.current]
  }

  lemma KeywordNotEof(word: string)
    requires word in KeywordType
    ensures KeywordType[word] != Eof
  {
  }

  /** A step that ends by appending one token that is not EOF. */
  lemma AddTokenStep(s: string, st: LexState, mid: LexState, kind: TokenType, literal: Lit)
    requires st.current < |s|
    requires mid.start == st.start <= st.current < mid.current <= |s|
    requires mid.line == st.line && mid.tokens == st.tokens && mid.hadError == st.hadError
    requires mid.reports == st.reports
          || (|mid.reports| == |st.reports| + 1 && mid.reports[..|st.reports|] == st.reports
              && mid.reports[|st.reports|].message != UnexpectedMessage)
    requires kind != Eof
    ensures StepEffect(s, st, AddToken(s, mid, kind, literal))
  {
    var r := AddToken(s, mid, kind, literal);
    assert r.tokens[..|st.tokens|] == st.tokens;
  }

  /** A step that appends no token. */
  lemma NoTokenStep(s: string, st: LexState, r: LexState)
    requires st.current < |s|
    requires r.start == st.start && st.current < r.current <= |s| && r.line >= st.line && r.tokens == st.tokens
    requires (r.reports == st.reports && r.hadError == st.hadError)
          || (|r.reports| == |st.reports| + 1 && r.reports[..|st.reports|] == st.reports
              && r.reports[|st.reports|].message == UnexpectedMessage && r.hadError)
    ensures StepEffect(s, st, r)
  {
  }

  lemma StringStep(s: string, st: LexState)
    requires st.start == st.current < |s|
    ensures StepEffect(s, st, StringSpec(s, st.(current := st.current + 1)))
  {
    var next := st.(current := st.current + 1);
    var e := CharEnd(s, next.current, '"');
    if e == |s| {
      var reported := next.(current := |s|,
                            reports := next.reports + [Report(SourcePosition(next.line, next.start, |s|), UnfinishedMessage)]);
      assert reported.reports[..|st.reports|] == st.reports;
      AddTokenStep(s, st, reported, String, LitString(Slice(s, st.start + 1, |s| - 1)));
    } else {
      AddTokenStep(s, st, next.(current := e + 1), String, LitString(s[st.start + 1..e]));
    }
  }

  lemma WordStep(s: string, st: LexState)
    requires st.start == st.current < |s|
    ensures StepEffect(s, st, WordSpec(s, st.(current := st.current + 1)))
  {
    var next := st.(current := st.current + 1);
    var e := WordEnd(s, next.current);
    var word := s[st.start..e];
    if word in KeywordType {
      KeywordNotEof(word);
      AddTokenStep(s, st, next.(current := e), KeywordType[word], LitNil);
    } else {
      AddTokenStep(s, st, next.(current := e), Identifier, LitString(word));
    }
  }

  lemma OperatorStep(s: string, st: LexState, one: TokenType, two: TokenType)
    requires st.start == st.current < |s|
    requires one != Eof && two != Eof
    ensures StepEffect(s, st, OneOrTwo(s, st.(current := st.current + 1), one, two))
  {
    var next := st.(current := st.current + 1);
    if next.current < |s| && s[next.current] == '=' {
      AddTokenStep(s, st, next.(current := next.current + 1), two, LitNil);
    } else {
      AddTokenStep(s, st, next, one, LitNil);
    }
  }

  /** The characters of `__scan_token`'s punctuation, operator, white-space and comment cases. */
  predicate Punctuation(c: char)
  {
    SingleCharKind(c).Some? || c == ' ' || c == '\r' || c == '\t' || c == '\n' || OperatorKinds(c).Some? || c == '/'
  }

  lemma ScanTokenStep(s: string, st: LexState)
    requires st.start == st.current < |s|
    ensures StepEffect(s, st, ScanTokenSpec(s, st))
  {
    var c := s[st.current];
    if Punctuation(c) {
      PunctuationStep(s, st);
    } else {
      LiteralOrWordStep(s, st);
    }
  }

  /** A step over punctuation, an operator, white space or a comment. */
  lemma PunctuationStep(s: string, st: LexState)
    requires st.start == st.current < |s|
    requires Punctuation(s[st.current])
    ensures StepEffect(s, st, ScanTokenSpec(s, st))
  {
    var c := s[st.current];
    var next := st.(current := st.current + 1);
    var r := ScanTokenSpec(s, st);
    if SingleCharKind(c).Some? {
      assert r == AddToken(s, next, SingleCharKind(c).value, LitNil);
      AddTokenStep(s, st, next, SingleCharKind(c).value, LitNil);
    } else if c == ' ' || c == '\r' || c == '\t' || c == '\n' {
      assert r == next || r == next.(line := next.line + 1);
      NoTokenStep(s, st, r);
    } else if OperatorKinds(c).Some? {
      assert r == OneOrTwo(s, next, OperatorKinds(c).value.0, OperatorKinds(c).value.1);
      OperatorStep(s, st, OperatorKinds(c).value.0, OperatorKinds(c).value.1);
    } else if next.current < |s| && s[next.current] == '/' {
      assert r == next.(current := CharEnd(s, next.current + 1, '\n'));
      NoTokenStep(s, st, r);
    } else {
      assert r == AddToken(s, next, Slash, LitNil);
      AddTokenStep(s, st, next, Slash, LitNil);
    }
  }

  /** A step over a string, a number, a word, or an unexpected character. */
  lemma LiteralOrWordStep(s: string, st: LexState)
    requires st.start == st.current < |s|
    requires !Punctuation(s[st.current])
    ensures StepEffect(s, st, ScanTokenSpec(s, st))
  {
    var c := s[st.current];
    var next := st.(current := st.current + 1);
    if c == '"' {
      StringDispatch(s, st);
      StringStep(s, st);
    } else if IsNumeric(c) {
      NumberDispatch(s, st);
      NumberStep(s, st);
    } else if IsAlpha(c) {
      assert ScanTokenSpec(s, st) == WordSpec(s, next);
      WordStep(s, st);
    } else {
      var r := ScanTokenSpec(s, st);
      assert r == next.(reports := next.reports + [Report(SourcePosition(next.line, next.start, next.current), UnexpectedMessage)],
                        hadError := true);
      assert r.reports[..|st.reports|] == st.reports;
      NoTokenStep(s, st, r);
    }
  }

  lemma NumberStep(s: string, st: LexState)
    requires st.start == st.current < |s|
    ensures StepEffect(s, st, NumberSpec(s, st.(current := st.current + 1)))
  {
    var next := st.(current := st.current + 1);
    var e := NumberEnd(s, next.current);
    AddTokenStep(s, st, next.(current := e), Number, LitNumber(NumberValue(s[st.start..e])));
  }

  /** What `scan` does from a given state: steps until the cursor reaches the end, then appends EOF. */
  function ScanFrom(s: string, st: LexState): (r: LexState)
    requires st.start <= st.current <= |s|
    decreases |s| - st.current
  {
    if st.current >= |s| then AddToken(s, st, Eof, LitNil)
    else
      var st' := st.(start := st.current);
      ScanTokenStep(s, st');
      ScanFrom(s, ScanTokenSpec(s, st'))
  }

  /** The tokens, flag and reports a fresh lexer produces for `s`. */
  function Lex(s: string): LexState
  {
    ScanFrom(s, Initial)
  }

  // ----- what a whole scan guarantees -----

  /**
   * What scanning from `st` to the end does: the old tokens stay, the new ones
   * are followed by exactly one EOF token that closes the list at the end of
   * the source, every new lexeme is the source text it spans, reports are only
   * appended, and `had_error` is set exactly by an "Unexpected character." report.
   */
  ghost predicate RunEffect(s: string, st: LexState, r: LexState)
  {
    && |r.tokens| > |st.tokens|
    && r.tokens[..|st.tokens|] == st.tokens
    && r.tokens[|r.tokens| - 1].kind == Eof
    && r.tokens[|r.tokens| - 1].position.current == |s|
    && (forall i :: |st.tokens| <= i < |r.tokens| - 1 ==> r.tokens[i].kind != Eof)
    && (forall i :: |st.tokens| <= i < |r.tokens| ==> LexemeMatches(s, r.tokens[i]))
    && |r.reports| >= |st.reports|
    && r.reports[..|st.reports|] == st.reports
    && (r.hadError <==> st.hadError || NewUnexpected(st.reports, r.reports))
  }

  /** Some report after the first `|old|` is an "Unexpected character." one. */
  ghost predicate NewUnexpected(before: seq<Report>, reports: seq<Report>)
  {
    exists i :: |before| <= i < |reports| && reports[i].message == UnexpectedMessage
  }

  /** One step followed by a run is a run. */
  lemma StepThenRun(s: string, st: LexState, mid: LexState, r: LexState)
    requires st.current < |s|
    requires StepEffect(s, st, mid) && RunEffect(s, mid, r)
    ensures RunEffect(s, st, r)
  {
    var n := |st.tokens|;
    assert r.tokens[..n] == r.tokens[..|mid.tokens|][..n];
    forall i | n <= i < |r.tokens|
      ensures LexemeMatches(s, r.tokens[i])
      ensures i < |r.tokens| - 1 ==> r.tokens[i].kind != Eof
    {
      if i < |mid.tokens| {
        assert r.tokens[i] == r.tokens[..|mid.tokens|][i] == mid.tokens[i];
      }
    }
    var m := |st.reports|;
    assert r.reports[..m] == r.reports[..|mid.reports|][..m];
    if mid.hadError && !st.hadError {
      assert r.reports[m] == r.reports[..|mid.reports|][m] == mid.reports[m];
      assert NewUnexpected(st.reports, r.reports);
    }
    if NewUnexpected(mid.reports, r.reports) {
      var i :| |mid.reports| <= i < |r.reports| && r.reports[i].message == UnexpectedMessage;
      assert NewUnexpected(st.reports, r.reports);
    }
    if NewUnexpected(st.reports, r.reports) && !NewUnexpected(mid.reports, r.reports) {
      var i :| m <= i < |r.reports| && r.reports[i].message == UnexpectedMessage;
      assert r.reports[i] == r.reports[..|mid.reports|][i] == mid.reports[i];
      assert mid.hadError;
    }
  }

  lemma {:induction false} ScanFromRun(s: string, st: LexState)
    requires st.start <= st.current <= |s|
    ensures RunEffect(s, st, ScanFrom(s, st))
    decreases |s| - st.current
  {
    if st.current < |s| {
      var st' := st.(start := st.current);
      var mid := ScanTokenSpec(s, st');
      ScanTokenStep(s, st');
      ScanFromRun(s, mid);
      StepThenRun(s, st', mid, ScanFrom(s, mid));
      assert ScanFrom(s, st) == ScanFrom(s, mid);
    } else {
      EofRun(s, st);
    }
  }

  /** At the end of the source, the run appends EOF and nothing else. */
  lemma EofRun(s: string, st: LexState)
    requires st.start <= st.current == |s|
    ensures RunEffect(s, st, AddToken(s, st, Eof, LitNil))
  {
    var r := AddToken(s, st, Eof, LitNil);
    assert r.reports[..|st.reports|] == st.reports;
    assert r.tokens[..|st.tokens|] == st.tokens;
  }

  /**
   * A fresh lexer's token list ends with EOF and holds no other EOF token, every
   * lexeme is the source text its position spans, and `had_error` is set
   * exactly when an "Unexpected character." was reported (an unfinished string
   * is reported but does not set it).
   */
  lemma LexTokens(s: string)
    ensures var r := Lex(s);
      && |r.tokens| >= 1
      && r.tokens[|r.tokens| - 1].kind == Eof
      && (forall i :: 0 <= i < |r.tokens| - 1 ==> r.tokens[i].kind != Eof)
      && (forall i :: 0 <= i < |r.tokens| ==> LexemeMatches(s, r.tokens[i]))
      && (r.hadError <==> exists i :: 0 <= i < |r.reports| && r.reports[i].message == UnexpectedMessage)
  {
    ScanFromRun(s, Initial);
  }

  // ----- what one step does, case by case -----

  /** `!`, `=`, `<`, `>`: a two-character token when `=` follows, else a one-character one with the cursor just past it. */
  lemma OperatorToken(s: string, st: LexState)
    requires st.start == st.current < |s| && OperatorKinds(s[st.current]).Some?
    ensures var r := ScanTokenSpec(s, st);
      var (one, two) := OperatorKinds(s[st.current]).value;
      var twoChars := st.current + 1 < |s| && s[st.current + 1] == '=';
      && |r.tokens| == |st.tokens| + 1 && r.tokens[..|st.tokens|] == st.tokens
      && r.current == (if twoChars then st.current + 2 else st.current + 1)
      && r.tokens[|st.tokens|].kind == (if twoChars then two else one)
      && r.tokens[|st.tokens|].lexeme == s[st.current..r.current]
      && r.reports == st.reports && r.hadError == st.hadError && r.line == st.line
  {
    assert SingleCharKind(s[st.current]).None?;
  }

  /** `//` skips to the next newline, leaving it for the next step, and adds no token. */
  lemma CommentSkipped(s: string, st: LexState)
    requires st.start == st.current && st.current + 1 < |s| && s[st.current] == '/' && s[st.current + 1] == '/'
    ensures var r := ScanTokenSpec(s, st);
      && r.tokens == st.tokens && r.line == st.line && r.reports == st.reports && r.hadError == st.hadError
      && st.current + 2 <= r.current <= |s|
      && (r.current < |s| ==> s[r.current] == '\n')
      && '\n' !in s[st.current..r.current]
  {
    var r := ScanTokenSpec(s, st);
    assert r.current == CharEnd(s, st.current + 2, '\n');
    forall k | st.current <= k < r.current ensures s[k] != '\n' { }
  }

  /** Blanks add nothing; a newline adds nothing but counts the line. */
  lemma WhitespaceSkipped(s: string, st: LexState)
    requires st.start == st.current < |s| && s[st.current] in " \r\t\n"
    ensures var r := ScanTokenSpec(s, st);
      && r.tokens == st.tokens && r.current == st.current + 1
      && r.line == (if s[st.current] == '\n' then st.line + 1 else st.line)
      && r.reports == st.reports && r.hadError == st.hadError
  {
  }

  /**
   * A word is the longest run of letters, digits and underscores; a reserved
   * word gets its keyword kind and no literal, any other word is an identifier
   * whose literal is its text.
   */
  lemma WordToken(s: string, st: LexState)
    requires st.start == st.current < |s| && IsAlpha(s[st.current])
    ensures var r := ScanTokenSpec(s, st);
      var t := r.tokens[|r.tokens| - 1];
      && |r.tokens| == |st.tokens| + 1 && r.tokens[..|st.tokens|] == st.tokens
      && t.lexeme == s[st.current..r.current]
      && (forall k :: st.current <= k < r.current ==> IsAlphanumeric(s[k]))
      && (r.current < |s| ==> !IsAlphanumeric(s[r.current]))
      && (t.lexeme in KeywordType ==> t.kind == KeywordType[t.lexeme] && t.literal == LitNil)
      && (t.lexeme !in KeywordType ==> t.kind == Identifier && t.literal == LitString(t.lexeme))
  {
    assert SingleCharKind(s[st.current]).None? && OperatorKinds(s[st.current]).None?;
    var r := ScanTokenSpec(s, st);
    assert r == WordSpec(s, st.(current := st.current + 1));
  }

  predicate AllDigits(w: string)
  {
    forall k :: 0 <= k < |w| ==> IsNumeric(w[k])
  }

  /** The shape of a number lexeme: digits, optionally followed by `.` and at least one digit. */
  predicate NumberShape(w: string)
  {
    var k := Find(w, '.');
    if k == -1 then |w| >= 1 && AllDigits(w)
    else 1 <= k && k + 1 < |w| && AllDigits(w[..k]) && AllDigits(w[k + 1..])
  }

  /** The text a number that starts at digit `i` and ends at `e` spans has the number shape. */
  lemma NumberEndShape(s: string, i: nat, e: nat)
    requires i < |s| && IsNumeric(s[i]) && e == NumberEnd(s, i + 1)
    ensures NumberShape(s[i..e])
    ensures e < |s| ==> !IsNumeric(s[e])
    ensures '.' !in s[i..e] ==> !FractionAt(s, e)
  {
    var d := DigitsEnd(s, i + 1);
    var w := s[i..e];
    assert AllDigits(s[i..d]);
    if FractionAt(s, d) {
      assert w[d - i] == '.';
      assert w[..d - i] == s[i..d];
      assert Find(w, '.') == d - i;
      assert w[d - i + 1..] == s[d + 1..e];
    } else {
      assert e == d;
      assert '.' !in w;
    }
  }

  /**
   * A number is the longest lexeme of that shape: it never ends before a digit,
   * and a `.` that is not followed by a digit is left for the next token.
   */
  lemma NumberToken(s: string, st: LexState)
    requires st.start == st.current < |s| && IsNumeric(s[st.current])
    ensures var r := ScanTokenSpec(s, st);
      var t := r.tokens[|r.tokens| - 1];
      && |r.tokens| == |st.tokens| + 1 && r.tokens[..|st.tokens|] == st.tokens
      && t.kind == Number && t.lexeme == s[st.current..r.current]
      && t.literal == LitNumber(NumberValue(t.lexeme))
      && NumberShape(t.lexeme)
      && (r.current < |s| ==> !IsNumeric(s[r.current]))
      && ('.' !in t.lexeme ==> !FractionAt(s, r.current))
  {
    var e := NumberEnd(s, st.current + 1);
    NumberDispatch(s, st);
    NumberState(s, st.(current := st.current + 1), e);
    NumberEndShape(s, st.current, e);
  }

  /** A digit starts a number. */
  lemma NumberDispatch(s: string, st: LexState)
    requires st.start == st.current < |s| && IsNumeric(s[st.current])
    ensures ScanTokenSpec(s, st) == NumberSpec(s, st.(current := st.current + 1))
  {
    assert SingleCharKind(s[st.current]).None? && OperatorKinds(s[st.current]).None?;
  }

  /** The state after a number that ends at `e`: one token, the cursor at `e`. */
  lemma NumberState(s: string, st: LexState, e: nat)
    requires st.start < st.current <= |s| && e == NumberEnd(s, st.current)
    ensures var r := NumberSpec(s, st);
      && r.tokens == st.tokens + [Token(Number, s[st.start..e], SourcePosition(st.line, st.start, e), LitNumber(NumberValue(s[st.start..e])))]
      && r.current == e
  {
  }

  /**
   * A string closed by a quote: one token from quote to quote whose literal is
   * the text between them (the lexeme without its first and last character),
   * which holds no quote; nothing is reported.
   */
  lemma ClosedStringToken(s: string, st: LexState, e: nat)
    requires st.start == st.current < |s| && s[st.current] == '"'
    requires e == CharEnd(s, st.current + 1, '"') < |s|
    ensures var i := st.current;
      var r := ScanTokenSpec(s, st);
      && s[e] == '"' && '"' !in s[i + 1..e]
      && r.current == e + 1 && r.line == st.line && r.hadError == st.hadError && r.reports == st.reports
      && r.tokens == st.tokens + [Token(String, s[i..e + 1], SourcePosition(st.line, i, e + 1), LitString(s[i + 1..e]))]
      && s[i + 1..e] == Slice(s[i..e + 1], 1, |s[i..e + 1]| - 1)
  {
    StringDispatch(s, st);
    ClosedStringState(s, st.(current := st.current + 1), e);
    ClosedString(s, st.current, e);
  }

  /**
   * A string with no closing quote runs to the end of the source, is reported
   * as unfinished, still becomes a token, and leaves `had_error` as it was.
   */
  lemma UnfinishedStringToken(s: string, st: LexState)
    requires st.start == st.current < |s| && s[st.current] == '"' && CharEnd(s, st.current + 1, '"') == |s|
    ensures var i := st.current;
      var r := ScanTokenSpec(s, st);
      && r.current == |s| && r.line == st.line && r.hadError == st.hadError
      && r.reports == st.reports + [Report(SourcePosition(st.line, i, |s|), UnfinishedMessage)]
      && r.tokens == st.tokens + [Token(String, s[i..], SourcePosition(st.line, i, |s|), LitString(Slice(s, i + 1, |s| - 1)))]
      && Slice(s, i + 1, |s| - 1) == Slice(s[i..], 1, |s[i..]| - 1)
  {
    StringDispatch(s, st);
    OpenStringState(s, st.(current := st.current + 1));
    OpenString(s, st.current);
    assert s[st.current..|s|] == s[st.current..];
  }

  /** A `"` starts a string literal. */
  lemma StringDispatch(s: string, st: LexState)
    requires st.start == st.current < |s| && s[st.current] == '"'
    ensures ScanTokenSpec(s, st) == StringSpec(s, st.(current := st.current + 1))
  {
    assert SingleCharKind(s[st.current]).None? && OperatorKinds(s[st.current]).None?;
  }

  /** The state after a string closed by the quote at `CharEnd`: one token, the cursor past the quote. */
  lemma ClosedStringState(s: string, st: LexState, e: nat)
    requires st.start < st.current <= |s| && e == CharEnd(s, st.current, '"') < |s|
    ensures var r := StringSpec(s, st);
      && r.tokens == st.tokens + [Token(String, s[st.start..e + 1], SourcePosition(st.line, st.start, e + 1), LitString(s[st.start + 1..e]))]
      && r.current == e + 1 && r.line == st.line && r.hadError == st.hadError && r.reports == st.reports
      && r.start == st.start
  {
  }

  /** The state after a string left open: one token to the end of the source, and the report. */
  lemma OpenStringState(s: string, st: LexState)
    requires st.start < st.current <= |s| && CharEnd(s, st.current, '"') == |s|
    ensures var r := StringSpec(s, st);
      && r.tokens == st.tokens + [Token(String, s[st.start..|s|], SourcePosition(st.line, st.start, |s|), LitString(Slice(s, st.start + 1, |s| - 1)))]
      && r.current == |s| && r.line == st.line && r.hadError == st.hadError
      && r.reports == st.reports + [Report(SourcePosition(st.line, st.start, |s|), UnfinishedMessage)]
      && r.start == st.start
  {
  }

  /** A string closed at `e`: its lexeme runs from quote to quote, and the text between holds no quote. */
  lemma ClosedString(s: string, i: nat, e: nat)
    requires i < e < |s| && s[i] == '"' && e == CharEnd(s, i + 1, '"')
    ensures var w := s[i..e + 1];
      && 2 <= |w| && w[|w| - 1] == '"'
      && Slice(w, 1, |w| - 1) == s[i + 1..e]
      && '"' !in s[i + 1..e]
  {
    var w := s[i..e + 1];
    assert |w| == e + 1 - i && w[|w| - 1] == s[e];
    var inner := w[1..|w| - 1];
    assert |inner| == e - i - 1;
    assert forall k :: 0 <= k < |inner| ==> inner[k] == s[i + 1 + k];
    assert inner == s[i + 1..e];
    assert forall k :: i + 1 <= k < e ==> s[k] != '"';
  }

  /** A string left open runs to the end: its literal drops the first and the last character. */
  lemma OpenString(s: string, i: nat)
    requires i < |s|
    ensures Slice(s[i..], 1, |s[i..]| - 1) == Slice(s, i + 1, |s| - 1)
  {
  }

  /** A character no rule recognises adds no token, is reported at its position and sets `had_error`. */
  lemma UnexpectedCharacter(s: string, st: LexState)
    requires st.start == st.current < |s| && !IsKnownStart(s[st.current])
    ensures var r := ScanTokenSpec(s, st);
      && r.tokens == st.tokens && r.current == st.current + 1 && r.hadError
      && r.reports == st.reports + [Report(SourcePosition(st.line, st.current, st.current + 1), UnexpectedMessage)]
  {
    var c := s[st.current];
    assert SingleCharKind(c).None? && OperatorKinds(c).None?;
  }

  // ----- the Lexer class -----

  class Lexer {
    const source: string
    var tokens: seq<Token>
    /** The fields of `self.position`. */
    var start: nat
    var current: nat
    var line: nat
    var hadError: bool
    /** The messages passed to `error_reporter.report_lex`, in order. */
    var reports: seq<Report>

    ghost predicate Valid()
      reads this
    {
      start <= current <= |source|
    }

    function State(): LexState
      reads this
    {
      LexState(tokens, start, current, line, hadError, reports)
    }

    constructor (source: string)
      ensures this.source == source
      ensures Valid() && State() == Initial
    {
      this.source := source;
      tokens := [];
      start, current, line := 0, 0, 1;
      hadError := false;
      reports := [];
    }

    /** `scan`: scan the whole rest of the source, append EOF, return the token list. */
    method Scan() returns (result: seq<Token>)
      requires Valid()
      modifies this
      ensures Valid()
      ensures State() == ScanFrom(source, old(State()))
      ensures result == tokens
    {
      while !IsAtEnd()
        invariant Valid()
        invariant ScanFrom(source, State()) == ScanFrom(source, old(State()))
        decreases |source| - current
      {
        start := current;
        ScanTokenStep(source, State());
        ScanToken();
      }
      AddToken(Eof, LitNil);
      result := tokens;
    }

    /**
     * `__scan_token`: consume one character and act on it. The cases of the
     * `match` are split between `ScanPunctuation` and `ScanLiteralOrWord`.
     */
    method ScanToken()
      requires Valid() && start == current < |source|
      modifies this
      ensures Valid()
      ensures State() == ScanTokenSpec(source, old(State()))
    {
      if Punctuation(source[current]) {
        ScanPunctuation();
      } else {
        ScanLiteralOrWord();
      }
    }

    /** The cases of `__scan_token` for punctuation, operators, white space and comments. */
    method ScanPunctuation()
      requires Valid() && start == current < |source| && Punctuation(source[current])
      modifies this
      ensures Valid()
      ensures State() == ScanTokenSpec(source, old(State()))
    {
      var c := Advance();
      match c
      case '(' => AddToken(LeftParen, LitNil);
      case ')' => AddToken(RightParen, LitNil);
      case '{' => AddToken(LeftBrace, LitNil);
      case '}' => AddToken(RightBrace, LitNil);
      case ',' => AddToken(Comma, LitNil);
      case '.' => AddToken(Dot, LitNil);
      case ';' => AddToken(Semicolon, LitNil);
      case '+' => AddToken(Plus, LitNil);
      case '-' => AddToken(Minus, LitNil);
      case '*' => AddToken(Star, LitNil);
      case '?' => AddToken(QuestionMark, LitNil);
      case ':' => AddToken(Colon, LitNil);
      case ' ' =>
      case '\r' =>
      case '\t' =>
      case '\n' => line := line + 1;
      case '!' => OneOrTwoToken(Bang, BangEqual);
      case '=' => OneOrTwoToken(Equal, EqualEqual);
      case '<' => OneOrTwoToken(Less, LessEqual);
      case '>' => OneOrTwoToken(Greater, GreaterEqual);
      case '/' =>
        var isComment := Match('/');
        if !isComment {
          AddToken(Slash, LitNil);
        } else {
          SkipComment();
        }
      case _ => assert false;
    }

    /** The string case and the `case _` of `__scan_token`: numbers, identifiers and keywords, unexpected characters. */
    method ScanLiteralOrWord()
      requires Valid() && start == current < |source| && !Punctuation(source[current])
      modifies this
      ensures Valid()
      ensures State() == ScanTokenSpec(source, old(State()))
    {
      var c := Advance();
      if c == '"' {
        ScanString();
      } else if IsNumeric(c) {
        ScanNumber();
      } else if IsAlpha(c) {
        ScanWord();
      } else {
        reports := reports + [Report(SourcePosition(line, start, current), UnexpectedMessage)];
        hadError := true;
      }
    }

    /** The `!`, `=`, `<` and `>` cases of `__scan_token`. */
    method OneOrTwoToken(one: TokenType, two: TokenType)
      requires Valid() && start < current
      modifies this
      ensures Valid()
      ensures State() == OneOrTwo(source, old(State()), one, two)
    {
      var matched := Match('=');
      if matched {
        AddToken(two, LitNil);
      } else {
        AddToken(one, LitNil);
      }
    }

    /** The comment loop of `__scan_token`: consume up to, not including, the next newline. */
    method SkipComment()
      requires Valid() && start < current
      modifies this`current
      ensures Valid()
      ensures current == CharEnd(source, old(current), '\n')
    {
      while Peek() != '\n' && !IsAtEnd()
        invariant Valid() && start < current
        invariant CharEnd(source, current, '\n') == CharEnd(source, old(current), '\n')
        decreases |source| - current
      {
        var _ := Advance();
      }
    }

    /** The string case of `__scan_token`, the opening quote consumed. */
    method ScanString()
      requires Valid() && start < current
      modifies this
      ensures Valid()
      ensures State() == StringSpec(source, old(State()))
    {
      ghost var before := State();
      ghost var e := CharEnd(source, current, '"');
      SkipToQuote();
      if !IsAtEnd() {
        var _ := Advance();
      }
      var literal := Slice(source, start + 1, current - 1);
      AddToken(String, LitString(literal));
      StringFinished(before, e, literal);
    }

    /** The fields as the string case leaves them are the state `StringSpec` describes. */
    lemma StringFinished(before: LexState, e: nat, literal: string)
      requires before.start < before.current <= |source| && e == CharEnd(source, before.current, '"')
      requires start == before.start && line == before.line && hadError == before.hadError
      requires current == (if e < |source| then e + 1 else |source|)
      requires literal == Slice(source, start + 1, current - 1)
      requires reports == if e == |source| then before.reports + [Report(SourcePosition(line, start, |source|), UnfinishedMessage)] else before.reports
      requires tokens == before.tokens + [Token(String, source[start..current], SourcePosition(line, start, current), LitString(literal))]
      ensures State() == StringSpec(source, before)
    {
      if e < |source| {
        ClosedStringState(source, before, e);
        assert literal == source[start + 1..e];
      } else {
        OpenStringState(source, before);
      }
    }

    /**
     * The loop of the string case: consume up to the closing quote, or to the
     * end of the source, reporting the string as unfinished there.
     */
    method SkipToQuote()
      requires Valid() && start < current
      modifies this`current, this`reports
      ensures Valid() && start < current
      ensures current == CharEnd(source, old(current), '"')
      ensures reports == if current == |source|
        then old(reports) + [Report(SourcePosition(line, start, |source|), UnfinishedMessage)]
        else old(reports)
    {
      while Peek() != '"'
        invariant Valid() && start < current
        invariant CharEnd(source, current, '"') == CharEnd(source, old(current), '"')
        invariant reports == old(reports)
        decreases |source| - current
      {
        if IsAtEnd() {
          reports := reports + [Report(SourcePosition(line, start, current), UnfinishedMessage)];
          return;
        }
        var _ := Advance();
      }
    }

    /** The number case of `__scan_token`, the first digit consumed. */
    method ScanNumber()
      requires Valid() && start < current
      modifies this
      ensures Valid()
      ensures State() == NumberSpec(source, old(State()))
    {
      ghost var before := State();
      SkipNumber();
      var value := NumberValue(source[start..current]);
      AddToken(Number, LitNumber(value));
      NumberFinished(before);
    }

    /** The loops of the number case: the digits, then `.` and digits if a digit follows the `.`. */
    method SkipNumber()
      requires Valid() && start < current
      modifies this`current
      ensures Valid() && start < current
      ensures current == NumberEnd(source, old(current))
    {
      SkipDigits();
      ghost var digitsEnd := current;
      var hasFraction := Peek() == '.' && IsNumeric(PeekNext());
      assert hasFraction == FractionAt(source, digitsEnd);
      if hasFraction {
        var _ := Advance();
        SkipDigits();
      }
    }

    /** The fields as the number case leaves them are the state `NumberSpec` describes. */
    lemma NumberFinished(before: LexState)
      requires before.start < before.current <= |source|
      requires start == before.start && line == before.line && hadError == before.hadError && reports == before.reports
      requires current == NumberEnd(source, before.current)
      requires tokens == before.tokens + [Token(Number, source[start..current], SourcePosition(line, start, current), LitNumber(NumberValue(source[start..current])))]
      ensures State() == NumberSpec(source, before)
    {
      NumberState(source, before, current);
    }

    /** The `while is_numeric(peek()): advance()` loops of the number case. */
    method SkipDigits()
      requires Valid()
      modifies this`current
      ensures Valid()
      ensures current == DigitsEnd(source, old(current))
    {
      while IsNumeric(Peek())
        invariant Valid() && old(current) <= current
        invariant DigitsEnd(source, current) == DigitsEnd(source, old(current))
        decreases |source| - current
      {
        var _ := Advance();
      }
    }

    /** The identifier and keyword case of `__scan_token`, the first character consumed. */
    method ScanWord()
      requires Valid() && start < current
      modifies this
      ensures Valid()
      ensures State() == WordSpec(source, old(State()))
    {
      while IsAlphanumeric(Peek())
        invariant Valid() && start < current
        invariant WordEnd(source, current) == WordEnd(source, old(current))
        invariant tokens == old(tokens) && start == old(start) && line == old(line)
        invariant hadError == old(hadError) && reports == old(reports)
        decreases |source| - current
      {
        var _ := Advance();
      }
      assert current == WordEnd(source, old(current));
      var value := source[start..current];
      if value in KeywordType {
        AddToken(KeywordType[value], LitNil);
      } else {
        AddToken(Identifier, LitString(value));
      }
    }

    /** `__add_token`. */
    method AddToken(kind: TokenType, literal: Lit)
      requires Valid()
      modifies this`tokens
      ensures tokens == old(tokens) + [Token(kind, source[start..current], SourcePosition(line, start, current), literal)]
    {
      var lexeme := source[start..current];
      tokens := tokens + [Token(kind, lexeme, SourcePosition(line, start, current), literal)];
    }

    /** `__is_at_end`. */
    function IsAtEnd(): bool
      reads this
    {
      current >= |source|
    }

    /** `__advance`: consume and return the character under the cursor. */
    method Advance() returns (c: char)
      requires Valid() && current < |source|
      modifies this`current
      ensures Valid()
      ensures current == old(current) + 1 && c == source[old(current)]
    {
      current := current + 1;
      c := source[current - 1];
    }

    /** `__match`: consume the character under the cursor exactly when it is `expected`. */
    method Match(expected: char) returns (matched: bool)
      requires Valid()
      modifies this`current
      ensures Valid()
      ensures matched <==> old(current) < |source| && source[old(current)] == expected
      ensures current == if matched then old(current) + 1 else old(current)
    {
      if IsAtEnd() {
        return false;
      }
      if source[current] != expected {
        return false;
      }
      current := current + 1;
      return true;
    }

    /** `__peek`: the character under the cursor, or `'\0'` past the end. */
    function Peek(): char
      reads this
    {
      if IsAtEnd() then '\0' else source[current]
    }

    /** `__peek_next`: the character after the cursor, or `'\0'` past the end. */
    function PeekNext(): char
      reads this
    {
      if current + 1 >= |source| then '\0' else source[current + 1]
    }
  }
}
