/**
 * The lexer of src/main.rs: `tokenize` turns source text into tokens.
 *
 * `Lex` and `Unexpected` are the specification (the tokens produced and the
 * characters reported as unexpected); they read the text from a position
 * onwards (`LexFrom`, `UnexpectedFrom`). `Tokenize` is the character loop of
 * the source, proved to compute both.
 */
module Lexer {

  /** The token vocabulary of the declaration parser. */
  datatype Token =
    | Global
    | Fn
    | Identifier(text: string)
    | LeftParen
    | RightParen
    | LeftBrace
    | RightBrace
    | Type(text: string)
    | Comma

  // Character classes. `is_alphabetic` / `is_alphanumeric` are Unicode
  // predicates in Rust; they are approximated here by their ASCII part.

  predicate IsWhitespace(c: char) {
    c == ' ' || c == '\n' || c == '\t' || c == '\r'
  }

  predicate IsDelimiter(c: char) {
    c == '(' || c == ')' || c == '{' || c == '}' || c == ','
  }

  predicate IsAlphabetic(c: char) {
    ('a' <= c <= 'z') || ('A' <= c <= 'Z')
  }

  predicate IsAlphanumeric(c: char) {
    IsAlphabetic(c) || ('0' <= c <= '9')
  }

  /** A character that may continue an identifier run. */
  predicate IsWordChar(c: char) {
    IsAlphanumeric(c) || c == '_'
  }

  /** A character the lexer reports and skips. */
  predicate IsUnexpected(c: char) {
    !IsWhitespace(c) && !IsDelimiter(c) && !IsAlphabetic(c)
  }

  /** The single token a delimiter character stands for. */
  function DelimiterToken(c: char): (t: Token)
    requires IsDelimiter(c)
    ensures t in {LeftParen, RightParen, LeftBrace, RightBrace, Comma}
  {
    if c == '(' then LeftParen
    else if c == ')' then RightParen
    else if c == '{' then LeftBrace
    else if c == '}' then RightBrace
    else Comma
  }

  /** The source text of a token the identifier scanner can produce. */
  function WordText(t: Token): string {
    match t
    case Global => "global"
    case Fn => "fn"
    case Identifier(s) => s
    case Type(s) => s
    case _ => ""
  }

  /** Classification of a scanned identifier run. */
  function Classify(word: string): (t: Token)
    ensures WordText(t) == word
    ensures t.Global? || t.Fn? || t.Type? || t.Identifier?
    ensures t.Type? <==> word != "global" && word != "fn" && "uint" <= word
    ensures t.Identifier? <==> word != "global" && word != "fn" && !("uint" <= word)
  {
    if word == "global" then Global
    else if word == "fn" then Fn
    else if "uint" <= word then Type(word)
    else Identifier(word)
  }

  /** End of the maximal run of identifier characters that starts at `i`. */
  function WordEnd(s: string, i: nat): (j: nat)
    requires i <= |s|
    ensures i <= j <= |s|
    ensures forall k :: i <= k < j ==> IsWordChar(s[k])
    ensures j < |s| ==> !IsWordChar(s[j])
    decreases |s| - i
  {
    if i == |s| || !IsWordChar(s[i]) then i else WordEnd(s, i + 1)
  }

  /** What one iteration of the character loop does. */
  datatype Step = Step(next: nat, emitted: seq<Token>, skipped: string)

  /**
   * One iteration of the character loop at position `i`: skip whitespace,
   * emit a delimiter, scan and classify an identifier run, or report the
   * character. It always consumes input and emits at most one token or one
   * diagnostic.
   */
  function StepAt(s: string, i: nat): (st: Step)
    requires i < |s|
    ensures i < st.next <= |s|
    ensures |st.emitted| + |st.skipped| <= 1
  {
    var c := s[i];
    if IsWhitespace(c) then Step(i + 1, [], [])
    else if IsDelimiter(c) then Step(i + 1, [DelimiterToken(c)], [])
    else if IsAlphabetic(c) then
      var j := WordEnd(s, i);
      Step(j, [Classify(s[i..j])], [])
    else Step(i + 1, [], [c])
  }

  /** The tokens `tokenize` emits for `s` from position `i` on. */
  function LexFrom(s: string, i: nat): (r: seq<Token>)
    requires i <= |s|
    ensures |r| <= |s| - i
    decreases |s| - i
  {
    if i == |s| then [] else StepAt(s, i).emitted + LexFrom(s, StepAt(s, i).next)
  }

  /** The characters `tokenize` reports as unexpected from position `i` on. */
  function UnexpectedFrom(s: string, i: nat): (r: string)
    requires i <= |s|
    decreases |s| - i
  {
    if i == |s| then [] else StepAt(s, i).skipped + UnexpectedFrom(s, StepAt(s, i).next)
  }

  /** The tokens `tokenize` returns for `s`. */
  function Lex(s: string): (r: seq<Token>)
    ensures |r| <= |s|
  {
    LexFrom(s, 0)
  }

  /** The characters `tokenize` reports as unexpected, in order. */
  function Unexpected(s: string): (r: string)
    ensures forall k :: 0 <= k < |r| ==> IsUnexpected(r[k])
  {
    UnexpectedFromReported(s, 0);
    UnexpectedFrom(s, 0)
  }

  /** One iteration of the loop: the step's output followed by the rest. */
  lemma LexFromStep(s: string, i: nat)
    requires i < |s|
    ensures LexFrom(s, i) == StepAt(s, i).emitted + LexFrom(s, StepAt(s, i).next)
    ensures UnexpectedFrom(s, i) == StepAt(s, i).skipped + UnexpectedFrom(s, StepAt(s, i).next)
  {
  }

  lemma AppendAssoc<T>(a: seq<T>, b: seq<T>, c: seq<T>, whole: seq<T>)
    requires a + (b + c) == whole
    ensures a + b + c == whole
  {
  }

  lemma {:induction false} LexConsumesFrom(s: string, i: nat)
    requires i <= |s|
    ensures |LexFrom(s, i)| + |UnexpectedFrom(s, i)| <= |s| - i
    decreases |s| - i
  {
    if i < |s| {
      LexConsumesFrom(s, StepAt(s, i).next);
    }
  }

  /** Every token and every diagnostic consumes at least one character. */
  lemma LexConsumes(s: string)
    ensures |Lex(s)| + |Unexpected(s)| <= |s|
  {
    LexConsumesFrom(s, 0);
  }

  lemma {:induction false} WordEndShift(p: string, s: string, i: nat)
    requires i <= |s|
    ensures WordEnd(p + s, |p| + i) == |p| + WordEnd(s, i)
    decreases |s| - i
  {
    if i < |s| && IsWordChar(s[i]) {
      WordEndShift(p, s, i + 1);
    }
  }

  /** One step does not depend on the text before the position. */
  lemma StepShift(p: string, s: string, i: nat)
    requires i < |s|
    ensures StepAt(p + s, |p| + i) == var st := StepAt(s, i); Step(|p| + st.next, st.emitted, st.skipped)
  {
    assert (p + s)[|p| + i] == s[i];
    if IsAlphabetic(s[i]) && !IsWhitespace(s[i]) && !IsDelimiter(s[i]) {
      WordEndShift(p, s, i);
      assert (p + s)[|p| + i..|p| + WordEnd(s, i)] == s[i..WordEnd(s, i)];
    }
  }

  /** Lexing only looks forward: text before the position does not matter. */
  lemma {:induction false} LexShift(p: string, s: string, i: nat)
    requires i <= |s|
    ensures LexFrom(p + s, |p| + i) == LexFrom(s, i)
    ensures UnexpectedFrom(p + s, |p| + i) == UnexpectedFrom(s, i)
    decreases |s| - i
  {
    if i < |s| {
      StepShift(p, s, i);
      LexShift(p, s, StepAt(s, i).next);
      LexFromStep(s, i);
      LexFromStep(p + s, |p| + i);
    }
  }

  /** Whitespace is consumed and emits nothing. */
  lemma LexWhitespace(c: char, s: string)
    requires IsWhitespace(c)
    ensures Lex([c] + s) == Lex(s)
    ensures Unexpected([c] + s) == Unexpected(s)
  {
    LexShift([c], s, 0);
  }

  /** A delimiter emits exactly its token and advances one character. */
  lemma LexDelimiter(c: char, s: string)
    requires IsDelimiter(c)
    ensures Lex([c] + s) == [DelimiterToken(c)] + Lex(s)
    ensures Unexpected([c] + s) == Unexpected(s)
  {
    LexShift([c], s, 0);
  }

  /** An unexpected character is reported, skipped, and lexing goes on. */
  lemma LexUnexpected(c: char, s: string)
    requires IsUnexpected(c)
    ensures Lex([c] + s) == Lex(s)
    ensures Unexpected([c] + s) == [c] + Unexpected(s)
  {
    LexShift([c], s, 0);
  }

  /** A run of identifier characters that stops inside `s` stops there in `s + t` too. */
  lemma {:induction false} WordEndAppend(s: string, t: string, i: nat)
    requires i <= |s|
    requires WordEnd(s, i) < |s| || t == [] || !IsWordChar(t[0])
    ensures WordEnd(s + t, i) == WordEnd(s, i)
    decreases |s| - i
  {
    if i < |s| && IsWordChar(s[i]) {
      WordEndAppend(s, t, i + 1);
    }
  }

  /** A step inside `s` is the same step inside `s + t` at a token boundary. */
  lemma StepAppend(s: string, t: string, i: nat)
    requires i < |s|
    requires t == [] || !IsWordChar(s[|s| - 1]) || !IsWordChar(t[0])
    ensures StepAt(s + t, i) == StepAt(s, i)
  {
    assert (s + t)[i] == s[i];
    if IsAlphabetic(s[i]) && !IsWhitespace(s[i]) && !IsDelimiter(s[i]) {
      WordEndAppend(s, t, i);
      assert (s + t)[i..WordEnd(s, i)] == s[i..WordEnd(s, i)];
    }
  }

  lemma {:induction false} LexAppendFrom(s: string, t: string, i: nat)
    requires i <= |s|
    requires s == [] || t == [] || !IsWordChar(s[|s| - 1]) || !IsWordChar(t[0])
    ensures LexFrom(s + t, i) == LexFrom(s, i) + Lex(t)
    ensures UnexpectedFrom(s + t, i) == UnexpectedFrom(s, i) + Unexpected(t)
    decreases |s| - i
  {
    if i == |s| {
      LexShift(s, t, 0);
    } else {
      var st := StepAt(s, i);
      StepAppend(s, t, i);
      LexAppendFrom(s, t, st.next);
      LexFromStep(s, i);
      LexFromStep(s + t, i);
      AppendAssoc(st.emitted, LexFrom(s, st.next), Lex(t), LexFrom(s + t, i));
      AppendAssoc(st.skipped, UnexpectedFrom(s, st.next), Unexpected(t), UnexpectedFrom(s + t, i));
    }
  }

  /** Tokens of a concatenation, when the cut does not split an identifier. */
  lemma LexAppend(s: string, t: string)
    requires s == [] || t == [] || !IsWordChar(s[|s| - 1]) || !IsWordChar(t[0])
    ensures Lex(s + t) == Lex(s) + Lex(t)
    ensures Unexpected(s + t) == Unexpected(s) + Unexpected(t)
  {
    LexAppendFrom(s, t, 0);
  }

  /**
   * A character the lexer does not recognise, after a token boundary, is
   * reported and then ignored: the tokens are those of the text without it.
   */
  lemma LexSkipsUnexpected(a: string, c: char, b: string)
    requires IsUnexpected(c)
    requires a == [] || !IsWordChar(a[|a| - 1])
    ensures Lex(a + [c] + b) == Lex(a + b)
    ensures Unexpected(a + [c] + b) == Unexpected(a) + [c] + Unexpected(b)
  {
    assert a + [c] + b == a + ([c] + b);
    LexAppend(a, [c] + b);
    LexUnexpected(c, b);
    LexAppend(a, b);
  }

  /** Every reported character is one the lexer does not recognise. */
  lemma {:induction false} UnexpectedFromReported(s: string, i: nat)
    requires i <= |s|
    ensures forall k :: 0 <= k < |UnexpectedFrom(s, i)| ==> IsUnexpected(UnexpectedFrom(s, i)[k])
    decreases |s| - i
  {
    if i < |s| {
      var st := StepAt(s, i);
      UnexpectedFromReported(s, st.next);
      LexFromStep(s, i);
      assert forall k :: 0 <= k < |st.skipped| ==> IsUnexpected(st.skipped[k]);
    }
  }

  /** A maximal identifier run emits its classification as one token. */
  lemma LexWord(w: string, s: string)
    requires w != [] && IsAlphabetic(w[0])
    requires forall k :: 0 <= k < |w| ==> IsWordChar(w[k])
    requires s == [] || !IsWordChar(s[0])
    ensures Lex(w + s) == [Classify(w)] + Lex(s)
    ensures Unexpected(w + s) == Unexpected(s)
  {
    LexAppend(w, s);
    assert WordEnd(w, 0) == |w|;
    assert w[0..|w|] == w;
    LexFromStep(w, 0);
    assert Lex(w) == [Classify(w)] && Unexpected(w) == [];
  }

  /**
   * The inner loop of `tokenize`: from an alphabetic character at `i`, consume
   * identifier characters up to the end of the run.
   */
  method ScanWord(input: string, i: nat) returns (j: nat)
    requires i < |input| && IsAlphabetic(input[i])
    ensures j == WordEnd(input, i) && i < j
  {
    j := i;
    while j < |input| && IsWordChar(input[j])
      invariant i <= j <= |input|
      invariant WordEnd(input, j) == WordEnd(input, i)
      decreases |input| - j
    {
      j := j + 1;
    }
  }

  /**
   * The body of the character loop of `tokenize`: look at the character at
   * `i` and act on it.
   */
  method NextStep(input: string, i: nat) returns (st: Step)
    requires i < |input|
    ensures st == StepAt(input, i)
  {
    var c := input[i];
    if IsWhitespace(c) {
      st := Step(i + 1, [], []);
    } else if IsDelimiter(c) {
      st := Step(i + 1, [DelimiterToken(c)], []);
    } else if IsAlphabetic(c) {
      var j := ScanWord(input, i);
      st := Step(j, [Classify(input[i..j])], []);
    } else {
      st := Step(i + 1, [], [c]);
    }
  }

  /**
   * The character loop of `tokenize`: one pass over the input, emitting a
   * token, a diagnostic or nothing for each character or identifier run.
   */
  method Tokenize(input: string) returns (tokens: seq<Token>, unexpected: string)
    ensures tokens == Lex(input) && unexpected == Unexpected(input)
  {
    tokens, unexpected := [], [];
    var i := 0;
    while i < |input|
      invariant 0 <= i <= |input|
      invariant tokens + LexFrom(input, i) == Lex(input)
      invariant unexpected + UnexpectedFrom(input, i) == Unexpected(input)
      decreases |input| - i
    {
      var st := NextStep(input, i);
      LexFromStep(input, i);
      AppendAssoc(tokens, st.emitted, LexFrom(input, st.next), Lex(input));
      AppendAssoc(unexpected, st.skipped, UnexpectedFrom(input, st.next), Unexpected(input));
      tokens := tokens + st.emitted;
      unexpected := unexpected + st.skipped;
      i := st.next;
    }
    assert tokens + [] == tokens && unexpected + [] == unexpected;
  }
}
