/**
 * The pipeline of src/main.rs without its file reading and printing: source
 * text is tokenized and the tokens are parsed into one declaration header.
 * The lemmas here follow whole sources through both stages.
 */
module FrontEnd {
  import opened Wrappers
  import opened Lexer
  import opened Parser
  import Types

  /** Text that the lexer reads as one identifier run and classifies as `k`. */
  predicate IsWord(w: string) {
    w != [] && IsAlphabetic(w[0]) && forall k :: 0 <= k < |w| ==> IsWordChar(w[k])
  }

  /** A word the lexer classifies as a plain identifier. */
  predicate IsIdentifierWord(w: string) {
    IsWord(w) && Classify(w).Identifier?
  }

  /** A word the lexer classifies as a type name (it starts with `uint`). */
  predicate IsTypeWord(w: string) {
    IsWord(w) && Classify(w).Type?
  }

  /**
   * What `main` does between reading the file and printing: tokenize the
   * source, then parse the tokens.
   */
  method ParseSource(source: string) returns (tokens: seq<Token>, diagnostics: string, r: Option<Ast>)
    ensures tokens == Lex(source) && diagnostics == Unexpected(source)
    ensures r == Declaration(Lex(source))
  {
    tokens, diagnostics := Tokenize(source);
    r := Parse(tokens);
  }

  /**
   * Of the names in the type catalog, the lexer makes `Type` tokens only of
   * the unsigned ones from `uint2` up; `bit`, `bool` and the signed names
   * come out as identifiers, so a parameter declared with one of them makes
   * the whole parse fail (see `CatalogParamRejected`).
   */
  lemma CatalogNamesAsTokens(t: Types.PrimitiveType)
    ensures Classify(Types.CanonicalName(t)).Type? <==> t != Types.Bit && !t.IsSigned()
    ensures Classify("bool") == Identifier("bool")
  {
    assert "bool"[0] != "uint"[0];
    var name := Types.CanonicalName(t);
    if t == Types.Bit || t.IsSigned() {
      assert name[0] != "uint"[0];
    } else {
      assert name[..4] == "uint";
    }
  }

  /** `w` followed by a character that cannot continue it. */
  lemma LexWordThen(w: string, c: char, rest: string)
    requires IsWord(w) && !IsWordChar(c)
    ensures Lex(w + [c] + rest) == [Classify(w)] + Lex([c] + rest)
  {
    assert w + [c] + rest == w + ([c] + rest);
    LexWord(w, [c] + rest);
  }

  /**
   * `fn name...` without a leading `global` does not parse: its `fn` is
   * consumed as the optional first token and the name is not `fn`.
   */
  lemma BareHeaderRejected(name: string, rest: string)
    requires IsIdentifierWord(name)
    requires rest == [] || !IsWordChar(rest[0])
    ensures Declaration(Lex("fn " + name + rest)) == None
  {
    assert "fn " + name + rest == "fn" + [' '] + (name + rest);
    LexWordThen("fn", ' ', name + rest);
    LexWhitespace(' ', name + rest);
    LexWord(name, rest);
  }

  /** Parameters whose type and name the lexer reads as a type and an identifier. */
  predicate WellFormedParams(ps: seq<Param>) {
    forall k :: 0 <= k < |ps| ==> IsTypeWord(ps[k].0) && IsIdentifierWord(ps[k].1)
  }

  /** A separator between parameters: a space, or a comma and a space. */
  predicate IsSeparator(sep: string) {
    sep == " " || sep == ", "
  }

  /** Source text of a parameter list: `T n<sep>T n<sep>...`. */
  function ParamSource(ps: seq<Param>, sep: string): string {
    if ps == [] then ""
    else if |ps| == 1 then ps[0].0 + (" " + ps[0].1)
    else ps[0].0 + (" " + (ps[0].1 + (sep + ParamSource(ps[1..], sep))))
  }

  /** The tokens the lexer produces for such a parameter list. */
  function SeparatedParamTokens(ps: seq<Param>, sep: string): seq<Token> {
    if sep == " " then ParamTokens(ps) else CommaParamTokens(ps)
  }

  /** Source text of a header: `[global ]fn name(params)`. */
  function HeaderSource(d: Ast, sep: string): string {
    HeaderText(d.functionName, d.isGlobal, ParamSource(d.parameters, sep))
  }

  /** A header around the already written parameter text `p`. */
  function HeaderText(name: string, isGlobal: bool, p: string): string {
    if isGlobal then "global" + (" " + FnText(name, p)) else FnText(name, p)
  }

  /** `fn name(p)`, with a single space after `fn`. */
  function FnText(name: string, p: string): string {
    "fn" + (" " + (name + ("(" + (p + ")"))))
  }

  lemma LexSeparator(sep: string, rest: string)
    requires IsSeparator(sep)
    ensures Lex(sep + rest) == (if sep == " " then [] else [Comma]) + Lex(rest)
  {
    if sep == " " {
      LexWhitespace(' ', rest);
    } else {
      assert sep + rest == [','] + ([' '] + rest);
      LexDelimiter(',', [' '] + rest);
      LexWhitespace(' ', rest);
    }
  }

  /**
   * `Lexer.LexWord` with the tokens of the rest passed in as a variable.
   * Chaining lemmas of this form keeps each proof about one `Lex` term; a
   * proof that sees several `Lex` terms over nested concatenations at once
   * is far more expensive for the solver.
   */
  lemma LexWordTokens(w: string, rest: string, restTokens: seq<Token>)
    requires IsWord(w)
    requires rest == [] || !IsWordChar(rest[0])
    requires Lex(rest) == restTokens
    ensures Lex(w + rest) == [Classify(w)] + restTokens
  {
    LexWord(w, rest);
  }

  lemma LexSpaceTokens(rest: string, restTokens: seq<Token>)
    requires Lex(rest) == restTokens
    ensures Lex(" " + rest) == restTokens
  {
    LexWhitespace(' ', rest);
  }

  lemma LexDelimiterTokens(c: char, rest: string, restTokens: seq<Token>)
    requires IsDelimiter(c)
    requires Lex(rest) == restTokens
    ensures Lex([c] + rest) == [DelimiterToken(c)] + restTokens
  {
    LexDelimiter(c, rest);
  }

  /** The tokens of one parameter followed by more text. */
  lemma LexParam(t: string, n: string, rest: string, restTokens: seq<Token>)
    requires IsTypeWord(t) && IsIdentifierWord(n)
    requires rest == [] || !IsWordChar(rest[0])
    requires Lex(rest) == restTokens
    ensures Lex(t + (" " + (n + rest))) == [Type(t), Identifier(n)] + restTokens
  {
    assert Classify(t) == Type(t);
    LexSpacedName(n, rest, restTokens);
    LexWordTokens(t, " " + (n + rest), [Identifier(n)] + restTokens);
  }

  /** A space, then an identifier, then more text. */
  lemma LexSpacedName(n: string, rest: string, restTokens: seq<Token>)
    requires IsIdentifierWord(n)
    requires rest == [] || !IsWordChar(rest[0])
    requires Lex(rest) == restTokens
    ensures Lex(" " + (n + rest)) == [Identifier(n)] + restTokens
  {
    assert Classify(n) == Identifier(n);
    LexWordTokens(n, rest, restTokens);
    LexSpaceTokens(n + rest, [Identifier(n)] + restTokens);
  }

  /** The tokens of one parameter followed by a separator and more text. */
  lemma LexParamCons(t: string, n: string, sep: string, rest: string, restTokens: seq<Token>)
    requires IsTypeWord(t) && IsIdentifierWord(n) && IsSeparator(sep)
    requires Lex(rest) == restTokens
    ensures Lex(t + (" " + (n + (sep + rest)))) ==
      [Type(t), Identifier(n)] + ((if sep == " " then [] else [Comma]) + restTokens)
  {
    LexSeparator(sep, rest);
    LexParam(t, n, sep + rest, (if sep == " " then [] else [Comma]) + restTokens);
  }

  lemma SeparatedParamTokensCons(ps: seq<Param>, sep: string)
    requires |ps| >= 2 && IsSeparator(sep)
    ensures SeparatedParamTokens(ps, sep) ==
      [Type(ps[0].0), Identifier(ps[0].1)] +
      ((if sep == " " then [] else [Comma]) + SeparatedParamTokens(ps[1..], sep))
  {
    if sep == " " {
      assert [] + ParamTokens(ps[1..]) == ParamTokens(ps[1..]);
    } else {
      assert [Type(ps[0].0), Identifier(ps[0].1), Comma] + CommaParamTokens(ps[1..])
          == [Type(ps[0].0), Identifier(ps[0].1)] + ([Comma] + CommaParamTokens(ps[1..]));
    }
  }

  /** A parameter list is read back as its type and name tokens. */
  lemma {:induction false} LexParamSource(ps: seq<Param>, sep: string)
    requires WellFormedParams(ps) && IsSeparator(sep)
    ensures Lex(ParamSource(ps, sep)) == SeparatedParamTokens(ps, sep)
    decreases |ps|
  {
    if ps == [] {
    } else if |ps| == 1 {
      assert IsTypeWord(ps[0].0) && IsIdentifierWord(ps[0].1);
      LexParam(ps[0].0, ps[0].1, [], []);
      assert ps[0].1 + [] == ps[0].1;
      assert ps[1..] == [];
    } else {
      assert IsTypeWord(ps[0].0) && IsIdentifierWord(ps[0].1);
      LexParamSource(ps[1..], sep);
      LexParamCons(ps[0].0, ps[0].1, sep, ParamSource(ps[1..], sep), SeparatedParamTokens(ps[1..], sep));
      SeparatedParamTokensCons(ps, sep);
    }
  }

  /** The tokens of a header, as the lexer produces them. */
  function HeaderTokens(d: Ast, sep: string): seq<Token> {
    HeaderTokenSeq(d.functionName, d.isGlobal, SeparatedParamTokens(d.parameters, sep))
  }

  function HeaderTokenSeq(name: string, isGlobal: bool, pTokens: seq<Token>): seq<Token> {
    (if isGlobal then [Global] else []) + [Fn, Identifier(name), LeftParen] + pTokens + [RightParen]
  }

  lemma LexNameParen(name: string, q: string, qTokens: seq<Token>)
    requires IsIdentifierWord(name)
    requires Lex(q) == qTokens
    ensures Lex(name + ("(" + q)) == [Identifier(name), LeftParen] + qTokens
  {
    assert Classify(name) == Identifier(name);
    LexDelimiterTokens('(', q, qTokens);
    LexWordTokens(name, "(" + q, [LeftParen] + qTokens);
  }

  lemma LexFnPrefix(rest: string, restTokens: seq<Token>)
    requires Lex(rest) == restTokens
    ensures Lex("fn" + (" " + rest)) == [Fn] + restTokens
  {
    LexWhitespace(' ', rest);
    LexWord("fn", " " + rest);
  }

  lemma LexGlobalPrefix(rest: string, restTokens: seq<Token>)
    requires Lex(rest) == restTokens
    ensures Lex("global" + (" " + rest)) == [Global] + restTokens
  {
    LexWhitespace(' ', rest);
    LexWord("global", " " + rest);
  }

  lemma LexClosing(p: string, pTokens: seq<Token>)
    requires Lex(p) == pTokens
    ensures Lex(p + ")") == pTokens + [RightParen]
  {
    LexDelimiter(')', []);
    LexAppend(p, ")");
  }

  lemma LexFnText(name: string, p: string, pTokens: seq<Token>)
    requires IsIdentifierWord(name)
    requires Lex(p) == pTokens
    ensures Lex(FnText(name, p)) == [Fn, Identifier(name), LeftParen] + (pTokens + [RightParen])
  {
    LexClosing(p, pTokens);
    LexNameParen(name, p + ")", pTokens + [RightParen]);
    LexFnPrefix(name + ("(" + (p + ")")), [Identifier(name), LeftParen] + (pTokens + [RightParen]));
  }

  lemma HeaderTokenSeqShape(name: string, isGlobal: bool, pTokens: seq<Token>, tail: seq<Token>)
    requires tail == [Fn, Identifier(name), LeftParen] + (pTokens + [RightParen])
    ensures HeaderTokenSeq(name, isGlobal, pTokens) == if isGlobal then [Global] + tail else tail
  {
  }

  lemma LexHeaderText(name: string, isGlobal: bool, p: string, pTokens: seq<Token>)
    requires IsIdentifierWord(name)
    requires Lex(p) == pTokens
    ensures Lex(HeaderText(name, isGlobal, p)) == HeaderTokenSeq(name, isGlobal, pTokens)
  {
    var f := FnText(name, p);
    var tail := [Fn, Identifier(name), LeftParen] + (pTokens + [RightParen]);
    LexFnText(name, p, pTokens);
    HeaderTokenSeqShape(name, isGlobal, pTokens, tail);
    if isGlobal {
      LexGlobalPrefix(f, tail);
    }
  }

  /** A header is read back as its tokens, with the closing `)`. */
  lemma LexHeaderSource(d: Ast, sep: string)
    requires IsIdentifierWord(d.functionName) && WellFormedParams(d.parameters) && IsSeparator(sep)
    ensures Lex(HeaderSource(d, sep)) == HeaderTokens(d, sep)
  {
    LexParamSource(d.parameters, sep);
    LexHeaderText(d.functionName, d.isGlobal, ParamSource(d.parameters, sep), SeparatedParamTokens(d.parameters, sep));
  }

  /** What the parser makes of a header's tokens followed by anything. */
  lemma DeclarationOfHeader(d: Ast, rest: seq<Token>)
    ensures Declaration(HeaderTokens(d, " ") + rest) == if d.isGlobal then Some(d) else None
    ensures |d.parameters| >= 2 ==> Declaration(HeaderTokens(d, ", ") + rest) == None
  {
    var tail := [RightParen] + rest;
    if d.isGlobal {
      assert HeaderTokens(d, " ") + rest ==
        [Global, Fn, Identifier(d.functionName), LeftParen] + ParamTokens(d.parameters) + tail;
      DeclarationRoundTrip(Global, d.functionName, d.parameters, tail);
      if |d.parameters| >= 2 {
        var ts := HeaderTokens(d, ", ") + rest;
        assert ts[4..] == CommaParamTokens(d.parameters) + tail;
        CommaSeparatedRejected(d.parameters, tail);
      }
    } else {
      assert (HeaderTokens(d, " ") + rest)[1] == Identifier(d.functionName);
      assert (HeaderTokens(d, ", ") + rest)[1] == Identifier(d.functionName);
    }
  }

  /**
   * Tokenizing and parsing the text of a header gives back its declaration
   * when it starts with `global`; without `global` the parse fails. Whatever
   * follows the closing `)` is ignored.
   */
  lemma SourceRoundTrip(d: Ast, body: string)
    requires IsIdentifierWord(d.functionName) && WellFormedParams(d.parameters)
    ensures Declaration(Lex(HeaderSource(d, " ") + body)) == if d.isGlobal then Some(d) else None
  {
    var h := HeaderSource(d, " ");
    LexHeaderSource(d, " ");
    LexAppend(h, body);
    DeclarationOfHeader(d, Lex(body));
  }

  /** Separating two or more parameters with commas makes the parse fail. */
  lemma CommaSourceRejected(d: Ast, body: string)
    requires IsIdentifierWord(d.functionName) && WellFormedParams(d.parameters)
    requires |d.parameters| >= 2
    ensures Declaration(Lex(HeaderSource(d, ", ") + body)) == None
  {
    var h := HeaderSource(d, ", ");
    LexHeaderSource(d, ", ");
    LexAppend(h, body);
    DeclarationOfHeader(d, Lex(body));
  }

  /** A parameter whose type name the lexer reads as an identifier. */
  lemma LexIdentifierParam(typ: string, n: string)
    requires IsIdentifierWord(typ) && IsIdentifierWord(n)
    ensures Lex(typ + (" " + n)) == [Identifier(typ), Identifier(n)]
  {
    assert Classify(typ) == Identifier(typ);
    assert n + [] == n;
    LexSpacedName(n, [], []);
    LexWordTokens(typ, " " + n, [Identifier(n)]);
  }

  /** A header followed by any text lexes to the header's tokens, then the text's. */
  lemma LexHeaderThen(name: string, isGlobal: bool, p: string, pTokens: seq<Token>, body: string)
    requires IsIdentifierWord(name)
    requires Lex(p) == pTokens
    ensures Lex(HeaderText(name, isGlobal, p) + body) == HeaderTokenSeq(name, isGlobal, pTokens) + Lex(body)
  {
    var h := HeaderText(name, isGlobal, p);
    LexHeaderText(name, isGlobal, p, pTokens);
    assert h[|h| - 1] == ')';
    LexAppend(h, body);
  }

  /** Header tokens whose parameter list starts with an identifier do not parse. */
  lemma IdentifierParamTokensRejected(name: string, isGlobal: bool, typ: string, n: string, rest: seq<Token>)
    ensures Declaration(HeaderTokenSeq(name, isGlobal, [Identifier(typ), Identifier(n)]) + rest) == None
  {
    var ts := HeaderTokenSeq(name, isGlobal, [Identifier(typ), Identifier(n)]) + rest;
    if isGlobal {
      assert ts[4..] == [Identifier(typ)] + ([Identifier(n), RightParen] + rest);
      OtherTokenRejected(Identifier(typ), [Identifier(n), RightParen] + rest);
    } else {
      assert ts[1] == Identifier(name);
    }
  }

  /**
   * A header whose one parameter has a type name that lexes as an identifier
   * does not parse: the identifier is neither `)` nor a type.
   */
  lemma IdentifierParamRejected(name: string, isGlobal: bool, typ: string, n: string, body: string)
    requires IsIdentifierWord(name) && IsIdentifierWord(typ) && IsIdentifierWord(n)
    ensures Declaration(Lex(HeaderText(name, isGlobal, typ + (" " + n)) + body)) == None
  {
    LexIdentifierParam(typ, n);
    LexHeaderThen(name, isGlobal, typ + (" " + n), [Identifier(typ), Identifier(n)], body);
    IdentifierParamTokensRejected(name, isGlobal, typ, n, Lex(body));
  }

  /** The catalog names that do not start with `uint` are identifier words. */
  lemma CatalogIdentifierWord(typ: string)
    requires Types.FromStr(typ).Some? && !("uint" <= typ)
    ensures IsIdentifierWord(typ)
  {
    assert typ in {"bit", "bool", "int8", "int16", "int32", "int64"};
  }

  /**
   * `[global ]fn name(T n)` with `T` one of `bit`, `bool`, `int8` … `int64`,
   * which the type catalog accepts, does not parse, whatever follows.
   */
  lemma CatalogParamRejected(name: string, isGlobal: bool, typ: string, n: string, body: string)
    requires IsIdentifierWord(name) && IsIdentifierWord(n)
    requires Types.FromStr(typ).Some? && !("uint" <= typ)
    ensures Declaration(Lex(HeaderText(name, isGlobal, typ + (" " + n)) + body)) == None
  {
    CatalogIdentifierWord(typ);
    IdentifierParamRejected(name, isGlobal, typ, n, body);
  }
}
