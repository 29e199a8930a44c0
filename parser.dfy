/**
 * The declaration parser of src/main.rs: `parse` reads one function header.
 *
 * `Declaration` and `ParameterList` specify what the code as written accepts
 * (the first token is always consumed, a `Type` always consumes the token
 * after it, running out of tokens inside the list succeeds); `Parse` is the
 * iterator loop of the source, proved to compute `Declaration`.
 */
module Parser {
  import opened Wrappers
  import opened Lexer

  /** A parameter: (type name, parameter name). */
  type Param = (string, string)

  datatype Ast = Ast(functionName: string, parameters: seq<Param>, isGlobal: bool)

  /** The parameter loop, started on the tokens after `(`. */
  function ParameterList(ts: seq<Token>): (r: Option<seq<Param>>)
    ensures r.Some? ==> 2 * |r.value| <= |ts|
    decreases |ts|
  {
    if ts == [] then Some([])
    else match ts[0]
      case RightParen => Some([])
      case Type(t) =>
        if |ts| == 1 then Some([])
        else
          (match ParameterList(ts[2..])
           case None => None
           case Some(ps) => Some(if ts[1].Identifier? then [(t, ts[1].text)] + ps else ps))
      case _ => None
  }

  /** The declaration `parse` returns for `ts`. */
  function Declaration(ts: seq<Token>): (r: Option<Ast>)
    ensures r.Some? ==>
      |ts| >= 4 && ts[1] == Fn && ts[2].Identifier? && ts[3] == LeftParen &&
      r.value.functionName == ts[2].text && r.value.isGlobal == (ts[0] == Global) &&
      ParameterList(ts[4..]) == Some(r.value.parameters)
    ensures r.None? ==>
      |ts| < 4 || ts[1] != Fn || !ts[2].Identifier? || ts[3] != LeftParen ||
      ParameterList(ts[4..]).None?
  {
    if |ts| < 4 || ts[1] != Fn || !ts[2].Identifier? || ts[3] != LeftParen then None
    else match ParameterList(ts[4..])
      case None => None
      case Some(ps) => Some(Ast(ts[2].text, ps, ts[0] == Global))
  }

  /** `ps` put in front of the parameters of `rest`, failure propagating. */
  function PrependParams(ps: seq<Param>, rest: Option<seq<Param>>): Option<seq<Param>> {
    match rest
    case None => None
    case Some(qs) => Some(ps + qs)
  }

  lemma PrependNothing(rest: Option<seq<Param>>)
    ensures PrependParams([], rest) == rest
  {
    if rest.Some? {
      assert [] + rest.value == rest.value;
    }
  }

  lemma PrependAssoc(ps: seq<Param>, qs: seq<Param>, rest: Option<seq<Param>>)
    ensures PrependParams(ps, PrependParams(qs, rest)) == PrependParams(ps + qs, rest)
  {
    if rest.Some? {
      assert ps + (qs + rest.value) == ps + qs + rest.value;
    }
  }

  /**
   * `parse`: advance over the tokens one at a time, set the global flag from
   * the first token, check `fn`, the name and `(`, then collect parameters.
   */
  method Parse(tokens: seq<Token>) returns (r: Option<Ast>)
    ensures r == Declaration(tokens)
  {
    var i := 0;
    var isGlobal := false;
    if i < |tokens| {
      if tokens[i] == Global {
        isGlobal := true;
      }
      i := i + 1;
    }
    if i == |tokens| || tokens[i] != Fn {
      return None;
    }
    i := i + 1;
    if i == |tokens| || !tokens[i].Identifier? {
      return None;
    }
    var functionName := tokens[i].text;
    i := i + 1;
    if i == |tokens| || tokens[i] != LeftParen {
      return None;
    }
    i := i + 1;
    var parameters: seq<Param> := [];
    PrependNothing(ParameterList(tokens[i..]));
    while i < |tokens|
      invariant 4 <= i <= |tokens|
      invariant ParameterList(tokens[4..]) == PrependParams(parameters, ParameterList(tokens[i..]))
      decreases |tokens| - i
    {
      var token := tokens[i];
      assert tokens[i..][1..] == tokens[i + 1..];
      i := i + 1;
      match token
      case RightParen =>
        assert ParameterList(tokens[i - 1..]) == Some([]);
        assert parameters + [] == parameters;
        break;
      case Type(typ) =>
        if i < |tokens| {
          var next := tokens[i];
          assert tokens[i - 1..][2..] == tokens[i + 1..];
          i := i + 1;
          if next.Identifier? {
            PrependAssoc(parameters, [(typ, next.text)], ParameterList(tokens[i..]));
            parameters := parameters + [(typ, next.text)];
          }
        } else {
          assert tokens[i..] == [];
        }
      case _ =>
        return None;
    }
    assert ParameterList(tokens[4..]) == Some(parameters) by {
      if i == |tokens| {
        assert tokens[i..] == [];
        assert parameters + [] == parameters;
      }
    }
    r := Some(Ast(functionName, parameters, isGlobal));
  }

  /** The tokens of a parameter list written without separators: `T n T n ...`. */
  function ParamTokens(ps: seq<Param>): (ts: seq<Token>)
    ensures |ts| == 2 * |ps|
  {
    if ps == [] then [] else [Type(ps[0].0), Identifier(ps[0].1)] + ParamTokens(ps[1..])
  }

  /** The tokens of a parameter list written with commas: `T n , T n , ...`. */
  function CommaParamTokens(ps: seq<Param>): seq<Token> {
    if |ps| <= 1 then ParamTokens(ps)
    else [Type(ps[0].0), Identifier(ps[0].1), Comma] + CommaParamTokens(ps[1..])
  }

  /** One type/name pair in front of more tokens. */
  lemma ParameterListPair(t: string, n: string, rest: seq<Token>)
    ensures ParameterList([Type(t), Identifier(n)] + rest) == PrependParams([(t, n)], ParameterList(rest))
  {
    assert ([Type(t), Identifier(n)] + rest)[2..] == rest;
  }

  /**
   * Type/name pairs are collected in order, up to a `)` (whatever follows it
   * is ignored) or up to the end of the tokens.
   */
  lemma {:induction false} ParameterListRoundTrip(ps: seq<Param>, tail: seq<Token>)
    requires tail == [] || tail[0] == RightParen
    ensures ParameterList(ParamTokens(ps) + tail) == Some(ps)
    decreases |ps|
  {
    if ps == [] {
      assert ParamTokens(ps) + tail == tail;
    } else {
      var rest := ParamTokens(ps[1..]) + tail;
      assert ParamTokens(ps) + tail == [Type(ps[0].0), Identifier(ps[0].1)] + rest;
      ParameterListRoundTrip(ps[1..], tail);
      ParameterListPair(ps[0].0, ps[0].1, rest);
      assert [(ps[0].0, ps[0].1)] + ps[1..] == ps;
    }
  }

  /**
   * A header `[first] fn name ( T n ... )` parses to its name and parameters,
   * with the global flag set exactly when the first token is `Global`.
   */
  lemma DeclarationRoundTrip(first: Token, name: string, ps: seq<Param>, tail: seq<Token>)
    requires tail == [] || tail[0] == RightParen
    ensures Declaration([first, Fn, Identifier(name), LeftParen] + ParamTokens(ps) + tail)
         == Some(Ast(name, ps, first == Global))
  {
    var ts := [first, Fn, Identifier(name), LeftParen] + ParamTokens(ps) + tail;
    assert ts[4..] == ParamTokens(ps) + tail;
    ParameterListRoundTrip(ps, tail);
  }

  /** Two or more parameters separated by commas make the whole parse fail. */
  lemma CommaSeparatedRejected(ps: seq<Param>, rest: seq<Token>)
    requires |ps| >= 2
    ensures ParameterList(CommaParamTokens(ps) + rest) == None
  {
    var ts := CommaParamTokens(ps) + rest;
    assert ts[2..] == [Comma] + CommaParamTokens(ps[1..]) + rest;
  }

  /** Inside the list, any token other than `)` or a type fails the parse. */
  lemma OtherTokenRejected(t: Token, rest: seq<Token>)
    requires !t.RightParen? && !t.Type?
    ensures ParameterList([t] + rest) == None
  {
  }

  /**
   * A type followed by anything but an identifier is dropped together with
   * that token, even when that token is the closing `)`.
   */
  lemma TypeDropsNext(typ: string, next: Token, rest: seq<Token>)
    requires !next.Identifier?
    ensures ParameterList([Type(typ), next] + rest) == ParameterList(rest)
  {
    assert ([Type(typ), next] + rest)[2..] == rest;
  }

  /**
   * The first token is consumed even when it is not `global`, so a header
   * that starts directly with `fn` is rejected.
   */
  lemma BareFnRejected(name: string, rest: seq<Token>)
    ensures Declaration([Fn, Identifier(name)] + rest) == None
  {
  }
}
