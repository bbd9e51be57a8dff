/** From selector text to a compiled selector: the keyword table between tokenizer and parser, and Selector itself. */
module SelectorText {
  import opened Options
  import opened SelectorTokens
  import opened SelectorSyntax
  import opened SelectorMeaning
  import P = SelectorParser
  import Seqs

  // ---- Lexemes as tokens ----

  function Upper(c: char): char {
    if 'a' <= c <= 'z' then c - 'a' + 'A' else c
  }

  function UpperAll(t: string): string {
    if t == "" then "" else [Upper(t[0])] + UpperAll(t[1..])
  }

  /** Keywords in any case; every other word is an identifier, spelled as it is. */
  function WordToken(t: string): Token {
    var u := UpperAll(t);
    if u == "AND" then AndTok else if u == "OR" then OrTok else if u == "NOT" then NotTok
    else if u == "LIKE" then LikeTok else if u == "BETWEEN" then BetweenTok else if u == "IN" then InTok
    else if u == "IS" then IsTok else if u == "TRUE" then TrueLit else if u == "FALSE" then FalseLit
    else if u == "NULL" then NullLit
    else Ident(t)
  }

  function SymbolToken(sym: Symbol): Token {
    match sym
    case EqSym => Rel(Eq)
    case NeqSym => Rel(Neq)
    case LtSym => Rel(Lt)
    case LteSym => Rel(Lte)
    case GtSym => Rel(Gt)
    case GteSym => Rel(Gte)
    case Open => LParen
    case Close => RParen
    case CommaSym => Comma
  }

  function Decimal(s: string): int {
    if s == "" then 0 else 10 * Decimal(s[..|s| - 1]) + (s[|s| - 1] as int - '0' as int)
  }

  function Power10(n: nat): (r: real)
    ensures r > 0.0
  {
    if n == 0 then 1.0 else 10.0 * Power10(n - 1)
  }

  function WithFraction(whole: string, frac: string): real {
    Decimal(whole) as real + Decimal(frac) as real / Power10(|frac|)
  }

  /** The value of a number text; sign apart, digits with an optional fraction. */
  function NumberValue(t: string): real {
    var digits := if t != "" && t[0] == '-' then t[1..] else t;
    var n := Digits(digits);
    var frac := if n < |digits| then digits[n + 1..] else "";
    var v := WithFraction(digits[..n], frac);
    if t != "" && t[0] == '-' then -v else v
  }

  function TokenOf(l: Lexeme): Token {
    match l
    case Word(t) => WordToken(t)
    case Quoted(t) => Str(t)
    case Number(t, isFloat) => if isFloat then FloatLit(NumberValue(t)) else IntLit(NumberValue(t).Floor)
    case Sym(sym) => SymbolToken(sym)
  }

  function TokensOf(ls: seq<Lexeme>): (ts: seq<Token>)
    ensures |ts| == |ls|
  {
    if ls == [] then [] else [TokenOf(ls[0])] + TokensOf(ls[1..])
  }

  lemma {:induction false} TokensSnoc(ls: seq<Lexeme>, l: Lexeme)
    ensures TokensOf(ls + [l]) == TokensOf(ls) + [TokenOf(l)]
  {
    if ls == [] {
      assert ls + [l] == [l] && TokensOf([l]) == [TokenOf(l)] + TokensOf([]);
    } else {
      TokensSnoc(ls[1..], l);
      assert (ls + [l])[1..] == ls[1..] + [l];
    }
  }

  // ---- Text as a tree ----

  /** The tree of a selector text, if it is one. */
  function TreeOf(text: string): Option<Or> {
    match Lex(text)
    case None => None
    case Some(ls) => ParseExpression(TokensOf(ls))
  }

  /** A text is a selector if and only if its lexemes are the derivation of a tree, which is then the only one. */
  lemma SelectorTexts(text: string)
    ensures TreeOf(text).Some? <==> Lex(text).Some? && exists o :: GoodOr(o) && YieldOr(o) == TokensOf(Lex(text).value)
    ensures forall o :: Lex(text).Some? && GoodOr(o) && YieldOr(o) == TokensOf(Lex(text).value) ==> TreeOf(text) == Some(o)
  {
    if Lex(text).Some? {
      var ts := TokensOf(Lex(text).value);
      AcceptsTheLanguage(ts);
      forall o | GoodOr(o) && YieldOr(o) == ts ensures TreeOf(text) == Some(o) {
        BuildsTheTree(o);
      }
    }
  }

  /** Whoever writes down the lexemes of a tree gets a text that is read as that tree. */
  lemma WrittenTreeIsRead(ls: seq<Lexeme>, o: Or)
    requires (forall k :: 0 <= k < |ls| ==> SelectorTokens.WellFormed(ls[k])) && GoodOr(o) && YieldOr(o) == TokensOf(ls)
    ensures TreeOf(WrittenAll(ls)) == Some(o)
  {
    LexRoundTrip(ls);
    BuildsTheTree(o);
  }

  /** The same letters, and nothing else, up to case. */
  predicate DifferInCase(t: string, u: string) {
    && |t| == |u|
    && forall k :: 0 <= k < |t| ==>
         || t[k] == u[k]
         || ('a' <= t[k] <= 'z' && u[k] as int == t[k] as int - 32)
         || ('A' <= t[k] <= 'Z' && u[k] as int == t[k] as int + 32)
  }

  lemma {:induction false} UpperDecides(t: string, u: string)
    ensures UpperAll(t) == UpperAll(u) <==> DifferInCase(t, u)
  {
    if t != "" && u != "" {
      UpperDecides(t[1..], u[1..]);
      assert UpperAll(t)[0] == Upper(t[0]) && UpperAll(u)[0] == Upper(u[0]);
      assert UpperAll(t)[1..] == UpperAll(t[1..]) && UpperAll(u)[1..] == UpperAll(u[1..]);
      assert |t| == |u| ==> forall k :: 1 <= k < |t| ==> t[k] == t[1..][k - 1] && u[k] == u[1..][k - 1];
      assert DifferInCase(t, u) ==> forall k :: 0 <= k < |t[1..]| ==> t[1..][k] == t[k + 1] && u[1..][k] == u[k + 1];
    }
  }

  /** Keywords do not depend on case; identifiers do. */
  lemma CaseOfWords(t: string, u: string)
    requires DifferInCase(t, u)
    ensures WordToken(t) == WordToken(u) <==> t == u || !WordToken(t).Ident?
  {
    UpperDecides(t, u);
  }

  // ---- Selector ----

  class Selector {
    const evalFn: P.EvalFn

    constructor (evalFn: P.EvalFn)
      ensures this.evalFn == evalFn
    {
      this.evalFn := evalFn;
    }

    /** Only a definite yes lets a message through. */
    method Matches(m: Props) returns (yes: bool)
      ensures yes <==> Truth(evalFn(m)) == T
    {
      yes := evalFn(m).Bool? && evalFn(m).b;
    }
  }

  /** Reading all lexemes of a text. */
  method Tokenize(text: string) returns (ts: Option<seq<Token>>)
    ensures ts == if Lex(text).Some? then Some(TokensOf(Lex(text).value)) else None
  {
    hide NextLexeme, TokenOf;
    var tok := new Tokenizer(text);
    ghost var ls: seq<Lexeme> := [];
    var got: seq<Token> := [];
    assert tok.Rest() == text;
    assert Lex(text).Some? ==> ls + Lex(text).value == Lex(text).value;
    while true
      invariant tok.Valid() && tok.input == text && got == TokensOf(ls)
      invariant Lex(text) == Prefixed(ls, Lex(tok.Rest()))
      decreases |tok.Rest()|
    {
      ghost var here := tok.Rest();
      var next := tok.Next();
      PrefixedNext(ls, here, next);
      match next {
        case End => return Some(got);
        case Bad => return None;
        case Got(l, _) =>
          TokensSnoc(ls, l);
          ls := ls + [l];
          got := got + [TokenOf(l)];
      }
    }
  }

  ghost function Prefixed(ls: seq<Lexeme>, more: Option<seq<Lexeme>>): Option<seq<Lexeme>> {
    if more.None? then None else Some(ls + more.value)
  }

  lemma LexNext(text: string, next: Lexed)
    requires next == NextLexeme(text)
    ensures next.End? ==> Lex(text) == Some([])
    ensures next.Bad? ==> Lex(text) == None
    ensures next.Got? ==> |next.rest| < |text|
    ensures next.Got? ==> Lex(text) == if Lex(next.rest).None? then None else Some([next.lexeme] + Lex(next.rest).value)
  {
    hide NextLexeme;
  }

  lemma PrefixedNext(ls: seq<Lexeme>, text: string, next: Lexed)
    requires next == NextLexeme(text)
    ensures next.End? ==> Prefixed(ls, Lex(text)) == Some(ls)
    ensures next.Bad? ==> Prefixed(ls, Lex(text)) == None
    ensures next.Got? ==> |next.rest| < |text| && Prefixed(ls, Lex(text)) == Prefixed(ls + [next.lexeme], Lex(next.rest))
  {
    hide NextLexeme, Lex;
    LexNext(text, next);
    if next.Got? {
      if Lex(next.rest).Some? {
        Seqs.Assoc(ls, [next.lexeme], Lex(next.rest).value);
      }
    } else {
      assert ls + [] == ls;
    }
  }

  /** Selector::parse: the empty text matches everything; any other is compiled to the meaning of its tree or refused. */
  method Parse(text: string) returns (sel: Option<Selector>)
    ensures sel.None? <==> text != "" && TreeOf(text).None?
    ensures sel.Some? ==>
      forall m :: sel.value.evalFn(m) == if text == "" then Bool(true) else MeanOr(TreeOf(text).value, m)
  {
    if text == "" {
      var s := new Selector((m: Props) => Bool(true));
      return Some(s);
    }
    hide Lex, MeanOr, ParseExpression;
    var ts := Tokenize(text);
    if ts.None? {
      return None;
    }
    var parser := new P.Parser(ts.value);
    var ok, f := parser.ParseExpr();
    if !ok {
      return None;
    }
    var s := new Selector(f);
    sel := Some(s);
  }
}
