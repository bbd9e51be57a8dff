/** The tokenizer: from selector text to lexemes. */
module SelectorTokens {
  import opened Options
  import Seqs

  // ---- Characters of the C locale ----

  predicate IsSpace(c: char) {
    c == ' ' || '\t' <= c <= '\r'
  }

  predicate IsDigit(c: char) {
    '0' <= c <= '9'
  }

  predicate IsAlpha(c: char) {
    'a' <= c <= 'z' || 'A' <= c <= 'Z'
  }

  predicate StartsWord(c: char) {
    IsAlpha(c) || c == '_'
  }

  predicate InWord(c: char) {
    IsAlpha(c) || IsDigit(c) || c == '_' || c == '.'
  }

  // ---- Lexemes ----

  datatype Symbol = EqSym | NeqSym | LtSym | LteSym | GtSym | GteSym | Open | Close | CommaSym

  datatype Lexeme = Word(text: string) | Quoted(text: string) | Number(text: string, isFloat: bool) | Sym(sym: Symbol)

  datatype Lexed = End | Bad | Got(lexeme: Lexeme, rest: string)

  function SkipSpace(s: string): (r: string)
    ensures |r| <= |s|
  {
    if s != "" && IsSpace(s[0]) then SkipSpace(s[1..]) else s
  }

  /** The length of the longest start of s that consists of digits. */
  function Digits(s: string): (n: nat)
    ensures n <= |s|
  {
    if s != "" && IsDigit(s[0]) then 1 + Digits(s[1..]) else 0
  }

  function WordLength(s: string): (n: nat)
    ensures n <= |s|
  {
    if s != "" && InWord(s[0]) then 1 + WordLength(s[1..]) else 0
  }

  /** A literal behind its opening quote; a doubled quote stands for one. The end of the input also ends it. */
  function ReadQuoted(s: string): (r: (string, string))
    ensures |r.1| <= |s|
  {
    if s == "" then ("", "")
    else if s[0] != '\'' then
      var (text, rest) := ReadQuoted(s[1..]);
      ([s[0]] + text, rest)
    else if |s| > 1 && s[1] == '\'' then
      var (text, rest) := ReadQuoted(s[2..]);
      ("'" + text, rest)
    else ("", s[1..])
  }

  predicate StartsNumber(s: string) {
    s != "" && (IsDigit(s[0]) || (s[0] == '-' && |s| > 1 && IsDigit(s[1])))
  }

  function ReadNumber(s: string): (r: (Lexeme, string))
    requires StartsNumber(s)
    ensures |r.1| < |s|
  {
    var whole := if s[0] == '-' then 1 + Digits(s[1..]) else Digits(s);
    if whole < |s| && s[whole] == '.' then
      var end := whole + 1 + Digits(s[whole + 1..]);
      (Number(s[..end], true), s[end..])
    else (Number(s[..whole], false), s[whole..])
  }

  function ReadSymbol(s: string): Lexed
    requires s != ""
  {
    match s[0]
    case '=' => Got(Sym(EqSym), s[1..])
    case '(' => Got(Sym(Open), s[1..])
    case ')' => Got(Sym(Close), s[1..])
    case ',' => Got(Sym(CommaSym), s[1..])
    case '<' =>
      if |s| > 1 && s[1] == '>' then Got(Sym(NeqSym), s[2..])
      else if |s| > 1 && s[1] == '=' then Got(Sym(LteSym), s[2..])
      else Got(Sym(LtSym), s[1..])
    case '>' => if |s| > 1 && s[1] == '=' then Got(Sym(GteSym), s[2..]) else Got(Sym(GtSym), s[1..])
    case _ => Bad
  }

  /** Tokenizer::next. */
  function NextLexeme(text: string): (r: Lexed)
    ensures r.Got? ==> |r.rest| < |text|
  {
    var s := SkipSpace(text);
    if s == "" then End
    else if s[0] == '\'' then
      var (t, rest) := ReadQuoted(s[1..]);
      Got(Quoted(t), rest)
    else if StartsNumber(s) then
      var (l, rest) := ReadNumber(s);
      Got(l, rest)
    else if StartsWord(s[0]) then Got(Word(s[..WordLength(s)]), s[WordLength(s)..])
    else ReadSymbol(s)
  }

  /** All lexemes of a text; None at a character that starts none. */
  function Lex(text: string): Option<seq<Lexeme>>
    decreases |text|
  {
    match NextLexeme(text)
    case End => Some([])
    case Bad => None
    case Got(l, rest) =>
      match Lex(rest)
      case None => None
      case Some(ls) => Some([l] + ls)
  }

  // ---- Writing lexemes ----

  function QuoteDoubled(t: string): string {
    if t == "" then "" else (if t[0] == '\'' then "''" else [t[0]]) + QuoteDoubled(t[1..])
  }

  function SymbolText(sym: Symbol): string {
    match sym
    case EqSym => "="
    case NeqSym => "<>"
    case LtSym => "<"
    case LteSym => "<="
    case GtSym => ">"
    case GteSym => ">="
    case Open => "("
    case Close => ")"
    case CommaSym => ","
  }

  function Written(l: Lexeme): string {
    match l
    case Word(t) => t
    case Quoted(t) => "'" + QuoteDoubled(t) + "'"
    case Number(t, _) => t
    case Sym(sym) => SymbolText(sym)
  }

  function WrittenAll(ls: seq<Lexeme>): string {
    if ls == [] then "" else Written(ls[0]) + (" " + WrittenAll(ls[1..]))
  }

  /** A word starts like a word; a number has digits, perhaps a sign before and a fraction behind; a quoted text may be anything. */
  predicate WellFormed(l: Lexeme) {
    match l
    case Word(t) => t != "" && StartsWord(t[0]) && WordLength(t) == |t|
    case Quoted(_) => true
    case Number(t, isFloat) => StartsNumber(t) && ReadNumber(t) == (l, "")
    case Sym(_) => true
  }

  // ---- What was written is read back ----

  lemma {:induction false} DigitsBefore(t: string, rest: string)
    requires rest != "" && !IsDigit(rest[0])
    ensures Digits(t + rest) == Digits(t)
  {
    if t == "" {
      assert t + rest == rest;
    } else {
      assert (t + rest)[1..] == t[1..] + rest;
      DigitsBefore(t[1..], rest);
    }
  }

  lemma {:induction false} WordBefore(t: string, rest: string)
    requires rest != "" && !InWord(rest[0])
    ensures WordLength(t + rest) == WordLength(t)
  {
    if t == "" {
      assert t + rest == rest;
    } else {
      assert (t + rest)[1..] == t[1..] + rest;
      WordBefore(t[1..], rest);
    }
  }

  lemma {:induction false} QuotedBack(t: string, rest: string)
    requires rest == "" || rest[0] != '\''
    ensures ReadQuoted(QuoteDoubled(t) + ("'" + rest)) == (t, rest)
  {
    var s := QuoteDoubled(t) + ("'" + rest);
    if t == "" {
      assert s == "'" + rest;
      assert s[1..] == rest;
    } else {
      QuotedBack(t[1..], rest);
      var tail := QuoteDoubled(t[1..]) + ("'" + rest);
      if t[0] == '\'' {
        assert s == "''" + tail;
        assert s[2..] == tail;
      } else {
        assert s == [t[0]] + tail;
        assert s[1..] == tail;
      }
      assert t == [t[0]] + t[1..];
    }
  }

  lemma NumberBack(t: string, isFloat: bool, rest: string)
    requires WellFormed(Number(t, isFloat)) && rest != "" && !IsDigit(rest[0]) && rest[0] != '.'
    ensures StartsNumber(t + rest) && ReadNumber(t + rest) == (Number(t, isFloat), rest)
  {
    var s := t + rest;
    var whole := if t[0] == '-' then 1 + Digits(t[1..]) else Digits(t);
    if t[0] == '-' {
      assert s[1..] == t[1..] + rest;
      DigitsBefore(t[1..], rest);
    } else {
      DigitsBefore(t, rest);
    }
    if whole < |t| && t[whole] == '.' {
      assert s[whole + 1..] == t[whole + 1..] + rest;
      DigitsBefore(t[whole + 1..], rest);
    }
    assert s[..|t|] == t && s[|t|..] == rest;
  }

  lemma WordBack(t: string, rest: string)
    requires WellFormed(Word(t)) && rest != "" && !InWord(rest[0])
    ensures NextLexeme(t + rest) == Got(Word(t), rest)
  {
    hide ReadNumber, ReadQuoted;
    var s := t + rest;
    WordBefore(t, rest);
    assert s[0] == t[0] && SkipSpace(s) == s;
    assert s[..|t|] == t && s[|t|..] == rest;
  }

  lemma SymbolBack(sym: Symbol, tail: string)
    ensures NextLexeme(SymbolText(sym) + (" " + tail)) == Got(Sym(sym), " " + tail)
  {
    hide ReadNumber, ReadQuoted;
    var w := SymbolText(sym);
    var s := w + (" " + tail);
    assert s[0] == w[0] && s[1] == (w + " ")[1] && SkipSpace(s) == s;
    assert s[|w|..] == " " + tail;
  }

  lemma LiteralBack(t: string, rest: string)
    requires rest == "" || rest[0] != '\''
    ensures NextLexeme("'" + QuoteDoubled(t) + "'" + rest) == Got(Quoted(t), rest)
  {
    var s := "'" + QuoteDoubled(t) + "'" + rest;
    QuotedBack(t, rest);
    hide ReadNumber, ReadQuoted;
    assert s[0] == '\'' && SkipSpace(s) == s;
    assert s[1..] == QuoteDoubled(t) + ("'" + rest);
  }

  lemma LexemeBack(l: Lexeme, tail: string)
    requires WellFormed(l)
    ensures NextLexeme(Written(l) + (" " + tail)) == Got(l, " " + tail)
  {
    var rest := " " + tail;
    match l
    case Word(t) => WordBack(t, rest);
    case Quoted(t) => LiteralBack(t, rest);
    case Number(t, isFloat) =>
      NumberBack(t, isFloat, rest);
      hide ReadNumber, WellFormed;
      assert (t + rest)[0] == t[0];
      assert SkipSpace(t + rest) == t + rest;
    case Sym(sym) => SymbolBack(sym, tail);
  }

  /** Writing any lexemes with a space behind each and reading the text gives the same lexemes. */
  lemma {:induction false} LexRoundTrip(ls: seq<Lexeme>)
    requires forall k :: 0 <= k < |ls| ==> WellFormed(ls[k])
    ensures Lex(WrittenAll(ls)) == Some(ls) && Lex(" " + WrittenAll(ls)) == Some(ls)
  {
    hide NextLexeme, Written, WellFormed;
    if ls == [] {
      NothingToLex();
    } else {
      LexemeBack(ls[0], WrittenAll(ls[1..]));
      LexRoundTrip(ls[1..]);
      assert ls == [ls[0]] + ls[1..];
    }
    SpaceInFront(WrittenAll(ls));
  }

  lemma NothingToLex()
    ensures Lex("") == Some([])
  {
  }

  lemma SpaceInFront(t: string)
    ensures Lex(" " + t) == Lex(t)
  {
    assert (" " + t)[1..] == t;
    assert SkipSpace(" " + t) == SkipSpace(t);
  }

  // ---- Literals that the input ends in ----

  /** The literal whose text starts at s has no closing quote. */
  predicate Unclosed(s: string) {
    if s == "" then true
    else if s[0] != '\'' then Unclosed(s[1..])
    else |s| > 1 && s[1] == '\'' && Unclosed(s[2..])
  }

  /** The last literal of a text that lexes has no closing quote. */
  predicate EndsOpen(text: string)
    decreases |text|
  {
    var s := SkipSpace(text);
    var next := NextLexeme(text);
    next.Got? && ((s != "" && s[0] == '\'' && Unclosed(s[1..])) || EndsOpen(next.rest))
  }

  function Quotes(s: string): nat {
    if s == "" then 0 else (if s[0] == '\'' then 1 else 0) + Quotes(s[1..])
  }

  lemma {:induction false} QuotesJoin(a: string, b: string)
    ensures Quotes(a + b) == Quotes(a) + Quotes(b)
  {
    if a == "" {
      assert a + b == b;
    } else {
      assert (a + b)[1..] == a[1..] + b;
      QuotesJoin(a[1..], b);
    }
  }

  lemma {:induction false} NoQuotes(s: string, n: nat)
    requires n <= |s| && forall k :: 0 <= k < n ==> s[k] != '\''
    ensures Quotes(s[n..]) == Quotes(s)
  {
    if n > 0 {
      assert s[1..][n - 1..] == s[n..];
      NoQuotes(s[1..], n - 1);
    }
  }

  lemma {:induction false} SpaceHasNoQuotes(s: string)
    ensures Quotes(SkipSpace(s)) == Quotes(s)
  {
    if s != "" && IsSpace(s[0]) {
      SpaceHasNoQuotes(s[1..]);
    }
  }

  /** Inside a literal quotes come in pairs; its closing quote, if any, makes their number odd. */
  lemma {:induction false} LiteralQuotes(s: string)
    ensures Unclosed(s) ==> ReadQuoted(s).1 == "" && Quotes(s) % 2 == 0
    ensures !Unclosed(s) ==> Quotes(s) % 2 != Quotes(ReadQuoted(s).1) % 2
  {
    if s != "" {
      if s[0] != '\'' {
        LiteralQuotes(s[1..]);
        assert Quotes(s) == Quotes(s[1..]);
      } else if |s| > 1 && s[1] == '\'' {
        LiteralQuotes(s[2..]);
        assert s[1..][1..] == s[2..];
        assert Quotes(s) == Quotes(s[2..]) + 2;
      } else {
        assert Quotes(s) == Quotes(s[1..]) + 1;
      }
    }
  }

  lemma {:induction false} DigitsAreDigits(s: string)
    ensures forall k :: 0 <= k < Digits(s) ==> IsDigit(s[k])
  {
    if s != "" && IsDigit(s[0]) {
      DigitsAreDigits(s[1..]);
    }
  }

  lemma {:induction false} WordIsWord(s: string)
    ensures forall k :: 0 <= k < WordLength(s) ==> InWord(s[k])
  {
    if s != "" && InWord(s[0]) {
      WordIsWord(s[1..]);
    }
  }

  lemma NumberHasNoQuotes(s: string)
    requires StartsNumber(s)
    ensures Quotes(ReadNumber(s).1) == Quotes(s)
  {
    var sign := if s[0] == '-' then 1 else 0;
    var whole := sign + Digits(s[sign..]);
    assert s[0..] == s;
    DigitsAreDigits(s[sign..]);
    assert forall k :: sign <= k < whole ==> s[k] == s[sign..][k - sign];
    if whole < |s| && s[whole] == '.' {
      var frac := s[whole + 1..];
      DigitsAreDigits(frac);
      var end := whole + 1 + Digits(frac);
      assert forall k :: whole + 1 <= k < end ==> s[k] == frac[k - whole - 1];
      NoQuotes(s, end);
    } else {
      NoQuotes(s, whole);
    }
  }

  /** A lexeme other than a literal has no quotes. */
  lemma OtherHasNoQuotes(text: string)
    requires NextLexeme(text).Got? && SkipSpace(text) != "" && SkipSpace(text)[0] != '\''
    ensures Quotes(NextLexeme(text).rest) == Quotes(text)
  {
    hide ReadNumber;
    var s := SkipSpace(text);
    SpaceHasNoQuotes(text);
    if StartsNumber(s) {
      NumberHasNoQuotes(s);
    } else if StartsWord(s[0]) {
      WordIsWord(s);
      NoQuotes(s, WordLength(s));
    } else {
      NoQuotes(s, 1);
      if |s| > 1 && s[1] != '\'' {
        NoQuotes(s, 2);
      }
    }
  }

  /** In every text that lexes, a literal is left open if and only if the number of quote characters is odd. */
  lemma {:induction false} OpenExactlyIfOdd(text: string)
    requires Lex(text).Some?
    ensures EndsOpen(text) <==> Quotes(text) % 2 == 1
    decreases |text|
  {
    var s, next := SkipSpace(text), NextLexeme(text);
    SpaceHasNoQuotes(text);
    if next.Got? {
      OpenExactlyIfOdd(next.rest);
      if s[0] == '\'' {
        LiteralQuotes(s[1..]);
        if Unclosed(s[1..]) {
          NothingToLex();
        }
      } else {
        OtherHasNoQuotes(text);
      }
    }
  }

  /** A literal without its closing quote is accepted, whatever its text: it reads as if the quote were there. */
  lemma UnterminatedAccepted(t: string)
    ensures Lex("'" + QuoteDoubled(t)) == Some([Quoted(t)]) && EndsOpen("'" + QuoteDoubled(t))
  {
    var s := "'" + QuoteDoubled(t);
    assert s[1..] == QuoteDoubled(t);
    OpenEnded(t);
    assert SkipSpace(s) == s;
    NothingToLex();
    assert NextLexeme(s) == Got(Quoted(t), "");
    hide NextLexeme;
    var none: seq<Lexeme> := [];
    assert [Quoted(t)] + none == [Quoted(t)];
  }

  lemma {:induction false} OpenEnded(t: string)
    ensures ReadQuoted(QuoteDoubled(t)) == (t, "") && Unclosed(QuoteDoubled(t))
  {
    if t != "" {
      OpenEnded(t[1..]);
      var s := QuoteDoubled(t);
      if t[0] == '\'' {
        assert s[2..] == QuoteDoubled(t[1..]);
      } else {
        assert s[1..] == QuoteDoubled(t[1..]);
      }
      assert t == [t[0]] + t[1..];
    }
  }

  // ---- The tokenizer object ----

  class Tokenizer {
    const input: string
    var pos: nat

    constructor (input: string)
      ensures this.input == input && pos == 0
    {
      this.input, pos := input, 0;
    }

    ghost predicate Valid()
      reads this
    {
      pos <= |input|
    }

    ghost function Rest(): string
      reads this
      requires Valid()
    {
      input[pos..]
    }

    /** next: the lexeme as the function says, the position behind it. */
    method Next() returns (r: Lexed)
      requires Valid()
      modifies this
      ensures Valid()
      ensures r == NextLexeme(old(Rest())) && (r.Got? ==> Rest() == r.rest)
    {
      hide ReadNumber, ReadQuoted, WordLength, Digits;
      SkipWhitespace();
      if pos >= |input| {
        return End;
      }
      var c := input[pos];
      ghost var s := Rest();
      if c == '\'' {
        var text := ReadString();
        return Got(Quoted(text), input[pos..]);
      }
      if IsDigit(c) || (c == '-' && pos + 1 < |input| && IsDigit(input[pos + 1])) {
        var l := ReadNumberToken();
        return Got(l, input[pos..]);
      }
      if StartsWord(c) {
        var text := ReadWord();
        return Got(Word(text), input[pos..]);
      }
      r := ReadSymbol(input[pos..]);
      if r.Got? {
        pos := |input| - |r.rest|;
        assert Rest() == r.rest by {
          assert r.rest == s[1..] || r.rest == s[2..];
        }
      }
    }

    method SkipWhitespace()
      requires Valid()
      modifies this
      ensures Valid() && Rest() == SkipSpace(old(Rest()))
    {
      while pos < |input| && IsSpace(input[pos])
        invariant Valid() && SkipSpace(Rest()) == SkipSpace(old(Rest()))
        decreases |input| - pos
      {
        assert Rest()[1..] == input[pos + 1..];
        pos := pos + 1;
      }
    }

    method ReadString() returns (result: string)
      requires Valid() && pos < |input|
      modifies this
      ensures Valid() && (result, Rest()) == ReadQuoted(old(Rest())[1..])
    {
      ghost var all := Rest()[1..];
      pos := pos + 1;
      result := "";
      assert Rest() == all;
      while pos < |input|
        invariant Valid()
        invariant ReadQuoted(all).0 == result + ReadQuoted(Rest()).0
        invariant ReadQuoted(all).1 == ReadQuoted(Rest()).1
        decreases |input| - pos
      {
        ghost var here, got := Rest(), result;
        var ch := input[pos];
        pos := pos + 1;
        assert Rest() == here[1..];
        if ch == '\'' {
          if pos < |input| && input[pos] == '\'' {
            result := result + "'";
            pos := pos + 1;
            assert Rest() == here[2..];
            Seqs.Assoc(got, "'", ReadQuoted(Rest()).0);
          } else {
            assert ReadQuoted(here) == ("", here[1..]);
            assert result + "" == result;
            return;
          }
        } else {
          result := result + [ch];
          Seqs.Assoc(got, [ch], ReadQuoted(Rest()).0);
        }
      }
      assert Rest() == "" && ReadQuoted("") == ("", "");
      assert result + "" == result;
    }

    /** The position behind a run of digits. */
    method SkipDigits()
      requires Valid()
      modifies this
      ensures Valid() && pos == old(pos) + Digits(old(Rest()))
    {
      while pos < |input| && IsDigit(input[pos])
        invariant Valid() && pos + Digits(Rest()) == old(pos) + Digits(old(Rest()))
        decreases |input| - pos
      {
        assert Rest()[1..] == input[pos + 1..];
        pos := pos + 1;
      }
    }

    method ReadNumberToken() returns (l: Lexeme)
      requires Valid() && StartsNumber(Rest())
      modifies this
      ensures Valid() && (l, Rest()) == ReadNumber(old(Rest()))
    {
      hide Digits;
      ghost var s := Rest();
      var start, isFloat := pos, false;
      if input[pos] == '-' {
        pos := pos + 1;
        assert Rest() == s[1..];
      }
      SkipDigits();
      if pos < |input| && input[pos] == '.' {
        isFloat := true;
        pos := pos + 1;
        assert Rest() == s[pos - start..];
        SkipDigits();
      }
      l := Number(input[start..pos], isFloat);
      assert input[start..pos] == s[..pos - start] && Rest() == s[pos - start..];
    }

    method ReadWord() returns (text: string)
      requires Valid()
      modifies this
      ensures Valid() && text == old(Rest())[..WordLength(old(Rest()))] && Rest() == old(Rest())[WordLength(old(Rest()))..]
    {
      var start := pos;
      ghost var s := Rest();
      while pos < |input| && InWord(input[pos])
        invariant Valid() && start <= pos && pos - start + WordLength(Rest()) == WordLength(s)
        decreases |input| - pos
      {
        assert Rest()[1..] == input[pos + 1..];
        pos := pos + 1;
      }
      text := input[start..pos];
      assert Rest() == s[pos - start..];
    }
  }
}
