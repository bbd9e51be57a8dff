/** What selectors compute, in numbers, texts and truth values written out, down to their text. */
module SelectorLaws {
  import opened Options
  import opened SelectorSyntax
  import opened SelectorMeaning
  import opened SelectorText
  import T = SelectorTokens
  import Seqs

  // ---- Relations ----

  /** Two integers are compared as integers. */
  lemma RelationOfInts(p: Primary, op: Op, q: Primary, m: Props, a: int, b: int)
    requires MeanPrimary(p, m) == Int(a) && MeanPrimary(q, m) == Int(b)
    ensures var r := MeanComparison(Relation(p, op, q), m);
      && (op == Eq ==> r == Bool(a == b)) && (op == Neq ==> r == Bool(a != b))
      && (op == Lt ==> r == Bool(a < b)) && (op == Lte ==> r == Bool(a <= b))
      && (op == Gt ==> r == Bool(a > b)) && (op == Gte ==> r == Bool(a >= b))
  {
  }

  /** A number: an integer or a real with the value x. */
  predicate IsNumber(v: Value, x: real) {
    v == Dbl(x) || (v.Int? && v.i as real == x)
  }

  /** Numbers of either kind are compared by value. */
  lemma RelationOfNumbers(p: Primary, op: Op, q: Primary, m: Props, x: real, y: real)
    requires IsNumber(MeanPrimary(p, m), x) && IsNumber(MeanPrimary(q, m), y)
    ensures var r := MeanComparison(Relation(p, op, q), m);
      && (op == Eq ==> r == Bool(x == y)) && (op == Neq ==> r == Bool(x != y))
      && (op == Lt ==> r == Bool(x < y)) && (op == Lte ==> r == Bool(x <= y))
      && (op == Gt ==> r == Bool(x > y)) && (op == Gte ==> r == Bool(x >= y))
  {
  }

  /** Texts are equal or not; there is no order between them. */
  lemma RelationOfTexts(p: Primary, op: Op, q: Primary, m: Props, s: string, t: string)
    requires MeanPrimary(p, m) == Text(s) && MeanPrimary(q, m) == Text(t)
    ensures var r := MeanComparison(Relation(p, op, q), m);
      && (op == Eq || op == Lte || op == Gte ==> r == Bool(s == t)) && (op == Neq ==> r == Bool(s != t))
      && (op == Lt || op == Gt ==> r == Bool(false))
  {
  }

  /** So are booleans. */
  lemma RelationOfBools(p: Primary, op: Op, q: Primary, m: Props, a: bool, b: bool)
    requires MeanPrimary(p, m) == Bool(a) && MeanPrimary(q, m) == Bool(b)
    ensures var r := MeanComparison(Relation(p, op, q), m);
      && (op == Eq || op == Lte || op == Gte ==> r == Bool(a == b)) && (op == Neq ==> r == Bool(a != b))
      && (op == Lt || op == Gt ==> r == Bool(false))
  {
  }

  /** Values of different kinds, and absent values, are unequal and unordered. */
  lemma RelationOfStrangers(p: Primary, op: Op, q: Primary, m: Props)
    requires var v, w := MeanPrimary(p, m), MeanPrimary(q, m);
      v.Null? || w.Null? || (v.Text? && !w.Text?) || (!v.Text? && w.Text?) || (v.Bool? && !w.Bool?) || (!v.Bool? && w.Bool?)
    ensures MeanComparison(Relation(p, op, q), m) == Bool(op == Neq)
  {
  }

  // ---- BETWEEN, IN, IS NULL ----

  lemma BetweenNumbers(p: Primary, negated: bool, low: Primary, high: Primary, m: Props, x: real, a: real, b: real)
    requires IsNumber(MeanPrimary(p, m), x) && IsNumber(MeanPrimary(low, m), a) && IsNumber(MeanPrimary(high, m), b)
    ensures MeanComparison(Between(p, negated, low, high), m) == Bool(if negated then x < a || b < x else a <= x <= b)
  {
  }

  /** The items of a list. */
  function ItemsOf(first: Primary, more: Items): seq<Primary>
    decreases more
  {
    [first] + if more.NoItem? then [] else ItemsOf(more.next, more.more)
  }

  lemma {:induction false} ItemsValued(first: Primary, more: Items, m: Props)
    ensures var items := [MeanPrimary(first, m)] + ItemValues(more, m);
      |items| == |ItemsOf(first, more)| && forall k :: 0 <= k < |items| ==> items[k] == MeanPrimary(ItemsOf(first, more)[k], m)
    decreases more
  {
    if more.Item? {
      ItemsValued(more.next, more.more, m);
    }
  }

  lemma InNumbers(p: Primary, negated: bool, first: Primary, more: Items, m: Props, x: real, ys: seq<real>)
    requires IsNumber(MeanPrimary(p, m), x) && |ys| == |ItemsOf(first, more)|
    requires forall k :: 0 <= k < |ys| ==> IsNumber(MeanPrimary(ItemsOf(first, more)[k], m), ys[k])
    ensures MeanComparison(In(p, negated, first, more), m) == Bool((x in ys) != negated)
  {
    ItemsValued(first, more, m);
    var items := [MeanPrimary(first, m)] + ItemValues(more, m);
    hide MeanPrimary;
    forall k | 0 <= k < |ys| ensures SelEq(MeanPrimary(p, m), items[k]) <==> x == ys[k] {
      assert IsNumber(MeanPrimary(ItemsOf(first, more)[k], m), ys[k]);
    }
    if x in ys {
      var k :| 0 <= k < |ys| && ys[k] == x;
      assert SelEq(MeanPrimary(p, m), items[k]);
    }
  }

  lemma InTexts(p: Primary, negated: bool, first: Primary, more: Items, m: Props, s: string, ts: seq<string>)
    requires MeanPrimary(p, m) == Text(s) && |ts| == |ItemsOf(first, more)|
    requires forall k :: 0 <= k < |ts| ==> MeanPrimary(ItemsOf(first, more)[k], m) == Text(ts[k])
    ensures MeanComparison(In(p, negated, first, more), m) == Bool((s in ts) != negated)
  {
    ItemsValued(first, more, m);
    var items := [MeanPrimary(first, m)] + ItemValues(more, m);
    hide MeanPrimary;
    forall k | 0 <= k < |ts| ensures SelEq(MeanPrimary(p, m), items[k]) <==> s == ts[k] {
      assert MeanPrimary(ItemsOf(first, more)[k], m) == Text(ts[k]);
    }
    if s in ts {
      var k :| 0 <= k < |ts| && ts[k] == s;
      assert SelEq(MeanPrimary(p, m), items[k]);
    }
  }

  /** An absent property is null, and only IS NULL tells. */
  lemma AbsentIsNull(name: string, negated: bool, m: Props)
    ensures MeanComparison(IsNull(Literal(Ident(name)), negated), m) == Bool((name !in m || m[name] == Null) != negated)
    ensures name in m ==> MeanPrimary(Literal(Ident(name)), m) == m[name]
  {
  }

  // ---- AND, OR, NOT ----

  /** The operands of a disjunction. */
  function OrOperands(o: Or): seq<And> {
    [o.first] + MoreOr(o.more)
  }

  function MoreOr(more: OrMore): seq<And> {
    if more.NoOr? then [] else [more.next] + MoreOr(more.more)
  }

  function AndOperands(a: And): seq<Not> {
    [a.first] + MoreAnd(a.more)
  }

  function MoreAnd(more: AndMore): seq<Not> {
    if more.NoAnd? then [] else [more.next] + MoreAnd(more.more)
  }

  predicate Yes(v: Value) { v == Bool(true) }

  predicate No(v: Value) { v == Bool(false) }

  lemma {:induction false} OrTruthsAre(more: OrMore, m: Props)
    ensures |OrTruths(more, m)| == |MoreOr(more)|
    ensures forall k :: 0 <= k < |MoreOr(more)| ==> OrTruths(more, m)[k] == Truth(MeanAnd(MoreOr(more)[k], m))
  {
    if more.OrThen? {
      OrTruthsAre(more.more, m);
    }
  }

  lemma {:induction false} AndTruthsAre(more: AndMore, m: Props)
    ensures |AndTruths(more, m)| == |MoreAnd(more)|
    ensures forall k :: 0 <= k < |MoreAnd(more)| ==> AndTruths(more, m)[k] == Truth(MeanNot(MoreAnd(more)[k], m))
  {
    if more.AndThen? {
      AndTruthsAre(more.more, m);
    }
  }

  /** A disjunction is a yes exactly if an operand is, and a no exactly if all are. */
  lemma OrOfOperands(o: Or, m: Props)
    ensures Yes(MeanOr(o, m)) <==> exists k :: 0 <= k < |OrOperands(o)| && Yes(MeanAnd(OrOperands(o)[k], m))
    ensures No(MeanOr(o, m)) <==> forall k :: 0 <= k < |OrOperands(o)| ==> No(MeanAnd(OrOperands(o)[k], m))
  {
    OrTruthsAre(o.more, m);
    hide MeanAnd;
    var os, ts := OrOperands(o), [Truth(MeanAnd(o.first, m))] + OrTruths(o.more, m);
    forall k | 0 <= k < |os| ensures ts[k] == Truth(MeanAnd(os[k], m)) {
    }
    assert o.more.NoOr? ==> os == [o.first];
    if T in ts {
      var k :| 0 <= k < |ts| && ts[k] == T;
      assert Yes(MeanAnd(os[k], m));
    }
    if exists k :: 0 <= k < |os| && Yes(MeanAnd(os[k], m)) {
      var k :| 0 <= k < |os| && Yes(MeanAnd(os[k], m));
      assert ts[k] == T;
    }
    if U in ts {
      var k :| 0 <= k < |ts| && ts[k] == U;
      assert !No(MeanAnd(os[k], m));
    }
    if exists k :: 0 <= k < |os| && !No(MeanAnd(os[k], m)) {
      var k :| 0 <= k < |os| && !No(MeanAnd(os[k], m));
      assert ts[k] != F;
    }
  }

  /** A conjunction is a yes exactly if all operands are, and a no exactly if one is. */
  lemma AndOfOperands(a: And, m: Props)
    ensures Yes(MeanAnd(a, m)) <==> forall k :: 0 <= k < |AndOperands(a)| ==> Yes(MeanNot(AndOperands(a)[k], m))
    ensures No(MeanAnd(a, m)) <==> exists k :: 0 <= k < |AndOperands(a)| && No(MeanNot(AndOperands(a)[k], m))
  {
    AndTruthsAre(a.more, m);
    hide MeanNot;
    var os, ts := AndOperands(a), [Truth(MeanNot(a.first, m))] + AndTruths(a.more, m);
    forall k | 0 <= k < |os| ensures ts[k] == Truth(MeanNot(os[k], m)) {
    }
    assert a.more.NoAnd? ==> os == [a.first];
    if F in ts {
      var k :| 0 <= k < |ts| && ts[k] == F;
      assert No(MeanNot(os[k], m));
    }
    if exists k :: 0 <= k < |os| && No(MeanNot(os[k], m)) {
      var k :| 0 <= k < |os| && No(MeanNot(os[k], m));
      assert ts[k] == F;
    }
    if U in ts {
      var k :| 0 <= k < |ts| && ts[k] == U;
      assert !Yes(MeanNot(os[k], m));
    }
    if exists k :: 0 <= k < |os| && !Yes(MeanNot(os[k], m)) {
      var k :| 0 <= k < |os| && !Yes(MeanNot(os[k], m));
      assert ts[k] != T;
    }
  }

  /** NOT exchanges yes and no. */
  lemma NotOfOperand(e: Not, m: Props)
    ensures Yes(MeanNot(Not(e), m)) <==> No(MeanNot(e, m))
    ensures No(MeanNot(Not(e), m)) <==> Yes(MeanNot(e, m))
  {
  }

  // ---- Numbers in text ----

  function Numeral(n: nat): string {
    if n < 10 then ['0' + n as char] else Numeral(n / 10) + ['0' + (n % 10) as char]
  }

  /** An integer as people write it. */
  function DecimalText(n: int): string {
    if n < 0 then "-" + Numeral(-n) else Numeral(n)
  }

  predicate AllDigits(s: string) {
    forall k :: 0 <= k < |s| ==> '0' <= s[k] <= '9'
  }

  lemma {:induction false} NumeralReads(n: nat)
    ensures Numeral(n) != "" && AllDigits(Numeral(n)) && Decimal(Numeral(n)) == n
  {
    var s := Numeral(n);
    if n >= 10 {
      NumeralReads(n / 10);
      assert s[..|s| - 1] == Numeral(n / 10);
    } else {
      assert s[..0] == "" && Decimal(s[..0]) == 0;
    }
  }

  lemma {:induction false} DigitsOfAll(s: string, rest: string)
    requires AllDigits(s) && (rest == "" || !T.IsDigit(rest[0]))
    ensures T.Digits(s + rest) == |s|
  {
    if s == "" {
      assert s + rest == rest;
    } else {
      assert (s + rest)[1..] == s[1..] + rest;
      DigitsOfAll(s[1..], rest);
    }
  }

  lemma IntegerSlices(n: int)
    ensures var t, d := DecimalText(n), Numeral(if n < 0 then -n else n);
      && t == (if n < 0 then "-" + d else d) && t != "" && (t[0] == '-' <==> n < 0) && (n < 0 ==> t[1..] == d)
      && d != "" && '0' <= d[0] <= '9' && T.Digits(d) == |d| && d[..|d|] == d && t[..|t|] == t && t[|t|..] == ""
      && Decimal(d) == if n < 0 then -n else n
  {
    NumeralReads(if n < 0 then -n else n);
    var d := Numeral(if n < 0 then -n else n);
    DigitsOfAll(d, "");
    assert d + "" == d;
  }

  /** An integer text is read as that integer. */
  lemma IntegerText(n: int)
    ensures T.WellFormed(T.Number(DecimalText(n), false)) && TokenOf(T.Number(DecimalText(n), false)) == IntLit(n)
  {
    IntegerSlices(n);
    hide T.Digits, Numeral, DecimalText;
    IntegerValue(n);
    assert (n as real).Floor == n;
  }

  lemma IntegerValue(n: int)
    ensures NumberValue(DecimalText(n)) == n as real
  {
    IntegerSlices(n);
    WholeValue(Numeral(if n < 0 then -n else n));
    hide T.Digits, Numeral, DecimalText, WithFraction, Decimal;
  }

  lemma WholeValue(d: string)
    ensures WithFraction(d, "") == Decimal(d) as real
  {
    assert Decimal("") == 0 && Power10(0) == 1.0;
  }

  /** A text with a fraction is the number that its digits spell, one tenth for each digit behind the point. */
  lemma FractionText(w: string, f: string) returns (r: real)
    requires w != "" && AllDigits(w) && AllDigits(f)
    ensures T.WellFormed(T.Number(w + "." + f, true)) && TokenOf(T.Number(w + "." + f, true)) == FloatLit(r)
    ensures r * Tens(|f|) as real == Decimal(w + f) as real
  {
    hide WithFraction, Decimal, Tens, TokenOf, T.WellFormed, AllDigits;
    r := WithFraction(w, f);
    FractionRead(w, f);
    FractionToken(w, f);
    Scaled(w, f);
  }

  lemma FractionToken(w: string, f: string)
    requires w != "" && AllDigits(w) && AllDigits(f)
    ensures TokenOf(T.Number(w + "." + f, true)) == FloatLit(WithFraction(w, f))
  {
    FractionValue(w, f);
    hide NumberValue, WithFraction;
  }

  lemma Scaled(w: string, f: string)
    ensures WithFraction(w, f) * Tens(|f|) as real == Decimal(w + f) as real
  {
    hide Tens, Decimal, Power10;
    SpelledTogether(w, f);
    PowersAreTens(|f|);
    ScaledNumbers(Decimal(w), Decimal(f), Tens(|f|), Power10(|f|), Decimal(w + f), WithFraction(w, f));
  }

  lemma ScaledNumbers(a: int, b: int, p: nat, z: real, s: int, v: real)
    requires z == p as real && z > 0.0 && s == a * p + b && v == a as real + b as real / z
    ensures v * p as real == s as real
  {
    Quotient(a as real, b as real, z);
    TimesInReals(a, p);
  }

  lemma Quotient(x: real, y: real, z: real)
    requires z > 0.0
    ensures (x + y / z) * z == x * z + y
  {
  }

  lemma {:induction false} TimesInReals(a: int, b: nat)
    ensures (a * b) as real == a as real * b as real
  {
    if b > 0 {
      TimesInReals(a, b - 1);
      assert a * b == a * (b - 1) + a;
      assert a as real * b as real == a as real * (b - 1) as real + a as real;
    }
  }

  lemma FractionSlices(w: string, f: string)
    requires w != "" && AllDigits(w) && AllDigits(f)
    ensures var t := w + "." + f;
      && t != "" && t[0] == w[0] && '0' <= t[0] <= '9' && T.Digits(t) == |w| && t[|w|] == '.' && t[|w| + 1..] == f
      && T.Digits(f) == |f| && t[..|w|] == w && t[..|t|] == t && t[|t|..] == "" && |t| == |w| + 1 + |f|
  {
    var t := w + "." + f;
    assert t == w + ("." + f);
    DigitsOfAll(w, "." + f);
    DigitsOfAll(f, "");
    assert f + "" == f;
  }

  lemma FractionRead(w: string, f: string)
    requires w != "" && AllDigits(w) && AllDigits(f)
    ensures T.WellFormed(T.Number(w + "." + f, true))
  {
    FractionSlices(w, f);
    hide T.Digits;
  }

  lemma FractionValue(w: string, f: string)
    requires w != "" && AllDigits(w) && AllDigits(f)
    ensures NumberValue(w + "." + f) == WithFraction(w, f)
  {
    hide WithFraction;
    FractionSlices(w, f);
    hide T.Digits;
  }

  function Tens(n: nat): nat {
    if n == 0 then 1 else 10 * Tens(n - 1)
  }

  lemma {:induction false} PowersAreTens(n: nat)
    ensures Power10(n) == Tens(n) as real
  {
    if n > 0 {
      PowersAreTens(n - 1);
    }
  }

  lemma TenTimes(a: int, b: int)
    ensures 10 * (a * b) == a * (10 * b)
  {
  }

  lemma {:induction false} SpelledTogether(w: string, f: string)
    ensures Decimal(w + f) == Decimal(w) * Tens(|f|) + Decimal(f)
  {
    if f == "" {
      assert w + f == w;
    } else {
      var init := f[..|f| - 1];
      SpelledTogether(w, init);
      assert (w + f)[..|w + f| - 1] == w + init;
      TenTimes(Decimal(w), Tens(|init|));
    }
  }

  // ---- Whole selectors in text ----

  /** An identifier: letters, digits, underscores and points, no digit or point first, and no keyword in any case. */
  predicate IsName(t: string) {
    && t != "" && !('0' <= t[0] <= '9') && t[0] != '.'
    && (forall k :: 0 <= k < |t| ==>
          'a' <= t[k] <= 'z' || 'A' <= t[k] <= 'Z' || '0' <= t[k] <= '9' || t[k] == '_' || t[k] == '.')
    && UpperAll(t) !in {"AND", "OR", "NOT", "LIKE", "BETWEEN", "IN", "IS", "TRUE", "FALSE", "NULL"}
  }

  /** Lexemes with one space between them. */
  function Spaced(ls: seq<T.Lexeme>): string
    requires ls != []
  {
    if |ls| == 1 then T.Written(ls[0]) else T.Written(ls[0]) + (" " + Spaced(ls[1..]))
  }

  lemma OneLexeme(s: string, l: T.Lexeme)
    requires T.NextLexeme(s) == T.Got(l, "")
    ensures T.Lex(s) == Some([l])
  {
    T.NothingToLex();
    hide T.NextLexeme;
    assert T.Lex("") == Some([]) && [l] + [] == [l];
  }

  lemma LastLexeme(l: T.Lexeme)
    requires T.WellFormed(l)
    ensures T.Lex(T.Written(l)) == Some([l])
  {
    var s := T.Written(l);
    hide T.Lex;
    match l
    case Word(t) =>
      assert T.SkipSpace(s) == s && s[..|s|] == t && s[|s|..] == "";
      OneLexeme(s, l);
    case Quoted(t) =>
      T.LiteralBack(t, "");
      assert s + "" == s;
      OneLexeme(s, l);
    case Number(t, f) => LastNumber(t, f);
    case Sym(sym) =>
      assert T.SkipSpace(s) == s && s[|s|..] == "";
      OneLexeme(s, l);
  }

  lemma LastNumber(t: string, f: bool)
    requires T.WellFormed(T.Number(t, f))
    ensures T.Lex(t) == Some([T.Number(t, f)])
  {
    assert T.StartsNumber(t) && T.ReadNumber(t) == (T.Number(t, f), "");
    hide T.ReadNumber, T.WellFormed, T.ReadQuoted, T.ReadSymbol, T.Lex;
    assert T.SkipSpace(t) == t;
    OneLexeme(t, T.Number(t, f));
  }

  lemma {:induction false} SpacedIsLexed(ls: seq<T.Lexeme>)
    requires ls != [] && forall k :: 0 <= k < |ls| ==> T.WellFormed(ls[k])
    ensures T.Lex(Spaced(ls)) == Some(ls)
  {
    if |ls| == 1 {
      LastLexeme(ls[0]);
      assert ls == [ls[0]];
    } else {
      hide T.NextLexeme, T.Written, T.WellFormed, T.Lex;
      T.LexemeBack(ls[0], Spaced(ls[1..]));
      LexNext(Spaced(ls), T.Got(ls[0], " " + Spaced(ls[1..])));
      T.SpaceInFront(Spaced(ls[1..]));
      SpacedIsLexed(ls[1..]);
      assert ls == [ls[0]] + ls[1..];
    }
  }

  lemma Reads(ls: seq<T.Lexeme>, o: Or)
    requires ls != [] && (forall k :: 0 <= k < |ls| ==> T.WellFormed(ls[k])) && GoodOr(o) && YieldOr(o) == TokensOf(ls)
    ensures TreeOf(Spaced(ls)) == Some(o)
  {
    SpacedIsLexed(ls);
    BuildsTheTree(o);
  }

  /** The tree of a single comparison. */
  function Alone(c: Comparison): Or {
    Or(And(Plain(c), NoAnd), NoOr)
  }

  function Name(name: string): Primary { Literal(Ident(name)) }

  function IntTerm(n: int): Primary { Literal(IntLit(n)) }

  function WordL(t: string): T.Lexeme { T.Word(t) }

  function IntL(n: int): T.Lexeme { T.Number(DecimalText(n), false) }

  lemma NameToken(name: string)
    requires IsName(name)
    ensures T.WellFormed(WordL(name)) && TokenOf(WordL(name)) == Ident(name)
  {
    WordOfNameChars(name);
    assert 'a' <= name[0] <= 'z' || 'A' <= name[0] <= 'Z' || name[0] == '_';
  }

  lemma {:induction false} WordOfNameChars(t: string)
    requires forall k :: 0 <= k < |t| ==>
               'a' <= t[k] <= 'z' || 'A' <= t[k] <= 'Z' || '0' <= t[k] <= '9' || t[k] == '_' || t[k] == '.'
    ensures T.WordLength(t) == |t|
  {
    if t != "" {
      assert T.InWord(t[0]);
      WordOfNameChars(t[1..]);
    }
  }

  /** Blanks are spaces, tabs, line ends, vertical tabs and form feeds, and a text has no lexemes exactly if it is nothing else. */
  lemma {:induction false} BlankText(s: string)
    ensures T.Lex(s) == Some([]) <==> forall k :: 0 <= k < |s| ==> s[k] in " \t\n\U{b}\U{c}\r"
  {
    SkipsBlanks(s);
    var r := T.SkipSpace(s);
    if r == "" {
      assert T.NextLexeme(s) == T.End;
      assert T.Lex(s) == Some([]);
    } else {
      hide T.ReadNumber, T.ReadQuoted, T.ReadSymbol;
      match T.NextLexeme(s)
      case End =>
      case Bad =>
      case Got(l, rest) => assert T.Lex(s) != Some([]);
    }
  }

  lemma {:induction false} SkipsBlanks(s: string)
    ensures T.SkipSpace(s) == "" <==> forall k :: 0 <= k < |s| ==> s[k] in " \t\n\U{b}\U{c}\r"
  {
    if s != "" {
      SkipsBlanks(s[1..]);
      assert T.IsSpace(s[0]) <==> s[0] in " \t\n\U{b}\U{c}\r" by { BlankChar(s[0]); }
      assert forall k :: 1 <= k < |s| ==> s[k] == s[1..][k - 1];
    }
  }

  lemma BlankChar(c: char)
    ensures T.IsSpace(c) <==> c in " \t\n\U{b}\U{c}\r"
  {
    assert " \t\n\U{b}\U{c}\r" == [' ', '\t', '\n', '\U{b}', '\U{c}', '\r'];
    if '\t' <= c <= '\r' {
      assert c as int in {9, 10, 11, 12, 13};
    }
  }

  lemma {:induction false} WordOfLetters(t: string)
    requires forall k :: 0 <= k < |t| ==> 'A' <= t[k] <= 'Z'
    ensures T.WordLength(t) == |t| && UpperAll(t) == t
  {
    if t != "" {
      WordOfLetters(t[1..]);
      assert t == [t[0]] + t[1..];
    }
  }

  lemma UpperWord(t: string)
    requires t != "" && forall k :: 0 <= k < |t| ==> 'A' <= t[k] <= 'Z'
    ensures T.WellFormed(WordL(t)) && UpperAll(t) == t
  {
    WordOfLetters(t);
    assert 'A' <= t[0] <= 'Z';
  }

  /** The ten keywords. */
  lemma KeywordAnd()
    ensures T.WellFormed(WordL("AND")) && TokenOf(WordL("AND")) == AndTok
  {
    UpperWord("AND");
    hide UpperAll, T.WellFormed;
  }

  lemma KeywordOr()
    ensures T.WellFormed(WordL("OR")) && TokenOf(WordL("OR")) == OrTok
  {
    UpperWord("OR");
    hide UpperAll, T.WellFormed;
  }

  lemma KeywordNot()
    ensures T.WellFormed(WordL("NOT")) && TokenOf(WordL("NOT")) == NotTok
  {
    UpperWord("NOT");
    hide UpperAll, T.WellFormed;
  }

  lemma KeywordLike()
    ensures T.WellFormed(WordL("LIKE")) && TokenOf(WordL("LIKE")) == LikeTok
  {
    UpperWord("LIKE");
    hide UpperAll, T.WellFormed;
  }

  lemma KeywordBetween()
    ensures T.WellFormed(WordL("BETWEEN")) && TokenOf(WordL("BETWEEN")) == BetweenTok
  {
    UpperWord("BETWEEN");
    hide UpperAll, T.WellFormed;
  }

  lemma KeywordIn()
    ensures T.WellFormed(WordL("IN")) && TokenOf(WordL("IN")) == InTok
  {
    UpperWord("IN");
    hide UpperAll, T.WellFormed;
  }

  lemma KeywordIs()
    ensures T.WellFormed(WordL("IS")) && TokenOf(WordL("IS")) == IsTok
  {
    UpperWord("IS");
    hide UpperAll, T.WellFormed;
  }

  lemma KeywordTrue()
    ensures T.WellFormed(WordL("TRUE")) && TokenOf(WordL("TRUE")) == TrueLit
  {
    UpperWord("TRUE");
    hide UpperAll, T.WellFormed;
  }

  lemma KeywordFalse()
    ensures T.WellFormed(WordL("FALSE")) && TokenOf(WordL("FALSE")) == FalseLit
  {
    UpperWord("FALSE");
    hide UpperAll, T.WellFormed;
  }

  lemma KeywordNull()
    ensures T.WellFormed(WordL("NULL")) && TokenOf(WordL("NULL")) == NullLit
  {
    UpperWord("NULL");
    hide UpperAll, T.WellFormed;
  }

  lemma RelationYields(a: Token, op: Op, b: Token)
    requires IsLiteral(a) && IsLiteral(b)
    ensures var c := Relation(Literal(a), op, Literal(b)); YieldComparison(c) == [a, Rel(op), b] && GoodComparison(c)
  {
    var c := Relation(Literal(a), op, Literal(b));
    assert YieldPrimary(c.p) == [a] && YieldPrimary(c.right) == [b];
    assert YieldTail(c) == [Rel(op)] + [b];
    assert YieldSuffix(c) == [] + YieldTail(c);
  }

  /** A relation in text: name, symbol and number. */
  lemma RelationRead(name: string, sym: T.Symbol, op: Op, n: int)
    requires IsName(name) && SymbolToken(sym) == Rel(op)
    ensures TreeOf(name + (" " + (T.SymbolText(sym) + (" " + DecimalText(n))))) == Some(Alone(Relation(Name(name), op, IntTerm(n))))
  {
    NameToken(name);
    IntegerText(n);
    hide IsName, T.WellFormed, NumberValue, DecimalText, WordToken, TokenOf, T.SymbolText, TreeOf;
    var ls := [WordL(name), T.Sym(sym), IntL(n)];
    TokensAt(ls);
    SpacedOne(IntL(n));
    SpacedCons(T.Sym(sym), [IntL(n)]);
    SpacedCons(WordL(name), [T.Sym(sym)] + [IntL(n)]);
    assert ls == [WordL(name)] + ([T.Sym(sym)] + [IntL(n)]);
    hide Spaced, TokensOf;
    SymbolOk(sym);
    var c := Relation(Name(name), op, IntTerm(n));
    AloneYields(c);
    RelationYields(Ident(name), op, IntLit(n));
    Reads(ls, Alone(c));
  }

  lemma SymbolOk(sym: T.Symbol)
    ensures T.WellFormed(T.Sym(sym)) && TokenOf(T.Sym(sym)) == SymbolToken(sym)
  {
  }

  lemma {:induction false} TokensAt(ls: seq<T.Lexeme>)
    ensures forall k :: 0 <= k < |ls| ==> TokensOf(ls)[k] == TokenOf(ls[k])
  {
    hide TokenOf;
    if ls != [] {
      TokensAt(ls[1..]);
    }
  }

  lemma SpacedCons(l: T.Lexeme, ls: seq<T.Lexeme>)
    requires ls != []
    ensures Spaced([l] + ls) == T.Written(l) + (" " + Spaced(ls))
  {
    assert ([l] + ls)[1..] == ls;
  }

  lemma SpacedOne(l: T.Lexeme)
    ensures Spaced([l]) == T.Written(l)
  {
  }

  function RelationText(name: string, symbol: string, n: int): string {
    name + " " + symbol + " " + DecimalText(n)
  }

  /** What a relation between a property and an integer means, from its text on: the six symbols on all integers. */
  lemma RelationInText(name: string, n: int, m: Props, v: int)
    requires IsName(name) && name in m && m[name] == Int(v)
    ensures Accepts(RelationText(name, "=", n), m, v == n)
    ensures Accepts(RelationText(name, "<>", n), m, v != n)
    ensures Accepts(RelationText(name, "<", n), m, v < n)
    ensures Accepts(RelationText(name, "<=", n), m, v <= n)
    ensures Accepts(RelationText(name, ">", n), m, v > n)
    ensures Accepts(RelationText(name, ">=", n), m, v >= n)
  {
    hide Accepts, IsName, RelationText;
    RelationMeans(name, T.EqSym, Eq, "=", n, m, v);
    RelationMeans(name, T.NeqSym, Neq, "<>", n, m, v);
    RelationMeans(name, T.LtSym, Lt, "<", n, m, v);
    RelationMeans(name, T.LteSym, Lte, "<=", n, m, v);
    RelationMeans(name, T.GtSym, Gt, ">", n, m, v);
    RelationMeans(name, T.GteSym, Gte, ">=", n, m, v);
  }

  lemma AloneMeans(c: Comparison, m: Props)
    ensures MeanOr(Alone(c), m) == MeanComparison(c, m)
  {
    hide MeanComparison;
    assert MeanAnd(Alone(c).first, m) == MeanNot(Plain(c), m);
  }

  lemma AloneYields(c: Comparison)
    ensures YieldOr(Alone(c)) == YieldComparison(c) && (GoodOr(Alone(c)) <==> GoodComparison(c))
  {
    hide YieldComparison, GoodComparison;
    var a := Alone(c).first;
    assert YieldAndMore(NoAnd) == [] && YieldNot(Plain(c)) == YieldComparison(c);
    assert YieldAnd(a) == YieldComparison(c) + [] == YieldComparison(c);
    assert YieldOr(Alone(c)) == YieldAnd(a) + [] == YieldAnd(a);
    assert GoodAnd(a) <==> GoodComparison(c);
  }

  /** The text is a selector whose value on these properties is b. */
  predicate Accepts(text: string, m: Props, b: bool) {
    TreeOf(text).Some? && MeanOr(TreeOf(text).value, m) == Bool(b)
  }

  lemma RelationMeans(name: string, sym: T.Symbol, op: Op, symbol: string, n: int, m: Props, v: int)
    requires IsName(name) && name in m && m[name] == Int(v) && SymbolToken(sym) == Rel(op) && T.SymbolText(sym) == symbol
    ensures op == Eq ==> Accepts(RelationText(name, symbol, n), m, v == n)
    ensures op == Neq ==> Accepts(RelationText(name, symbol, n), m, v != n)
    ensures op == Lt ==> Accepts(RelationText(name, symbol, n), m, v < n)
    ensures op == Lte ==> Accepts(RelationText(name, symbol, n), m, v <= n)
    ensures op == Gt ==> Accepts(RelationText(name, symbol, n), m, v > n)
    ensures op == Gte ==> Accepts(RelationText(name, symbol, n), m, v >= n)
  {
    hide IsName, TreeOf, DecimalText, MeanOr;
    RelationRead(name, sym, op, n);
    AloneMeans(Relation(Name(name), op, IntTerm(n)), m);
    assert RelationText(name, symbol, n) == name + (" " + (T.SymbolText(sym) + (" " + DecimalText(n))));
    RelationOfInts(Name(name), op, IntTerm(n), m, v, n);
  }

  // ---- The other constructs in text ----

  /** A comparison in text: its lexemes are what it derives. */
  lemma ReadsAlone(ls: seq<T.Lexeme>, c: Comparison, m: Props)
    requires ls != [] && (forall k :: 0 <= k < |ls| ==> T.WellFormed(ls[k])) && GoodComparison(c) && YieldComparison(c) == TokensOf(ls)
    ensures TreeOf(Spaced(ls)) == Some(Alone(c)) && MeanOr(Alone(c), m) == MeanComparison(c, m)
  {
    hide TreeOf, T.WellFormed;
    AloneYields(c);
    AloneMeans(c, m);
    hide GoodComparison, YieldComparison;
    Reads(ls, Alone(c));
  }

  function NotWords(negated: bool): seq<T.Lexeme> {
    if negated then [WordL("NOT")] else []
  }

  lemma NotWordsRead(negated: bool)
    ensures TokensOf(NotWords(negated)) == MaybeNot(negated)
    ensures forall k :: 0 <= k < |NotWords(negated)| ==> T.WellFormed(NotWords(negated)[k])
  {
    KeywordNot();
    TokensAt(NotWords(negated));
    hide TokenOf, T.WellFormed;
  }

  lemma {:induction false} TokensJoin(a: seq<T.Lexeme>, b: seq<T.Lexeme>)
    ensures TokensOf(a + b) == TokensOf(a) + TokensOf(b)
  {
    hide TokenOf;
    if a == [] {
      assert a + b == b;
    } else {
      TokensJoin(a[1..], b);
      Seqs.Assoc([TokenOf(a[0])], TokensOf(a[1..]), TokensOf(b));
      assert (a + b)[1..] == a[1..] + b;
    }
  }

  /** A name, perhaps NOT, and the rest of a comparison. */
  lemma SuffixRead(name: string, negated: bool, tail: seq<T.Lexeme>, toks: seq<Token>, c: Comparison, m: Props)
    requires IsName(name) && tail != [] && (forall k :: 0 <= k < |tail| ==> T.WellFormed(tail[k])) && TokensOf(tail) == toks
    requires GoodComparison(c) && YieldComparison(c) == [Ident(name)] + MaybeNot(negated) + toks
    ensures TreeOf(Spaced([WordL(name)] + NotWords(negated) + tail)) == Some(Alone(c)) && MeanOr(Alone(c), m) == MeanComparison(c, m)
  {
    NameToken(name);
    hide IsName, T.WellFormed, TokenOf, TreeOf, MeanOr, YieldComparison, GoodComparison, MeanComparison, MaybeNot;
    NotWordsRead(negated);
    TokensAt([WordL(name)]);
    TokensJoin([WordL(name)] + NotWords(negated), tail);
    TokensJoin([WordL(name)], NotWords(negated));
    assert TokensOf([WordL(name)]) == [Ident(name)];
    hide TokensOf, NotWords;
    ReadsAlone([WordL(name)] + NotWords(negated) + tail, c, m);
  }

  /** name BETWEEN a AND b, and the same with NOT before BETWEEN. */
  lemma BetweenInText(name: string, negated: bool, a: int, b: int, m: Props, v: int)
    requires IsName(name) && name in m && m[name] == Int(v)
    ensures var ls := [WordL(name)] + NotWords(negated) + [WordL("BETWEEN"), IntL(a), WordL("AND"), IntL(b)];
      Accepts(Spaced(ls), m, (a <= v <= b) != negated)
  {
    var tail := [WordL("BETWEEN"), IntL(a), WordL("AND"), IntL(b)];
    var c := Between(Name(name), negated, IntTerm(a), IntTerm(b));
    BetweenNumbers(Name(name), negated, IntTerm(a), IntTerm(b), m, v as real, a as real, b as real);
    BetweenTokens(a, b);
    BetweenYields(name, negated, a, b);
    hide IsName, T.WellFormed, TokenOf, TreeOf, MeanOr, MeanComparison, DecimalText, TokensOf, YieldComparison, GoodComparison, Spaced;
    SuffixRead(name, negated, tail, [BetweenTok, IntLit(a), AndTok, IntLit(b)], c, m);
  }

  lemma BetweenTokens(a: int, b: int)
    ensures var tail := [WordL("BETWEEN"), IntL(a), WordL("AND"), IntL(b)];
      (forall k :: 0 <= k < |tail| ==> T.WellFormed(tail[k])) && TokensOf(tail) == [BetweenTok, IntLit(a), AndTok, IntLit(b)]
  {
    KeywordBetween();
    KeywordAnd();
    IntegerText(a);
    IntegerText(b);
    hide T.WellFormed, TokenOf, DecimalText;
    TokensAt([WordL("BETWEEN"), IntL(a), WordL("AND"), IntL(b)]);
  }

  lemma BetweenYields(name: string, negated: bool, a: int, b: int)
    ensures var c := Between(Name(name), negated, IntTerm(a), IntTerm(b));
      GoodComparison(c) && YieldComparison(c) == [Ident(name)] + MaybeNot(negated) + [BetweenTok, IntLit(a), AndTok, IntLit(b)]
  {
    var c := Between(Name(name), negated, IntTerm(a), IntTerm(b));
    assert YieldPrimary(c.p) == [Ident(name)] && YieldPrimary(c.low) == [IntLit(a)] && YieldPrimary(c.high) == [IntLit(b)];
    assert YieldTail(c) == [BetweenTok] + ([IntLit(a)] + ([AndTok] + [IntLit(b)]));
    assert YieldSuffix(c) == MaybeNot(negated) + YieldTail(c);
    assert YieldComparison(c) == [Ident(name)] + YieldSuffix(c);
  }

  /** name IN ( 'a' , 'b' ): any texts, quotes doubled. */
  lemma InInText(name: string, negated: bool, a: string, b: string, m: Props, v: string)
    requires IsName(name) && name in m && m[name] == Text(v)
    ensures var ls := [WordL(name)] + NotWords(negated)
                      + [WordL("IN"), T.Sym(T.Open), T.Quoted(a), T.Sym(T.CommaSym), T.Quoted(b), T.Sym(T.Close)];
      Accepts(Spaced(ls), m, (v == a || v == b) != negated)
  {
    var tail := [WordL("IN"), T.Sym(T.Open), T.Quoted(a), T.Sym(T.CommaSym), T.Quoted(b), T.Sym(T.Close)];
    var toks := [InTok, LParen, Str(a), Comma, Str(b), RParen];
    var c := In(Name(name), negated, Literal(Str(a)), Item(Literal(Str(b)), NoItem));
    InTokens(a, b);
    InTexts(Name(name), negated, c.first, c.more, m, v, [a, b]);
    InYields(name, negated, a, b);
    hide IsName, T.WellFormed, TokenOf, TreeOf, MeanOr, MeanComparison, TokensOf, YieldComparison, GoodComparison, Spaced;
    SuffixRead(name, negated, tail, toks, c, m);
  }

  lemma InTokens(a: string, b: string)
    ensures var tail := [WordL("IN"), T.Sym(T.Open), T.Quoted(a), T.Sym(T.CommaSym), T.Quoted(b), T.Sym(T.Close)];
      (forall k :: 0 <= k < |tail| ==> T.WellFormed(tail[k])) && TokensOf(tail) == [InTok, LParen, Str(a), Comma, Str(b), RParen]
  {
    KeywordIn();
    QuotedToken(a);
    QuotedToken(b);
    SymbolOk(T.Open);
    SymbolOk(T.CommaSym);
    SymbolOk(T.Close);
    hide T.WellFormed, TokenOf;
    TokensAt([WordL("IN"), T.Sym(T.Open), T.Quoted(a), T.Sym(T.CommaSym), T.Quoted(b), T.Sym(T.Close)]);
  }

  lemma QuotedToken(t: string)
    ensures T.WellFormed(T.Quoted(t)) && TokenOf(T.Quoted(t)) == Str(t)
  {
  }

  lemma InYields(name: string, negated: bool, a: string, b: string)
    ensures var c := In(Name(name), negated, Literal(Str(a)), Item(Literal(Str(b)), NoItem));
      GoodComparison(c) && YieldComparison(c) == [Ident(name)] + MaybeNot(negated) + [InTok, LParen, Str(a), Comma, Str(b), RParen]
  {
    var c := In(Name(name), negated, Literal(Str(a)), Item(Literal(Str(b)), NoItem));
    assert YieldPrimary(c.p) == [Ident(name)] && YieldPrimary(c.first) == [Str(a)] && YieldPrimary(c.more.next) == [Str(b)];
    assert YieldItems(NoItem) == [] && GoodItems(NoItem);
    assert YieldItems(c.more) == [Comma] + ([Str(b)] + []);
    assert YieldTail(c) == [InTok, LParen] + ([Str(a)] + (YieldItems(c.more) + [RParen]));
    assert YieldSuffix(c) == MaybeNot(negated) + YieldTail(c);
    assert YieldComparison(c) == [Ident(name)] + YieldSuffix(c);
  }

  /** name IS NULL and name IS NOT NULL. */
  lemma NullInText(name: string, negated: bool, m: Props)
    requires IsName(name)
    ensures var ls := [WordL(name), WordL("IS")] + NotWords(negated) + [WordL("NULL")];
      Accepts(Spaced(ls), m, (name !in m || m[name] == Null) != negated)
  {
    NameToken(name);
    hide IsName, T.WellFormed, TokenOf, TreeOf, MeanOr;
    KeywordIs();
    KeywordNull();
    NotWordsRead(negated);
    var front := [WordL(name), WordL("IS")];
    var ls := front + NotWords(negated) + [WordL("NULL")];
    TokensAt(front);
    TokensAt([WordL("NULL")]);
    TokensJoin(front + NotWords(negated), [WordL("NULL")]);
    TokensJoin(front, NotWords(negated));
    var c := IsNull(Name(name), negated);
    assert YieldPrimary(c.p) == [Ident(name)];
    assert YieldComparison(c) == [Ident(name)] + ([IsTok] + MaybeNot(negated) + [NullLit]);
    assert TokensOf(front) == [Ident(name), IsTok] && TokensOf([WordL("NULL")]) == [NullLit];
    assert TokensOf(ls) == [Ident(name), IsTok] + MaybeNot(negated) + [NullLit];
    ReadsAlone(ls, c, m);
    AbsentIsNull(name, negated, m);
  }

  /** name = 'text', quotes doubled. */
  lemma TextInText(name: string, t: string, m: Props, v: string)
    requires IsName(name) && name in m && m[name] == Text(v)
    ensures Accepts(Spaced([WordL(name), T.Sym(T.EqSym), T.Quoted(t)]), m, v == t)
  {
    NameToken(name);
    QuotedToken(t);
    EqualsInText(name, T.Quoted(t), Str(t), m);
    hide TreeOf, MeanOr, IsName;
    RelationOfTexts(Name(name), Eq, Literal(Str(t)), m, v, t);
  }

  /** name = TRUE and name = FALSE. */
  lemma TruthInText(name: string, b: bool, m: Props, v: bool)
    requires IsName(name) && name in m && m[name] == Bool(v)
    ensures Accepts(Spaced([WordL(name), T.Sym(T.EqSym), WordL(if b then "TRUE" else "FALSE")]), m, v == b)
  {
    hide TreeOf, MeanOr, IsName, T.WellFormed, TokenOf;
    KeywordTrue();
    KeywordFalse();
    var tok := if b then TrueLit else FalseLit;
    EqualsInText(name, WordL(if b then "TRUE" else "FALSE"), tok, m);
    RelationOfBools(Name(name), Eq, Literal(tok), m, v, b);
  }

  lemma EqualsInText(name: string, l: T.Lexeme, tok: Token, m: Props)
    requires IsName(name) && T.WellFormed(l) && TokenOf(l) == tok && IsLiteral(tok)
    ensures var c := Relation(Name(name), Eq, Literal(tok));
      TreeOf(Spaced([WordL(name), T.Sym(T.EqSym), l])) == Some(Alone(c)) && MeanOr(Alone(c), m) == MeanComparison(c, m)
  {
    NameToken(name);
    SymbolOk(T.EqSym);
    hide IsName, T.WellFormed, TokenOf, TreeOf, MeanOr;
    var ls := [WordL(name), T.Sym(T.EqSym), l];
    TokensAt(ls);
    RelationYields(Ident(name), Eq, tok);
    ReadsAlone(ls, Relation(Name(name), Eq, Literal(tok)), m);
  }

  /** name LIKE 'pattern', on a text without line ends. */
  lemma LikeInText(name: string, negated: bool, pattern: string, m: Props, v: string)
    requires IsName(name) && name in m && m[name] == Text(v) && NoLineEnd(v)
    ensures var ls := [WordL(name)] + NotWords(negated) + [WordL("LIKE"), T.Quoted(pattern)];
      Accepts(Spaced(ls), m, LikeMatch(pattern, v) != negated)
  {
    var tail, c := [WordL("LIKE"), T.Quoted(pattern)], Like(Name(name), negated, pattern);
    KeywordLike();
    QuotedToken(pattern);
    RegexVersusLike(pattern, v);
    hide IsName, T.WellFormed, TokenOf, TreeOf, MeanOr, RegexMatch, LikeMatch;
    TokensAt(tail);
    assert TokensOf(tail) == [LikeTok, Str(pattern)];
    assert YieldPrimary(c.p) == [Ident(name)];
    assert YieldSuffix(c) == MaybeNot(negated) + [LikeTok, Str(pattern)];
    assert YieldComparison(c) == [Ident(name)] + YieldSuffix(c);
    SuffixRead(name, negated, tail, [LikeTok, Str(pattern)], c, m);
  }

  /** Lexemes that spell a comparison. */
  ghost predicate Spells(ls: seq<T.Lexeme>, c: Comparison) {
    && ls != [] && (forall k :: 0 <= k < |ls| ==> T.WellFormed(ls[k]))
    && GoodComparison(c) && YieldComparison(c) == TokensOf(ls)
  }

  /** A comparison, AND, and another: both must hold. */
  lemma AndInText(ls: seq<T.Lexeme>, c: Comparison, ls': seq<T.Lexeme>, c': Comparison, m: Props, b: bool, b': bool)
    requires Spells(ls, c) && Spells(ls', c') && MeanComparison(c, m) == Bool(b) && MeanComparison(c', m) == Bool(b')
    ensures Accepts(Spaced(ls + [WordL("AND")] + ls'), m, b && b')
  {
    var a := And(Plain(c), AndThen(Plain(c'), NoAnd));
    KeywordAnd();
    JoinedTokens(ls, WordL("AND"), ls');
    TwoYield(c, c');
    hide T.WellFormed, TokenOf, MeanComparison, GoodComparison, YieldComparison, YieldOr, GoodOr, TreeOf;
    ReadsJoined(ls, WordL("AND"), ls', Or(a, NoOr));
    TwoMean(c, c', m);
  }

  lemma TwoYield(c: Comparison, c': Comparison)
    requires GoodComparison(c) && GoodComparison(c')
    ensures var o := Or(And(Plain(c), AndThen(Plain(c'), NoAnd)), NoOr);
      GoodOr(o) && YieldOr(o) == YieldComparison(c) + [AndTok] + YieldComparison(c')
  {
    hide GoodComparison, YieldComparison;
    var a := And(Plain(c), AndThen(Plain(c'), NoAnd));
    assert YieldAndMore(NoAnd) == [] && YieldNot(Plain(c')) == YieldComparison(c') && YieldNot(Plain(c)) == YieldComparison(c);
    assert YieldAndMore(a.more) == [AndTok] + YieldComparison(c') + [];
    assert YieldAnd(a) == YieldComparison(c) + YieldAndMore(a.more);
    assert YieldOr(Or(a, NoOr)) == YieldAnd(a) + [];
    assert GoodNot(Plain(c)) && GoodNot(Plain(c')) && GoodAndMore(NoAnd);
    assert GoodAndMore(a.more);
    assert GoodAnd(a);
  }

  lemma TwoMean(c: Comparison, c': Comparison, m: Props)
    requires MeanComparison(c, m).Bool? && MeanComparison(c', m).Bool?
    ensures MeanOr(Or(And(Plain(c), AndThen(Plain(c'), NoAnd)), NoOr), m) == Bool(MeanComparison(c, m).b && MeanComparison(c', m).b)
  {
    hide MeanComparison;
    var a := And(Plain(c), AndThen(Plain(c'), NoAnd));
    assert MeanNot(Plain(c), m) == MeanComparison(c, m) && MeanNot(Plain(c'), m) == MeanComparison(c', m);
    assert AndOperands(a) == [Plain(c)] + ([Plain(c')] + MoreAnd(NoAnd)) == [Plain(c), Plain(c')];
    BothTruths(a, m, Plain(c), Plain(c'));
    assert MeanOr(Or(a, NoOr), m) == MeanAnd(a, m);
  }

  lemma BothTruths(a: And, m: Props, x: Not, y: Not)
    requires AndOperands(a) == [x, y] && MeanNot(x, m).Bool? && MeanNot(y, m).Bool?
    ensures MeanAnd(a, m) == Bool(MeanNot(x, m).b && MeanNot(y, m).b)
  {
    AndOfOperands(a, m);
    hide MeanNot, MeanAnd;
    assert AndOperands(a)[0] == x && AndOperands(a)[1] == y;
  }

  /** A comparison, OR, and another: one must hold. */
  lemma OrInText(ls: seq<T.Lexeme>, c: Comparison, ls': seq<T.Lexeme>, c': Comparison, m: Props, b: bool, b': bool)
    requires Spells(ls, c) && Spells(ls', c') && MeanComparison(c, m) == Bool(b) && MeanComparison(c', m) == Bool(b')
    ensures Accepts(Spaced(ls + [WordL("OR")] + ls'), m, b || b')
  {
    KeywordOr();
    JoinedTokens(ls, WordL("OR"), ls');
    EitherYields(c, c');
    EitherMeans(c, c', m);
    hide T.WellFormed, TokenOf, MeanComparison, GoodComparison, YieldComparison, MeanOr, YieldOr, GoodOr;
    ReadsJoined(ls, WordL("OR"), ls', Either(c, c'));
  }

  function Either(c: Comparison, c': Comparison): Or {
    Or(Alone(c).first, OrThen(Alone(c').first, NoOr))
  }

  lemma EitherYields(c: Comparison, c': Comparison)
    requires GoodComparison(c) && GoodComparison(c')
    ensures GoodOr(Either(c, c')) && YieldOr(Either(c, c')) == YieldComparison(c) + [OrTok] + YieldComparison(c')
  {
    var x, y, o := Alone(c).first, Alone(c').first, Either(c, c');
    AloneYields(c);
    AloneYields(c');
    hide GoodComparison, YieldComparison, YieldAnd, GoodAnd;
    assert YieldOrMore(NoOr) == [] && YieldOr(Alone(c)) == YieldAnd(x) + [] && YieldOr(Alone(c')) == YieldAnd(y) + [];
    assert YieldOrMore(o.more) == [OrTok] + YieldAnd(y) + [];
    assert GoodOrMore(NoOr) && GoodOrMore(o.more);
  }

  lemma EitherMeans(c: Comparison, c': Comparison, m: Props)
    requires MeanComparison(c, m).Bool? && MeanComparison(c', m).Bool?
    ensures MeanOr(Either(c, c'), m) == Bool(MeanComparison(c, m).b || MeanComparison(c', m).b)
  {
    var x, y, o := Alone(c).first, Alone(c').first, Either(c, c');
    AloneMeans(c, m);
    AloneMeans(c', m);
    hide MeanComparison, MeanAnd;
    assert OrOperands(o) == [x] + ([y] + MoreOr(NoOr)) == [x, y];
    EitherTruth(o, m, x, y);
  }

  lemma EitherTruth(o: Or, m: Props, x: And, y: And)
    requires OrOperands(o) == [x, y] && MeanAnd(x, m).Bool? && MeanAnd(y, m).Bool?
    ensures MeanOr(o, m) == Bool(MeanAnd(x, m).b || MeanAnd(y, m).b)
  {
    OrOfOperands(o, m);
    hide MeanOr, MeanAnd;
    assert OrOperands(o)[0] == x && OrOperands(o)[1] == y;
  }

  /** NOT and a comparison. */
  lemma NotInText(ls: seq<T.Lexeme>, c: Comparison, m: Props, b: bool)
    requires Spells(ls, c) && MeanComparison(c, m) == Bool(b)
    ensures Accepts(Spaced([WordL("NOT")] + ls), m, !b)
  {
    var a := And(Not.Not(Plain(c)), NoAnd);
    var o := Or(a, NoOr);
    KeywordNot();
    TokensAt([WordL("NOT")]);
    TokensJoin([WordL("NOT")], ls);
    hide T.WellFormed, TokenOf, MeanComparison, GoodComparison, YieldComparison, TreeOf;
    assert YieldNot(a.first) == [NotTok] + YieldNot(Plain(c)) && YieldNot(Plain(c)) == YieldComparison(c);
    assert YieldAnd(a) == YieldNot(a.first) + [] && YieldOr(o) == YieldAnd(a) + [];
    assert GoodNot(Plain(c));
    assert GoodNot(a.first);
    assert GoodAnd(a);
    assert TokensOf([WordL("NOT")]) == [NotTok];
    Reads([WordL("NOT")] + ls, o);
    assert MeanNot(Plain(c), m) == Bool(b);
    NotOfOperand(Plain(c), m);
    assert MeanOr(o, m) == MeanAnd(a, m) == MeanNot(a.first, m);
  }

  lemma JoinedTokens(ls: seq<T.Lexeme>, l: T.Lexeme, ls': seq<T.Lexeme>)
    ensures TokensOf(ls + [l] + ls') == TokensOf(ls) + [TokenOf(l)] + TokensOf(ls')
  {
    hide TokenOf;
    TokensSnoc(ls, l);
    TokensJoin(ls + [l], ls');
  }

  lemma ReadsJoined(ls: seq<T.Lexeme>, l: T.Lexeme, ls': seq<T.Lexeme>, o: Or)
    requires (forall k :: 0 <= k < |ls| ==> T.WellFormed(ls[k])) && (forall k :: 0 <= k < |ls'| ==> T.WellFormed(ls'[k]))
    requires T.WellFormed(l) && GoodOr(o) && YieldOr(o) == TokensOf(ls + [l] + ls')
    ensures TreeOf(Spaced(ls + [l] + ls')) == Some(o)
  {
    hide T.WellFormed, TokensOf, YieldOr, GoodOr, TreeOf, Spaced;
    Reads(ls + [l] + ls', o);
  }

  predicate PlainPattern(w: string) {
    '%' !in w && '_' !in w
  }

  /** Without wildcards a pattern stands for itself; a percent sign behind it for any end, before it for any start; an underscore for one character. */
  lemma {:induction false} LikeLaws(w: string, t: string)
    requires PlainPattern(w)
    ensures LikeMatch(w, t) <==> t == w
    ensures LikeMatch(w + "%", t) <==> w <= t
    ensures LikeMatch(w + "_", t) <==> w <= t && |t| == |w| + 1
  {
    if w == "" {
      assert w + "%" == "%" && w + "_" == "_";
      assert "%"[1..] == "" && "_"[1..] == "";
      assert LikeMatch("", t[|t|..]);
      assert LikeMatch("%", t);
      assert t != "" ==> (LikeMatch("", t[1..]) <==> t[1..] == "");
    } else {
      assert (w + "%")[1..] == w[1..] + "%" && (w + "_")[1..] == w[1..] + "_" && w[0] != '%' && w[0] != '_';
      assert PlainPattern(w[1..]);
      if t != "" {
        LikeLaws(w[1..], t[1..]);
        assert t == [t[0]] + t[1..] && w == [w[0]] + w[1..];
        assert w <= t <==> w[0] == t[0] && w[1..] <= t[1..];
      }
    }
  }

  lemma LikeEnding(w: string, t: string)
    requires PlainPattern(w)
    ensures LikeMatch("%" + w, t) <==> |w| <= |t| && t[|t| - |w|..] == w
  {
    assert ("%" + w)[1..] == w;
    forall k | 0 <= k <= |t| ensures LikeMatch(w, t[k..]) <==> t[k..] == w {
      LikeLaws(w, t[k..]);
    }
    if |w| <= |t| {
      assert LikeMatch(w, t[|t| - |w|..]) <==> t[|t| - |w|..] == w;
    }
  }

  // ---- LIKE against line ends, in characters ----

  /** The translated "%" matches exactly the texts without line feed and carriage return. */
  lemma {:induction false} AnyText(t: string)
    ensures RegexMatch(AtomsOf("%"), t) <==> forall k :: 0 <= k < |t| ==> t[k] != '\n' && t[k] != '\r'
  {
    assert "%"[1..] == "" && AtomsOf("") == [] && AtomsOf("%") == [DotStar];
    assert forall k :: 0 <= k <= |t| ==> (RegexMatch([DotStar][1..], t[k..]) <==> k == |t|);
    assert t[..|t|] == t && t[|t|..] == "";
  }

  /** The translated "_" matches exactly the texts of one other character. */
  lemma AnyCharacter(t: string)
    ensures RegexMatch(AtomsOf("_"), t) <==> |t| == 1 && t[0] != '\n' && t[0] != '\r'
  {
    assert "_"[1..] == "" && AtomsOf("") == [] && AtomsOf("_") == [Dot];
    assert t != "" ==> (RegexMatch([Dot][1..], t[1..]) <==> |t| == 1);
  }

  /** How a character of a pattern is spelled in the expression: every character that means something there is escaped. */
  lemma Spelling(c: char)
    ensures RegexBody([c]) ==
      if c == '%' then ".*" else if c == '_' then "." else if c in ".^$*+?()[]{}|\\" then "\\" + [c] else [c]
  {
    var r := RegexBody([c]);
    assert [c][1..] == "" && r == RegexChar(c) + "" == RegexChar(c);
    assert ".^$*+?()[]{}|\\" == ['.', '^', '$', '*', '+', '?', '(', ')', '[', ']', '{', '}', '|', '\\'];
    assert "\\" + [c] == ['\\', c];
  }
}
