/**
 Selector expressions: tokens, the derivation trees of the grammar, and the recursive-descent parser as
 functions on the tokens still to be read.
 */
module SelectorSyntax {
  import opened Options
  import Seqs

  datatype Op = Eq | Neq | Lt | Lte | Gt | Gte

  datatype Token =
    | Ident(name: string) | Str(text: string) | IntLit(i: int) | FloatLit(r: real)
    | TrueLit | FalseLit | NullLit
    | AndTok | OrTok | NotTok | LikeTok | BetweenTok | InTok | IsTok
    | Rel(op: Op) | LParen | RParen | Comma

  // ---- Derivation trees: one constructor for each alternative of the grammar ----

  datatype Or = Or(first: And, more: OrMore)
  datatype OrMore = NoOr | OrThen(next: And, more: OrMore)
  datatype And = And(first: Not, more: AndMore)
  datatype AndMore = NoAnd | AndThen(next: Not, more: AndMore)
  datatype Not = Not(e: Not) | Plain(c: Comparison)
  datatype Comparison =
    | Just(p: Primary)
    | IsNull(p: Primary, negated: bool)
    | Between(p: Primary, negated: bool, low: Primary, high: Primary)
    | In(p: Primary, negated: bool, first: Primary, more: Items)
    | Like(p: Primary, negated: bool, pattern: string)
    | Relation(p: Primary, op: Op, right: Primary)
  datatype Items = NoItem | Item(next: Primary, more: Items)
  datatype Primary = Paren(e: Or) | Literal(token: Token)

  /** The tokens that stand for themselves in a primary. */
  predicate IsLiteral(t: Token) {
    t.Ident? || t.Str? || t.IntLit? || t.FloatLit? || t.TrueLit? || t.FalseLit? || t.NullLit?
  }

  // ---- The tokens that a tree derives ----

  function YieldOr(o: Or): seq<Token> {
    YieldAnd(o.first) + YieldOrMore(o.more)
  }

  function YieldOrMore(m: OrMore): seq<Token> {
    if m.NoOr? then [] else [OrTok] + YieldAnd(m.next) + YieldOrMore(m.more)
  }

  function YieldAnd(a: And): seq<Token> {
    YieldNot(a.first) + YieldAndMore(a.more)
  }

  function YieldAndMore(m: AndMore): seq<Token> {
    if m.NoAnd? then [] else [AndTok] + YieldNot(m.next) + YieldAndMore(m.more)
  }

  function YieldNot(n: Not): seq<Token> {
    match n
    case Not(e) => [NotTok] + YieldNot(e)
    case Plain(c) => YieldComparison(c)
  }

  function MaybeNot(negated: bool): seq<Token> {
    if negated then [NotTok] else []
  }

  function YieldComparison(c: Comparison): seq<Token>
    decreases c, 2
  {
    YieldPrimary(c.p) + YieldSuffix(c)
  }

  /** What a comparison derives behind its first primary. */
  function YieldSuffix(c: Comparison): seq<Token>
    decreases c, 1
  {
    if c.IsNull? then [IsTok] + MaybeNot(c.negated) + [NullLit]
    else MaybeNot(Negated(c)) + YieldTail(c)
  }

  predicate Negated(c: Comparison) {
    (c.Between? || c.In? || c.Like?) && c.negated
  }

  /** The same behind the optional NOT. */
  function YieldTail(c: Comparison): seq<Token>
    decreases c, 0
  {
    match c
    case Between(_, _, low, high) => [BetweenTok] + (YieldPrimary(low) + ([AndTok] + YieldPrimary(high)))
    case In(_, _, first, more) => [InTok, LParen] + (YieldPrimary(first) + (YieldItems(more) + [RParen]))
    case Like(_, _, pattern) => [LikeTok, Str(pattern)]
    case Relation(_, op, right) => [Rel(op)] + YieldPrimary(right)
    case _ => []
  }

  function YieldItems(m: Items): seq<Token> {
    if m.NoItem? then [] else [Comma] + (YieldPrimary(m.next) + YieldItems(m.more))
  }

  function YieldPrimary(p: Primary): seq<Token> {
    match p
    case Paren(e) => [LParen] + YieldOr(e) + [RParen]
    case Literal(t) => [t]
  }

  /** The grammar's own condition: the leaves are literals. */
  predicate GoodOr(o: Or) {
    GoodAnd(o.first) && GoodOrMore(o.more)
  }

  predicate GoodOrMore(m: OrMore) {
    m.NoOr? || (GoodAnd(m.next) && GoodOrMore(m.more))
  }

  predicate GoodAnd(a: And) {
    GoodNot(a.first) && GoodAndMore(a.more)
  }

  predicate GoodAndMore(m: AndMore) {
    m.NoAnd? || (GoodNot(m.next) && GoodAndMore(m.more))
  }

  predicate GoodNot(n: Not) {
    match n
    case Not(e) => GoodNot(e)
    case Plain(c) => GoodComparison(c)
  }

  predicate GoodComparison(c: Comparison) {
    GoodPrimary(c.p) &&
    match c
    case Between(_, _, low, high) => GoodPrimary(low) && GoodPrimary(high)
    case In(_, _, first, more) => GoodPrimary(first) && GoodItems(more)
    case Relation(_, _, right) => GoodPrimary(right)
    case _ => true
  }

  predicate GoodItems(m: Items) {
    m.NoItem? || (GoodPrimary(m.next) && GoodItems(m.more))
  }

  predicate GoodPrimary(p: Primary) {
    match p
    case Paren(e) => GoodOr(e)
    case Literal(t) => IsLiteral(t)
  }

  // ---- The parser ----

  /** A tree and the tokens behind it; None where the parser throws. */
  type Parsed<T> = Option<(T, seq<Token>)>

  predicate Next(ts: seq<Token>, t: Token) {
    ts != [] && ts[0] == t
  }

  function ParseOr(ts: seq<Token>): (r: Parsed<Or>)
    ensures r.Some? ==> |r.value.1| < |ts|
    decreases |ts|, 6
  {
    match ParseAnd(ts)
    case None => None
    case Some((a, ts1)) =>
      match ParseOrMore(ts1)
      case None => None
      case Some((m, ts2)) => Some((Or(a, m), ts2))
  }

  function ParseOrMore(ts: seq<Token>): (r: Parsed<OrMore>)
    ensures r.Some? ==> |r.value.1| <= |ts|
    decreases |ts|, 5
  {
    if !Next(ts, OrTok) then Some((NoOr, ts))
    else
      match ParseAnd(ts[1..])
      case None => None
      case Some((a, ts1)) =>
        match ParseOrMore(ts1)
        case None => None
        case Some((m, ts2)) => Some((OrThen(a, m), ts2))
  }

  function ParseAnd(ts: seq<Token>): (r: Parsed<And>)
    ensures r.Some? ==> |r.value.1| < |ts|
    decreases |ts|, 4
  {
    match ParseNot(ts)
    case None => None
    case Some((n, ts1)) =>
      match ParseAndMore(ts1)
      case None => None
      case Some((m, ts2)) => Some((And(n, m), ts2))
  }

  function ParseAndMore(ts: seq<Token>): (r: Parsed<AndMore>)
    ensures r.Some? ==> |r.value.1| <= |ts|
    decreases |ts|, 3
  {
    if !Next(ts, AndTok) then Some((NoAnd, ts))
    else
      match ParseNot(ts[1..])
      case None => None
      case Some((n, ts1)) =>
        match ParseAndMore(ts1)
        case None => None
        case Some((m, ts2)) => Some((AndThen(n, m), ts2))
  }

  function ParseNot(ts: seq<Token>): (r: Parsed<Not>)
    ensures r.Some? ==> |r.value.1| < |ts|
    decreases |ts|, 2
  {
    if Next(ts, NotTok) then
      match ParseNot(ts[1..])
      case None => None
      case Some((n, ts1)) => Some((Not(n), ts1))
    else
      match ParseComparison(ts)
      case None => None
      case Some((c, ts1)) => Some((Plain(c), ts1))
  }

  function ParseComparison(ts: seq<Token>): (r: Parsed<Comparison>)
    ensures r.Some? ==> |r.value.1| < |ts|
    decreases |ts|, 1
  {
    match ParsePrimary(ts)
    case None => None
    case Some((p, ts1)) =>
      if Next(ts1, IsTok) then
        var negated := Next(ts1[1..], NotTok);
        var ts2 := if negated then ts1[2..] else ts1[1..];
        if Next(ts2, NullLit) then Some((IsNull(p, negated), ts2[1..])) else None
      else
        var negated := Next(ts1, NotTok);
        ParseSuffix(p, negated, if negated then ts1[1..] else ts1)
  }

  /** What may follow a primary and an optional NOT. */
  function ParseSuffix(p: Primary, negated: bool, ts: seq<Token>): (r: Parsed<Comparison>)
    ensures r.Some? ==> |r.value.1| <= |ts|
    decreases |ts|, 1
  {
    if Next(ts, BetweenTok) then
      match ParsePrimary(ts[1..])
      case None => None
      case Some((low, ts1)) =>
        if !Next(ts1, AndTok) then None
        else
          match ParsePrimary(ts1[1..])
          case None => None
          case Some((high, ts2)) => Some((Between(p, negated, low, high), ts2))
    else if Next(ts, InTok) then
      if !Next(ts[1..], LParen) then None
      else
        match ParsePrimary(ts[2..])
        case None => None
        case Some((first, ts1)) =>
          match ParseItems(ts1)
          case None => None
          case Some((more, ts2)) =>
            if Next(ts2, RParen) then Some((In(p, negated, first, more), ts2[1..])) else None
    else if Next(ts, LikeTok) then
      if |ts| > 1 && ts[1].Str? then Some((Like(p, negated, ts[1].text), ts[2..])) else None
    else if negated then None
    else if ts != [] && ts[0].Rel? then
      match ParsePrimary(ts[1..])
      case None => None
      case Some((right, ts1)) => Some((Relation(p, ts[0].op, right), ts1))
    else Some((Just(p), ts))
  }

  function ParseItems(ts: seq<Token>): (r: Parsed<Items>)
    ensures r.Some? ==> |r.value.1| <= |ts|
    decreases |ts|, 1
  {
    if !Next(ts, Comma) then Some((NoItem, ts))
    else
      match ParsePrimary(ts[1..])
      case None => None
      case Some((p, ts1)) =>
        match ParseItems(ts1)
        case None => None
        case Some((m, ts2)) => Some((Item(p, m), ts2))
  }

  function ParsePrimary(ts: seq<Token>): (r: Parsed<Primary>)
    ensures r.Some? ==> |r.value.1| < |ts|
    decreases |ts|, 0
  {
    if Next(ts, LParen) then
      match ParseOr(ts[1..])
      case None => None
      case Some((e, ts1)) => if Next(ts1, RParen) then Some((Paren(e), ts1[1..])) else None
    else if ts != [] && IsLiteral(ts[0]) then Some((Literal(ts[0]), ts[1..]))
    else None
  }

  /** The whole input must be used up. */
  function ParseExpression(ts: seq<Token>): Option<Or> {
    match ParseOr(ts)
    case None => None
    case Some((e, rest)) => if rest == [] then Some(e) else None
  }

  // ---- What the parser accepts is derived by the tree it builds ----

  lemma {:induction false} OrSound(ts: seq<Token>)
    requires ParseOr(ts).Some?
    ensures GoodOr(ParseOr(ts).value.0) && ts == YieldOr(ParseOr(ts).value.0) + ParseOr(ts).value.1
    decreases |ts|, 6
  {
    AndSound(ts);
    OrMoreSound(ParseAnd(ts).value.1);
  }

  lemma {:induction false} OrMoreSound(ts: seq<Token>)
    requires ParseOrMore(ts).Some?
    ensures GoodOrMore(ParseOrMore(ts).value.0) && ts == YieldOrMore(ParseOrMore(ts).value.0) + ParseOrMore(ts).value.1
    decreases |ts|, 5
  {
    hide YieldAnd, GoodAnd, ParseAnd;
    if Next(ts, OrTok) {
      AndSound(ts[1..]);
      var (a, ts1) := ParseAnd(ts[1..]).value;
      OrMoreSound(ts1);
      assert ts == [OrTok] + ts[1..];
      Seqs.Chain2([OrTok], YieldAnd(a), ts1);
      Seqs.Chain2([OrTok] + YieldAnd(a), YieldOrMore(ParseOrMore(ts1).value.0), ParseOrMore(ts1).value.1);
    }
  }

  lemma {:induction false} AndSound(ts: seq<Token>)
    requires ParseAnd(ts).Some?
    ensures GoodAnd(ParseAnd(ts).value.0) && ts == YieldAnd(ParseAnd(ts).value.0) + ParseAnd(ts).value.1
    decreases |ts|, 4
  {
    NotSound(ts);
    AndMoreSound(ParseNot(ts).value.1);
  }

  lemma {:induction false} AndMoreSound(ts: seq<Token>)
    requires ParseAndMore(ts).Some?
    ensures GoodAndMore(ParseAndMore(ts).value.0) && ts == YieldAndMore(ParseAndMore(ts).value.0) + ParseAndMore(ts).value.1
    decreases |ts|, 3
  {
    hide YieldNot, GoodNot, ParseNot;
    if Next(ts, AndTok) {
      NotSound(ts[1..]);
      var (n, ts1) := ParseNot(ts[1..]).value;
      AndMoreSound(ts1);
      assert ts == [AndTok] + ts[1..];
      Seqs.Chain2([AndTok], YieldNot(n), ts1);
      Seqs.Chain2([AndTok] + YieldNot(n), YieldAndMore(ParseAndMore(ts1).value.0), ParseAndMore(ts1).value.1);
    }
  }

  lemma {:induction false} NotSound(ts: seq<Token>)
    requires ParseNot(ts).Some?
    ensures GoodNot(ParseNot(ts).value.0) && ts == YieldNot(ParseNot(ts).value.0) + ParseNot(ts).value.1
    decreases |ts|, 2
  {
    if Next(ts, NotTok) {
      NotSound(ts[1..]);
      assert ts == [NotTok] + ts[1..];
    } else {
      ComparisonSound(ts);
    }
  }

  lemma {:induction false} ComparisonSound(ts: seq<Token>)
    requires ParseComparison(ts).Some?
    ensures GoodComparison(ParseComparison(ts).value.0)
    ensures ts == YieldComparison(ParseComparison(ts).value.0) + ParseComparison(ts).value.1
    decreases |ts|, 1
  {
    hide YieldPrimary, GoodPrimary, YieldTail, ParsePrimary;
    PrimarySound(ts);
    var (p, ts1) := ParsePrimary(ts).value;
    var (c, rest) := ParseComparison(ts).value;
    if Next(ts1, IsTok) {
      assert ts1 == [IsTok] + MaybeNot(c.negated) + [NullLit] + rest;
    } else {
      var negated := Next(ts1, NotTok);
      var ts2 := if negated then ts1[1..] else ts1;
      assert ts1 == MaybeNot(negated) + ts2;
      SuffixSound(p, negated, ts2);
      Seqs.Chain2(MaybeNot(negated), YieldTail(c), rest);
    }
    assert ts1 == YieldSuffix(c) + rest;
    Seqs.Chain2(YieldPrimary(p), YieldSuffix(c), rest);
  }

  lemma {:induction false} SuffixSound(p: Primary, negated: bool, ts: seq<Token>)
    requires GoodPrimary(p) && ParseSuffix(p, negated, ts).Some?
    ensures var (c, rest) := ParseSuffix(p, negated, ts).value;
      c.p == p && GoodComparison(c) && !c.IsNull? && Negated(c) == negated && ts == YieldTail(c) + rest
    decreases |ts|, 1
  {
    hide YieldPrimary, GoodPrimary, YieldItems, ParsePrimary;
    if Next(ts, BetweenTok) {
      assert ts == [BetweenTok] + ts[1..];
      PrimarySound(ts[1..]);
      var (low, ts1) := ParsePrimary(ts[1..]).value;
      assert ts1 == [AndTok] + ts1[1..];
      PrimarySound(ts1[1..]);
      var (high, rest) := ParsePrimary(ts1[1..]).value;
      Seqs.Chain4([BetweenTok], YieldPrimary(low), [AndTok], YieldPrimary(high), rest);
    } else if Next(ts, InTok) {
      assert ts == [InTok, LParen] + ts[2..];
      PrimarySound(ts[2..]);
      var (first, ts1) := ParsePrimary(ts[2..]).value;
      ItemsSound(ts1);
      var (more, ts2) := ParseItems(ts1).value;
      assert ts2 == [RParen] + ts2[1..];
      Seqs.Chain4([InTok, LParen], YieldPrimary(first), YieldItems(more), [RParen], ts2[1..]);
    } else if Next(ts, LikeTok) {
      assert ts == [LikeTok, ts[1]] + ts[2..];
    } else if ts != [] && ts[0].Rel? {
      assert ts == [ts[0]] + ts[1..];
      PrimarySound(ts[1..]);
      var (right, rest) := ParsePrimary(ts[1..]).value;
      Seqs.Chain2([ts[0]], YieldPrimary(right), rest);
    }
  }

  lemma {:induction false} ItemsSound(ts: seq<Token>)
    requires ParseItems(ts).Some?
    ensures GoodItems(ParseItems(ts).value.0) && ts == YieldItems(ParseItems(ts).value.0) + ParseItems(ts).value.1
    decreases |ts|, 1
  {
    hide YieldPrimary, GoodPrimary, ParsePrimary;
    if Next(ts, Comma) {
      assert ts == [Comma] + ts[1..];
      PrimarySound(ts[1..]);
      var (p, ts1) := ParsePrimary(ts[1..]).value;
      ItemsSound(ts1);
      Seqs.Chain3([Comma], YieldPrimary(p), YieldItems(ParseItems(ts1).value.0), ParseItems(ts1).value.1);
    }
  }

  lemma {:induction false} PrimarySound(ts: seq<Token>)
    requires ParsePrimary(ts).Some?
    ensures GoodPrimary(ParsePrimary(ts).value.0) && ts == YieldPrimary(ParsePrimary(ts).value.0) + ParsePrimary(ts).value.1
    decreases |ts|, 0
  {
    assert ts == [ts[0]] + ts[1..];
    if Next(ts, LParen) {
      OrSound(ts[1..]);
      var (e, ts1) := ParseOr(ts[1..]).value;
      assert ts1 == [RParen] + ts1[1..];
    }
  }

  // ---- Whatever a tree derives, the parser finds that tree ----

  /** Nothing behind a comparison that the parser would still take for part of it. */
  predicate EndsComparison(rest: seq<Token>) {
    rest == [] || !(rest[0].IsTok? || rest[0].NotTok? || rest[0].BetweenTok? || rest[0].InTok? || rest[0].LikeTok? || rest[0].Rel?)
  }

  predicate EndsAnd(rest: seq<Token>) {
    EndsComparison(rest) && !Next(rest, AndTok)
  }

  predicate EndsOr(rest: seq<Token>) {
    EndsAnd(rest) && !Next(rest, OrTok)
  }

  lemma {:induction false} OrComplete(o: Or, rest: seq<Token>)
    requires GoodOr(o) && EndsOr(rest)
    ensures ParseOr(YieldOr(o) + rest) == Some((o, rest))
    decreases o
  {
    hide YieldAnd, GoodAnd, ParseAnd;
    Seqs.Chain2(YieldAnd(o.first), YieldOrMore(o.more), rest);
    AndComplete(o.first, YieldOrMore(o.more) + rest);
    OrMoreComplete(o.more, rest);
  }

  lemma {:induction false} OrMoreComplete(m: OrMore, rest: seq<Token>)
    requires GoodOrMore(m) && EndsOr(rest)
    ensures ParseOrMore(YieldOrMore(m) + rest) == Some((m, rest)) && EndsAnd(YieldOrMore(m) + rest)
    decreases m
  {
    hide YieldAnd, GoodAnd, ParseAnd;
    if m.OrThen? {
      var ts := YieldOrMore(m) + rest;
      var tail := YieldOrMore(m.more) + rest;
      Seqs.Chain2(YieldAnd(m.next), YieldOrMore(m.more), rest);
      assert ts == [OrTok] + (YieldAnd(m.next) + tail);
      assert ts[1..] == YieldAnd(m.next) + tail;
      OrMoreComplete(m.more, rest);
      AndComplete(m.next, tail);
    } else {
      assert YieldOrMore(m) + rest == rest;
    }
  }

  lemma {:induction false} AndComplete(a: And, rest: seq<Token>)
    requires GoodAnd(a) && EndsAnd(rest)
    ensures ParseAnd(YieldAnd(a) + rest) == Some((a, rest))
    decreases a
  {
    hide YieldNot, GoodNot, ParseNot;
    Seqs.Chain2(YieldNot(a.first), YieldAndMore(a.more), rest);
    NotComplete(a.first, YieldAndMore(a.more) + rest);
    AndMoreComplete(a.more, rest);
  }

  lemma {:induction false} AndMoreComplete(m: AndMore, rest: seq<Token>)
    requires GoodAndMore(m) && EndsAnd(rest)
    ensures ParseAndMore(YieldAndMore(m) + rest) == Some((m, rest)) && EndsComparison(YieldAndMore(m) + rest)
    decreases m
  {
    hide YieldNot, GoodNot, ParseNot;
    if m.AndThen? {
      var ts := YieldAndMore(m) + rest;
      var tail := YieldAndMore(m.more) + rest;
      Seqs.Chain2(YieldNot(m.next), YieldAndMore(m.more), rest);
      assert ts == [AndTok] + (YieldNot(m.next) + tail);
      assert ts[1..] == YieldNot(m.next) + tail;
      AndMoreComplete(m.more, rest);
      NotComplete(m.next, tail);
    } else {
      assert YieldAndMore(m) + rest == rest;
    }
  }

  lemma {:induction false} NotComplete(n: Not, rest: seq<Token>)
    requires GoodNot(n) && EndsComparison(rest)
    ensures ParseNot(YieldNot(n) + rest) == Some((n, rest))
    decreases n
  {
    hide YieldComparison, GoodComparison, ParseComparison;
    match n
    case Not(e) =>
      assert (YieldNot(n) + rest)[1..] == YieldNot(e) + rest;
      NotComplete(e, rest);
    case Plain(c) =>
      ComparisonStarts(c, rest);
      ComparisonComplete(c, rest);
  }

  lemma PrimaryStarts(p: Primary, rest: seq<Token>)
    requires GoodPrimary(p)
    ensures var ts := YieldPrimary(p) + rest; ts != [] && (ts[0] == LParen || IsLiteral(ts[0]))
  {
  }

  lemma ComparisonStarts(c: Comparison, rest: seq<Token>)
    requires GoodComparison(c)
    ensures !Next(YieldComparison(c) + rest, NotTok)
  {
    hide YieldSuffix;
    PrimaryStarts(c.p, YieldSuffix(c) + rest);
    Seqs.Chain2(YieldPrimary(c.p), YieldSuffix(c), rest);
  }

  lemma {:induction false} ComparisonComplete(c: Comparison, rest: seq<Token>)
    requires GoodComparison(c) && EndsComparison(rest)
    ensures ParseComparison(YieldComparison(c) + rest) == Some((c, rest))
    decreases c, 1
  {
    hide YieldPrimary, GoodPrimary, ParsePrimary, ParseSuffix, YieldTail;
    var ts1 := YieldSuffix(c) + rest;
    Seqs.Chain2(YieldPrimary(c.p), YieldSuffix(c), rest);
    PrimaryComplete(c.p, ts1);
    if c.IsNull? {
      assert Next(ts1[1..], NotTok) == c.negated;
      assert (if c.negated then ts1[2..] else ts1[1..]) == [NullLit] + rest;
      assert ([NullLit] + rest)[1..] == rest;
    } else {
      var ts2 := YieldTail(c) + rest;
      Seqs.Chain2(MaybeNot(Negated(c)), YieldTail(c), rest);
      SuffixComplete(c, rest);
      TailStarts(c, rest);
      assert ts1 == MaybeNot(Negated(c)) + ts2;
      assert ts2 == if Negated(c) then ts1[1..] else ts1;
    }
  }

  lemma TailStarts(c: Comparison, rest: seq<Token>)
    requires !c.IsNull? && EndsComparison(rest)
    ensures !Next(YieldTail(c) + rest, NotTok) && !Next(YieldTail(c) + rest, IsTok)
  {
    if c.Just? {
      assert YieldTail(c) + rest == rest;
    }
  }

  lemma {:induction false} SuffixComplete(c: Comparison, rest: seq<Token>)
    requires GoodComparison(c) && !c.IsNull? && EndsComparison(rest)
    ensures ParseSuffix(c.p, Negated(c), YieldTail(c) + rest) == Some((c, rest))
    decreases c, 0
  {
    hide YieldPrimary, GoodPrimary, ParsePrimary, YieldItems, ParseItems;
    var ts := YieldTail(c) + rest;
    match c
    case Just(_) =>
      assert ts == rest;
    case Between(_, _, low, high) =>
      var ts1 := [AndTok] + (YieldPrimary(high) + rest);
      Seqs.Chain4([BetweenTok], YieldPrimary(low), [AndTok], YieldPrimary(high), rest);
      assert ts[1..] == YieldPrimary(low) + ts1 && ts1[1..] == YieldPrimary(high) + rest;
      PrimaryComplete(low, ts1);
      PrimaryComplete(high, rest);
    case In(_, _, first, more) =>
      var ts1 := YieldItems(more) + ([RParen] + rest);
      Seqs.Chain4([InTok, LParen], YieldPrimary(first), YieldItems(more), [RParen], rest);
      assert ts[2..] == YieldPrimary(first) + ts1 && ts[1..][0] == LParen;
      PrimaryComplete(first, ts1);
      ItemsComplete(more, [RParen] + rest);
      assert ([RParen] + rest)[1..] == rest;
    case Like(_, _, pattern) =>
      assert ts[1] == Str(pattern) && ts[2..] == rest;
    case Relation(_, op, right) =>
      Seqs.Chain2([Rel(op)], YieldPrimary(right), rest);
      assert ts[1..] == YieldPrimary(right) + rest;
      PrimaryComplete(right, rest);
  }

  lemma {:induction false} ItemsComplete(m: Items, rest: seq<Token>)
    requires GoodItems(m) && !Next(rest, Comma)
    ensures ParseItems(YieldItems(m) + rest) == Some((m, rest))
    decreases m
  {
    hide YieldPrimary, GoodPrimary, ParsePrimary;
    if m.Item? {
      var ts, tail := YieldItems(m) + rest, YieldItems(m.more) + rest;
      Seqs.Chain3([Comma], YieldPrimary(m.next), YieldItems(m.more), rest);
      assert ts[1..] == YieldPrimary(m.next) + tail;
      PrimaryComplete(m.next, tail);
      ItemsComplete(m.more, rest);
    } else {
      assert YieldItems(m) + rest == rest;
    }
  }

  lemma {:induction false} PrimaryComplete(p: Primary, rest: seq<Token>)
    requires GoodPrimary(p)
    ensures ParsePrimary(YieldPrimary(p) + rest) == Some((p, rest))
    decreases p
  {
    hide YieldOr, GoodOr, ParseOr;
    var ts := YieldPrimary(p) + rest;
    match p
    case Literal(t) =>
      assert ts[1..] == rest;
    case Paren(e) =>
      var ts1 := [RParen] + rest;
      Seqs.Chain3([LParen], YieldOr(e), [RParen], rest);
      assert ts[1..] == YieldOr(e) + ts1 && ts1[1..] == rest;
      OrComplete(e, ts1);
  }

  // ---- Main results ----

  /** The parser accepts exactly the token lists that the grammar derives. */
  lemma AcceptsTheLanguage(ts: seq<Token>)
    ensures ParseExpression(ts).Some? <==> exists o :: GoodOr(o) && YieldOr(o) == ts
  {
    if ParseExpression(ts).Some? {
      OrSound(ts);
      assert YieldOr(ParseExpression(ts).value) == ts;
    }
    forall o | GoodOr(o) && YieldOr(o) == ts
      ensures ParseExpression(ts).Some?
    {
      BuildsTheTree(o);
    }
  }

  /** It builds the tree from which the tokens were derived. */
  lemma BuildsTheTree(o: Or)
    requires GoodOr(o)
    ensures ParseExpression(YieldOr(o)) == Some(o)
  {
    OrComplete(o, []);
    assert YieldOr(o) + [] == YieldOr(o);
  }

  /** The grammar is unambiguous: a token list has at most one derivation. */
  lemma DerivationUnique(a: Or, b: Or)
    requires GoodOr(a) && GoodOr(b) && YieldOr(a) == YieldOr(b)
    ensures a == b
  {
    BuildsTheTree(a);
    BuildsTheTree(b);
  }
}
