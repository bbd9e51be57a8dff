/** The parser as an object that moves through the tokens and builds closures. */
module SelectorParser {
  import opened Options
  import opened SelectorSyntax
  import opened SelectorMeaning

  /** A compiled expression. */
  type EvalFn = Props -> Value

  /** done, then more. */
  ghost function Attach(done: seq<And>, more: OrMore): OrMore {
    if done == [] then more else OrThen(done[0], Attach(done[1..], more))
  }

  ghost function AttachAnd(done: seq<Not>, more: AndMore): AndMore {
    if done == [] then more else AndThen(done[0], AttachAnd(done[1..], more))
  }

  ghost function AttachItems(done: seq<Primary>, more: Items): Items {
    if done == [] then more else Item(done[0], AttachItems(done[1..], more))
  }

  lemma {:induction false} AttachSnoc(done: seq<And>, a: And, more: OrMore)
    ensures Attach(done + [a], more) == Attach(done, OrThen(a, more))
  {
    if done != [] {
      AttachSnoc(done[1..], a, more);
      assert (done + [a])[1..] == done[1..] + [a];
    }
  }

  lemma {:induction false} AttachAndSnoc(done: seq<Not>, n: Not, more: AndMore)
    ensures AttachAnd(done + [n], more) == AttachAnd(done, AndThen(n, more))
  {
    if done != [] {
      AttachAndSnoc(done[1..], n, more);
      assert (done + [n])[1..] == done[1..] + [n];
    }
  }

  lemma {:induction false} AttachItemsSnoc(done: seq<Primary>, p: Primary, more: Items)
    ensures AttachItems(done + [p], more) == AttachItems(done, Item(p, more))
  {
    if done != [] {
      AttachItemsSnoc(done[1..], p, more);
      assert (done + [p])[1..] == done[1..] + [p];
    }
  }

  /** The closure of IN: the first equal item decides. */
  function InItems(v: Value, items: seq<EvalFn>, m: Props): bool {
    items != [] && (SelEq(v, items[0](m)) || InItems(v, items[1..], m))
  }

  /** Parsing the rest of a disjunction from ts, after done has been read from ts1. */
  ghost predicate OrSoFar(ts1: seq<Token>, ts: seq<Token>, done: seq<And>) {
    match ParseOrMore(ts)
    case None => ParseOrMore(ts1) == None
    case Some((more, rest)) => ParseOrMore(ts1) == Some((Attach(done, more), rest))
  }

  ghost predicate AndSoFar(ts1: seq<Token>, ts: seq<Token>, done: seq<Not>) {
    match ParseAndMore(ts)
    case None => ParseAndMore(ts1) == None
    case Some((more, rest)) => ParseAndMore(ts1) == Some((AttachAnd(done, more), rest))
  }

  lemma OrNext(ts1: seq<Token>, ts: seq<Token>, done: seq<And>)
    requires OrSoFar(ts1, ts, done) && Next(ts, OrTok)
    ensures ParseAnd(ts[1..]) == None ==> ParseOrMore(ts1) == None
    ensures ParseAnd(ts[1..]).Some? ==>
      OrSoFar(ts1, ParseAnd(ts[1..]).value.1, done + [ParseAnd(ts[1..]).value.0])
  {
    if ParseAnd(ts[1..]).Some? {
      var (a, ts2) := ParseAnd(ts[1..]).value;
      if ParseOrMore(ts2).Some? {
        AttachSnoc(done, a, ParseOrMore(ts2).value.0);
      }
    }
  }

  lemma AndNext(ts1: seq<Token>, ts: seq<Token>, done: seq<Not>)
    requires AndSoFar(ts1, ts, done) && Next(ts, AndTok)
    ensures ParseNot(ts[1..]) == None ==> ParseAndMore(ts1) == None
    ensures ParseNot(ts[1..]).Some? ==>
      AndSoFar(ts1, ParseNot(ts[1..]).value.1, done + [ParseNot(ts[1..]).value.0])
  {
    if ParseNot(ts[1..]).Some? {
      var (n, ts2) := ParseNot(ts[1..]).value;
      if ParseAndMore(ts2).Some? {
        AttachAndSnoc(done, n, ParseAndMore(ts2).value.0);
      }
    }
  }

  /** left is the value of the closures for first and done. */
  ghost predicate OrValued(first: And, done: seq<And>, left: EvalFn) {
    forall m, more :: OrChain(MeanAnd(first, m), Attach(done, more), m) == OrChain(left(m), more, m)
  }

  ghost predicate AndValued(first: Not, done: seq<Not>, left: EvalFn) {
    forall m, more :: AndChain(MeanNot(first, m), AttachAnd(done, more), m) == AndChain(left(m), more, m)
  }

  lemma OrGrows(first: And, done: seq<And>, left: EvalFn, a: And, right: EvalFn, both: EvalFn)
    requires OrValued(first, done, left) && (forall m :: right(m) == MeanAnd(a, m))
    requires forall m :: both(m) == OrValue(left(m), right(m))
    ensures OrValued(first, done + [a], both)
  {
    forall m, more
      ensures OrChain(MeanAnd(first, m), Attach(done + [a], more), m) == OrChain(both(m), more, m)
    {
      AttachSnoc(done, a, more);
      assert OrChain(left(m), OrThen(a, more), m) == OrChain(both(m), more, m);
    }
  }

  lemma AndGrows(first: Not, done: seq<Not>, left: EvalFn, n: Not, right: EvalFn, both: EvalFn)
    requires AndValued(first, done, left) && (forall m :: right(m) == MeanNot(n, m))
    requires forall m :: both(m) == AndValue(left(m), right(m))
    ensures AndValued(first, done + [n], both)
  {
    forall m, more
      ensures AndChain(MeanNot(first, m), AttachAnd(done + [n], more), m) == AndChain(both(m), more, m)
    {
      AttachAndSnoc(done, n, more);
      assert AndChain(left(m), AndThen(n, more), m) == AndChain(both(m), more, m);
    }
  }

  /** When no OR follows, the closure is the meaning of the whole disjunction. */
  lemma OrDone(o: Or, done: seq<And>, left: EvalFn)
    requires OrValued(o.first, done, left) && o.more == Attach(done, NoOr)
    ensures forall m :: left(m) == MeanOr(o, m)
  {
    forall m
      ensures left(m) == MeanOr(o, m)
    {
      OrCompiles(o, m);
      assert OrChain(left(m), NoOr, m) == left(m);
    }
  }

  lemma AndDone(a: And, done: seq<Not>, left: EvalFn)
    requires AndValued(a.first, done, left) && a.more == AttachAnd(done, NoAnd)
    ensures forall m :: left(m) == MeanAnd(a, m)
  {
    forall m
      ensures left(m) == MeanAnd(a, m)
    {
      AndCompiles(a, m);
      assert AndChain(left(m), NoAnd, m) == left(m);
    }
  }

  class Parser {
    const tokens: seq<Token>
    var pos: nat

    constructor (tokens: seq<Token>)
      ensures this.tokens == tokens && pos == 0
    {
      this.tokens, pos := tokens, 0;
    }

    ghost predicate Valid()
      reads this
    {
      pos <= |tokens|
    }

    /** The tokens not read yet. */
    function Rest(): seq<Token>
      reads this
      requires Valid()
    {
      tokens[pos..]
    }

    predicate Check(t: Token)
      reads this
    {
      pos < |tokens| && tokens[pos] == t
    }

    /** The method read one tree from the tokens, as the function says, or failed. */
    ghost predicate Read<T(!new)>(r: Parsed<T>, ok: bool, t: T)
      reads this
    {
      Valid() && match r
        case None => !ok
        case Some((u, rest)) => ok && t == u && Rest() == rest
    }

    method ParseOrExpr() returns (ok: bool, f: EvalFn, ghost o: Or)
      requires Valid()
      modifies this
      ensures Read(ParseOr(old(Rest())), ok, o)
      ensures ok ==> forall m :: f(m) == MeanOr(o, m)
      decreases |tokens| - pos, 6
    {
      hide ParseAnd, MeanAnd, MeanOr, ParseOrMore, OrValued, Attach;
      ghost var ts := Rest();
      ghost var a: And;
      ok, f, a := ParseAndExpr();
      o := Or(a, NoOr);
      if !ok {
        return;
      }
      ghost var ts1, done: seq<And> := Rest(), [];
      NothingDone(ts1, a, f);
      while Check(OrTok)
        invariant Valid() && OrSoFar(ts1, Rest(), done) && OrValued(a, done, f) && |Rest()| < |ts|
        decreases |tokens| - pos
      {
        ghost var here := Rest();
        assert Next(here, OrTok);
        OrNext(ts1, here, done);
        pos := pos + 1;
        assert Rest() == here[1..];
        var right;
        ghost var b: And;
        ok, right, b := ParseAndExpr();
        if !ok {
          return;
        }
        var left := f;
        f := (m: Props) => OrValue(left(m), right(m));
        OrGrows(a, done, left, b, right, f);
        done := done + [b];
      }
      ok := true;
      o := Or(a, Attach(done, NoOr));
      OrEnds(ts1, Rest(), done);
      OrDone(o, done, f);
    }

    method ParseAndExpr() returns (ok: bool, f: EvalFn, ghost a: And)
      requires Valid()
      modifies this
      ensures Read(ParseAnd(old(Rest())), ok, a)
      ensures ok ==> forall m :: f(m) == MeanAnd(a, m)
      decreases |tokens| - pos, 4
    {
      hide ParseNot, MeanNot, MeanAnd, ParseAndMore, AndValued, AttachAnd;
      ghost var ts := Rest();
      ghost var n: Not;
      ok, f, n := ParseNotExpr();
      a := And(n, NoAnd);
      if !ok {
        return;
      }
      ghost var ts1, done: seq<Not> := Rest(), [];
      NothingDoneAnd(ts1, n, f);
      while Check(AndTok)
        invariant Valid() && AndSoFar(ts1, Rest(), done) && AndValued(n, done, f) && |Rest()| < |ts|
        decreases |tokens| - pos
      {
        ghost var here := Rest();
        assert Next(here, AndTok);
        AndNext(ts1, here, done);
        pos := pos + 1;
        assert Rest() == here[1..];
        var right;
        ghost var b: Not;
        ok, right, b := ParseNotExpr();
        if !ok {
          return;
        }
        var left := f;
        f := (m: Props) => AndValue(left(m), right(m));
        AndGrows(n, done, left, b, right, f);
        done := done + [b];
      }
      ok := true;
      a := And(n, AttachAnd(done, NoAnd));
      AndEnds(ts1, Rest(), done);
      AndDone(a, done, f);
    }

    method ParseNotExpr() returns (ok: bool, f: EvalFn, ghost n: Not)
      requires Valid()
      modifies this
      ensures Read(ParseNot(old(Rest())), ok, n)
      ensures ok ==> forall m :: f(m) == MeanNot(n, m)
      decreases |tokens| - pos, 2
    {
      hide ParseComparison, MeanComparison;
      ghost var ts := Rest();
      if Check(NotTok) {
        pos := pos + 1;
        assert Rest() == ts[1..];
        var inner;
        ghost var e: Not;
        ok, inner, e := ParseNotExpr();
        f := (m: Props) => NotValue(inner(m));
        n := Not(e);
        return;
      }
      ghost var c: Comparison;
      ok, f, c := ParseComparisonExpr();
      n := Plain(c);
    }

    method ParseComparisonExpr() returns (ok: bool, f: EvalFn, ghost c: Comparison)
      requires Valid()
      modifies this
      ensures Read(ParseComparison(old(Rest())), ok, c)
      ensures ok ==> forall m :: f(m) == MeanComparison(c, m)
      decreases |tokens| - pos, 1
    {
      hide ParsePrimary, MeanPrimary, ParseSuffix, MeanComparison;
      var left;
      ghost var p: Primary;
      ok, left, p := ParsePrimaryExpr();
      f, c := left, Just(p);
      if !ok {
        return;
      }
      ghost var ts1 := Rest();
      if Check(IsTok) {
        ok, f, c := ParseIsNull(left, p);
        return;
      }
      var negated := false;
      if Check(NotTok) {
        pos := pos + 1;
        negated := true;
        assert Rest() == ts1[1..];
      }
      ok, f, c := ParseSuffixExpr(left, negated, p);
    }

    /** IS [NOT] NULL. */
    method ParseIsNull(left: EvalFn, ghost p: Primary) returns (ok: bool, f: EvalFn, ghost c: Comparison)
      requires Valid() && Check(IsTok) && forall m :: left(m) == MeanPrimary(p, m)
      modifies this
      ensures Valid()
      ensures var ts1 := old(Rest());
        var negated := Next(ts1[1..], NotTok);
        var ts2 := if negated then ts1[2..] else ts1[1..];
        if Next(ts2, NullLit) then ok && c == IsNull(p, negated) && Rest() == ts2[1..] else !ok
      ensures ok ==> forall m :: f(m) == MeanComparison(c, m)
    {
      hide MeanPrimary;
      f, c := left, Just(p);
      ghost var ts1 := Rest();
      pos := pos + 1;
      assert Rest() == ts1[1..];
      var negated := false;
      if Check(NotTok) {
        pos := pos + 1;
        negated := true;
        assert Rest() == ts1[2..];
      }
      ok := Check(NullLit);
      if ok {
        pos := pos + 1;
        f := (m: Props) => Bool(if negated then !left(m).Null? else left(m).Null?);
        c := IsNull(p, negated);
      }
    }

    /** BETWEEN, IN, LIKE and the relational operators. */
    method ParseSuffixExpr(left: EvalFn, negated: bool, ghost p: Primary) returns (ok: bool, f: EvalFn, ghost c: Comparison)
      requires Valid() && forall m :: left(m) == MeanPrimary(p, m)
      modifies this
      ensures Read(ParseSuffix(p, negated, old(Rest())), ok, c)
      ensures ok ==> forall m :: f(m) == MeanComparison(c, m)
      decreases |tokens| - pos, 1
    {
      hide ParsePrimary, MeanPrimary, ParseItems, MeanComparison;
      ghost var ts := Rest();
      ok, f, c := false, left, Just(p);
      if Check(BetweenTok) {
        pos := pos + 1;
        assert [BetweenTok] + Rest() == ts;
        ok, f, c := ParseBetween(left, negated, p);
      } else if Check(InTok) {
        pos := pos + 1;
        assert Rest() == ts[1..];
        if !Check(LParen) {
          return;
        }
        pos := pos + 1;
        assert [InTok, LParen] + Rest() == ts;
        ok, f, c := ParseIn(left, negated, p);
      } else if Check(LikeTok) {
        pos := pos + 1;
        assert [LikeTok] + Rest() == ts;
        ok, f, c := ParseLike(left, negated, p);
      } else if negated {
        return;
      } else if pos < |tokens| && tokens[pos].Rel? {
        var op := tokens[pos].op;
        pos := pos + 1;
        assert [Rel(op)] + Rest() == ts;
        ok, f, c := ParseRelation(left, op, p);
      } else {
        ok := true;
        JustMeans(p);
      }
    }

    method ParseLike(left: EvalFn, negated: bool, ghost p: Primary) returns (ok: bool, f: EvalFn, ghost c: Comparison)
      requires Valid() && forall m :: left(m) == MeanPrimary(p, m)
      modifies this
      ensures Read(ParseSuffix(p, negated, [LikeTok] + old(Rest())), ok, c)
      ensures ok ==> forall m :: f(m) == MeanComparison(c, m)
    {
      hide ParsePrimary, MeanPrimary, ParseItems, RegexMatch, RunRegex, Compare;
      ghost var ts := [LikeTok] + Rest();
      assert ts[0] == LikeTok && |ts| == 1 + |Rest()| && (Rest() != [] ==> ts[1] == tokens[pos] && ts[2..] == Rest()[1..]);
      f, c := left, Just(p);
      ok := pos < |tokens| && tokens[pos].Str?;
      if ok {
        var pattern := tokens[pos].text;
        pos := pos + 1;
        var regex := LikeToRegex(pattern);
        f := (m: Props) => LikeValue(left(m), regex, negated);
        c := Like(p, negated, pattern);
      }
    }

    method ParseRelation(left: EvalFn, op: Op, ghost p: Primary) returns (ok: bool, f: EvalFn, ghost c: Comparison)
      requires Valid() && forall m :: left(m) == MeanPrimary(p, m)
      modifies this
      ensures Read(ParseSuffix(p, false, [Rel(op)] + old(Rest())), ok, c)
      ensures ok ==> forall m :: f(m) == MeanComparison(c, m)
      decreases |tokens| - pos, 1
    {
      hide ParsePrimary, MeanPrimary, ParseItems, Compare;
      ghost var ts := [Rel(op)] + Rest();
      assert ts[1..] == Rest();
      var right;
      ghost var q: Primary;
      ok, right, q := ParsePrimaryExpr();
      f := (m: Props) => Bool(Compare(op, left(m), right(m)));
      c := Relation(p, op, q);
    }

    method ParseBetween(left: EvalFn, negated: bool, ghost p: Primary) returns (ok: bool, f: EvalFn, ghost c: Comparison)
      requires Valid() && forall m :: left(m) == MeanPrimary(p, m)
      modifies this
      ensures Read(ParseSuffix(p, negated, [BetweenTok] + old(Rest())), ok, c)
      ensures ok ==> forall m :: f(m) == MeanComparison(c, m)
      decreases |tokens| - pos, 1
    {
      hide ParsePrimary, MeanPrimary, ParseItems;
      ghost var ts := [BetweenTok] + Rest();
      assert ts[1..] == Rest();
      f, c := left, Just(p);
      var low, high;
      ghost var l: Primary, h: Primary;
      ok, low, l := ParsePrimaryExpr();
      if !ok {
        return;
      }
      ghost var ts1 := Rest();
      if !Check(AndTok) {
        ok := false;
        return;
      }
      pos := pos + 1;
      assert Rest() == ts1[1..];
      ok, high, h := ParsePrimaryExpr();
      f := (m: Props) =>
        Bool((Compare(Gte, left(m), low(m)) && Compare(Lte, left(m), high(m))) != negated);
      c := Between(p, negated, l, h);
    }

    method ParseIn(left: EvalFn, negated: bool, ghost p: Primary) returns (ok: bool, f: EvalFn, ghost c: Comparison)
      requires Valid() && forall m :: left(m) == MeanPrimary(p, m)
      modifies this
      ensures Read(ParseSuffix(p, negated, [InTok, LParen] + old(Rest())), ok, c)
      ensures ok ==> forall m :: f(m) == MeanComparison(c, m)
      decreases |tokens| - pos, 1
    {
      hide ParsePrimary, MeanPrimary, ParseItems, InItems;
      ghost var ts := [InTok, LParen] + Rest();
      assert ts[2..] == Rest() && ts[1..][0] == LParen;
      f, c := left, Just(p);
      var first;
      ghost var q: Primary;
      ok, first, q := ParsePrimaryExpr();
      if !ok {
        return;
      }
      var items;
      ghost var more: Items;
      ok, items, more := ParseItemList(first, q);
      if !ok || !Check(RParen) {
        ok := false;
        return;
      }
      ghost var ts2 := Rest();
      pos := pos + 1;
      assert Rest() == ts2[1..];
      f := (m: Props) => InValue(left(m), items, m, negated);
      c := In(p, negated, q, more);
      forall m
        ensures f(m) == MeanComparison(c, m)
      {
        InCompiles(c, items, m);
      }
    }

    /** The items behind the first one. */
    method ParseItemList(first: EvalFn, ghost q: Primary) returns (ok: bool, items: seq<EvalFn>, ghost more: Items)
      requires Valid() && forall m :: first(m) == MeanPrimary(q, m)
      modifies this
      ensures Read(ParseItems(old(Rest())), ok, more)
      ensures ok ==> Compiled(items, [q] + ItemList(more))
      decreases |tokens| - pos, 1
    {
      hide ParsePrimary, MeanPrimary, ParseItems;
      items := [first];
      ghost var ts1, done: seq<Primary> := Rest(), [];
      ok := true;
      ItemsStart(ts1);
      while Check(Comma)
        invariant Valid() && ItemsSoFar(ts1, Rest(), done) && |Rest()| <= |ts1|
        invariant Compiled(items, [q] + done)
        decreases |tokens| - pos
      {
        ghost var here := Rest();
        assert Next(here, Comma);
        ItemsNext(ts1, here, done);
        pos := pos + 1;
        assert Rest() == here[1..];
        var item;
        ghost var b: Primary;
        ok, item, b := ParsePrimaryExpr();
        if !ok {
          more := NoItem;
          return;
        }
        items := items + [item];
        done := done + [b];
      }
      ok := true;
      more := AttachItems(done, NoItem);
      ItemsEnd(ts1, Rest(), done);
    }

    method ParsePrimaryExpr() returns (ok: bool, f: EvalFn, ghost p: Primary)
      requires Valid()
      modifies this
      ensures Read(ParsePrimary(old(Rest())), ok, p)
      ensures ok ==> forall m :: f(m) == MeanPrimary(p, m)
      decreases |tokens| - pos, 0
    {
      hide ParseOr, MeanOr, LiteralValue;
      ghost var ts := Rest();
      ok, f, p := false, (m: Props) => Null, Literal(NullLit);
      if Check(LParen) {
        pos := pos + 1;
        assert Rest() == ts[1..];
        ghost var e: Or;
        ok, f, e := ParseOrExpr();
        if !ok || !Check(RParen) {
          ok := false;
          return;
        }
        ghost var ts1 := Rest();
        pos := pos + 1;
        assert Rest() == ts1[1..];
        p := Paren(e);
      } else if pos < |tokens| && IsLiteral(tokens[pos]) {
        var t := tokens[pos];
        pos := pos + 1;
        assert Rest() == ts[1..];
        ok := true;
        f := (m: Props) => LiteralValue(t, m);
        p := Literal(t);
      }
    }

    /** parseExpression: everything must be read. */
    method ParseExpr() returns (ok: bool, f: EvalFn)
      requires pos == 0
      modifies this
      ensures ok <==> ParseExpression(tokens).Some?
      ensures ok ==> forall m :: f(m) == MeanOr(ParseExpression(tokens).value, m)
    {
      ghost var o: Or;
      assert Rest() == tokens;
      ok, f, o := ParseOrExpr();
      ok := ok && pos == |tokens|;
    }
  }

  lemma JustMeans(p: Primary)
    ensures forall m :: MeanComparison(Just(p), m) == MeanPrimary(p, m)
  {
  }

  /** LIKE on a value that is no text is unknown. */
  function LikeValue(v: Value, regex: string, negated: bool): Value {
    if !v.Text? then Null else Bool(RunRegex(regex, v.s) != negated)
  }

  function InValue(v: Value, items: seq<EvalFn>, m: Props, negated: bool): Value {
    if v.Null? then Null else if InItems(v, items, m) then Bool(!negated) else Bool(negated)
  }

  ghost function ItemList(more: Items): seq<Primary> {
    if more.NoItem? then [] else [more.next] + ItemList(more.more)
  }

  ghost predicate Compiled(items: seq<EvalFn>, ps: seq<Primary>) {
    |items| == |ps| && forall k, m :: 0 <= k < |ps| ==> items[k](m) == MeanPrimary(ps[k], m)
  }

  lemma {:induction false} InMeans(v: Value, items: seq<EvalFn>, ps: seq<Primary>, m: Props)
    requires Compiled(items, ps)
    ensures InItems(v, items, m) <==> exists k :: 0 <= k < |ps| && SelEq(v, MeanPrimary(ps[k], m))
  {
    hide MeanPrimary;
    if ps != [] {
      InMeans(v, items[1..], ps[1..], m);
      if exists k :: 0 <= k < |ps| && SelEq(v, MeanPrimary(ps[k], m)) {
        var k :| 0 <= k < |ps| && SelEq(v, MeanPrimary(ps[k], m));
        assert k > 0 ==> ps[1..][k - 1] == ps[k];
      }
    }
  }

  lemma InCompiles(c: Comparison, items: seq<EvalFn>, m: Props)
    requires c.In? && Compiled(items, [c.first] + ItemList(c.more))
    ensures InValue(MeanPrimary(c.p, m), items, m, c.negated) == MeanComparison(c, m)
  {
    hide MeanPrimary, InItems, Compiled;
    var v, ps := MeanPrimary(c.p, m), [c.first] + ItemList(c.more);
    var values := [MeanPrimary(c.first, m)] + ItemValues(c.more, m);
    InMeans(v, items, ps, m);
    ItemListValues(c.more, m);
    assert forall k :: 0 <= k < |ps| ==> values[k] == MeanPrimary(ps[k], m);
    assert |values| == |ps|;
  }

  lemma {:induction false} ItemListValues(more: Items, m: Props)
    ensures |ItemValues(more, m)| == |ItemList(more)|
    ensures forall k :: 0 <= k < |ItemList(more)| ==> ItemValues(more, m)[k] == MeanPrimary(ItemList(more)[k], m)
  {
    hide MeanPrimary;
    if more.Item? {
      ItemListValues(more.more, m);
    }
  }

  ghost predicate ItemsSoFar(ts1: seq<Token>, ts: seq<Token>, done: seq<Primary>) {
    match ParseItems(ts)
    case None => ParseItems(ts1) == None
    case Some((more, rest)) => ParseItems(ts1) == Some((AttachItems(done, more), rest))
  }

  lemma ItemsStart(ts1: seq<Token>)
    ensures ItemsSoFar(ts1, ts1, [])
  {
  }

  lemma ItemsNext(ts1: seq<Token>, ts: seq<Token>, done: seq<Primary>)
    requires ItemsSoFar(ts1, ts, done) && Next(ts, Comma)
    ensures ParsePrimary(ts[1..]) == None ==> ParseItems(ts1) == None
    ensures ParsePrimary(ts[1..]).Some? ==>
      ItemsSoFar(ts1, ParsePrimary(ts[1..]).value.1, done + [ParsePrimary(ts[1..]).value.0])
  {
    if ParsePrimary(ts[1..]).Some? {
      var (p, ts2) := ParsePrimary(ts[1..]).value;
      if ParseItems(ts2).Some? {
        AttachItemsSnoc(done, p, ParseItems(ts2).value.0);
      }
    }
  }

  lemma ItemsEnd(ts1: seq<Token>, ts: seq<Token>, done: seq<Primary>)
    requires ItemsSoFar(ts1, ts, done) && !Next(ts, Comma)
    ensures ParseItems(ts1) == Some((AttachItems(done, NoItem), ts))
    ensures ItemList(AttachItems(done, NoItem)) == done
  {
    AttachedList(done);
  }

  lemma {:induction false} AttachedList(done: seq<Primary>)
    ensures ItemList(AttachItems(done, NoItem)) == done
  {
    if done != [] {
      AttachedList(done[1..]);
    }
  }

  lemma NothingDoneAnd(ts1: seq<Token>, n: Not, f: EvalFn)
    requires forall m :: f(m) == MeanNot(n, m)
    ensures AndSoFar(ts1, ts1, []) && AndValued(n, [], f)
  {
  }

  lemma AndEnds(ts1: seq<Token>, ts: seq<Token>, done: seq<Not>)
    requires AndSoFar(ts1, ts, done) && !Next(ts, AndTok)
    ensures ParseAndMore(ts1) == Some((AttachAnd(done, NoAnd), ts))
  {
  }

  lemma NothingDone(ts1: seq<Token>, a: And, f: EvalFn)
    requires forall m :: f(m) == MeanAnd(a, m)
    ensures OrSoFar(ts1, ts1, []) && OrValued(a, [], f)
  {
  }

  lemma OrEnds(ts1: seq<Token>, ts: seq<Token>, done: seq<And>)
    requires OrSoFar(ts1, ts, done) && !Next(ts, OrTok)
    ensures ParseOrMore(ts1) == Some((Attach(done, NoOr), ts))
  {
  }
}
