/** What a selector means: values, comparisons, three-valued logic, and LIKE with its translation to a regular expression. */
module SelectorMeaning {
  import opened Options
  import opened SelectorSyntax

  datatype Value = Null | Bool(b: bool) | Int(i: int) | Dbl(r: real) | Text(s: string)

  /** The properties of a message; an absent one reads as Null. */
  type Props = map<string, Value>

  // ---- Comparisons: plain booleans, false where a side is Null ----

  predicate IsNumeric(v: Value) {
    v.Int? || v.Dbl?
  }

  function Number(v: Value): real
    requires IsNumeric(v)
  {
    if v.Int? then v.i as real else v.r
  }

  predicate SelEq(a: Value, b: Value) {
    if a.Null? || b.Null? then false
    else if IsNumeric(a) && IsNumeric(b) then Number(a) == Number(b)
    else a == b
  }

  predicate SelLt(a: Value, b: Value) {
    IsNumeric(a) && IsNumeric(b) && Number(a) < Number(b)
  }

  predicate Compare(op: Op, a: Value, b: Value) {
    match op
    case Eq => SelEq(a, b)
    case Neq => !SelEq(a, b)
    case Lt => SelLt(a, b)
    case Lte => SelEq(a, b) || SelLt(a, b)
    case Gt => SelLt(b, a)
    case Gte => SelEq(a, b) || SelLt(b, a)
  }

  // ---- Three-valued logic ----

  datatype Tri = T | F | U

  /** A value that is not a boolean counts as unknown. */
  function Truth(v: Value): Tri {
    if v.Bool? then (if v.b then T else F) else U
  }

  function ValueOf(t: Tri): Value {
    match t
    case T => Bool(true)
    case F => Bool(false)
    case U => Null
  }

  /** True if one is true, false if all are false, unknown otherwise. */
  function Any(ts: seq<Tri>): Tri {
    if T in ts then T else if U in ts then U else F
  }

  /** False if one is false, true if all are true, unknown otherwise. */
  function All(ts: seq<Tri>): Tri {
    if F in ts then F else if U in ts then U else T
  }

  function Opposite(t: Tri): Tri {
    match t
    case T => F
    case F => T
    case U => U
  }

  /** The closure that parseOr builds: the right side is not looked at if the left is true. */
  function OrValue(l: Value, r: Value): Value {
    if l == Bool(true) then Bool(true)
    else if r == Bool(true) then Bool(true)
    else if l.Bool? && r.Bool? then Bool(false)
    else Null
  }

  function AndValue(l: Value, r: Value): Value {
    if l == Bool(false) then Bool(false)
    else if r == Bool(false) then Bool(false)
    else if l.Bool? && r.Bool? then Bool(true)
    else Null
  }

  function NotValue(v: Value): Value {
    if v.Bool? then Bool(!v.b) else Null
  }

  // ---- The meaning of a tree ----

  function MeanOr(o: Or, m: Props): Value {
    if o.more.NoOr? then MeanAnd(o.first, m)
    else ValueOf(Any([Truth(MeanAnd(o.first, m))] + OrTruths(o.more, m)))
  }

  function OrTruths(more: OrMore, m: Props): seq<Tri> {
    if more.NoOr? then [] else [Truth(MeanAnd(more.next, m))] + OrTruths(more.more, m)
  }

  function MeanAnd(a: And, m: Props): Value {
    if a.more.NoAnd? then MeanNot(a.first, m)
    else ValueOf(All([Truth(MeanNot(a.first, m))] + AndTruths(a.more, m)))
  }

  function AndTruths(more: AndMore, m: Props): seq<Tri> {
    if more.NoAnd? then [] else [Truth(MeanNot(more.next, m))] + AndTruths(more.more, m)
  }

  function MeanNot(n: Not, m: Props): Value {
    match n
    case Not(e) => ValueOf(Opposite(Truth(MeanNot(e, m))))
    case Plain(c) => MeanComparison(c, m)
  }

  function MeanComparison(c: Comparison, m: Props): Value {
    var v := MeanPrimary(c.p, m);
    match c
    case Just(_) => v
    case IsNull(_, negated) => Bool(v.Null? != negated)
    case Between(_, negated, low, high) =>
      Bool((Compare(Gte, v, MeanPrimary(low, m)) && Compare(Lte, v, MeanPrimary(high, m))) != negated)
    case In(_, negated, first, more) =>
      if v.Null? then Null
      else
        var items := [MeanPrimary(first, m)] + ItemValues(more, m);
        Bool((exists k :: 0 <= k < |items| && SelEq(v, items[k])) != negated)
    case Like(_, negated, pattern) => if !v.Text? then Null else Bool(RegexMatch(AtomsOf(pattern), v.s) != negated)
    case Relation(_, op, right) => Bool(Compare(op, v, MeanPrimary(right, m)))
  }

  function ItemValues(more: Items, m: Props): seq<Value> {
    if more.NoItem? then [] else [MeanPrimary(more.next, m)] + ItemValues(more.more, m)
  }

  function MeanPrimary(p: Primary, m: Props): Value {
    match p
    case Paren(e) => MeanOr(e, m)
    case Literal(t) => LiteralValue(t, m)
  }

  function LiteralValue(t: Token, m: Props): Value {
    match t
    case Ident(name) => if name in m then m[name] else Null
    case Str(text) => Text(text)
    case IntLit(i) => Int(i)
    case FloatLit(r) => Dbl(r)
    case TrueLit => Bool(true)
    case FalseLit => Bool(false)
    case _ => Null
  }

  // ---- Chains of closures and the n-ary connectives ----

  /** The value of the closures that the loop of parseOr nests, leftmost innermost. */
  function OrChain(left: Value, more: OrMore, m: Props): Value
    decreases more
  {
    if more.NoOr? then left else OrChain(OrValue(left, MeanAnd(more.next, m)), more.more, m)
  }

  function AndChain(left: Value, more: AndMore, m: Props): Value
    decreases more
  {
    if more.NoAnd? then left else AndChain(AndValue(left, MeanNot(more.next, m)), more.more, m)
  }

  lemma {:induction false} OrChainMeans(left: Value, more: OrMore, m: Props)
    requires more.OrThen?
    ensures OrChain(left, more, m) == ValueOf(Any([Truth(left)] + OrTruths(more, m)))
    decreases more
  {
    hide MeanAnd;
    var r := MeanAnd(more.next, m);
    var ts := [Truth(left)] + OrTruths(more, m);
    if more.more.NoOr? {
      assert OrTruths(more.more, m) == [];
      assert ts == [Truth(left), Truth(r)];
    } else {
      OrChainMeans(OrValue(left, r), more.more, m);
      AnyMerge(Truth(left), Truth(r), OrTruths(more.more, m));
      assert ts == [Truth(left), Truth(r)] + OrTruths(more.more, m);
    }
  }

  lemma {:induction false} AndChainMeans(left: Value, more: AndMore, m: Props)
    requires more.AndThen?
    ensures AndChain(left, more, m) == ValueOf(All([Truth(left)] + AndTruths(more, m)))
    decreases more
  {
    hide MeanNot;
    var r := MeanNot(more.next, m);
    var ts := [Truth(left)] + AndTruths(more, m);
    if more.more.NoAnd? {
      assert AndTruths(more.more, m) == [];
      assert ts == [Truth(left), Truth(r)];
    } else {
      AndChainMeans(AndValue(left, r), more.more, m);
      AllMerge(Truth(left), Truth(r), AndTruths(more.more, m));
      assert ts == [Truth(left), Truth(r)] + AndTruths(more.more, m);
    }
  }

  lemma AnyMerge(a: Tri, b: Tri, ts: seq<Tri>)
    ensures Any([Any([a, b])] + ts) == Any([a, b] + ts)
  {
  }

  lemma AllMerge(a: Tri, b: Tri, ts: seq<Tri>)
    ensures All([All([a, b])] + ts) == All([a, b] + ts)
  {
  }

  /** The closures of parseOr evaluate to the disjunction of all operands, whatever their order. */
  lemma OrCompiles(o: Or, m: Props)
    ensures OrChain(MeanAnd(o.first, m), o.more, m) == MeanOr(o, m)
  {
    if o.more.OrThen? {
      OrChainMeans(MeanAnd(o.first, m), o.more, m);
    }
  }

  lemma AndCompiles(a: And, m: Props)
    ensures AndChain(MeanNot(a.first, m), a.more, m) == MeanAnd(a, m)
  {
    if a.more.AndThen? {
      AndChainMeans(MeanNot(a.first, m), a.more, m);
    }
  }

  // ---- LIKE ----

  /** LIKE as the JMS specification has it: % stands for any characters, _ for one, the rest for themselves. */
  predicate LikeMatch(p: string, t: string) {
    if p == "" then t == ""
    else if p[0] == '%' then exists k :: 0 <= k <= |t| && LikeMatch(p[1..], t[k..])
    else t != "" && (p[0] == '_' || p[0] == t[0]) && LikeMatch(p[1..], t[1..])
  }

  /** The regular expressions that likeToRegex produces. */
  datatype Atom = Dot | DotStar | Lit(c: char)

  predicate IsSpecial(c: char) {
    c in {'.', '^', '$', '*', '+', '?', '(', ')', '[', ']', '{', '}', '|', '\\'}
  }

  function RegexChar(c: char): string {
    if c == '%' then ".*" else if c == '_' then "." else if IsSpecial(c) then ['\\', c] else [c]
  }

  function RegexBody(p: string): string {
    if p == "" then "" else RegexChar(p[0]) + RegexBody(p[1..])
  }

  function AtomOf(c: char): Atom {
    if c == '%' then DotStar else if c == '_' then Dot else Lit(c)
  }

  function AtomsOf(p: string): seq<Atom> {
    if p == "" then [] else [AtomOf(p[0])] + AtomsOf(p[1..])
  }

  /** How a regular expression of this kind is read, up to its final $. */
  function ReadRegex(r: string): Option<seq<Atom>> {
    if r == "$" then Some([])
    else if r == "" then None
    else if r[0] == '\\' then
      if |r| < 2 || !IsSpecial(r[1]) then None else Prepend(Lit(r[1]), ReadRegex(r[2..]))
    else if r[0] == '.' then
      if |r| > 1 && r[1] == '*' then Prepend(DotStar, ReadRegex(r[2..])) else Prepend(Dot, ReadRegex(r[1..]))
    else if IsSpecial(r[0]) then None
    else Prepend(Lit(r[0]), ReadRegex(r[1..]))
  }

  function Prepend(a: Atom, rest: Option<seq<Atom>>): Option<seq<Atom>> {
    if rest.Some? then Some([a] + rest.value) else None
  }

  /** The translation escapes what must be escaped: it is read back as the intended atoms. */
  lemma {:induction false} RegexReadsBack(p: string)
    ensures ReadRegex(RegexBody(p) + "$") == Some(AtomsOf(p))
  {
    if p != "" {
      var tail := RegexBody(p[1..]) + "$";
      RegexReadsBack(p[1..]);
      BodyStart(p[1..]);
      var r := RegexBody(p) + "$";
      assert r == RegexChar(p[0]) + tail;
      if p[0] == '%' || (p[0] != '_' && IsSpecial(p[0])) {
        assert r[2..] == tail;
      } else {
        assert r[1..] == tail;
      }
    } else {
      assert RegexBody(p) + "$" == "$";
    }
  }

  /** No translated pattern starts with a bare star. */
  lemma BodyStart(p: string)
    ensures var r := RegexBody(p) + "$"; r != "" && r[0] != '*'
  {
  }

  predicate LineEnd(c: char) {
    c == '\n' || c == '\r'
  }

  predicate NoLineEnd(t: string) {
    forall k :: 0 <= k < |t| ==> !LineEnd(t[k])
  }

  /** regex_match: the dot does not match the end of a line. */
  predicate RegexMatch(atoms: seq<Atom>, t: string) {
    if atoms == [] then t == ""
    else match atoms[0]
      case DotStar => exists k :: 0 <= k <= |t| && NoLineEnd(t[..k]) && RegexMatch(atoms[1..], t[k..])
      case Dot => t != "" && !LineEnd(t[0]) && RegexMatch(atoms[1..], t[1..])
      case Lit(c) => t != "" && c == t[0] && RegexMatch(atoms[1..], t[1..])
  }

  /** What the regular expression matches, LIKE matches; the converse needs text without line ends. */
  lemma {:induction false} RegexVersusLike(p: string, t: string)
    ensures RegexMatch(AtomsOf(p), t) ==> LikeMatch(p, t)
    ensures NoLineEnd(t) && LikeMatch(p, t) ==> RegexMatch(AtomsOf(p), t)
  {
    if p != "" {
      var atoms := AtomsOf(p);
      assert atoms[1..] == AtomsOf(p[1..]);
      if p[0] == '%' {
        forall k | 0 <= k <= |t|
          ensures RegexMatch(atoms[1..], t[k..]) ==> LikeMatch(p[1..], t[k..])
          ensures NoLineEnd(t) && LikeMatch(p[1..], t[k..]) ==> RegexMatch(atoms[1..], t[k..])
        {
          RegexVersusLike(p[1..], t[k..]);
        }
      } else if t != "" {
        RegexVersusLike(p[1..], t[1..]);
      }
    }
  }

  /** Running a regular expression as the parser stores it, anchors included. */
  predicate RunRegex(r: string, t: string) {
    r != "" && r[0] == '^' && ReadRegex(r[1..]).Some? && RegexMatch(ReadRegex(r[1..]).value, t)
  }

  /** likeToRegex: the loop over the pattern. */
  method LikeToRegex(pattern: string) returns (r: string)
    ensures r == "^" + RegexBody(pattern) + "$"
    ensures forall t :: RunRegex(r, t) <==> RegexMatch(AtomsOf(pattern), t)
  {
    r := "^";
    for k := 0 to |pattern|
      invariant r == "^" + RegexBody(pattern[..k])
    {
      var c := pattern[k];
      BodySnoc(pattern[..k], c);
      assert pattern[..k + 1] == pattern[..k] + [c];
      if c == '%' {
        r := r + ".*";
      } else if c == '_' {
        r := r + ".";
      } else if IsSpecial(c) {
        r := r + ['\\', c];
      } else {
        r := r + [c];
      }
    }
    assert pattern[..|pattern|] == pattern;
    r := r + "$";
    RegexReadsBack(pattern);
    assert r[1..] == RegexBody(pattern) + "$";
  }

  lemma {:induction false} BodySnoc(p: string, c: char)
    ensures RegexBody(p + [c]) == RegexBody(p) + RegexChar(c)
  {
    if p == "" {
      assert p + [c] == [c] && RegexBody([c]) == RegexChar(c) + RegexBody("");
    } else {
      BodySnoc(p[1..], c);
      assert (p + [c])[1..] == p[1..] + [c];
    }
  }

  /** On a text the translation is right for every pattern exactly if the text has no line end. */
  lemma LikeExactlyWithoutLineEnds(t: string)
    ensures (forall p :: RegexMatch(AtomsOf(p), t) <==> LikeMatch(p, t)) <==> NoLineEnd(t)
  {
    forall p
      ensures NoLineEnd(t) ==> (RegexMatch(AtomsOf(p), t) <==> LikeMatch(p, t))
    {
      RegexVersusLike(p, t);
    }
    if !NoLineEnd(t) {
      var p := "%";
      assert AtomsOf(p) == [DotStar];
      assert LikeMatch(p[1..], t[|t|..]);
      assert forall k :: 0 <= k <= |t| && RegexMatch([], t[k..]) ==> t[..k] == t;
    }
  }
}
