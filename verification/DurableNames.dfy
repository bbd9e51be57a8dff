/** The names under which a durable subscription is kept: its key in memory and its directory on disk. */
module DurableNames {
  /** A durable subscription, as clients know it. */
  datatype Pair = Pair(client: string, name: string)

  const KEY_SEPARATOR: char := '\U{1f}'
  const DIR_SEPARATOR: char := '-'
  const DIR_PREFIX := "durable-"
  const PATH_SEPARATOR: char := '/'

  /** Client id and name with a separator between them; an empty client id leaves the name alone. */
  function Joined(p: Pair, sep: char): string {
    if p.client == "" then p.name else p.client + [sep] + p.name
  }

  /** durableKey. */
  function Key(p: Pair): string {
    Joined(p, KEY_SEPARATOR)
  }

  /** The name of the directory that is appended to the topic's path. */
  function DirName(p: Pair): string {
    DIR_PREFIX + Joined(p, DIR_SEPARATOR)
  }

  /** A directory, as the components that lead to it from the topic's. */
  type Path = seq<string>

  /** How a directory name is parsed and followed. */
  type Resolver = string -> Path

  function Dir(fs: Resolver, p: Pair): Path {
    fs(DirName(p))
  }

  /** One directory is the other or lies in it. */
  predicate Nested(a: Path, b: Path) {
    a <= b || b <= a
  }

  /** q's client id is empty and its name spells out p. */
  predicate SpellsOut(p: Pair, q: Pair, sep: char) {
    q.client == "" && p.client != "" && q.name == p.client + [sep] + p.name
  }

  /** q's client id goes on behind p's with a separator and a part with which p's name starts. */
  predicate Overlaps(p: Pair, q: Pair, sep: char) {
    && p.client != "" && |p.client| < |q.client|
    && q.client[..|p.client|] == p.client && q.client[|p.client|] == sep
    && p.name == q.client[|p.client| + 1..] + [sep] + q.name
  }

  /** Two different subscriptions get the same joined name in exactly these ways. */
  predicate Meet(p: Pair, q: Pair, sep: char) {
    SpellsOut(p, q, sep) || SpellsOut(q, p, sep) || Overlaps(p, q, sep) || Overlaps(q, p, sep)
  }

  lemma LongerClient(p: Pair, q: Pair, sep: char)
    requires p.client != "" && |p.client| < |q.client|
    ensures Joined(p, sep) == Joined(q, sep) <==> Overlaps(p, q, sep)
  {
    var n := |p.client|;
    var a, b := Joined(p, sep), Joined(q, sep);
    assert a[..n] == p.client && a[n] == sep && a[n + 1..] == p.name;
    assert b[..n] == q.client[..n] && b[n] == q.client[n] && b[n + 1..] == q.client[n + 1..] + [sep] + q.name;
    assert a == a[..n] + [a[n]] + a[n + 1..] && b == b[..n] + [b[n]] + b[n + 1..];
  }

  lemma SameLength(p: Pair, q: Pair, sep: char)
    requires p.client != "" && |p.client| == |q.client|
    ensures Joined(p, sep) == Joined(q, sep) <==> p == q
  {
    var n := |p.client|;
    var a, b := Joined(p, sep), Joined(q, sep);
    assert a[..n] == p.client && a[n + 1..] == p.name;
    assert b[..n] == q.client && b[n + 1..] == q.name;
  }

  /** Joined names are equal if and only if the subscriptions are the same or meet in one of the ways above. */
  lemma JoinedExactly(p: Pair, q: Pair, sep: char)
    ensures Joined(p, sep) == Joined(q, sep) <==> p == q || Meet(p, q, sep)
  {
    if p.client != "" && q.client != "" {
      if |p.client| < |q.client| {
        LongerClient(p, q, sep);
      } else if |q.client| < |p.client| {
        LongerClient(q, p, sep);
      } else {
        SameLength(p, q, sep);
      }
    }
  }

  /** Two subscriptions share a key if and only if they are the same or meet at the unit separator. */
  lemma KeysExactly(p: Pair, q: Pair)
    ensures Key(p) == Key(q) <==> p == q || Meet(p, q, KEY_SEPARATOR)
  {
    JoinedExactly(p, q, KEY_SEPARATOR);
  }

  lemma DirNamesExactly(p: Pair, q: Pair)
    ensures DirName(p) == DirName(q) <==> p == q || Meet(p, q, DIR_SEPARATOR)
  {
    JoinedExactly(p, q, DIR_SEPARATOR);
    var a, b := Joined(p, DIR_SEPARATOR), Joined(q, DIR_SEPARATOR);
    assert DirName(p)[|DIR_PREFIX|..] == a && DirName(q)[|DIR_PREFIX|..] == b;
  }

  predicate PlainName(p: Pair) {
    PATH_SEPARATOR !in p.client && PATH_SEPARATOR !in p.name
  }

  /** A name without a path separator is one component. */
  ghost predicate Literal(fs: Resolver) {
    forall d: string :: PATH_SEPARATOR !in d && DIR_PREFIX <= d ==> fs(d) == [d]
  }

  /** Subscriptions without path separators in their names have one directory, or one in the other's, if and only if they are the same or meet at a hyphen. */
  lemma DirsExactly(fs: Resolver, p: Pair, q: Pair)
    requires Literal(fs) && PlainName(p) && PlainName(q)
    ensures Nested(Dir(fs, p), Dir(fs, q)) <==> p == q || Meet(p, q, DIR_SEPARATOR)
  {
    DirNamesExactly(p, q);
    PlainDirName(p);
    PlainDirName(q);
    assert Dir(fs, p) == [DirName(p)] && Dir(fs, q) == [DirName(q)];
    assert [DirName(p)] <= [DirName(q)] <==> [DirName(p)][0] == [DirName(q)][0];
  }

  lemma PlainDirName(p: Pair)
    requires PlainName(p)
    ensures PATH_SEPARATOR !in DirName(p) && DIR_PREFIX <= DirName(p)
  {
    assert DirName(p)[..|DIR_PREFIX|] == DIR_PREFIX;
    assert DirName(p) == DIR_PREFIX + Joined(p, DIR_SEPARATOR);
  }

  /** Names without the separator never meet. */
  lemma PlainNamesApart(p: Pair, q: Pair, sep: char)
    requires sep !in p.client && sep !in p.name && sep !in q.client && sep !in q.name
    ensures !Meet(p, q, sep)
  {
    assert (p.client + [sep] + p.name)[|p.client|] == sep && (q.client + [sep] + q.name)[|q.client|] == sep;
  }

  /** Two subscriptions with one key. */
  lemma KeysCanMeet()
    ensures Key(Pair("", ['a', KEY_SEPARATOR, 'b'])) == Key(Pair("a", "b"))
  {
    assert "a" + [KEY_SEPARATOR] + "b" == ['a', KEY_SEPARATOR, 'b'];
  }

  /** Two subscriptions with different keys and one directory name. */
  lemma DirsCanMeet()
    ensures DirName(Pair("a", "b-c")) == DirName(Pair("a-b", "c")) && Key(Pair("a", "b-c")) != Key(Pair("a-b", "c"))
  {
    assert "a" + ['-'] + "b-c" == "a-b" + ['-'] + "c";
    assert Key(Pair("a", "b-c"))[1] == KEY_SEPARATOR && Key(Pair("a-b", "c"))[1] == '-';
  }

  /** The spelling of keys and directory names. */
  lemma SpelledOut(c: string, n: string)
    ensures Key(Pair("", n)) == n && DirName(Pair("", n)) == "durable-" + n
    ensures c != "" ==> Key(Pair(c, n)) == c + "\U{1f}" + n && DirName(Pair(c, n)) == "durable-" + (c + "-" + n)
  {
    assert c + ['-'] + n == c + "-" + n && c + ['\U{1f}'] + n == c + "\U{1f}" + n;
  }

  // ---- Names with path separators ----

  /** The pieces between the path separators. */
  function Pieces(d: string): (r: seq<string>)
    ensures r != []
  {
    if d == "" then [""]
    else
      var rest := Pieces(d[1..]);
      if d[0] == PATH_SEPARATOR then [""] + rest else [[d[0]] + rest[0]] + rest[1..]
  }

  /** Empty pieces and dots lead nowhere, and two dots lead back. */
  function Followed(pieces: seq<string>): Path {
    if pieces == [] then []
    else
      var before, last := Followed(pieces[..|pieces| - 1]), pieces[|pieces| - 1];
      if last == "" || last == "." then before
      else if last == ".." && before != [] && before[|before| - 1] != ".." then before[..|before| - 1]
      else before + [last]
  }

  /** A directory name as a POSIX path. */
  function Components(d: string): Path {
    Followed(Pieces(d))
  }

  lemma {:induction false} PiecesOf(a: string, rest: string)
    requires PATH_SEPARATOR !in a
    ensures Pieces(a + [PATH_SEPARATOR] + rest) == [a] + Pieces(rest)
  {
    var d := a + [PATH_SEPARATOR] + rest;
    if a == "" {
      assert d[1..] == rest;
    } else {
      PiecesOf(a[1..], rest);
      assert d[1..] == a[1..] + [PATH_SEPARATOR] + rest;
      assert [a[0]] + a[1..] == a;
    }
  }

  lemma {:induction false} OnePiece(a: string)
    requires PATH_SEPARATOR !in a
    ensures Pieces(a) == [a]
  {
    if a != "" {
      OnePiece(a[1..]);
      assert [a[0]] + a[1..] == a;
    }
  }

  lemma ComponentsLiteral()
    ensures Literal(Components)
  {
    forall d: string | PATH_SEPARATOR !in d && DIR_PREFIX <= d ensures Components(d) == [d] {
      OnePiece(d);
      assert |d| >= |DIR_PREFIX|;
      FollowedOne(d);
    }
  }

  lemma PlainDir(a: string)
    requires PATH_SEPARATOR !in a
    ensures Dir(Components, Pair("", a)) == [DIR_PREFIX + a]
  {
    PlainDirName(Pair("", a));
    ComponentsLiteral();
  }

  /** A subscription whose directory lies in another's. */
  lemma DirsCanNest(a: string, b: string)
    requires PATH_SEPARATOR !in a && PATH_SEPARATOR !in b && b != "" && b != "." && b != ".."
    ensures Dir(Components, Pair("", a)) == [DIR_PREFIX + a]
    ensures Dir(Components, Pair("", a + [PATH_SEPARATOR] + b)) == [DIR_PREFIX + a, b]
    ensures Key(Pair("", a)) != Key(Pair("", a + [PATH_SEPARATOR] + b))
  {
    PlainDir(a);
    PlainDirName(Pair("", a));
    var d, name := DIR_PREFIX + a, a + [PATH_SEPARATOR] + b;
    hide Pieces, Followed;
    OnePiece(b);
    PiecesOf(d, b);
    assert DIR_PREFIX + name == d + [PATH_SEPARATOR] + b;
    assert |d| > 2;
    FollowedOne(d);
    FollowedNext([d], b);
    assert |name| > |a|;
  }

  /** Two subscriptions with different directory names and one directory. */
  lemma DirsCanTurnBack(x: string, b: string)
    requires PATH_SEPARATOR !in x && PATH_SEPARATOR !in b
    ensures var name := x + [PATH_SEPARATOR] + ".." + [PATH_SEPARATOR] + DIR_PREFIX + b;
      Dir(Components, Pair("", b)) == Dir(Components, Pair("", name)) && Key(Pair("", b)) != Key(Pair("", name))
  {
    var d, e, name := DIR_PREFIX + x, DIR_PREFIX + b, x + [PATH_SEPARATOR] + ".." + [PATH_SEPARATOR] + DIR_PREFIX + b;
    PlainDir(b);
    PlainDirName(Pair("", b));
    PlainDirName(Pair("", x));
    assert |d| > 2 && |e| > 2 && |name| > |b|;
    assert DIR_PREFIX + name == d + [PATH_SEPARATOR] + (".." + [PATH_SEPARATOR] + e);
    BackAndDown(d, e);
  }

  lemma BackAndDown(d: string, e: string)
    requires PATH_SEPARATOR !in d && PATH_SEPARATOR !in e && |d| > 2 && |e| > 2
    ensures Components(d + [PATH_SEPARATOR] + (".." + [PATH_SEPARATOR] + e)) == [e]
  {
    hide Pieces, Followed;
    OnePiece(e);
    PiecesOf("..", e);
    PiecesOf(d, ".." + [PATH_SEPARATOR] + e);
    FollowedOne(d);
    FollowedNext([d], "..");
    FollowedNext([d] + [".."], e);
    assert [d] + ([".."] + [e]) == [d] + [".."] + [e];
  }

  lemma FollowedOne(d: string)
    requires d != "" && d != "." && d != ".."
    ensures Followed([d]) == [d]
  {
    assert [d][..0] == [];
  }

  lemma FollowedNext(pieces: seq<string>, last: string)
    ensures var before := Followed(pieces);
      Followed(pieces + [last]) ==
        if last == "" || last == "." then before
        else if last == ".." && before != [] && before[|before| - 1] != ".." then before[..|before| - 1]
        else before + [last]
  {
    assert (pieces + [last])[..|pieces|] == pieces;
  }
}
