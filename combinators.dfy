/** The nom combinators the grammar is built from. A parser reads an input
    cursor and yields `Some(Parsed(value, rest))` or `None`; a failure carries
    no cursor, so a failed attempt consumes nothing. The remaining text of a
    cursor is `text[pos..]`, so a cursor further along the same text stands
    for a suffix of the input. */
module Combinators {
  import opened Wrappers

  datatype Cursor = Cursor(text: string, pos: nat)

  /** A position inside its text. */
  type Input = c: Cursor | c.pos <= |c.text| witness Cursor([], 0)

  datatype Parsed<+T> = Parsed(value: T, rest: Input)

  type Parser<T> = Input -> Option<Parsed<T>>

  /** The text still to be read. */
  function Remaining(c: Input): string {
    c.text[c.pos..]
  }

  /** `r` is `c` after zero or more characters were consumed. */
  predicate Advances(r: Input, c: Input) {
    r.text == c.text && c.pos <= r.pos
  }

  /** `r` is `c` after at least one character was consumed. */
  predicate Consumes(r: Input, c: Input) {
    r.text == c.text && c.pos < r.pos
  }

  predicate IsSuffix(r: string, s: string) {
    |r| <= |s| && s[|s| - |r|..] == r
  }

  /** Advancing a cursor leaves a suffix of the text it had left. */
  lemma AdvancesIsSuffix(r: Input, c: Input)
    requires Advances(r, c)
    ensures IsSuffix(Remaining(r), Remaining(c))
    ensures Remaining(c) == c.text[c.pos..r.pos] + Remaining(r)
  {
    assert Remaining(c)[|Remaining(c)| - |Remaining(r)|..] == Remaining(r);
  }

  /** Every success of `p` leaves a cursor further along the same text. */
  ghost predicate Sound<T>(p: Parser<T>) {
    forall c :: p(c).Some? ==> Advances(p(c).value.rest, c)
  }

  /** Every success of `p` consumes at least one character. */
  ghost predicate Progress<T>(p: Parser<T>) {
    forall c :: p(c).Some? ==> Consumes(p(c).value.rest, c)
  }

  /** `many0`: applies `p` until it fails, collecting the results in order. As
      in nom, a success of `p` that consumes nothing makes the whole loop fail. */
  function Many0<T>(p: Parser<T>, c: Input): (r: Option<Parsed<seq<T>>>)
    requires Sound(p)
    ensures r.Some? ==> Advances(r.value.rest, c)
    ensures r.Some? ==> p(r.value.rest).None?
    ensures p(c).None? ==> r == Some(Parsed([], c))
    ensures r.Some? && p(c).Some? ==> |r.value.value| >= 1 && r.value.value[0] == p(c).value.value
    decreases |c.text| - c.pos
  {
    match p(c)
    case None => Some(Parsed([], c))
    case Some(first) =>
      if first.rest == c then None
      else
        var more :- Many0(p, first.rest);
        Some(Parsed([first.value] + more.value, more.rest))
  }

  /** A parser that always consumes something never makes `many0` fail. */
  lemma {:induction false} Many0Total<T>(p: Parser<T>, c: Input)
    requires Progress(p)
    ensures Sound(p) && Many0(p, c).Some?
    decreases |c.text| - c.pos
  {
    if p(c).Some? {
      Many0Total(p, p(c).value.rest);
    }
  }

  /** `many0` after one consuming result of `p`: that result in front of
      what `many0` reads from where it stopped. */
  lemma Many0Step<T>(p: Parser<T>, c: Input, first: Parsed<T>, more: Parsed<seq<T>>)
    requires Sound(p)
    requires p(c) == Some(first) && first.rest != c
    requires Many0(p, first.rest) == Some(more)
    ensures Many0(p, c) == Some(Parsed([first.value] + more.value, more.rest))
  {
  }

  /** `p` reads `vs` one after another from `c`, each time consuming
      something, and fails at `end`. */
  ghost predicate Chain<T>(p: Parser<T>, c: Input, vs: seq<T>, end: Input)
    decreases |vs|
  {
    if vs == [] then c == end && p(c).None?
    else
      && p(c).Some? && p(c).value.value == vs[0] && p(c).value.rest != c
      && Chain(p, p(c).value.rest, vs[1..], end)
  }

  /** A consuming result of `p` in front of a chain extends it. */
  lemma ChainCons<T>(p: Parser<T>, c: Input, v: T, next: Input, vs: seq<T>, end: Input)
    requires p(c) == Some(Parsed(v, next)) && next != c
    requires Chain(p, next, vs, end)
    ensures Chain(p, c, [v] + vs, end)
  {
    assert ([v] + vs)[1..] == vs;
  }

  /** `many0` collects exactly the chains of `p`: it yields `vs` and stops
      at `end` if and only if `p` reads `vs` one after another from `c`, each
      time consuming something, and fails at `end`. */
  lemma {:induction false} Many0Chain<T>(p: Parser<T>, c: Input, vs: seq<T>, end: Input)
    requires Sound(p)
    ensures Many0(p, c) == Some(Parsed(vs, end)) <==> Chain(p, c, vs, end)
    decreases |vs|
  {
    if Chain(p, c, vs, end) {
      if vs != [] {
        var first := p(c).value;
        Many0Chain(p, first.rest, vs[1..], end);
        Many0Step(p, c, first, Parsed(vs[1..], end));
        assert [vs[0]] + vs[1..] == vs;
      }
    } else if Many0(p, c) == Some(Parsed(vs, end)) {
      if p(c).Some? {
        var first := p(c).value;
        var more := Many0(p, first.rest).value;
        assert vs == [first.value] + more.value;
        assert vs[1..] == more.value;
        Many0Chain(p, first.rest, vs[1..], end);
      }
      assert false;
    }
  }

  /** `many1`: one result of `p`, then `many0` of it. */
  function Many1<T>(p: Parser<T>, c: Input): (r: Option<Parsed<seq<T>>>)
    requires Sound(p)
    ensures r.Some? ==> Advances(r.value.rest, c) && |r.value.value| >= 1
    ensures r.Some? ==> p(c).Some? && r.value.value[0] == p(c).value.value
    ensures r.Some? ==> p(r.value.rest).None?
    ensures p(c).None? ==> r.None?
  {
    var first :- p(c);
    var more :- Many0(p, first.rest);
    Some(Parsed([first.value] + more.value, more.rest))
  }

  /** `many1` collects exactly the non-empty chains of `p`. */
  lemma Many1Chain<T>(p: Parser<T>, c: Input, vs: seq<T>, end: Input)
    requires Sound(p)
    ensures Many1(p, c) == Some(Parsed(vs, end)) <==> vs != [] && Chain(p, c, vs, end)
  {
    if vs != [] && Chain(p, c, vs, end) {
      var first := p(c).value;
      Many0Chain(p, first.rest, vs[1..], end);
      assert [vs[0]] + vs[1..] == vs;
    } else if Many1(p, c) == Some(Parsed(vs, end)) {
      var first := p(c).value;
      var more := Many0(p, first.rest).value;
      Many0Chain(p, first.rest, more.value, more.rest);
      assert false;
    }
  }

  /** `opt`: never fails; consumes nothing when `p` fails. */
  function Opt<T>(p: Parser<T>, c: Input): (r: Option<Parsed<Option<T>>>)
    ensures r.Some?
    ensures r.value.value.None? <==> p(c).None?
    ensures p(c).None? ==> r.value.rest == c
    ensures p(c).Some? ==> r.value == Parsed(Some(p(c).value.value), p(c).value.rest)
  {
    match p(c)
    case None => Some(Parsed(None, c))
    case Some(x) => Some(Parsed(Some(x.value), x.rest))
  }

  /** `alt` of two branches: the first that succeeds. */
  function Alt<T>(p: Parser<T>, q: Parser<T>, c: Input): (r: Option<Parsed<T>>)
    ensures r.Some? <==> p(c).Some? || q(c).Some?
    ensures p(c).Some? ==> r == p(c)
    ensures p(c).None? ==> r == q(c)
  {
    if p(c).Some? then p(c) else q(c)
  }

  /** `preceded`: runs `p`, drops its value, then runs `q` where `p` stopped. */
  function Preceded<A, B>(p: Parser<A>, q: Parser<B>, c: Input): (r: Option<Parsed<B>>)
    requires Sound(p) && Sound(q)
    ensures r.Some? ==> Advances(r.value.rest, c)
    ensures p(c).None? ==> r.None?
    ensures p(c).Some? ==> r == q(p(c).value.rest)
  {
    var a :- p(c);
    q(a.rest)
  }
}
