/** The streaming check that a manifest's JSON is not nested too deeply, against the nesting of its values. */
module JsonDepth {

  /** What json.Decoder.Token yields: a bracket, or anything else. */
  datatype Token = OpenBrace | OpenBracket | CloseBrace | CloseBracket | Scalar

  /** A JSON value. The items of an object are its keys and values in turn. */
  datatype Value = Atom | Nest(braced: bool, items: seq<Value>)

  function Tokens(v: Value): (ts: seq<Token>)
    ensures |ts| > 0
    decreases v
  {
    match v
    case Atom => [Scalar]
    case Nest(isObject, items) =>
      [if isObject then OpenBrace else OpenBracket] + TokensOf(items) + [if isObject then CloseBrace else CloseBracket]
  }

  function TokensOf(vs: seq<Value>): seq<Token>
    decreases vs
  {
    if vs == [] then [] else Tokens(vs[0]) + TokensOf(vs[1..])
  }

  /** The nesting of a value: none for an atom, one more than its deepest item for an object or array. */
  function Nesting(v: Value): nat
    decreases v
  {
    match v
    case Atom => 0
    case Nest(_, items) => 1 + NestingOf(items)
  }

  function NestingOf(vs: seq<Value>): nat
    decreases vs
  {
    if vs == [] then 0 else Max(Nesting(vs[0]), NestingOf(vs[1..]))
  }

  function Max(a: nat, b: nat): nat { if a < b then b else a }

  function Change(t: Token): int {
    if t.OpenBrace? || t.OpenBracket? then 1 else if t.CloseBrace? || t.CloseBracket? then -1 else 0
  }

  /** The counter after the first n tokens. */
  function Counter(ts: seq<Token>, n: nat): int
    requires n <= |ts|
  {
    if n == 0 then 0 else Counter(ts, n - 1) + Change(ts[n - 1])
  }

  predicate Within(ts: seq<Token>, max: int) {
    forall n :: 0 <= n <= |ts| ==> Counter(ts, n) <= max
  }

  /** validateJSONDepth on the tokens the decoder yields; broken tells whether it then fails rather than ends. */
  method ValidateJSONDepth(ts: seq<Token>, broken: bool, max: nat) returns (ok: bool)
    ensures ok <==> !broken && Within(ts, max)
  {
    var depth := 0;
    for i := 0 to |ts|
      invariant depth == Counter(ts, i) && forall n :: 0 <= n <= i ==> Counter(ts, n) <= max
    {
      match ts[i]
      case OpenBrace | OpenBracket =>
        depth := depth + 1;
        if depth > max {
          assert Counter(ts, i + 1) > max;
          return false;
        }
      case CloseBrace | CloseBracket => depth := depth - 1;
      case Scalar =>
    }
    return !broken;
  }

  lemma {:induction false} CounterAppend(a: seq<Token>, b: seq<Token>, n: nat)
    requires n <= |a| + |b|
    ensures Counter(a + b, n) == if n <= |a| then Counter(a, n) else Counter(a, |a|) + Counter(b, n - |a|)
  {
    if n > 0 { CounterAppend(a, b, n - 1); }
  }

  /** A well-formed stretch of tokens: it comes back to where it started, never dips below, and peaks at a height. */
  ghost predicate Hill(ts: seq<Token>, height: nat) {
    && Counter(ts, |ts|) == 0
    && (forall n :: 0 <= n <= |ts| ==> 0 <= Counter(ts, n) <= height)
    && exists n :: 0 <= n <= |ts| && Counter(ts, n) == height
  }

  lemma HillsJoin(a: seq<Token>, h: nat, b: seq<Token>, k: nat)
    requires Hill(a, h) && Hill(b, k)
    ensures Hill(a + b, Max(h, k))
  {
    forall n | 0 <= n <= |a + b| ensures 0 <= Counter(a + b, n) <= Max(h, k) { CounterAppend(a, b, n); }
    CounterAppend(a, b, |a + b|);
    var i :| 0 <= i <= |a| && Counter(a, i) == h;
    var j :| 0 <= j <= |b| && Counter(b, j) == k;
    CounterAppend(a, b, i);
    CounterAppend(a, b, |a| + j);
  }

  lemma HillRaised(open: Token, ts: seq<Token>, close: Token, h: nat)
    requires Hill(ts, h) && Change(open) == 1 && Change(close) == -1
    ensures Hill([open] + ts + [close], h + 1)
  {
    var all := [open] + ts + [close];
    assert all == [open] + (ts + [close]);
    assert Counter([open], 1) == Counter([open], 0) + 1;
    assert Counter([close], 1) == Counter([close], 0) - 1;
    forall n | 0 <= n <= |all|
      ensures Counter(all, n) == if n == 0 || n == |all| then 0 else 1 + Counter(ts, n - 1)
    {
      CounterAppend([open], ts + [close], n);
      if n >= 1 { CounterAppend(ts, [close], n - 1); }
    }
    var i :| 0 <= i <= |ts| && Counter(ts, i) == h;
    assert Counter(all, i + 1) == h + 1;
  }

  lemma {:induction false} ValueIsHill(v: Value)
    ensures Hill(Tokens(v), Nesting(v))
    decreases v
  {
    match v
    case Atom =>
      assert Counter([Scalar], 1) == Counter([Scalar], 0) == 0;
    case Nest(isObject, items) =>
      StreamIsHill(items);
      HillRaised(if isObject then OpenBrace else OpenBracket, TokensOf(items), if isObject then CloseBrace else CloseBracket,
        NestingOf(items));
  }

  /** The tokens of any stream of well-formed values peak at exactly their greatest nesting and never go below zero. */
  lemma {:induction false} StreamIsHill(vs: seq<Value>)
    ensures Hill(TokensOf(vs), NestingOf(vs))
    decreases vs
  {
    if vs == [] {
      assert Counter([], 0) == 0;
    } else {
      ValueIsHill(vs[0]);
      StreamIsHill(vs[1..]);
      HillsJoin(Tokens(vs[0]), Nesting(vs[0]), TokensOf(vs[1..]), NestingOf(vs[1..]));
    }
  }

  lemma {:induction false} NestingOfIsMaximum(vs: seq<Value>, max: nat)
    ensures NestingOf(vs) <= max <==> forall i :: 0 <= i < |vs| ==> Nesting(vs[i]) <= max
  {
    if vs != [] {
      NestingOfIsMaximum(vs[1..], max);
      assert forall i :: 1 <= i < |vs| ==> vs[i] == vs[1..][i - 1];
      assert forall i :: 0 <= i < |vs[1..]| ==> vs[1..][i] == vs[i + 1];
    }
  }

  /** The check accepts a stream of well-formed values exactly when every one of them nests at most that deep. */
  lemma DepthIsNesting(vs: seq<Value>, max: nat)
    ensures Within(TokensOf(vs), max) <==> forall i :: 0 <= i < |vs| ==> Nesting(vs[i]) <= max
  {
    StreamIsHill(vs);
    NestingOfIsMaximum(vs, max);
    var peak :| 0 <= peak <= |TokensOf(vs)| && Counter(TokensOf(vs), peak) == NestingOf(vs);
  }

  /** However early the stream breaks off, the counter has not gone below zero. */
  lemma CounterNeverNegative(vs: seq<Value>, ts: seq<Token>, n: nat)
    requires ts <= TokensOf(vs) && n <= |ts|
    ensures Counter(ts, n) >= 0
  {
    StreamIsHill(vs);
    var rest := TokensOf(vs)[|ts|..];
    assert TokensOf(vs) == ts + rest;
    CounterAppend(ts, rest, n);
  }
}
