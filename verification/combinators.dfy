/**
 The small parser-combinator vocabulary the robots.txt grammar is written in.
 A grammar rule is a function from the remaining input to a reply: either a
 value together with the input it left unconsumed, or a failure. Ordered
 choice retries the next alternative on the ORIGINAL input, repetition is
 greedy, and `maybe` never fails.
 */
module Combinators {

  datatype Option<+T> = None | Some(value: T)

  /** The outcome of running one grammar rule on some input. */
  datatype Reply<+T> = Ok(value: T, rest: string) | Fail

  /** The outcome of a repetition (`manyA`), which never fails. */
  datatype Run<+T> = Run(items: seq<T>, rest: string)

  /** `rest` is what is left of `s` once some prefix of it is consumed. */
  predicate IsSuffix(rest: string, s: string) {
    |rest| <= |s| && s[|s| - |rest|..] == rest
  }

  /** A successful reply consumed a (possibly empty) prefix of its input. */
  predicate Consumes<T>(r: Reply<T>, s: string) {
    r.Ok? ==> IsSuffix(r.rest, s)
  }

  /** Every input is answered with a reply that consumed a prefix of it. */
  ghost predicate ConsumesPrefix(g: string -> Reply<string>) {
    forall s :: Consumes(g(s), s)
  }

  /** A grammar that never matches; it witnesses that `SubGrammar` is inhabited. */
  function NoMatch(s: string): Reply<string> {
    Fail
  }

  /**
   A grammar defined outside this model (the URL path and absolute-URL rules
   of the URL grammar library). Nothing is known about it except that,
   when it matches, it consumes a prefix of its input.
   */
  type SubGrammar = g: string -> Reply<string> | ConsumesPrefix(g) witness NoMatch

  lemma SuffixTransitive(a: string, b: string, c: string)
    requires IsSuffix(a, b) && IsSuffix(b, c)
    ensures IsSuffix(a, c)
  {
    assert c[|c| - |b|..][|b| - |a|..] == c[|c| - |a|..];
  }

  lemma SuffixOfConcat(a: string, b: string)
    ensures IsSuffix(b, a + b)
  {
    assert (a + b)[|a + b| - |b|..] == b;
  }

  lemma ConsumesThrough<T>(r: Reply<T>, t: string, s: string)
    requires Consumes(r, t) && IsSuffix(t, s)
    ensures Consumes(r, s)
  {
    if r.Ok? {
      SuffixTransitive(r.rest, t, s);
    }
  }

  lemma ConcatAssoc<T>(a: seq<T>, b: seq<T>, c: seq<T>)
    ensures (a + b) + c == a + (b + c)
  {
  }

  /** Ordered choice (`p.either`): the second alternative sees the original input. */
  function Or<T>(a: Reply<T>, b: Reply<T>): Reply<T> {
    if a.Ok? then a else b
  }

  /** `p.string(lit)` and `p.char(c)`: the literal text, exactly. */
  function Literal(lit: string, s: string): (r: Reply<string>)
    ensures r.Ok? <==> lit <= s
    ensures r.Ok? ==> r.value == lit && r.value + r.rest == s
  {
    if lit <= s then Ok(lit, s[|lit|..]) else Fail
  }

  /** The length of the longest prefix of `s` whose characters all satisfy `p`. */
  function SpanLength(p: char -> bool, s: string): (n: nat)
    ensures n <= |s|
    ensures forall i :: 0 <= i < n ==> p(s[i])
    ensures n < |s| ==> !p(s[n])
  {
    if |s| == 0 || !p(s[0]) then 0 else 1 + SpanLength(p, s[1..])
  }

  /** The length of the longest suffix of `s` whose characters all satisfy `p`. */
  function TrailingLength(p: char -> bool, s: string): (n: nat)
    ensures n <= |s|
    ensures forall i :: |s| - n <= i < |s| ==> p(s[i])
    ensures n < |s| ==> !p(s[|s| - n - 1])
  {
    if |s| == 0 || !p(s[|s| - 1]) then 0 else 1 + TrailingLength(p, s[..|s| - 1])
  }

  /**
   `p.many(p.sat(p))`: greedily takes the characters satisfying `p`; it never
   fails, and it stops only at the end of input or at a character outside `p`.
   */
  function Span(p: char -> bool, s: string): (r: Reply<string>)
    ensures r.Ok? && r.value + r.rest == s
    ensures forall i :: 0 <= i < |r.value| ==> p(r.value[i])
    ensures |r.rest| == 0 || !p(r.rest[0])
  {
    var n := SpanLength(p, s);
    assert s[..n] + s[n..] == s;
    Ok(s[..n], s[n..])
  }

  /** Span reads a run exactly: up to the first character outside `p`. */
  lemma SpanOfConcat(p: char -> bool, a: string, b: string)
    requires forall i :: 0 <= i < |a| ==> p(a[i])
    requires |b| == 0 || !p(b[0])
    ensures Span(p, a + b) == Ok(a, b)
  {
    assert (a + b)[..|a|] == a && (a + b)[|a|..] == b;
  }
}
