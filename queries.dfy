/**
 * What the two web-API enrichment clients share: an HTTP reply reduced to
 * its status and decoded JSON body, the first-appearance deduplication that
 * `Series.unique()` performs before any request is made, and the
 * substitution of one named field by `str.format`.
 */
module Queries {
  import opened Wrappers

  /** The reply to one GET request: its status code and its decoded JSON payload. */
  datatype Response<P> = Response(status: int, payload: P)

  /** The exceptions the clients let escape: a missing DataFrame column, an out-of-range list index. */
  datatype QueryError = KeyError(key: string) | IndexError

  /** A DataFrame of text columns, by column name. */
  type DataFrame = map<string, seq<string>>

  /** `df[name]`: the column, or KeyError when the frame has none by that name. */
  function Column(df: DataFrame, name: string): (r: Result<seq<string>, QueryError>)
    ensures r.Success? <==> name in df
    ensures r.Success? ==> r.value == df[name]
    ensures r.Failure? ==> r.error == KeyError(name)
  {
    if name in df then Success(df[name]) else Failure(KeyError(name))
  }

  predicate NoDuplicates<T(==)>(xs: seq<T>)
  {
    forall i, j :: 0 <= i < j < |xs| ==> xs[i] != xs[j]
  }

  /** The position of the first occurrence of `x` in `xs`. */
  function FirstIndex<T(==)>(xs: seq<T>, x: T): (r: nat)
    requires x in xs
    ensures r < |xs| && xs[r] == x
    ensures x !in xs[..r]
  {
    var p := xs[..|xs| - 1];
    if x in p then
      var k := FirstIndex(p, x);
      assert xs[..k] == p[..k];
      k
    else
      |xs| - 1
  }

  /**
   * `Series.unique().tolist()`: each distinct value once, in the order of
   * its first appearance.
   */
  function Unique<T(==,!new)>(xs: seq<T>): (r: seq<T>)
    ensures forall x :: x in r <==> x in xs
    ensures NoDuplicates(r)
    ensures forall i, j :: 0 <= i < j < |r| ==> FirstIndex(xs, r[i]) < FirstIndex(xs, r[j])
    ensures |r| <= |xs|
  {
    if xs == [] then []
    else
      var p := xs[..|xs| - 1];
      var last := xs[|xs| - 1];
      assert xs == p + [last];
      var u := Unique(p);
      assert forall x :: x in p ==> FirstIndex(xs, x) == FirstIndex(p, x);
      if last in u then u else u + [last]
  }

  /** Deduplicating a list that has no repeats leaves it as it is. */
  lemma {:induction false} UniqueOfDistinct<T(!new)>(xs: seq<T>)
    requires NoDuplicates(xs)
    ensures Unique(xs) == xs
  {
    if xs != [] {
      var p := xs[..|xs| - 1];
      assert NoDuplicates(p);
      var last := xs[|xs| - 1];
      UniqueOfDistinct(p);
      assert last !in Unique(p);
      assert Unique(xs) == Unique(p) + [last];
      assert xs == p + [last];
    }
  }

  /** Deduplication is idempotent. */
  lemma UniqueIdempotent<T(!new)>(xs: seq<T>)
    ensures Unique(Unique(xs)) == Unique(xs)
  {
    UniqueOfDistinct(Unique(xs));
  }

  /** Every value of the input sits at exactly one position of the deduplicated list. */
  lemma UniquePosition<T(!new)>(xs: seq<T>, x: T)
    requires x in xs
    ensures exists k :: 0 <= k < |Unique(xs)| && Unique(xs)[k] == x
    ensures forall k, l ::
              (0 <= k < |Unique(xs)| && 0 <= l < |Unique(xs)| && Unique(xs)[k] == x && Unique(xs)[l] == x) ==> k == l
  {
    var u := Unique(xs);
    assert x in u;
  }

  // ---------------------------------------------------------------------
  // str.format with one keyword field
  // ---------------------------------------------------------------------

  /** The replacement field `{name}`. */
  function Field(name: string): string
  {
    "{" + name + "}"
  }

  /**
   * `template.format(name=value)`: every occurrence of `{name}` is
   * replaced by `value`, scanning left to right; the value itself is not
   * scanned again.
   */
  function Substitute(template: string, name: string, value: string): string
    decreases |template|
  {
    var f := Field(name);
    if |template| == 0 then []
    else if |f| <= |template| && template[..|f|] == f then value + Substitute(template[|f|..], name, value)
    else [template[0]] + Substitute(template[1..], name, value)
  }

  predicate NoBrace(s: string)
  {
    forall i :: 0 <= i < |s| ==> s[i] != '{'
  }

  /** A template without replacement fields formats to itself. */
  lemma {:induction false} SubstituteNoBrace(s: string, name: string, value: string)
    requires NoBrace(s)
    ensures Substitute(s, name, value) == s
    decreases |s|
  {
    if |s| > 0 {
      var f := Field(name);
      assert f[0] == '{' && s[0] != '{';
      assert |f| <= |s| ==> s[..|f|][0] == s[0];
      assert NoBrace(s[1..]);
      SubstituteNoBrace(s[1..], name, value);
      assert s == [s[0]] + s[1..];
    }
  }

  /** A text without braces in front of the field is copied, then the field is replaced. */
  lemma {:induction false} SubstitutePrefix(p: string, rest: string, name: string, value: string)
    requires NoBrace(p)
    ensures Substitute(p + rest, name, value) == p + Substitute(rest, name, value)
    decreases |p|
  {
    if |p| > 0 {
      var f := Field(name);
      var s := p + rest;
      assert f[0] == '{' && s[0] == p[0] && p[0] != '{';
      assert |f| <= |s| ==> s[..|f|][0] == s[0];
      assert Substitute(s, name, value) == [s[0]] + Substitute(s[1..], name, value);
      assert s[1..] == p[1..] + rest;
      assert NoBrace(p[1..]);
      SubstitutePrefix(p[1..], rest, name, value);
      assert p == [p[0]] + p[1..];
    } else {
      assert p + rest == rest;
    }
  }

  /** A template with one `{name}` field between brace-free texts formats to the value in its place. */
  lemma SubstituteOneField(p: string, q: string, name: string, value: string)
    requires NoBrace(p) && NoBrace(q)
    ensures Substitute(p + Field(name) + q, name, value) == p + value + q
  {
    var f := Field(name);
    assert p + f + q == p + (f + q);
    SubstitutePrefix(p, f + q, name, value);
    assert (f + q)[..|f|] == f;
    assert (f + q)[|f|..] == q;
    SubstituteNoBrace(q, name, value);
  }

  /** The text around a substituted value determines it: equal results mean equal values. */
  lemma SplicedInjective(x: string, a: string, b: string, y: string)
    requires x + a + y == x + b + y
    ensures a == b
  {
    var s := x + a + y;
    assert |a| == |b|;
    assert s[|x|..|x| + |a|] == a;
    assert (x + b + y)[|x|..|x| + |b|] == b;
  }
}
