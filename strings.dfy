/** The two string operations of Rust's standard library that the entry
    classifier relies on: `str::split_once` on a character and
    `[String]::join` with a separator. Strings are sequences of characters. */
module Strings {
  import opened Wrappers

  /** `s.split_once(c)`: the text before and after the FIRST occurrence of
      `c`, or `None` when `c` does not occur. */
  function SplitOnce(s: string, c: char): (r: Option<(string, string)>)
    ensures r.None? <==> c !in s
    ensures r.Some? ==> r.value.0 + [c] + r.value.1 == s && c !in r.value.0
  {
    if s == [] then None
    else if s[0] == c then Some(([], s[1..]))
    else
      match SplitOnce(s[1..], c)
      case None => None
      case Some((before, after)) => Some(([s[0]] + before, after))
  }

  /** The split is unique: any way of writing `s` as `before + [c] + after`
      with no `c` in `before` is the one `SplitOnce` returns. */
  lemma SplitOnceUnique(s: string, c: char, before: string, after: string)
    requires before + [c] + after == s
    requires c !in before
    ensures SplitOnce(s, c) == Some((before, after))
  {
    var r := SplitOnce(s, c);
    assert c in s by { assert s[|before|] == c; }
    var (b, a) := r.value;
    assert s[|b|] == c && s[|before|] == c;
    assert |b| == |before|;
    assert b == s[..|b|] == before;
    assert a == s[|b| + 1..] == after;
  }

  /** `s` starts with `p`. */
  predicate HasPrefix(s: string, p: string) {
    |p| <= |s| && s[..|p|] == p
  }

  /** Splitting at the first `c` yields `kind` before it exactly when `s`
      starts with `kind` followed by `c`, provided `kind` holds no `c`. */
  lemma SplitOnceKind(s: string, c: char, kind: string)
    requires c !in kind
    ensures HasPrefix(s, kind + [c]) <==> SplitOnce(s, c).Some? && SplitOnce(s, c).value.0 == kind
  {
    if HasPrefix(s, kind + [c]) {
      assert kind + [c] + s[|kind| + 1..] == s;
      SplitOnceUnique(s, c, kind, s[|kind| + 1..]);
    }
    if SplitOnce(s, c).Some? && SplitOnce(s, c).value.0 == kind {
      var after := SplitOnce(s, c).value.1;
      assert s[..|kind| + 1] == (kind + [c] + after)[..|kind| + 1] == kind + [c];
    }
  }

  /** Sum of the lengths of the strings in `xs`. */
  function TotalLength(xs: seq<string>): nat {
    if xs == [] then 0 else |xs[0]| + TotalLength(xs[1..])
  }

  /** `xs.join(sep)`: the strings of `xs` in order with `sep` between
      neighbours; the empty list joins to the empty string. */
  function Join(xs: seq<string>, sep: string): (r: string)
    ensures xs == [] ==> r == []
    ensures xs != [] ==> |r| == TotalLength(xs) + (|xs| - 1) * |sep|
  {
    if xs == [] then []
    else if |xs| == 1 then xs[0]
    else xs[0] + sep + Join(xs[1..], sep)
  }

  /** Joining one more string appends the separator and that string. */
  lemma {:induction false} JoinAppend(xs: seq<string>, x: string, sep: string)
    requires xs != []
    ensures Join(xs + [x], sep) == Join(xs, sep) + sep + x
  {
    if |xs| == 1 {
      assert (xs + [x])[1..] == [x];
    } else {
      assert (xs + [x])[1..] == xs[1..] + [x];
      JoinAppend(xs[1..], x, sep);
    }
  }

  /** Position of the `i`-th string inside `Join(xs, sep)`. */
  function JoinOffset(xs: seq<string>, sep: string, i: nat): nat
    requires i <= |xs|
  {
    TotalLength(xs[..i]) + i * |sep|
  }

  /** The `i`-th string of `xs` appears, unchanged, at its offset in the
      joined string, and is followed by `sep` unless it is the last one:
      the names keep their order and the separator sits between them. */
  lemma {:induction false} JoinAt(xs: seq<string>, sep: string, i: nat)
    requires i < |xs|
    ensures var off := JoinOffset(xs, sep, i);
      var j := Join(xs, sep);
      off + |xs[i]| <= |j| && j[off..off + |xs[i]|] == xs[i] &&
      (i + 1 < |xs| ==> off + |xs[i]| + |sep| <= |j| && j[off + |xs[i]|..off + |xs[i]| + |sep|] == sep)
  {
    if i == 0 {
      assert xs[..0] == [];
    } else {
      JoinAt(xs[1..], sep, i - 1);
      assert xs[..i][1..] == xs[1..][..i - 1];
      var off := JoinOffset(xs, sep, i);
      var off' := JoinOffset(xs[1..], sep, i - 1);
      assert off == |xs[0]| + |sep| + off';
    }
  }
}
