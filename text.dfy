/**
 * The pieces of JavaScript's string library that the core relies on:
 * the `\s` character class (which is also what `String.prototype.trim`
 * strips), line terminators, ASCII case folding, `includes`, `trim` and
 * `Array.prototype.join`. A JavaScript string is a `seq<char>`.
 */
module JsText {

  /**
   * JavaScript's `\s`: the WhiteSpace and LineTerminator code points, that is
   * tab, line feed, vertical tab, form feed, carriage return, space, U+00A0,
   * U+1680, U+2000 to U+200A, U+2028, U+2029, U+202F, U+205F, U+3000 and U+FEFF.
   */
  predicate IsSpace(c: char) {
    ('\t' <= c <= '\r') || c == ' ' || c == '\U{00A0}' || c == '\U{1680}'
    || ('\U{2000}' <= c <= '\U{200A}') || c == '\U{2028}' || c == '\U{2029}'
    || c == '\U{202F}' || c == '\U{205F}' || c == '\U{3000}' || c == '\U{FEFF}'
  }

  /** The characters at which `.` stops and after which a multiline `^` matches. */
  predicate IsLineTerminator(c: char) {
    c == '\n' || c == '\r' || c == '\U{2028}' || c == '\U{2029}'
  }

  predicate AllSpace(s: string) {
    forall k | 0 <= k < |s| :: IsSpace(s[k])
  }

  /** `toLowerCase` restricted to ASCII letters; every other character is kept. */
  function AsciiLower(c: char): (r: char)
    ensures 'A' <= c <= 'Z' ==> r as int == c as int + 32
    ensures !('A' <= c <= 'Z') ==> r == c
  {
    if 'A' <= c <= 'Z' then (c as int + 32) as char else c
  }

  function Lower(s: string): (r: string)
    ensures |r| == |s|
    ensures forall k | 0 <= k < |s| :: r[k] == AsciiLower(s[k])
  {
    seq(|s|, k requires 0 <= k < |s| => AsciiLower(s[k]))
  }

  /** `sub` occurs in `s` starting at index `i`. */
  predicate HasAt(s: string, i: int, sub: string) {
    0 <= i && i + |sub| <= |s| && s[i..i + |sub|] == sub
  }

  /** `s.includes(sub)`. */
  predicate Contains(s: string, sub: string) {
    exists i | 0 <= i <= |s| - |sub| :: HasAt(s, i, sub)
  }

  lemma ContainsAt(s: string, i: int, sub: string)
    requires HasAt(s, i, sub)
    ensures Contains(s, sub)
  {
  }

  /** The first index at or after `i` that does not hold whitespace (or `|s|`). */
  function SpaceEnd(s: string, i: nat): (e: nat)
    requires i <= |s|
    ensures i <= e <= |s|
    ensures forall k | i <= k < e :: IsSpace(s[k])
    ensures e == |s| || !IsSpace(s[e])
    decreases |s| - i
  {
    if i < |s| && IsSpace(s[i]) then SpaceEnd(s, i + 1) else i
  }

  /** The least index `b` in `lo..j` such that `s[b..j]` is all whitespace. */
  function SpaceStart(s: string, lo: nat, j: nat): (b: nat)
    requires lo <= j <= |s|
    ensures lo <= b <= j
    ensures forall k | b <= k < j :: IsSpace(s[k])
    ensures b == lo || !IsSpace(s[b - 1])
    decreases j
  {
    if lo < j && IsSpace(s[j - 1]) then SpaceStart(s, lo, j - 1) else j
  }

  /** Where `Trim(s)` begins inside `s`. */
  function TrimOffset(s: string): nat
  {
    SpaceEnd(s, 0)
  }

  /** Where `Trim(s)` ends inside `s`. */
  function TrimLimit(s: string): (b: nat)
    ensures TrimOffset(s) <= b <= |s|
  {
    SpaceStart(s, TrimOffset(s), |s|)
  }

  /** `s.trim()`: the slice of `s` between its leading and its trailing whitespace. */
  function Trim(s: string): (r: string)
    ensures r == s[TrimOffset(s)..TrimLimit(s)]
    ensures forall k | 0 <= k < TrimOffset(s) :: IsSpace(s[k])
    ensures forall k | TrimLimit(s) <= k < |s| :: IsSpace(s[k])
    ensures r == [] || (!IsSpace(r[0]) && !IsSpace(r[|r| - 1]))
    ensures r == [] <==> AllSpace(s)
  {
    var a, b := TrimOffset(s), TrimLimit(s);
    assert a < |s| ==> !IsSpace(s[a]);
    assert a < b ==> !IsSpace(s[b - 1]);
    s[a..b]
  }

  lemma TrimOfTrimmed(s: string)
    requires s == [] || (!IsSpace(s[0]) && !IsSpace(s[|s| - 1]))
    ensures Trim(s) == s
  {
  }

  /** The characters of `s` that are not whitespace, in order. */
  function NonSpace(s: string): string
  {
    if s == [] then [] else (if IsSpace(s[0]) then [] else [s[0]]) + NonSpace(s[1..])
  }

  lemma {:induction false} NonSpaceConcat(a: string, b: string)
    ensures NonSpace(a + b) == NonSpace(a) + NonSpace(b)
  {
    if a != [] {
      assert (a + b)[0] == a[0] && (a + b)[1..] == a[1..] + b;
      NonSpaceConcat(a[1..], b);
    } else {
      assert a + b == b;
    }
  }

  lemma {:induction false} NonSpaceOfSpace(a: string)
    requires AllSpace(a)
    ensures NonSpace(a) == []
  {
    if a != [] {
      NonSpaceOfSpace(a[1..]);
    }
  }

  /** `trim` removes whitespace only: every other character is kept, in order. */
  lemma TrimKeepsNonSpace(s: string)
    ensures NonSpace(Trim(s)) == NonSpace(s)
  {
    var a, b := TrimOffset(s), TrimLimit(s);
    assert s == s[..a] + s[a..b] + s[b..];
    NonSpaceConcat(s[..a] + s[a..b], s[b..]);
    NonSpaceConcat(s[..a], s[a..b]);
    NonSpaceOfSpace(s[..a]);
    NonSpaceOfSpace(s[b..]);
  }

  /** `xs.join(sep)`. */
  function Join(xs: seq<string>, sep: string): string
  {
    if |xs| == 0 then ""
    else if |xs| == 1 then xs[0]
    else xs[0] + sep + Join(xs[1..], sep)
  }

  /** No two newlines of `s` are separated by whitespace only: `s` holds no blank line. */
  predicate NoBlankLine(s: string) {
    forall x, y | 0 <= x < y < |s| && s[x] == '\n' && s[y] == '\n' :: exists z | x < z < y :: !IsSpace(s[z])
  }

  lemma NoBlankLineSlice(s: string, a: nat, b: nat)
    requires a <= b <= |s|
    requires NoBlankLine(s)
    ensures NoBlankLine(s[a..b])
  {
    var t := s[a..b];
    forall x, y | 0 <= x < y < |t| && t[x] == '\n' && t[y] == '\n' ensures exists z | x < z < y :: !IsSpace(t[z]) {
      assert s[a + x] == '\n' && s[a + y] == '\n';
      var z :| a + x < z < a + y && !IsSpace(s[z]);
      assert t[z - a] == s[z];
    }
  }

  lemma NoBlankLineNoDoubleNewline(s: string)
    requires NoBlankLine(s)
    ensures !Contains(s, "\n\n")
  {
    forall i | 0 <= i <= |s| - 2 ensures !HasAt(s, i, "\n\n") {
      assert s[i..i + 2] == [s[i], s[i + 1]];
    }
  }

  /** A slice of a string that lacks `sub` lacks it too. */
  lemma NotContainsInSlice(s: string, a: nat, b: nat, sub: string)
    requires a <= b <= |s|
    requires !Contains(s, sub)
    ensures !Contains(s[a..b], sub)
  {
    var t := s[a..b];
    forall i | 0 <= i <= |t| - |sub| ensures !HasAt(t, i, sub) {
      assert !HasAt(s, a + i, sub);
      assert |t| == b - a;
      var x, y := t[i..i + |sub|], s[a + i..a + i + |sub|];
      forall k | 0 <= k < |sub| ensures x[k] == y[k] {
        assert t[i + k] == s[a + i + k];
      }
      assert x == y;
    }
  }

  /** Putting one character in front of a string creates three newlines in a row only if it is a newline and two follow. */
  lemma NoTripleCons(c: char, t: string)
    requires !Contains(t, "\n\n\n")
    requires c == '\n' ==> !HasAt(t, 0, "\n\n")
    ensures !Contains([c] + t, "\n\n\n")
  {
    var u := [c] + t;
    forall i | 0 <= i <= |u| - 3 ensures !HasAt(u, i, "\n\n\n") {
      if i == 0 {
        assert u[0..3] == [c, t[0], t[1]];
        assert t[0..2] == [t[0], t[1]];
      } else {
        assert u[i..i + 3] == t[i - 1..i + 2];
        assert !HasAt(t, i - 1, "\n\n\n");
      }
    }
  }

  lemma AllSpaceConcat(a: string, b: string)
    requires AllSpace(a) && AllSpace(b)
    ensures AllSpace(a + b)
  {
    forall k | 0 <= k < |a + b| ensures IsSpace((a + b)[k]) {
      if k >= |a| {
        assert (a + b)[k] == b[k - |a|];
      }
    }
  }

  lemma AllSpaceFromChars(x: string, s: string)
    requires AllSpace(s)
    requires forall c | c in x :: c in s
    ensures AllSpace(x)
  {
    forall k | 0 <= k < |x| ensures IsSpace(x[k]) {
      assert x[k] in x;
      var j :| 0 <= j < |s| && s[j] == x[k];
    }
  }

  lemma JoinEnds(xs: seq<string>, sep: string)
    requires |xs| > 0 && forall k | 0 <= k < |xs| :: xs[k] != ""
    ensures var j := Join(xs, sep); j != [] && j[0] == xs[0][0] && j[|j| - 1] == xs[|xs| - 1][|xs[|xs| - 1]| - 1]
  {
    if |xs| > 1 {
      JoinEnds(xs[1..], sep);
    }
  }

  /** Joining lines that hold no `"\n\n"` and neither begin nor end with a newline, with a blank line between them, gives no three newlines in a row. */
  lemma {:induction false} JoinNoTripleNewline(xs: seq<string>)
    requires forall k | 0 <= k < |xs| :: xs[k] != "" && xs[k][0] != '\n' && xs[k][|xs[k]| - 1] != '\n' && !Contains(xs[k], "\n\n")
    ensures !Contains(Join(xs, "\n\n"), "\n\n\n")
  {
    if |xs| == 1 {
      NoDoubleNoTriple(xs[0]);
    } else if |xs| > 1 {
      JoinNoTripleNewline(xs[1..]);
      JoinEnds(xs[1..], "\n\n");
      BlankLineJoinNoTriple(xs[0], Join(xs[1..], "\n\n"));
    }
  }

  /** A string without `"\n\n"` has no three newlines in a row either. */
  lemma NoDoubleNoTriple(x: string)
    requires !Contains(x, "\n\n")
    ensures !Contains(x, "\n\n\n")
  {
    if Contains(x, "\n\n\n") {
      var i :| 0 <= i <= |x| - 3 && HasAt(x, i, "\n\n\n");
      assert x[i..i + 2] == x[i..i + 3][..2];
      assert HasAt(x, i, "\n\n");
    }
  }

  /** One blank line between a line that ends in another character and text that starts with one adds no three newlines in a row. */
  lemma BlankLineJoinNoTriple(p: string, rest: string)
    requires p != "" && p[|p| - 1] != '\n' && !Contains(p, "\n\n")
    requires rest != "" && rest[0] != '\n' && !Contains(rest, "\n\n\n")
    ensures !Contains(p + "\n\n" + rest, "\n\n\n")
  {
    var j := p + "\n\n" + rest;
    forall i | 0 <= i <= |j| - 3 ensures !HasAt(j, i, "\n\n\n") {
      if HasAt(j, i, "\n\n\n") {
        assert j[i] == '\n' && j[i + 1] == '\n' && j[i + 2] == '\n' by {
          assert j[i] == j[i..i + 3][0] && j[i + 1] == j[i..i + 3][1] && j[i + 2] == j[i..i + 3][2];
        }
        if i + 3 <= |p| {
          assert p[i..i + 2] == [j[i], j[i + 1]];
          ContainsAt(p, i, "\n\n");
        } else if |p| + 2 <= i {
          var m := i - |p| - 2;
          assert rest[m..m + 3] == [j[i], j[i + 1], j[i + 2]];
          ContainsAt(rest, m, "\n\n\n");
        }
      }
    }
  }

  /** An occurrence keeps its place, moved by `|pre|`, when text is added on both sides. */
  lemma HasAtShift(pre: string, t: string, post: string, i: nat, sub: string)
    requires HasAt(t, i, sub)
    ensures HasAt(pre + t + post, |pre| + i, sub)
  {
    var u := pre + t + post;
    var x := u[|pre| + i..|pre| + i + |sub|];
    forall k | 0 <= k < |sub| ensures x[k] == sub[k] {
      assert u[|pre| + i + k] == t[i + k];
      assert t[i..i + |sub|][k] == t[i + k];
    }
  }

  /** Two adjacent occurrences make one occurrence of the concatenation. */
  lemma HasAtConcat(s: string, i: nat, x: string, y: string)
    requires HasAt(s, i, x) && HasAt(s, i + |x|, y)
    ensures HasAt(s, i, x + y)
  {
    var w := s[i..i + |x| + |y|];
    forall k | 0 <= k < |x| + |y| ensures w[k] == (x + y)[k] {
      if k < |x| {
        assert s[i..i + |x|][k] == s[i + k];
      } else {
        assert s[i + |x|..i + |x| + |y|][k - |x|] == s[i + k];
      }
    }
  }

  /** Where the `k`-th piece begins in `Join(xs, sep)`. */
  function JoinOffset(xs: seq<string>, sep: string, k: nat): nat
    requires k < |xs|
  {
    if k == 0 then 0 else |xs[0]| + |sep| + JoinOffset(xs[1..], sep, k - 1)
  }

  /** The first piece of a join of two or more pieces, and the separator after it. */
  lemma JoinHead(xs: seq<string>, sep: string)
    requires |xs| > 1
    ensures Join(xs, sep) == xs[0] + sep + Join(xs[1..], sep)
    ensures HasAt(Join(xs, sep), 0, xs[0])
    ensures HasAt(Join(xs, sep), |xs[0]|, sep)
  {
    var rest := Join(xs[1..], sep);
    HasAtShift([], xs[0], sep + rest, 0, xs[0]);
    assert [] + xs[0] + (sep + rest) == xs[0] + sep + rest;
    HasAtShift(xs[0], sep, rest, 0, sep);
  }

  /** Pieces after the first keep their place in the rest of the join, shifted by the first piece and a separator. */
  lemma JoinTail(xs: seq<string>, sep: string, i: nat, sub: string)
    requires |xs| > 1
    requires HasAt(Join(xs[1..], sep), i, sub)
    ensures HasAt(Join(xs, sep), |xs[0]| + |sep| + i, sub)
  {
    var rest := Join(xs[1..], sep);
    JoinHead(xs, sep);
    HasAtShift(xs[0] + sep, rest, [], i, sub);
    assert xs[0] + sep + rest + [] == Join(xs, sep);
  }

  /**
   * The `k`-th piece of a join sits at `JoinOffset(xs, sep, k)`, followed by
   * `sep` and the next piece, or by the end of the string after the last piece.
   */
  lemma {:induction false} JoinPieceAt(xs: seq<string>, sep: string, k: nat)
    requires k < |xs|
    ensures HasAt(Join(xs, sep), JoinOffset(xs, sep, k), xs[k])
    ensures k + 1 < |xs| ==> HasAt(Join(xs, sep), JoinOffset(xs, sep, k) + |xs[k]|, sep)
    ensures k + 1 < |xs| ==> JoinOffset(xs, sep, k + 1) == JoinOffset(xs, sep, k) + |xs[k]| + |sep|
    ensures k + 1 == |xs| ==> JoinOffset(xs, sep, k) + |xs[k]| == |Join(xs, sep)|
  {
    if |xs| == 1 {
      assert Join(xs, sep) == xs[0];
      assert HasAt(xs[0], 0, xs[0]);
    } else if k == 0 {
      JoinHead(xs, sep);
    } else {
      var ys := xs[1..];
      JoinPieceAt(ys, sep, k - 1);
      assert ys[k - 1] == xs[k];
      JoinHead(xs, sep);
      JoinTail(xs, sep, JoinOffset(ys, sep, k - 1), xs[k]);
      if k + 1 < |xs| {
        JoinTail(xs, sep, JoinOffset(ys, sep, k - 1) + |xs[k]|, sep);
      }
    }
  }

  /** `xs.filter(f)`: the elements that satisfy `f`, in order. */
  function Filter<T>(xs: seq<T>, f: T -> bool): (r: seq<T>)
    ensures |r| <= |xs|
    ensures forall x | x in r :: x in xs && f(x)
    ensures forall x | x in xs && f(x) :: x in r
  {
    if xs == [] then [] else (if f(xs[0]) then [xs[0]] else []) + Filter(xs[1..], f)
  }

  /** Nothing survives a filter that every element fails. */
  lemma {:induction false} FilterNone<T>(xs: seq<T>, f: T -> bool)
    requires forall k | 0 <= k < |xs| :: !f(xs[k])
    ensures Filter(xs, f) == []
  {
    if xs != [] {
      FilterNone(xs[1..], f);
    }
  }
}
