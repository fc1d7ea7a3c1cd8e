/**
 * The regular expressions of the core, each with the match that JavaScript's
 * backtracking engine finds at a given index, and the two library calls that
 * use them: `String.prototype.replace` with a global pattern and
 * `String.prototype.split` with a pattern separator.
 *
 * A matcher returns the LENGTH of the match that starts exactly at `i`, or
 * `None`. No pattern here matches the empty string, so a global replace or a
 * split only ever moves forward.
 */
module JsRegex {
  import opened Wrappers
  import opened JsText

  datatype Pattern =
      /** `/\{[\s\S]*?"@context"[\s\S]*?\}/g` (lib/openai.ts:34) */
      JsonLdBlock
      /** `/!\[.*?\]\([^)]+\)/g` (lib/openai.ts:37) */
    | MarkdownImage
      /** `/<img[^>]*>/gi` (lib/openai.ts:38) */
    | HtmlImage
      /** `/https?:\/\/[^\s]+\.(jpg|jpeg|png|gif|webp|svg)/gi` (lib/openai.ts:39) */
    | ImageUrl
      /** `/<style[\s\S]*?<\/style>/gi` (lib/openai.ts:42) */
    | StyleBlock
      /** `/@media[^{]*\{[^}]*\}/g` (lib/openai.ts:43) */
    | MediaQuery
      /** `/<[^>]+>/g` (lib/openai.ts:46) */
    | HtmlTag
      /** `/https?:\/\/[^\s]+/g` (lib/openai.ts:49) */
    | Url
      /** `/\n{3,}/g` (lib/openai.ts:52, 123) */
    | NewlineRun
      /** `/[ \t]+/g` (lib/openai.ts:53) */
    | HorizontalSpace
      /** `/\{[^}]{0,200}\}/g` (lib/openai.ts:56) */
    | ShortBraces
      /** `/\n\s*\n/` (lib/openai.ts:59, lib/content-extractor.ts:132) */
    | BlankLine
      /** `/^#{1,3}\s+/gm` (lib/openai.ts:120) */
    | Heading
      /** `/\s+/` (lib/content-extractor.ts:131, components/SupportForm.tsx:37) */
    | Whitespace
      /** `/^[\{\[].*[\}\]]$/`, used with `test` (lib/openai.ts:64) */
    | JsonLikeLine
      /** `/^[A-Z_]+:/`, used with `test` (lib/openai.ts:68) */
    | UpperLabel

  // ---------------------------------------------------------------------------
  // Searching helpers

  /** `lit` occurs at `i`, comparing ASCII letters without regard to case (the `i` flag). */
  predicate CiHasAt(s: string, i: int, lit: string) {
    0 <= i && i + |lit| <= |s|
    && forall k | 0 <= k < |lit| :: AsciiLower(s[i + k]) == AsciiLower(lit[k])
  }

  predicate LitAt(s: string, i: int, lit: string, ci: bool) {
    if ci then CiHasAt(s, i, lit) else HasAt(s, i, lit)
  }

  /** The first index at or after `from` that holds `c`. */
  function IndexOfChar(s: string, c: char, from: nat): (r: Option<nat>)
    ensures r.Some? ==> from <= r.value < |s| && s[r.value] == c
    ensures r.Some? ==> forall k | from <= k < r.value :: s[k] != c
    ensures r.None? ==> forall k | from <= k < |s| :: s[k] != c
    decreases |s| - from
  {
    if from >= |s| then None
    else if s[from] == c then Some(from)
    else IndexOfChar(s, c, from + 1)
  }

  /** The last index in `lo..hi` that holds `c`. */
  function LastIndexOfChar(s: string, c: char, lo: nat, hi: nat): (r: Option<nat>)
    requires hi <= |s|
    ensures r.Some? ==> lo <= r.value < hi && s[r.value] == c
    ensures r.Some? ==> forall k | r.value < k < hi :: s[k] != c
    ensures r.None? ==> forall k | lo <= k < hi :: s[k] != c
    decreases hi
  {
    if hi <= lo then None
    else if s[hi - 1] == c then Some(hi - 1)
    else LastIndexOfChar(s, c, lo, hi - 1)
  }

  /** The first index at or after `from` where `lit` occurs. */
  function IndexOfLit(s: string, lit: string, from: nat, ci: bool): (r: Option<nat>)
    ensures r.Some? ==> from <= r.value && LitAt(s, r.value, lit, ci)
    ensures r.Some? ==> forall k | from <= k < r.value :: !LitAt(s, k, lit, ci)
    ensures r.None? ==> forall k | from <= k :: !LitAt(s, k, lit, ci)
    decreases |s| - from
  {
    if from + |lit| > |s| then None
    else if LitAt(s, from, lit, ci) then Some(from)
    else IndexOfLit(s, lit, from + 1, ci)
  }

  datatype CharClass = Spaces | NonSpaces | SpacesOrTabs | Newlines | Hashes | NotLineTerminators | UpperOrUnderscore | NotSpacesOrAt

  predicate InClass(cls: CharClass, c: char) {
    match cls
    case Spaces => IsSpace(c)
    case NonSpaces => !IsSpace(c)
    case SpacesOrTabs => c == ' ' || c == '\t'
    case Newlines => c == '\n'
    case Hashes => c == '#'
    case NotLineTerminators => !IsLineTerminator(c)
    case UpperOrUnderscore => ('A' <= c <= 'Z') || c == '_'
    case NotSpacesOrAt => !IsSpace(c) && c != '@'
  }

  /** The end of the longest run of `cls` characters that starts at `i` (a greedy `+` or `*`). */
  function RunEnd(s: string, i: nat, cls: CharClass): (e: nat)
    requires i <= |s|
    ensures i <= e <= |s|
    ensures forall k | i <= k < e :: InClass(cls, s[k])
    ensures e == |s| || !InClass(cls, s[e])
    decreases |s| - i
  {
    if i < |s| && InClass(cls, s[i]) then RunEnd(s, i + 1, cls) else i
  }

  /** A run of `cls` from `i` that ends at `e` is the run `RunEnd` finds. */
  lemma {:induction false} RunEndAt(s: string, i: nat, cls: CharClass, e: nat)
    requires i <= e <= |s|
    requires forall k | i <= k < e :: InClass(cls, s[k])
    requires e == |s| || !InClass(cls, s[e])
    ensures RunEnd(s, i, cls) == e
    decreases e - i
  {
    if i < e {
      RunEndAt(s, i + 1, cls, e);
    }
  }

  // ---------------------------------------------------------------------------
  // The matchers

  /** The length of the match of `p` that starts at index `i` of `s`, if any. */
  function MatchAt(p: Pattern, s: string, i: nat): (r: Option<nat>)
    ensures r.Some? ==> 0 < r.value && i + r.value <= |s|
  {
    if i >= |s| then None
    else match p
      case JsonLdBlock => JsonLdAt(s, i)
      case MarkdownImage => if HasAt(s, i, "![") then MarkdownImageFrom(s, i, i + 2) else None
      case HtmlImage => HtmlImageAt(s, i)
      case ImageUrl => ImageUrlAt(s, i)
      case StyleBlock => StyleBlockAt(s, i)
      case MediaQuery => MediaQueryAt(s, i)
      case HtmlTag => HtmlTagAt(s, i)
      case Url => UrlAt(s, i)
      case NewlineRun => var e := RunEnd(s, i, Newlines); if e - i >= 3 then Some(e - i) else None
      case HorizontalSpace => var e := RunEnd(s, i, SpacesOrTabs); if e > i then Some(e - i) else None
      case ShortBraces => ShortBracesAt(s, i)
      case BlankLine => BlankLineAt(s, i)
      case Heading => HeadingAt(s, i)
      case Whitespace => var e := RunEnd(s, i, Spaces); if e > i then Some(e - i) else None
      case JsonLikeLine => JsonLikeLineAt(s, i)
      case UpperLabel =>
        var e := RunEnd(s, i, UpperOrUnderscore);
        if i == 0 && e > 0 && e < |s| && s[e] == ':' then Some(e + 1) else None
  }

  /**
   * Anchored at both ends without the `m` flag: `[{[]` first, `[}\]]` last, and
   * `.*` between them, which cannot hold a line terminator.
   */
  function JsonLikeLineAt(s: string, i: nat): (r: Option<nat>)
    requires i < |s|
    ensures r.Some? ==> 0 < r.value && i + r.value <= |s|
  {
    if i == 0 && |s| >= 2 && (s[0] == '{' || s[0] == '[') && (s[|s| - 1] == '}' || s[|s| - 1] == ']')
      && RunEnd(s, 1, NotLineTerminators) >= |s| - 1
    then Some(|s|)
    else None
  }

  /**
   * `{`, then lazily up to the first `"@context"`, then lazily up to the first `}` after it.
   * A later `"@context"` cannot help: any `}` after it also follows the first one.
   */
  function JsonLdAt(s: string, i: nat): (r: Option<nat>)
    requires i < |s|
    ensures r.Some? ==> 0 < r.value && i + r.value <= |s|
  {
    if s[i] != '{' then None
    else match IndexOfLit(s, "\"@context\"", i + 1, false)
      case None => None
      case Some(a) =>
        match IndexOfChar(s, '}', a + 10)
        case None => None
        case Some(b) => Some(b + 1 - i)
  }

  /**
   * After `![`, the lazy `.*?` (which cannot cross a line terminator) grows one
   * character at a time until `](` follows and the first `)` after it is not
   * immediately after it (`[^)]+` needs one character).
   */
  function MarkdownImageFrom(s: string, i: nat, k: nat): (r: Option<nat>)
    requires i + 2 <= k <= |s|
    ensures r.Some? ==> 0 < r.value && i + r.value <= |s|
    decreases |s| - k
  {
    var close := IndexOfChar(s, ')', k + 2);
    if HasAt(s, k, "](") && close.Some? && close.value > k + 2 then Some(close.value + 1 - i)
    else if k < |s| && !IsLineTerminator(s[k]) then MarkdownImageFrom(s, i, k + 1)
    else None
  }

  /** `<img` in any case, then up to the first `>`. */
  function HtmlImageAt(s: string, i: nat): (r: Option<nat>)
    ensures r.Some? ==> 0 < r.value && i + r.value <= |s|
  {
    if !CiHasAt(s, i, "<img") then None
    else match IndexOfChar(s, '>', i + 4)
      case None => None
      case Some(j) => Some(j + 1 - i)
  }

  /**
   * The end of `https?://` at `i`, in any case when `ci` (the `i` flag) is set
   * and in lower case otherwise: greedy `s?`, then `://`.
   */
  function SchemeEnd(s: string, i: nat, ci: bool): (r: Option<nat>)
    ensures r.Some? ==> i + 7 <= r.value <= |s|
  {
    if !LitAt(s, i, "http", ci) then None
    else if LitAt(s, i + 4, "s://", ci) then Some(i + 8)
    else if HasAt(s, i + 4, "://") then Some(i + 7)
    else None
  }

  const ImageExtensions: seq<string> := ["jpg", "jpeg", "png", "gif", "webp", "svg"]

  /** The first alternative of `(jpg|jpeg|png|gif|webp|svg)` that matches at `t` (any case). */
  function ExtensionAt(s: string, t: nat, exts: seq<string>): (r: Option<nat>)
    ensures r.Some? ==> t + r.value <= |s|
  {
    if exts == [] then None
    else if CiHasAt(s, t, exts[0]) then Some(|exts[0]|)
    else ExtensionAt(s, t, exts[1..])
  }

  /**
   * `[^\s]+` first takes the whole non-space run; backtracking then gives
   * characters back until `\.` and an extension follow, so the LAST dot in the
   * run that starts an extension wins (`t` counts down).
   */
  function ImageExtensionBack(s: string, i: nat, st: nat, t: nat): (r: Option<nat>)
    requires i < st <= t < |s|
    ensures r.Some? ==> 0 < r.value && i + r.value <= |s|
    decreases t
  {
    var ext := ExtensionAt(s, t + 1, ImageExtensions);
    if t > st && s[t] == '.' && ext.Some? then Some(t + 1 + ext.value - i)
    else if t > st + 1 then ImageExtensionBack(s, i, st, t - 1)
    else None
  }

  function ImageUrlAt(s: string, i: nat): (r: Option<nat>)
    ensures r.Some? ==> 0 < r.value && i + r.value <= |s|
  {
    match SchemeEnd(s, i, true)
    case None => None
    case Some(st) =>
      var e := RunEnd(s, st, NonSpaces);
      if e > st + 1 then ImageExtensionBack(s, i, st, e - 1) else None
  }

  /** `<style` in any case, then lazily up to the first `</style>` in any case. */
  function StyleBlockAt(s: string, i: nat): (r: Option<nat>)
    ensures r.Some? ==> 0 < r.value && i + r.value <= |s|
  {
    if !CiHasAt(s, i, "<style") then None
    else match IndexOfLit(s, "</style>", i + 6, true)
      case None => None
      case Some(j) => Some(j + 8 - i)
  }

  /** `@media`, up to the first `{`, then up to the first `}` after it. */
  function MediaQueryAt(s: string, i: nat): (r: Option<nat>)
    ensures r.Some? ==> 0 < r.value && i + r.value <= |s|
  {
    if !HasAt(s, i, "@media") then None
    else match IndexOfChar(s, '{', i + 6)
      case None => None
      case Some(a) =>
        match IndexOfChar(s, '}', a + 1)
        case None => None
        case Some(b) => Some(b + 1 - i)
  }

  /** `<`, at least one character, up to the first `>`. */
  function HtmlTagAt(s: string, i: nat): (r: Option<nat>)
    requires i < |s|
    ensures r.Some? ==> 0 < r.value && i + r.value <= |s|
  {
    if s[i] != '<' then None
    else match IndexOfChar(s, '>', i + 1)
      case None => None
      case Some(j) => if j > i + 1 then Some(j + 1 - i) else None
  }

  /** `https?://` in lower case (the pattern has no `i` flag), then a non-empty non-space run. */
  function UrlAt(s: string, i: nat): (r: Option<nat>)
    ensures r.Some? ==> 0 < r.value && i + r.value <= |s|
  {
    match SchemeEnd(s, i, false)
    case None => None
    case Some(st) =>
      var e := RunEnd(s, st, NonSpaces);
      if e > st then Some(e - i) else None
  }

  /** The URL pattern starts only at a lower-case `h`: an upper-case scheme is not a match. */
  lemma UrlNeedsLowerScheme(s: string, i: nat)
    requires i < |s| && s[i] != 'h'
    ensures MatchAt(Url, s, i).None?
  {
    if i + 4 <= |s| {
      assert s[i..i + 4][0] == s[i];
    }
  }

  /** `HTTP://x.com` is no URL for `/https?:\/\/[^\s]+/g`, while `http://x.com` is one, whole. */
  lemma UrlSchemeCase()
    ensures MatchAt(Url, "HTTP://x.com", 0).None?
    ensures MatchAt(Url, "http://x.com", 0) == Some(12)
  {
    UrlNeedsLowerScheme("HTTP://x.com", 0);
    var s := "http://x.com";
    assert s[4..8] == "://x" && "://x"[0] != "s://"[0];
    assert HasAt(s, 0, "http") && !HasAt(s, 4, "s://") && HasAt(s, 4, "://");
    RunEndAt(s, 7, NonSpaces, 12);
  }

  /** `{`, at most 200 characters other than `}`, then `}`. */
  function ShortBracesAt(s: string, i: nat): (r: Option<nat>)
    requires i < |s|
    ensures r.Some? ==> 0 < r.value && i + r.value <= |s|
  {
    if s[i] != '{' then None
    else match IndexOfChar(s, '}', i + 1)
      case None => None
      case Some(j) => if j - (i + 1) <= 200 then Some(j + 1 - i) else None
  }

  /**
   * `\n`, then `\s*` takes the whole whitespace run and gives characters back
   * until a `\n` closes the match: the match ends after the LAST newline of the run.
   */
  function BlankLineAt(s: string, i: nat): (r: Option<nat>)
    requires i < |s|
    ensures r.Some? ==> 0 < r.value && i + r.value <= |s|
  {
    if s[i] != '\n' then None
    else match LastIndexOfChar(s, '\n', i + 1, RunEnd(s, i + 1, Spaces))
      case None => None
      case Some(t) => Some(t + 1 - i)
  }

  /**
   * At the start of the input or after a line terminator (the `m` flag), one to
   * three `#` and then whitespace. A run of four or more `#` cannot match:
   * whatever `#{1,3}` takes, a `#` follows where `\s+` needs whitespace.
   */
  function HeadingAt(s: string, i: nat): (r: Option<nat>)
    requires i < |s|
    ensures r.Some? ==> 0 < r.value && i + r.value <= |s|
  {
    var h := RunEnd(s, i, Hashes);
    var e := RunEnd(s, h, Spaces);
    if (i == 0 || IsLineTerminator(s[i - 1])) && 1 <= h - i <= 3 && e > h then Some(e - i)
    else None
  }

  // ---------------------------------------------------------------------------
  // replace and split

  /** The match of `p` that starts at each index of `s`: the table a global `replace` walks. */
  function MatchesOf(p: Pattern, s: string): (ms: seq<Option<nat>>)
    ensures MatchTable(ms, s)
    ensures forall j | 0 <= j < |s| :: ms[j] == MatchAt(p, s, j)
  {
    seq(|s|, j requires 0 <= j < |s| => MatchAt(p, s, j))
  }

  /** One entry per index of `s`, each match nonempty and ending within `s`. */
  predicate MatchTable(ms: seq<Option<nat>>, s: string) {
    |ms| == |s| && forall j | 0 <= j < |ms| :: ms[j].Some? ==> 0 < ms[j].value && j + ms[j].value <= |s|
  }

  /**
   * `s.replace(p, rep)` for a global `p` whose matches are `ms`, scanning from
   * index `i` of the original string: each match becomes `rep` and the scan
   * resumes after it; elsewhere one character is copied.
   */
  function ReplaceWith(ms: seq<Option<nat>>, s: string, i: nat, rep: string): string
    requires MatchTable(ms, s)
    decreases |s| - i
  {
    if i >= |s| then ""
    else match ms[i]
      case Some(k) => rep + ReplaceWith(ms, s, i + k, rep)
      case None => [s[i]] + ReplaceWith(ms, s, i + 1, rep)
  }

  function ReplaceFrom(p: Pattern, s: string, i: nat, rep: string): string {
    ReplaceWith(MatchesOf(p, s), s, i, rep)
  }

  function ReplaceAll(p: Pattern, s: string, rep: string): string {
    ReplaceFrom(p, s, 0, rep)
  }

  /**
   * `s.split(p)`: `start` is where the current piece began, `q` the next index
   * at which a separator is tried.
   */
  function SplitFrom(p: Pattern, s: string, start: nat, q: nat): seq<string>
    requires start <= q <= |s|
    decreases |s| - q
  {
    if q >= |s| then [s[start..]]
    else match MatchAt(p, s, q)
      case Some(k) => [s[start..q]] + SplitFrom(p, s, q + k, q + k)
      case None => SplitFrom(p, s, start, q + 1)
  }

  function Split(p: Pattern, s: string): seq<string> {
    SplitFrom(p, s, 0, 0)
  }

  /** `p.test(s)`: a match starts somewhere in `s`. */
  predicate Test(p: Pattern, s: string) {
    exists i | 0 <= i < |s| :: MatchAt(p, s, i).Some?
  }

  // ---------------------------------------------------------------------------
  // Facts about replace and split

  /** Every character of a replacement's output comes from the input or from the replacement text. */
  lemma {:induction false} ReplaceChars(ms: seq<Option<nat>>, s: string, i: nat, rep: string)
    requires MatchTable(ms, s)
    ensures forall c | c in ReplaceWith(ms, s, i, rep) :: c in s || c in rep
    decreases |s| - i
  {
    if i < |s| {
      match ms[i]
      case Some(k) =>
        ReplaceChars(ms, s, i + k, rep);
      case None =>
        ReplaceChars(ms, s, i + 1, rep);
    }
  }

  /** A match of length `k` at `i` is replaced by `rep`, followed by the replacement of the rest. */
  lemma ReplaceAfterMatch(ms: seq<Option<nat>>, s: string, i: nat, rep: string, k: nat)
    requires MatchTable(ms, s) && i < |s| && ms[i] == Some(k)
    ensures ReplaceWith(ms, s, i, rep) == rep + ReplaceWith(ms, s, i + k, rep)
  {
  }

  /** Where no match starts at `i`, `s[i]` is copied, followed by the replacement from `i + 1`. */
  lemma ReplacePastNoMatch(ms: seq<Option<nat>>, s: string, i: nat, rep: string)
    requires MatchTable(ms, s) && i < |s| && ms[i] == None
    ensures ReplaceWith(ms, s, i, rep) == [s[i]] + ReplaceWith(ms, s, i + 1, rep)
  {
  }

  /** Where no match starts, a replacement copies the input. */
  lemma {:induction false} ReplaceWithoutMatch(ms: seq<Option<nat>>, s: string, i: nat, rep: string)
    requires MatchTable(ms, s) && i <= |s|
    requires forall j | i <= j < |s| :: ms[j].None?
    ensures ReplaceWith(ms, s, i, rep) == s[i..]
    decreases |s| - i
  {
    if i < |s| {
      ReplaceWithoutMatch(ms, s, i + 1, rep);
      ReplacePastNoMatch(ms, s, i, rep);
    }
  }

  /** Every character of a slice comes from the sequence it is cut from. */
  lemma SliceChars(s: string, a: nat, b: nat)
    requires a <= b <= |s|
    ensures forall c | c in s[a..b] :: c in s
  {
    forall c | c in s[a..b] ensures c in s {
      var j :| 0 <= j < b - a && s[a..b][j] == c;
      assert s[a + j] == c;
    }
  }

  /** No match of `p` starts at an index in `a..b`, checked from the end down. */
  predicate NoMatchIn(p: Pattern, s: string, a: nat, b: nat)
    decreases b
  {
    b <= a || (MatchAt(p, s, b - 1).None? && NoMatchIn(p, s, a, b - 1))
  }

  /** For `/\n\s*\n/`, `NoMatchIn` is the statement about every index of the range. */
  lemma {:induction false} NoBlankLineMatchIn(s: string, a: nat, b: nat)
    ensures NoMatchIn(BlankLine, s, a, b) <==> forall j | a <= j < b :: MatchAt(BlankLine, s, j).None?
    decreases b
  {
    if b > a {
      NoBlankLineMatchIn(s, a, b - 1);
    }
  }

  /** `x` is a slice of `s` at none of whose positions a match of `p` starts. */
  predicate MatchFreeSlice(p: Pattern, s: string, x: string) {
    exists a, b | 0 <= a <= b <= |s| :: x == s[a..b] && NoMatchIn(p, s, a, b)
  }

  /** Every piece of `xs` is a match-free slice of `s`, stated piece by piece. */
  predicate AllMatchFree(p: Pattern, s: string, xs: seq<string>)
    decreases |xs|
  {
    xs == [] || (MatchFreeSlice(p, s, xs[0]) && AllMatchFree(p, s, xs[1..]))
  }

  lemma {:induction false} AllMatchFreeMembers(p: Pattern, s: string, xs: seq<string>)
    requires AllMatchFree(p, s, xs)
    ensures forall y | y in xs :: MatchFreeSlice(p, s, y)
    decreases |xs|
  {
    if xs != [] {
      AllMatchFreeMembers(p, s, xs[1..]);
      assert forall y | y in xs :: y == xs[0] || y in xs[1..];
    }
  }

  /**
   * The pieces of the split on `/\n\s*\n/` from `start`, trying separators
   * from `q`, are slices with no separator match in them.
   */
  lemma {:induction false} BlankLineSplitFree(s: string, start: nat, q: nat)
    requires start <= q <= |s|
    requires NoMatchIn(BlankLine, s, start, q)
    ensures AllMatchFree(BlankLine, s, SplitFrom(BlankLine, s, start, q))
    decreases |s| - q
  {
    if q < |s| {
      match MatchAt(BlankLine, s, q)
      case Some(k) =>
        BlankLineSplitFree(s, q + k, q + k);
        BlankLineSplitAtMatch(s, start, q, k);
      case None =>
        BlankLineNoMatchExtends(s, start, q);
        BlankLineSplitFree(s, start, q + 1);
        BlankLineSplitPastNoMatch(s, start, q);
    } else {
      FreeSlice(BlankLine, s, start, |s|);
      assert s[start..|s|] == s[start..];
      FreeCons(BlankLine, s, s[start..], []);
      assert [s[start..]] + [] == [s[start..]];
    }
  }

  /** A separator at `q` closes a match-free piece; the pieces after it are the split from `q + k`. */
  lemma BlankLineSplitAtMatch(s: string, start: nat, q: nat, k: nat)
    requires start <= q < |s| && MatchAt(BlankLine, s, q) == Some(k)
    requires NoMatchIn(BlankLine, s, start, q)
    requires AllMatchFree(BlankLine, s, SplitFrom(BlankLine, s, q + k, q + k))
    ensures AllMatchFree(BlankLine, s, SplitFrom(BlankLine, s, start, q))
  {
    FreeSlice(BlankLine, s, start, q);
    FreeCons(BlankLine, s, s[start..q], SplitFrom(BlankLine, s, q + k, q + k));
  }

  lemma BlankLineNoMatchExtends(s: string, start: nat, q: nat)
    requires start <= q < |s| && MatchAt(BlankLine, s, q) == None
    requires NoMatchIn(BlankLine, s, start, q)
    ensures NoMatchIn(BlankLine, s, start, q + 1)
  {
  }

  /** No separator at `q`: the split goes on from `q + 1` with the same piece open. */
  lemma BlankLineSplitPastNoMatch(s: string, start: nat, q: nat)
    requires start <= q < |s| && MatchAt(BlankLine, s, q) == None
    requires AllMatchFree(BlankLine, s, SplitFrom(BlankLine, s, start, q + 1))
    ensures AllMatchFree(BlankLine, s, SplitFrom(BlankLine, s, start, q))
  {
  }

  lemma FreeSlice(p: Pattern, s: string, a: nat, b: nat)
    requires a <= b <= |s|
    requires NoMatchIn(p, s, a, b)
    ensures MatchFreeSlice(p, s, s[a..b])
  {
  }

  lemma FreeCons(p: Pattern, s: string, x: string, rest: seq<string>)
    requires MatchFreeSlice(p, s, x) && AllMatchFree(p, s, rest)
    ensures AllMatchFree(p, s, [x] + rest)
  {
    assert ([x] + rest)[0] == x && ([x] + rest)[1..] == rest;
  }

  /** Every piece of a split on `/\n\s*\n/` is a slice of the input with no separator match in it. */
  lemma BlankLineSplitPieces(s: string)
    ensures forall x | x in Split(BlankLine, s) :: MatchFreeSlice(BlankLine, s, x)
  {
    BlankLineSplitFree(s, 0, 0);
    AllMatchFreeMembers(BlankLine, s, Split(BlankLine, s));
  }

  /** Every character of every piece of a split on `/\n\s*\n/` comes from the input. */
  lemma BlankLineSplitChars(s: string)
    ensures forall x, c | x in Split(BlankLine, s) && c in x :: c in s
  {
    BlankLineSplitPieces(s);
    forall x, c | x in Split(BlankLine, s) && c in x ensures c in s {
      assert MatchFreeSlice(BlankLine, s, x);
      var a, b :| 0 <= a <= b <= |s| && x == s[a..b];
      SliceChars(s, a, b);
    }
  }

  // ---------------------------------------------------------------------------
  // What the individual patterns match

  /** `/\n\s*\n/` can only match at a newline. */
  lemma BlankLineNeedsNewline(s: string, q: nat)
    requires q < |s| && s[q] != '\n'
    ensures MatchAt(BlankLine, s, q).None?
  {
  }

  /** `/\s+/` matches at `q` exactly when `s[q]` is whitespace, and takes the whole run. */
  lemma WhitespaceMatch(s: string, q: nat)
    requires q < |s|
    ensures IsSpace(s[q]) ==> MatchAt(Whitespace, s, q) == Some(RunEnd(s, q, Spaces) - q)
    ensures !IsSpace(s[q]) ==> MatchAt(Whitespace, s, q) == None
  {
    if IsSpace(s[q]) {
      assert RunEnd(s, q, Spaces) > q;
    }
  }

  /** Between two newlines with only whitespace in between, `/\n\s*\n/` finds a match at the first. */
  lemma BlankLineFound(s: string, x: nat, y: nat)
    requires x < y < |s| && s[x] == '\n' && s[y] == '\n'
    requires forall z | x < z < y :: IsSpace(s[z])
    ensures MatchAt(BlankLine, s, x).Some?
  {
    var e := RunEnd(s, x + 1, Spaces);
    assert forall z | x < z <= y :: InClass(Spaces, s[z]);
    assert y < e;
  }

  /**
   * A slice of `s` at none of whose positions `/\n\s*\n/` matches holds no
   * blank line.
   */
  lemma BlankLineFree(s: string, a: nat, b: nat)
    requires a <= b <= |s|
    requires forall j | a <= j < b :: MatchAt(BlankLine, s, j).None?
    ensures NoBlankLine(s[a..b])
  {
    var t := s[a..b];
    forall x, y | 0 <= x < y < |t| && t[x] == '\n' && t[y] == '\n' ensures exists z | x < z < y :: !IsSpace(t[z]) {
      var e := RunEnd(s, a + x + 1, Spaces);
      assert MatchAt(BlankLine, s, a + x).None?;
      assert LastIndexOfChar(s, '\n', a + x + 1, e).None?;
      assert s[a + y] == '\n';
      assert e <= a + y;
      assert !IsSpace(s[e]);
      assert t[e - a] == s[e];
    }
  }

  /** `/^[\{\[].*[\}\]]$/.test(p)`: bracket first, bracket last, no line terminator anywhere. */
  predicate JsonLikeLineShape(p: string) {
    |p| >= 2 && (p[0] == '{' || p[0] == '[') && (p[|p| - 1] == '}' || p[|p| - 1] == ']')
    && forall k | 0 <= k < |p| :: !IsLineTerminator(p[k])
  }

  lemma JsonLikeLineTest(p: string)
    ensures Test(JsonLikeLine, p) <==> JsonLikeLineShape(p)
  {
    if Test(JsonLikeLine, p) {
      var i :| 0 <= i < |p| && MatchAt(JsonLikeLine, p, i).Some?;
      assert i == 0;
      var e := RunEnd(p, 1, NotLineTerminators);
      assert forall k | 0 <= k < |p| :: !IsLineTerminator(p[k]) by {
        forall k | 0 <= k < |p| ensures !IsLineTerminator(p[k]) {
          assert 1 <= k < e ==> InClass(NotLineTerminators, p[k]);
        }
      }
    }
    if JsonLikeLineShape(p) {
      RunEndAt(p, 1, NotLineTerminators, |p|);
      assert MatchAt(JsonLikeLine, p, 0).Some?;
    }
  }

  predicate IsUpperOrUnderscore(c: char) {
    ('A' <= c <= 'Z') || c == '_'
  }

  /** `/^[A-Z_]+:/.test(p)`: one or more capitals or underscores open `p`, then a colon. */
  predicate UpperLabelShape(p: string) {
    exists e | 0 < e < |p| :: p[e] == ':' && forall k | 0 <= k < e :: IsUpperOrUnderscore(p[k])
  }

  lemma UpperLabelTest(p: string)
    ensures Test(UpperLabel, p) <==> UpperLabelShape(p)
  {
    var r := RunEnd(p, 0, UpperOrUnderscore);
    if Test(UpperLabel, p) {
      var i :| 0 <= i < |p| && MatchAt(UpperLabel, p, i).Some?;
      assert i == 0;
      assert forall k | 0 <= k < r :: IsUpperOrUnderscore(p[k]) by {
        forall k | 0 <= k < r ensures IsUpperOrUnderscore(p[k]) {
          assert InClass(UpperOrUnderscore, p[k]);
        }
      }
      assert p[r] == ':';
    }
    if UpperLabelShape(p) {
      var e :| 0 < e < |p| && p[e] == ':' && forall k | 0 <= k < e :: IsUpperOrUnderscore(p[k]);
      RunEndAt(p, 0, UpperOrUnderscore, e);
      assert MatchAt(UpperLabel, p, 0).Some?;
    }
  }

  /** Index `i` starts a line: the start of the input or just after a line terminator (the `m` flag). */
  predicate AtLineStart(s: string, i: nat)
    requires i <= |s|
  {
    i == 0 || IsLineTerminator(s[i - 1])
  }

  /** `#{1,3}` takes `n` characters at `i` and `\s` can follow. */
  predicate HeadingMarker(s: string, i: nat, n: nat) {
    1 <= n <= 3 && i + n < |s| && (forall k | i <= k < i + n :: s[k] == '#') && IsSpace(s[i + n])
  }

  /**
   * `/^#{1,3}\s+/gm` matches at `i` exactly when a line starts there with one
   * to three `#` followed by whitespace; the match takes the marker and the
   * whole run of whitespace after it, which may span several lines.
   */
  lemma HeadingMatch(s: string, i: nat)
    requires i < |s|
    ensures MatchAt(Heading, s, i).Some? <==> AtLineStart(s, i) && exists n :: HeadingMarker(s, i, n)
    ensures forall n | AtLineStart(s, i) && HeadingMarker(s, i, n) ::
      var len := MatchAt(Heading, s, i).value;
      i + n < i + len && (forall k | i + n <= k < i + len :: IsSpace(s[k])) && (i + len == |s| || !IsSpace(s[i + len]))
  {
    var h := RunEnd(s, i, Hashes);
    forall n | HeadingMarker(s, i, n) ensures h == i + n {
      RunEndAt(s, i, Hashes, i + n);
    }
    if MatchAt(Heading, s, i).Some? {
      assert forall k | i <= k < h :: s[k] == '#' by {
        forall k | i <= k < h ensures s[k] == '#' {
          assert InClass(Hashes, s[k]);
        }
      }
      assert HeadingMarker(s, i, h - i);
    }
  }

  /** At a line start with a marker of `n` hashes, the match is the marker and the whitespace run after it. */
  lemma HeadingMarkerMatch(s: string, i: nat, n: nat)
    requires i < |s| && AtLineStart(s, i) && HeadingMarker(s, i, n)
    ensures RunEnd(s, i + n, Spaces) > i + n
    ensures MatchAt(Heading, s, i) == Some(RunEnd(s, i + n, Spaces) - i)
  {
    assert forall k | i <= k < i + n :: InClass(Hashes, s[k]);
    RunEndAt(s, i, Hashes, i + n);
    assert InClass(Spaces, s[i + n]);
  }

  /** A run of four `#` is never a heading marker: `\s+` would have to match a `#`. */
  lemma FourHashesNoHeading(s: string, i: nat)
    requires HasAt(s, i, "####")
    ensures MatchAt(Heading, s, i).None?
  {
    var h := RunEnd(s, i, Hashes);
    assert s[i..i + 4][3] == s[i + 3];
    assert forall k | i <= k < i + 4 :: s[k] == s[i..i + 4][k - i];
    assert h >= i + 4 by {
      assert h < i + 4 ==> InClass(Hashes, s[h]);
    }
  }

  /**
   * After `s.replace(/\n{3,}/g, '\n\n')` from index `i`, no three newlines
   * follow one another; and the output opens with fewer than two newlines if
   * the input's run of newlines at `i` is shorter than two, and with none if
   * that run is empty.
   */
  lemma {:induction false} NewlineRunCollapse(s: string, i: nat)
    requires i <= |s|
    ensures !Contains(ReplaceFrom(NewlineRun, s, i, "\n\n"), "\n\n\n")
    ensures RunEnd(s, i, Newlines) - i <= 1 ==> !HasAt(ReplaceFrom(NewlineRun, s, i, "\n\n"), 0, "\n\n")
    ensures RunEnd(s, i, Newlines) == i ==> !HasAt(ReplaceFrom(NewlineRun, s, i, "\n\n"), 0, "\n")
    decreases |s| - i
  {
    if i < |s| {
      var e := RunEnd(s, i, Newlines);
      if e - i >= 3 {
        NewlineRunCollapse(s, e);
        CollapseRunStep(s, i, e);
      } else {
        NewlineRunCollapse(s, i + 1);
        CollapseCharStep(s, i, e);
      }
    }
  }

  /** The step of `NewlineRunCollapse` at a run of three or more newlines, ending at `e`. */
  lemma CollapseRunStep(s: string, i: nat, e: nat)
    requires i < |s| && e == RunEnd(s, i, Newlines) && e - i >= 3
    requires !Contains(ReplaceFrom(NewlineRun, s, e, "\n\n"), "\n\n\n")
    requires RunEnd(s, e, Newlines) == e ==> !HasAt(ReplaceFrom(NewlineRun, s, e, "\n\n"), 0, "\n")
    ensures !Contains(ReplaceFrom(NewlineRun, s, i, "\n\n"), "\n\n\n")
  {
    RunEndAt(s, e, Newlines, e);
    ReplaceAfterMatch(MatchesOf(NewlineRun, s), s, i, "\n\n", e - i);
    CollapseAfterRun(ReplaceFrom(NewlineRun, s, e, "\n\n"));
  }

  /** The step of `NewlineRunCollapse` where a run of fewer than three newlines, ending at `e`, starts at `i`. */
  lemma CollapseCharStep(s: string, i: nat, e: nat)
    requires i < |s| && e == RunEnd(s, i, Newlines) && e - i < 3
    requires !Contains(ReplaceFrom(NewlineRun, s, i + 1, "\n\n"), "\n\n\n")
    requires RunEnd(s, i + 1, Newlines) - (i + 1) <= 1 ==> !HasAt(ReplaceFrom(NewlineRun, s, i + 1, "\n\n"), 0, "\n\n")
    requires RunEnd(s, i + 1, Newlines) == i + 1 ==> !HasAt(ReplaceFrom(NewlineRun, s, i + 1, "\n\n"), 0, "\n")
    ensures !Contains(ReplaceFrom(NewlineRun, s, i, "\n\n"), "\n\n\n")
    ensures e - i <= 1 ==> !HasAt(ReplaceFrom(NewlineRun, s, i, "\n\n"), 0, "\n\n")
    ensures e == i ==> !HasAt(ReplaceFrom(NewlineRun, s, i, "\n\n"), 0, "\n")
  {
    if s[i] == '\n' {
      RunEndAt(s, i + 1, Newlines, e);
    } else {
      RunEndAt(s, i, Newlines, i);
    }
    ReplacePastNoMatch(MatchesOf(NewlineRun, s), s, i, "\n\n");
    CollapsePastChar(s[i], ReplaceFrom(NewlineRun, s, i + 1, "\n\n"), e - i);
  }

  /** A collapsed run, `"\n\n"`, before output that neither holds three newlines nor starts with one. */
  lemma CollapseAfterRun(rest: string)
    requires !Contains(rest, "\n\n\n") && !HasAt(rest, 0, "\n")
    ensures !Contains("\n\n" + rest, "\n\n\n")
  {
    if |rest| >= 1 {
      assert (['\n'] + rest)[0..2] == ['\n', rest[0]];
      assert rest[0..1] == [rest[0]];
    }
    NoTripleCons('\n', rest);
    NoTripleCons('\n', ['\n'] + rest);
    assert ['\n'] + (['\n'] + rest) == "\n\n" + rest;
  }

  /** A copied character `c` that starts a run of `run` newlines, with `run` below three. */
  lemma CollapsePastChar(c: char, rest: string, run: nat)
    requires !Contains(rest, "\n\n\n")
    requires c == '\n' <==> run > 0
    requires c == '\n' ==> !HasAt(rest, 0, "\n\n")
    requires run == 1 ==> !HasAt(rest, 0, "\n")
    ensures !Contains([c] + rest, "\n\n\n")
    ensures run <= 1 ==> !HasAt([c] + rest, 0, "\n\n")
    ensures run == 0 ==> !HasAt([c] + rest, 0, "\n")
  {
    NoTripleCons(c, rest);
    var out := [c] + rest;
    if HasAt(out, 0, "\n") {
      assert out[0..1] == [c];
    }
    if HasAt(out, 0, "\n\n") {
      assert out[0..2] == [c] + rest[0..1];
    }
  }
}
