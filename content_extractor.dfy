/**
 * The decisions of lib/content-extractor.ts: whether a host is a known
 * subscription site, whether a fetched page looks paywalled, which element's
 * text is taken as the article, the fallback to the page body, and the
 * whitespace clean-up of the result.
 *
 * The parsed page is a tree of element and text nodes. The fetch is an input
 * (a response, ok or not, or a thrown error), and the URL enters as the
 * hostname that URL parsing yields, or `None` when the URL does not parse.
 */
module ContentExtractor {
  import opened Wrappers
  import opened JsText
  import opened JsRegex

  // ---------------------------------------------------------------------------
  // The parsed page

  /** A node of the parsed page: text, or an element with its tag, attributes and children. */
  datatype Node = Text(value: string) | Element(tag: string, attrs: map<string, string>, children: seq<Node>)

  /** The elements among `ns` and their descendants, in document order. */
  function Elements(ns: seq<Node>): (r: seq<Node>)
    ensures forall n | n in r :: n.Element?
    decreases ns
  {
    if ns == [] then []
    else match ns[0]
      case Text(_) => Elements(ns[1..])
      case Element(_, _, cs) => [ns[0]] + Elements(cs) + Elements(ns[1..])
  }

  /** `.text()`: the text nodes among `ns` and their descendants, joined in document order. */
  function TextOf(ns: seq<Node>): string
    decreases ns
  {
    if ns == [] then ""
    else (match ns[0] case Text(v) => v case Element(_, _, cs) => TextOf(cs)) + TextOf(ns[1..])
  }

  lemma {:induction false} ElementsConcat(a: seq<Node>, b: seq<Node>)
    ensures Elements(a + b) == Elements(a) + Elements(b)
    decreases a
  {
    if a != [] {
      assert (a + b)[0] == a[0] && (a + b)[1..] == a[1..] + b;
      ElementsConcat(a[1..], b);
      match a[0]
      case Text(_) =>
        assert Elements(a + b) == Elements(a[1..] + b);
        assert Elements(a) == Elements(a[1..]);
      case Element(_, _, cs) =>
        assert Elements(a + b) == [a[0]] + Elements(cs) + Elements(a[1..] + b);
        assert Elements(a) == [a[0]] + Elements(cs) + Elements(a[1..]);
        assert [a[0]] + Elements(cs) + (Elements(a[1..]) + Elements(b))
            == ([a[0]] + Elements(cs) + Elements(a[1..])) + Elements(b);
    } else {
      assert a + b == b;
    }
  }

  // ---------------------------------------------------------------------------
  // Selectors

  /**
   * The simple selectors the extractor uses: a tag name, `[attr="value"]`,
   * `.class`, and `[attr*="sub"]`.
   */
  datatype Selector = Tag(name: string) | AttrEquals(attr: string, value: string) | Class(name: string) | AttrContains(attr: string, sub: string)

  /**
   * An element matches a selector: by tag name, by an attribute's exact value,
   * by one of the whitespace-separated tokens of its `class` attribute, or by
   * a non-empty substring of an attribute's value.
   */
  predicate Matches(sel: Selector, n: Node) {
    n.Element? &&
    match sel
    case Tag(name) => n.tag == name
    case AttrEquals(a, v) => a in n.attrs && n.attrs[a] == v
    case Class(c) => "class" in n.attrs && c in Split(Whitespace, n.attrs["class"])
    case AttrContains(a, sub) => |sub| > 0 && a in n.attrs && Contains(n.attrs[a], sub)
  }

  /** A comma-separated selector group matches an element that any of its members matches. */
  predicate MatchesAny(group: seq<Selector>, n: Node) {
    exists k | 0 <= k < |group| :: Matches(group[k], n)
  }

  /** `$(group)`: the matching elements, in document order. */
  function Select(ns: seq<Node>, group: seq<Selector>): (r: seq<Node>)
    decreases ns
  {
    if ns == [] then []
    else match ns[0]
      case Text(_) => Select(ns[1..], group)
      case Element(_, _, cs) =>
        (if MatchesAny(group, ns[0]) then [ns[0]] else []) + Select(cs, group) + Select(ns[1..], group)
  }

  /** `$(group)` holds exactly the elements of the page that match the group. */
  lemma {:induction false} SelectIsFilter(ns: seq<Node>, group: seq<Selector>)
    ensures forall n :: n in Select(ns, group) <==> n in Elements(ns) && MatchesAny(group, n)
    decreases ns
  {
    if ns != [] {
      SelectIsFilter(ns[1..], group);
      match ns[0]
      case Text(_) =>
      case Element(_, _, cs) => SelectIsFilter(cs, group);
    }
  }

  /** `$(group).first()`. */
  function First(ns: seq<Node>, group: seq<Selector>): Option<Node> {
    var all := Select(ns, group);
    if |all| > 0 then Some(all[0]) else None
  }

  /** `.first()` finds a matching element of the page, and finds none only when no element matches. */
  lemma FirstMatches(ns: seq<Node>, group: seq<Selector>)
    ensures First(ns, group).Some? ==> First(ns, group).value in Elements(ns) && MatchesAny(group, First(ns, group).value)
    ensures First(ns, group).None? ==> forall n | n in Elements(ns) :: !MatchesAny(group, n)
  {
    SelectIsFilter(ns, group);
  }

  /**
   * `$(group).remove()`: every matching element leaves the tree with
   * everything inside it.
   */
  function Prune(ns: seq<Node>, group: seq<Selector>): seq<Node>
    decreases ns
  {
    if ns == [] then []
    else match ns[0]
      case Text(_) => [ns[0]] + Prune(ns[1..], group)
      case Element(t, a, cs) =>
        (if MatchesAny(group, ns[0]) then [] else [Element(t, a, Prune(cs, group))]) + Prune(ns[1..], group)
  }

  /** After removal, no element of the page matches the group. */
  lemma {:induction false} PruneRemovesAll(ns: seq<Node>, group: seq<Selector>)
    ensures forall n | n in Elements(Prune(ns, group)) :: !MatchesAny(group, n)
    decreases ns
  {
    if ns != [] {
      PruneRemovesAll(ns[1..], group);
      match ns[0]
      case Text(_) =>
        ElementsConcat([ns[0]], Prune(ns[1..], group));
      case Element(t, a, cs) =>
        PruneRemovesAll(cs, group);
        var kept := if MatchesAny(group, ns[0]) then [] else [Element(t, a, Prune(cs, group))];
        ElementsConcat(kept, Prune(ns[1..], group));
        if !MatchesAny(group, ns[0]) {
          var e := Element(t, a, Prune(cs, group));
          assert Elements(kept) == [e] + Elements(Prune(cs, group)) + Elements([]);
          forall k | 0 <= k < |group| ensures !Matches(group[k], e) {
            assert !Matches(group[k], ns[0]);
          }
        }
    }
  }

  /** The parsed page, which the fallback edits in place. */
  class ParsedDocument {
    var roots: seq<Node>

    constructor (roots: seq<Node>)
      ensures this.roots == roots
    {
      this.roots := roots;
    }

    /** `$(group).remove()`. */
    method Remove(group: seq<Selector>)
      modifies this
      ensures roots == Prune(old(roots), group)
    {
      roots := Prune(roots, group);
    }
  }

  /** `$('body').text()`. */
  function BodyText(roots: seq<Node>): string {
    TextOf(Select(roots, [Tag("body")]))
  }

  // ---------------------------------------------------------------------------
  // Subscription sites

  const SubscriptionDomains: seq<string> := [
    "wsj.com", "nytimes.com", "ft.com", "economist.com", "bloomberg.com",
    "washingtonpost.com", "theatlantic.com", "newyorker.com", "financialtimes.com"
  ]

  /** `subs.some(sub => s.includes(sub))`. */
  function ContainsAny(s: string, subs: seq<string>): (b: bool)
    ensures b <==> exists x | x in subs :: Contains(s, x)
    decreases |subs|
  {
    if subs == [] then false
    else Contains(s, subs[0]) || ContainsAny(s, subs[1..])
  }

  /**
   * `isKnownSubscriptionSite(url)`: the lower-cased hostname contains one of
   * the listed domains anywhere (not only as a suffix); a URL that does not
   * parse is not a subscription site.
   */
  function IsKnownSubscriptionSite(hostname: Option<string>): (b: bool)
    ensures b <==> hostname.Some? && exists d | d in SubscriptionDomains :: Contains(Lower(hostname.value), d)
  {
    hostname.Some? && ContainsAny(Lower(hostname.value), SubscriptionDomains)
  }

  lemma LowerIdempotent(s: string)
    ensures Lower(Lower(s)) == Lower(s)
  {
  }

  /** Letter case in the hostname never matters. */
  lemma SiteCheckIgnoresCase(host: string)
    ensures IsKnownSubscriptionSite(Some(host)) == IsKnownSubscriptionSite(Some(Lower(host)))
  {
    LowerIdempotent(host);
  }

  /** A hostname that contains a subscription site's hostname is one too. */
  lemma {:induction false} ContainsTransitive(s: string, t: string, u: string)
    requires Contains(s, t) && Contains(t, u)
    ensures Contains(s, u)
  {
    var i :| 0 <= i <= |s| - |t| && HasAt(s, i, t);
    var j :| 0 <= j <= |t| - |u| && HasAt(t, j, u);
    forall k | 0 <= k < |u| ensures s[i + j + k] == u[k] {
      assert s[i + (j + k)] == t[j + k];
    }
    assert s[i + j..i + j + |u|] == u;
    assert HasAt(s, i + j, u);
  }

  lemma LowerContains(s: string, t: string)
    requires Contains(s, t)
    ensures Contains(Lower(s), Lower(t))
  {
    var i :| 0 <= i <= |s| - |t| && HasAt(s, i, t);
    assert Lower(s)[i..i + |t|] == Lower(t);
    assert HasAt(Lower(s), i, Lower(t));
  }

  lemma WiderHostIsSubscriptionSite(host: string, wider: string)
    requires IsKnownSubscriptionSite(Some(host))
    requires Contains(wider, host)
    ensures IsKnownSubscriptionSite(Some(wider))
  {
    var d :| d in SubscriptionDomains && Contains(Lower(host), d);
    LowerContains(wider, host);
    ContainsTransitive(Lower(wider), Lower(host), d);
  }

  /** The substring test makes `www.microsoft.com` a subscription site, because it contains `ft.com`. */
  lemma MicrosoftIsSubscriptionSite(host: string)
    requires host == "www.microsoft.com"
    ensures IsKnownSubscriptionSite(Some(host))
  {
    assert Lower(host)[11..17] == "ft.com";
    assert HasAt(Lower(host), 11, "ft.com");
    assert "ft.com" in SubscriptionDomains;
  }

  // ---------------------------------------------------------------------------
  // The paywall classifier

  const PaywallIndicators: seq<string> := [
    "paywall", "subscription", "premium", "members-only", "locked-content",
    "subscribe-to-read", "sign-in-to-read", "login-to-read", "premium-content", "subscriber-only"
  ]

  const PaywallPhrases: seq<string> := [
    "subscribe to continue reading", "sign in to read", "log in to read", "premium content",
    "subscriber exclusive", "members only", "this article is for subscribers"
  ]

  /** `[class*="ind"], [id*="ind"]`. */
  function IndicatorGroup(ind: string): seq<Selector> {
    [AttrContains("class", ind), AttrContains("id", ind)]
  }

  /** `indicators.some(ind => $(IndicatorGroup(ind)).length > 0)`. */
  function AnyIndicatorSelected(roots: seq<Node>, inds: seq<string>): (b: bool)
    ensures b <==> exists x | x in inds :: Select(roots, IndicatorGroup(x)) != []
    decreases |inds|
  {
    if inds == [] then false
    else Select(roots, IndicatorGroup(inds[0])) != [] || AnyIndicatorSelected(roots, inds[1..])
  }

  /** The element's `class` or `id` attribute contains `ind`. */
  predicate CarriesIndicator(n: Node, ind: string) {
    n.Element? &&
    (("class" in n.attrs && Contains(n.attrs["class"], ind)) || ("id" in n.attrs && Contains(n.attrs["id"], ind)))
  }

  /**
   * The first stage of the classifier: it fires exactly when some element of
   * the page carries one of the indicators in its `class` or `id`.
   */
  function StructuralPaywall(roots: seq<Node>): (b: bool)
    ensures b <==> exists n, ind | n in Elements(roots) && ind in PaywallIndicators :: CarriesIndicator(n, ind)
  {
    StructuralPaywallShape(roots);
    AnyIndicatorSelected(roots, PaywallIndicators)
  }

  /** The second stage: the lower-cased body text contains one of the phrases. */
  function TextPaywall(roots: seq<Node>): (b: bool)
    ensures b <==> exists ph | ph in PaywallPhrases :: Contains(Lower(BodyText(roots)), ph)
  {
    ContainsAny(Lower(BodyText(roots)), PaywallPhrases)
  }

  /** Any element whose `class` or `id` holds an indicator is selected by that indicator's group. */
  lemma IndicatorElementDetected(roots: seq<Node>, n: Node, ind: string)
    requires n in Elements(roots)
    requires ind in PaywallIndicators && CarriesIndicator(n, ind)
    ensures AnyIndicatorSelected(roots, PaywallIndicators)
  {
    var group := IndicatorGroup(ind);
    assert |ind| > 0;
    assert Matches(group[if "class" in n.attrs && Contains(n.attrs["class"], ind) then 0 else 1], n);
    SelectIsFilter(roots, group);
    assert n in Select(roots, group);
  }

  /** An element that a group selects carries that group's indicator. */
  lemma SelectedCarriesIndicator(roots: seq<Node>, ind: string)
    requires Select(roots, IndicatorGroup(ind)) != []
    ensures exists n | n in Elements(roots) :: CarriesIndicator(n, ind)
  {
    var group := IndicatorGroup(ind);
    var n := Select(roots, group)[0];
    SelectIsFilter(roots, group);
    assert n in Elements(roots) && MatchesAny(group, n);
    var k :| 0 <= k < |group| && Matches(group[k], n);
    assert CarriesIndicator(n, ind);
  }

  lemma StructuralPaywallShape(roots: seq<Node>)
    ensures AnyIndicatorSelected(roots, PaywallIndicators) <==>
      exists n, ind | n in Elements(roots) && ind in PaywallIndicators :: CarriesIndicator(n, ind)
  {
    if AnyIndicatorSelected(roots, PaywallIndicators) {
      var ind :| ind in PaywallIndicators && Select(roots, IndicatorGroup(ind)) != [];
      SelectedCarriesIndicator(roots, ind);
    }
    forall n, ind | n in Elements(roots) && ind in PaywallIndicators && CarriesIndicator(n, ind)
      ensures AnyIndicatorSelected(roots, PaywallIndicators)
    {
      IndicatorElementDetected(roots, n, ind);
    }
  }

  // ---------------------------------------------------------------------------
  // Choosing the article text

  const ContentSelectors: seq<Selector> := [
    Tag("article"), AttrEquals("role", "article"), Class("article-content"),
    Class("post-content"), Class("entry-content"), Class("content"), Tag("main")
  ]

  /** The elements the fallback removes: `script, style, nav, footer, header, aside`. */
  const Stripped: seq<Selector> := [Tag("script"), Tag("style"), Tag("nav"), Tag("footer"), Tag("header"), Tag("aside")]

  /** The length above which a selector's text is taken without looking further. */
  const Substantial: nat := 200

  /** The trimmed text of the first element that `sel` matches, if any. */
  function Candidate(roots: seq<Node>, sel: Selector): Option<string> {
    match First(roots, [sel])
    case None => None
    case Some(e) => Some(Trim(TextOf([e])))
  }

  /** A selector yields a text exactly when some element of the page matches it. */
  lemma CandidateExists(roots: seq<Node>, sel: Selector)
    ensures Candidate(roots, sel).Some? <==> exists n | n in Elements(roots) :: Matches(sel, n)
  {
    var first := First(roots, [sel]);
    FirstMatches(roots, [sel]);
    if first.Some? {
      assert Matches([sel][0], first.value);
    } else {
      forall n | n in Elements(roots) ensures !Matches(sel, n) {
        assert !MatchesAny([sel], n);
        assert [sel][0] == sel;
      }
    }
  }

  /**
   * The selector loop from the remaining selectors `sels` onwards, with
   * `content` the text kept so far.
   */
  function SelectFrom(roots: seq<Node>, sels: seq<Selector>, content: string): (r: string)
    ensures r == content || r == [] || !IsSpace(r[0])
    ensures r == content || exists j | 0 <= j < |sels| :: Candidate(roots, sels[j]) == Some(r)
    decreases |sels|
  {
    if sels == [] then content
    else match Candidate(roots, sels[0])
      case None => SelectFrom(roots, sels[1..], content)
      case Some(c) => if |c| > Substantial then c else SelectFrom(roots, sels[1..], c)
  }

  /**
   * The text the selector loop settles on: `""`, or the trimmed text of the
   * first element that one of the content selectors matches.
   */
  function Selected(roots: seq<Node>): (r: string)
    ensures r == [] || !IsSpace(r[0])
    ensures r == [] || exists j | 0 <= j < |ContentSelectors| :: Candidate(roots, ContentSelectors[j]) == Some(r)
  {
    SelectFrom(roots, ContentSelectors, "")
  }

  /** The first selector whose text is longer than 200 characters decides. */
  lemma {:induction false} FirstLongWins(roots: seq<Node>, sels: seq<Selector>, content: string, j: nat)
    requires j < |sels|
    requires Candidate(roots, sels[j]).Some? && |Candidate(roots, sels[j]).value| > Substantial
    requires forall i | 0 <= i < j :: Candidate(roots, sels[i]).None? || |Candidate(roots, sels[i]).value| <= Substantial
    ensures SelectFrom(roots, sels, content) == Candidate(roots, sels[j]).value
    decreases j
  {
    if j > 0 {
      assert Candidate(roots, sels[0]).None? || |Candidate(roots, sels[0]).value| <= Substantial;
      var next := if Candidate(roots, sels[0]).Some? then Candidate(roots, sels[0]).value else content;
      forall i | 0 <= i < j - 1
        ensures Candidate(roots, sels[1..][i]).None? || |Candidate(roots, sels[1..][i]).value| <= Substantial
      {
        assert sels[1..][i] == sels[i + 1];
      }
      FirstLongWins(roots, sels[1..], next, j - 1);
    }
  }

  /**
   * When no selector's text is longer than 200 characters, the loop keeps the
   * text of the last selector that matched anything, or `content` when none did.
   */
  lemma {:induction false} NoLongTakesLast(roots: seq<Node>, sels: seq<Selector>, content: string)
    requires forall i | 0 <= i < |sels| :: Candidate(roots, sels[i]).None? || |Candidate(roots, sels[i]).value| <= Substantial
    ensures (forall i | 0 <= i < |sels| :: Candidate(roots, sels[i]).None?) ==> SelectFrom(roots, sels, content) == content
    ensures forall j | 0 <= j < |sels| && Candidate(roots, sels[j]).Some? && (forall i | j < i < |sels| :: Candidate(roots, sels[i]).None?) ::
      SelectFrom(roots, sels, content) == Candidate(roots, sels[j]).value
    decreases |sels|
  {
    if sels != [] {
      var next := if Candidate(roots, sels[0]).Some? then Candidate(roots, sels[0]).value else content;
      var rest := sels[1..];
      assert forall i | 0 <= i < |rest| :: rest[i] == sels[i + 1];
      NoLongTakesLast(roots, rest, next);
      assert SelectFrom(roots, sels, content) == SelectFrom(roots, rest, next);
      if forall i | 0 <= i < |sels| :: Candidate(roots, sels[i]).None? {
        assert forall i | 0 <= i < |rest| :: Candidate(roots, rest[i]).None?;
      }
      forall j | 0 <= j < |sels| && Candidate(roots, sels[j]).Some? && (forall i | j < i < |sels| :: Candidate(roots, sels[i]).None?)
        ensures SelectFrom(roots, sels, content) == Candidate(roots, sels[j]).value
      {
        if j == 0 {
          assert forall i | 0 <= i < |rest| :: Candidate(roots, rest[i]).None?;
        } else {
          assert rest[j - 1] == sels[j];
          assert forall i | j - 1 < i < |rest| :: Candidate(roots, rest[i]).None?;
        }
      }
    }
  }

  /**
   * The selector loop: for each selector in order, the trimmed text of the
   * first element it matches replaces `content`, and a text longer than 200
   * characters ends the loop.
   */
  method SelectArticleText(doc: ParsedDocument) returns (content: string)
    ensures content == Selected(doc.roots)
  {
    content := "";
    var i := 0;
    while i < |ContentSelectors|
      invariant 0 <= i <= |ContentSelectors|
      invariant Selected(doc.roots) == SelectFrom(doc.roots, ContentSelectors[i..], content)
    {
      var element := First(doc.roots, [ContentSelectors[i]]);
      assert ContentSelectors[i..][1..] == ContentSelectors[i + 1..];
      if element.Some? {
        content := Trim(TextOf([element.value]));
        if |content| > Substantial {
          break;
        }
      }
      i := i + 1;
    }
  }

  lemma {:induction false} TextOfConcat(a: seq<Node>, b: seq<Node>)
    ensures TextOf(a + b) == TextOf(a) + TextOf(b)
    decreases a
  {
    if a != [] {
      assert (a + b)[0] == a[0] && (a + b)[1..] == a[1..] + b;
      TextOfConcat(a[1..], b);
    } else {
      assert a + b == b;
    }
  }

  /** The text of the selected elements is text of the page. */
  lemma {:induction false} SelectText(ns: seq<Node>, group: seq<Selector>)
    ensures forall c | c in TextOf(Select(ns, group)) :: c in TextOf(ns)
    decreases ns
  {
    if ns != [] {
      SelectText(ns[1..], group);
      match ns[0]
      case Text(_) =>
      case Element(_, _, cs) =>
        SelectText(cs, group);
        var pre := if MatchesAny(group, ns[0]) then [ns[0]] else [];
        TextOfConcat(pre + Select(cs, group), Select(ns[1..], group));
        TextOfConcat(pre, Select(cs, group));
        assert TextOf([ns[0]]) == TextOf(cs) + TextOf([]);
    }
  }

  /** Removing elements never adds text. */
  lemma {:induction false} PruneText(ns: seq<Node>, group: seq<Selector>)
    ensures forall c | c in TextOf(Prune(ns, group)) :: c in TextOf(ns)
    decreases ns
  {
    if ns != [] {
      PruneText(ns[1..], group);
      match ns[0]
      case Text(v) =>
        TextOfConcat([ns[0]], Prune(ns[1..], group));
        assert TextOf([ns[0]]) == v + TextOf([]);
      case Element(t, a, cs) =>
        PruneText(cs, group);
        var kept := if MatchesAny(group, ns[0]) then [] else [Element(t, a, Prune(cs, group))];
        TextOfConcat(kept, Prune(ns[1..], group));
        assert TextOf([Element(t, a, Prune(cs, group))]) == TextOf(Prune(cs, group)) + TextOf([]);
    }
  }

  /**
   * The page text the fallback uses: the trimmed body text after removing the
   * stripped elements. It is text of the page, and neither begins nor ends
   * with whitespace.
   */
  function FallbackText(roots: seq<Node>): (r: string)
    ensures r == [] || (!IsSpace(r[0]) && !IsSpace(r[|r| - 1]))
    ensures forall c | c in r :: c in TextOf(roots)
  {
    var pruned := Prune(roots, Stripped);
    var body := BodyText(pruned);
    SelectText(pruned, [Tag("body")]);
    PruneText(roots, Stripped);
    SliceChars(body, TrimOffset(body), TrimLimit(body));
    Trim(body)
  }

  /** The fallback runs when the chosen text is empty or shorter than 200 characters. */
  predicate NeedsFallback(content: string) {
    content == "" || |content| < Substantial
  }

  // ---------------------------------------------------------------------------
  // Whitespace clean-up

  /** Every whitespace character of `s` is a plain space. */
  predicate SpacesAreBlanks(s: string) {
    forall k | 0 <= k < |s| :: IsSpace(s[k]) ==> s[k] == ' '
  }

  /** No two neighbouring characters of `s` are both whitespace. */
  predicate NoDoubleSpace(s: string) {
    forall k | 0 <= k < |s| - 1 :: !IsSpace(s[k]) || !IsSpace(s[k + 1])
  }

  /** At a whitespace character, `/\s+/g` puts one space for the whole run. */
  lemma ReplaceAtSpace(s: string, i: nat)
    requires i < |s| && IsSpace(s[i])
    ensures ReplaceFrom(Whitespace, s, i, " ") == " " + ReplaceFrom(Whitespace, s, RunEnd(s, i, Spaces), " ")
  {
    WhitespaceMatch(s, i);
  }

  /** Any other character is copied. */
  lemma ReplaceAtWordChar(s: string, i: nat)
    requires i < |s| && !IsSpace(s[i])
    ensures ReplaceFrom(Whitespace, s, i, " ") == [s[i]] + ReplaceFrom(Whitespace, s, i + 1, " ")
  {
    WhitespaceMatch(s, i);
  }

  /**
   * `t` is what collapsing whitespace leaves of `s[i..]`: the same
   * non-whitespace characters in the same order, only plain spaces, never two
   * in a row, empty only for an empty input, starting with whitespace exactly
   * when `s[i..]` does, and all whitespace exactly when `s[i..]` is.
   */
  predicate CollapsedFrom(s: string, i: nat, t: string)
    requires i <= |s|
  {
    NonSpace(t) == NonSpace(s[i..]) && SpacesAreBlanks(t) && NoDoubleSpace(t)
    && (t != [] && i < |s| ==> (IsSpace(t[0]) <==> IsSpace(s[i])))
    && (t == [] <==> i == |s|)
    && (AllSpace(t) <==> forall k | i <= k < |s| :: IsSpace(s[k]))
  }

  /** One space in front of the collapse of the text after a whitespace run. */
  lemma CollapseAtSpace(s: string, i: nat, rest: string)
    requires i < |s| && IsSpace(s[i])
    requires CollapsedFrom(s, RunEnd(s, i, Spaces), rest)
    ensures CollapsedFrom(s, i, " " + rest)
  {
    var e := RunEnd(s, i, Spaces);
    var t := " " + rest;
    assert IsSpace(' ');
    assert forall k | 0 <= k < |rest| :: rest[k] == t[k + 1];
    if rest != [] {
      assert e < |s| && !IsSpace(s[e]);
      assert !IsSpace(rest[0]);
    }
    assert AllSpace(t) <==> AllSpace(rest);
    assert (forall k | e <= k < |s| :: IsSpace(s[k])) <==> (forall k | i <= k < |s| :: IsSpace(s[k]));
    NonSpaceAfterRun(s, i, e, rest);
  }

  /** A whitespace run that became one space leaves the other characters as they were. */
  lemma NonSpaceAfterRun(s: string, i: nat, e: nat, rest: string)
    requires i <= e <= |s| && forall k | i <= k < e :: IsSpace(s[k])
    requires NonSpace(rest) == NonSpace(s[e..])
    ensures NonSpace(" " + rest) == NonSpace(s[i..])
  {
    assert (" " + rest)[1..] == rest;
    assert s[i..] == s[i..e] + s[e..];
    NonSpaceConcat(s[i..e], s[e..]);
    assert AllSpace(s[i..e]) by {
      forall k | 0 <= k < e - i ensures IsSpace(s[i..e][k]) {
        assert s[i..e][k] == s[i + k];
      }
    }
    NonSpaceOfSpace(s[i..e]);
  }

  /** A copied non-whitespace character in front of the collapse of the rest. */
  lemma CollapseAtWordChar(s: string, i: nat, rest: string)
    requires i < |s| && !IsSpace(s[i])
    requires CollapsedFrom(s, i + 1, rest)
    ensures CollapsedFrom(s, i, [s[i]] + rest)
  {
    var t := [s[i]] + rest;
    assert forall k | 0 <= k < |rest| :: rest[k] == t[k + 1];
    assert t[0] == s[i];
    assert t[1..] == rest;
    assert s[i..][0] == s[i] && s[i..][1..] == s[i + 1..];
  }

  /** What `/\s+/g` replaced by `' '` leaves of `s[i..]`. */
  lemma {:induction false} CollapseWhitespace(s: string, i: nat)
    requires i <= |s|
    ensures CollapsedFrom(s, i, ReplaceFrom(Whitespace, s, i, " "))
    decreases |s| - i
  {
    if i < |s| {
      if IsSpace(s[i]) {
        var e := RunEnd(s, i, Spaces);
        CollapseWhitespace(s, e);
        ReplaceAtSpace(s, i);
        CollapseAtSpace(s, i, ReplaceFrom(Whitespace, s, e, " "));
      } else {
        CollapseWhitespace(s, i + 1);
        ReplaceAtWordChar(s, i);
        CollapseAtWordChar(s, i, ReplaceFrom(Whitespace, s, i + 1, " "));
      }
    }
  }

  lemma CleanSlice(s: string, a: nat, b: nat)
    requires a <= b <= |s|
    requires SpacesAreBlanks(s) && NoDoubleSpace(s)
    ensures SpacesAreBlanks(s[a..b]) && NoDoubleSpace(s[a..b])
  {
    var t := s[a..b];
    assert forall k | 0 <= k < |t| :: t[k] == s[a + k];
  }

  /**
   * The clean-up of lib/content-extractor.ts:130-133: every whitespace run
   * becomes one space, blank lines become `\n\n`, and the ends are trimmed.
   */
  function Normalize(s: string): (r: string)
    ensures NonSpace(r) == NonSpace(s)
    ensures SpacesAreBlanks(r) && NoDoubleSpace(r) && '\n' !in r
    ensures r == [] || (!IsSpace(r[0]) && !IsSpace(r[|r| - 1]))
    ensures r == [] <==> AllSpace(s)
  {
    var collapsed := ReplaceAll(Whitespace, s, " ");
    var separated := ReplaceAll(BlankLine, collapsed, "\n\n");
    CollapseWhitespace(s, 0);
    NoBlankLineMatch(collapsed);
    CleanSlice(collapsed, TrimOffset(collapsed), TrimLimit(collapsed));
    TrimKeepsNonSpace(collapsed);
    assert s[0..] == s;
    assert IsSpace('\n');
    Trim(separated)
  }

  /** With whitespace collapsed to single spaces there is no newline, so `/\n\s*\n/g` changes nothing. */
  lemma NoBlankLineMatch(t: string)
    requires SpacesAreBlanks(t)
    ensures ReplaceAll(BlankLine, t, "\n\n") == t
  {
    assert IsSpace('\n');
    forall j | 0 <= j < |t| ensures MatchAt(BlankLine, t, j).None? {
      BlankLineNeedsNewline(t, j);
    }
    ReplaceWithoutMatch(MatchesOf(BlankLine, t), t, 0, "\n\n");
  }

  /** In text already cleaned up, each whitespace run is one space, which `/\s+/g` rewrites to itself. */
  lemma {:induction false} CollapseClean(s: string, i: nat)
    requires i <= |s|
    requires SpacesAreBlanks(s) && NoDoubleSpace(s)
    ensures ReplaceFrom(Whitespace, s, i, " ") == s[i..]
    decreases |s| - i
  {
    if i < |s| {
      WhitespaceMatch(s, i);
      CollapseClean(s, i + 1);
      if IsSpace(s[i]) {
        assert i + 1 < |s| ==> !IsSpace(s[i + 1]);
        RunEndAt(s, i, Spaces, i + 1);
      }
      assert s[i..] == [s[i]] + s[i + 1..];
    }
  }

  /** Cleaning up twice is cleaning up once. */
  lemma NormalizeIdempotent(s: string)
    ensures Normalize(Normalize(s)) == Normalize(s)
  {
    var r := Normalize(s);
    CollapseClean(r, 0);
    NoBlankLineMatch(r);
    TrimOfTrimmed(r);
  }

  // ---------------------------------------------------------------------------
  // The extraction

  datatype ExtractionResult = ExtractionResult(content: string, requiresSubscription: bool)

  /**
   * What the fetch gave: a response with its `ok` flag, status text and the
   * parsed page, or an error thrown while fetching or reading it.
   */
  datatype Fetched = Response(ok: bool, statusText: string, roots: seq<Node>) | Threw(message: string)

  const Placeholder: string := "Could not extract content from URL"
  const FetchFailedPrefix: string := "Failed to fetch URL: "
  const ExtractFailedPrefix: string := "Failed to extract content: "

  /** The page's own verdict before the length test: either stage of the classifier. */
  predicate Paywalled(roots: seq<Node>) {
    StructuralPaywall(roots) || TextPaywall(roots)
  }

  /** The text the extraction settles on before clean-up. */
  function ChosenText(roots: seq<Node>): string {
    if NeedsFallback(Selected(roots)) then FallbackText(roots) else Selected(roots)
  }

  /**
   * The result for a page that was fetched: the cleaned chosen text, or the
   * placeholder when nothing is left, flagged when the site is a subscription
   * site, when the page looks paywalled, or when even the body fallback is
   * shorter than 200 characters.
   */
  function Extraction(roots: seq<Node>, site: bool): (r: ExtractionResult)
    ensures AllSpace(ChosenText(roots)) ==> r.content == Placeholder
    ensures !AllSpace(ChosenText(roots)) ==> r.content == Normalize(ChosenText(roots)) && r.content != ""
    ensures r.requiresSubscription <==>
      (site || Paywalled(roots) || (NeedsFallback(Selected(roots)) && |FallbackText(roots)| < Substantial))
  {
    var selected := Selected(roots);
    var content := ChosenText(roots);
    var flag := Paywalled(roots) || (NeedsFallback(selected) && |content| < Substantial);
    var cleaned := Normalize(content);
    ExtractionResult(if cleaned == "" then Placeholder else cleaned, flag || site)
  }

  /** Text of exactly 200 characters is kept: the fallback needs fewer than 200. */
  lemma TwoHundredKept(roots: seq<Node>, site: bool)
    requires |Selected(roots)| == Substantial
    ensures Extraction(roots, site).content == Normalize(Selected(roots))
    ensures Extraction(roots, site).requiresSubscription <==> site || Paywalled(roots)
  {
    assert !IsSpace(Selected(roots)[0]);
  }

  /**
   * The part of the try block after a successful fetch: classify the page,
   * choose its text, fall back to the body with the clutter removed, clean up.
   */
  method ExtractFromPage(roots: seq<Node>, isSubscriptionSite: bool) returns (result: ExtractionResult)
    ensures result == Extraction(roots, isSubscriptionSite)
  {
    var doc := new ParsedDocument(roots);

    var requiresSubscription := AnyIndicatorSelected(doc.roots, PaywallIndicators);
    var bodyText := Lower(BodyText(doc.roots));
    if !requiresSubscription {
      requiresSubscription := ContainsAny(bodyText, PaywallPhrases);
    }

    var content := SelectArticleText(doc);

    if content == "" || |content| < Substantial {
      doc.Remove(Stripped);
      content := Trim(BodyText(doc.roots));
      if |content| < Substantial {
        requiresSubscription := true;
      }
    }

    assert content == ChosenText(roots);
    assert requiresSubscription
      == (Paywalled(roots) || (NeedsFallback(Selected(roots)) && |FallbackText(roots)| < Substantial));
    content := Normalize(content);
    result := ExtractionResult(if content == "" then Placeholder else content, requiresSubscription || isSubscriptionSite);
  }

  /**
   * `extractContentFromUrl(url)`. An error, or a response that is not ok, on
   * a known subscription site gives empty content flagged as needing a
   * subscription; elsewhere it fails with the message wrapped as the catch
   * block does. A page that was fetched gives `Extraction`.
   */
  method ExtractContentFromUrl(hostname: Option<string>, fetched: Fetched) returns (r: Result<ExtractionResult>)
    ensures fetched.Threw? ==>
      r == if IsKnownSubscriptionSite(hostname) then Success(ExtractionResult("", true))
           else Failure(ExtractFailedPrefix + fetched.message)
    ensures fetched.Response? && !fetched.ok ==>
      r == if IsKnownSubscriptionSite(hostname) then Success(ExtractionResult("", true))
           else Failure(ExtractFailedPrefix + FetchFailedPrefix + fetched.statusText)
    ensures fetched.Response? && fetched.ok ==>
      r == Success(Extraction(fetched.roots, IsKnownSubscriptionSite(hostname)))
  {
    var isSubscriptionSite := IsKnownSubscriptionSite(hostname);

    // The try block: what it throws, if anything.
    var thrown: Option<string> := None;
    if fetched.Threw? {
      thrown := Some(fetched.message);
    } else if !fetched.ok {
      if isSubscriptionSite {
        return Success(ExtractionResult("", true));
      }
      thrown := Some(FetchFailedPrefix + fetched.statusText);
    }
    // The catch block.
    if thrown.Some? {
      if isSubscriptionSite {
        return Success(ExtractionResult("", true));
      }
      return Failure(ExtractFailedPrefix + thrown.value);
    }

    var page := ExtractFromPage(fetched.roots, isSubscriptionSite);
    r := Success(page);
  }
}
