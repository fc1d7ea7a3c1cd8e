/**
 * The output sanitisers of lib/openai.ts and the guards around the two
 * generation calls. The chat completion itself is not modelled: its reply is
 * an input.
 */
module OpenAI {
  import opened Wrappers
  import opened JsText
  import opened JsRegex
  import PromptStyles

  // ---------------------------------------------------------------------------
  // cleanTranslationText

  /**
   * The replacement chain of `cleanTranslationText`, in source order: JSON-LD
   * blocks, Markdown and HTML images, image URLs, style blocks and media
   * queries are deleted, tags become a space, URLs are deleted, runs of three
   * or more newlines become a blank line, runs of spaces and tabs become one
   * space, and short `{...}` groups are deleted.
   */
  function StripArtifacts(text: string): (r: string)
    ensures forall c | c in r :: c in text || c == ' ' || c == '\n'
  {
    var s1 := ReplaceAll(JsonLdBlock, text, "");
    var s2 := ReplaceAll(MarkdownImage, s1, "");
    var s3 := ReplaceAll(HtmlImage, s2, "");
    var s4 := ReplaceAll(ImageUrl, s3, "");
    var s5 := ReplaceAll(StyleBlock, s4, "");
    var s6 := ReplaceAll(MediaQuery, s5, "");
    var s7 := ReplaceAll(HtmlTag, s6, " ");
    var s8 := ReplaceAll(Url, s7, "");
    var s9 := ReplaceAll(NewlineRun, s8, "\n\n");
    var s10 := ReplaceAll(HorizontalSpace, s9, " ");
    var s11 := ReplaceAll(ShortBraces, s10, "");
    ReplaceChars(MatchesOf(JsonLdBlock, text), text, 0, "");
    ReplaceChars(MatchesOf(MarkdownImage, s1), s1, 0, "");
    ReplaceChars(MatchesOf(HtmlImage, s2), s2, 0, "");
    ReplaceChars(MatchesOf(ImageUrl, s3), s3, 0, "");
    ReplaceChars(MatchesOf(StyleBlock, s4), s4, 0, "");
    ReplaceChars(MatchesOf(MediaQuery, s5), s5, 0, "");
    ReplaceChars(MatchesOf(HtmlTag, s6), s6, 0, " ");
    ReplaceChars(MatchesOf(Url, s7), s7, 0, "");
    ReplaceChars(MatchesOf(NewlineRun, s8), s8, 0, "\n\n");
    ReplaceChars(MatchesOf(HorizontalSpace, s9), s9, 0, " ");
    ReplaceChars(MatchesOf(ShortBraces, s10), s10, 0, "");
    s11
  }

  /**
   * `cleaned.split(/\n\s*\n/).map(p => p.trim()).filter(p => p.length > 0)`:
   * every paragraph is a trimmed piece of the split, non-empty and free of
   * blank lines, and every piece that is not all whitespace yields one.
   */
  function Paragraphs(cleaned: string): (ps: seq<string>)
    ensures forall p | p in ps :: p != [] && !IsSpace(p[0]) && !IsSpace(p[|p| - 1]) && NoBlankLine(p)
    ensures forall p | p in ps :: exists x | x in Split(BlankLine, cleaned) :: p == Trim(x)
    ensures forall x | x in Split(BlankLine, cleaned) && !AllSpace(x) :: Trim(x) in ps
  {
    var pieces := Split(BlankLine, cleaned);
    var trimmed := seq(|pieces|, k requires 0 <= k < |pieces| => Trim(pieces[k]));
    PiecesFreeOfBlankLines(cleaned);
    assert forall p | p in trimmed :: exists x | x in pieces :: p == Trim(x) by {
      forall p | p in trimmed ensures exists x | x in pieces :: p == Trim(x) {
        var k :| 0 <= k < |pieces| && trimmed[k] == p;
        assert pieces[k] in pieces;
      }
    }
    assert forall x | x in pieces :: Trim(x) in trimmed by {
      forall x | x in pieces ensures Trim(x) in trimmed {
        var k :| 0 <= k < |pieces| && pieces[k] == x;
        assert trimmed[k] == Trim(x);
      }
    }
    Filter(trimmed, (p: string) => |p| > 0)
  }

  /**
   * The test of the metadata filter: a paragraph for which it holds is
   * dropped. Stated without the regular expressions, it holds exactly for a
   * one-line paragraph that opens with `{` or `[` and closes with `}` or `]`,
   * one containing `"@type"` or `"@context"`, or one shorter than 20
   * characters that opens with capitals or underscores and a colon.
   */
  function IsMetadataParagraph(p: string): (b: bool)
    ensures b <==>
      JsonLikeLineShape(p) || Contains(p, "\"@type\"") || Contains(p, "\"@context\"")
      || (|p| < 20 && UpperLabelShape(p))
  {
    JsonLikeLineTest(p);
    UpperLabelTest(p);
    Test(JsonLikeLine, p) || Contains(p, "\"@type\"") || Contains(p, "\"@context\"")
    || (|p| < 20 && Test(UpperLabel, p))
  }

  /** A paragraph as `cleanTranslationText` may return it. */
  predicate CleanParagraph(p: string) {
    p != [] && !IsSpace(p[0]) && !IsSpace(p[|p| - 1]) && NoBlankLine(p) && !IsMetadataParagraph(p)
  }

  /**
   * The paragraphs that survive the split, trim, non-empty and metadata
   * filters, in order: every one is clean, and every paragraph of the split
   * that is not metadata is among them.
   */
  function TranslationParagraphs(text: string): (ps: seq<string>)
    ensures forall p | p in ps :: CleanParagraph(p) && p in Paragraphs(StripArtifacts(text))
    ensures forall p | p in Paragraphs(StripArtifacts(text)) && !IsMetadataParagraph(p) :: p in ps
  {
    var cleaned := StripArtifacts(text);
    var ps := Paragraphs(cleaned);
    Filter(ps, (p: string) => !IsMetadataParagraph(p))
  }

  /** Each piece of the split, once trimmed, is free of blank lines. */
  lemma PiecesFreeOfBlankLines(cleaned: string)
    ensures forall x | x in Split(BlankLine, cleaned) :: NoBlankLine(Trim(x))
  {
    var pieces := Split(BlankLine, cleaned);
    BlankLineSplitPieces(cleaned);
    forall x | x in pieces ensures NoBlankLine(Trim(x)) {
      assert MatchFreeSlice(BlankLine, cleaned, x);
      var a, b :| 0 <= a <= b <= |cleaned| && x == cleaned[a..b] && NoMatchIn(BlankLine, cleaned, a, b);
      NoBlankLineMatchIn(cleaned, a, b);
      BlankLineFree(cleaned, a, b);
      NoBlankLineSlice(x, TrimOffset(x), TrimLimit(x));
    }
  }

  /** Raw text that is empty or all whitespace leaves no paragraph. */
  lemma BlankTextNoParagraphs(text: string)
    ensures AllSpace(text) ==> TranslationParagraphs(text) == []
  {
    if AllSpace(text) {
      var cleaned := StripArtifacts(text);
      AllSpaceConcat(text, " \n");
      AllSpaceFromChars(cleaned, text + " \n");
      var pieces := Split(BlankLine, cleaned);
      BlankLineSplitChars(cleaned);
      forall k | 0 <= k < |pieces| ensures Trim(pieces[k]) == [] {
        assert pieces[k] in pieces;
        AllSpaceFromChars(pieces[k], cleaned);
      }
      var trimmed := seq(|pieces|, k requires 0 <= k < |pieces| => Trim(pieces[k]));
      FilterNone(trimmed, (p: string) => |p| > 0);
    }
  }

  /** Clean paragraphs joined by a blank line give a trimmed text with no three newlines in a row. */
  lemma JoinedParagraphs(ps: seq<string>)
    requires forall p | p in ps :: CleanParagraph(p)
    ensures var j := Join(ps, "\n\n"); !Contains(j, "\n\n\n") && (j == [] || (!IsSpace(j[0]) && !IsSpace(j[|j| - 1])))
  {
    forall k | 0 <= k < |ps|
      ensures ps[k] != "" && ps[k][0] != '\n' && ps[k][|ps[k]| - 1] != '\n' && !Contains(ps[k], "\n\n")
    {
      assert ps[k] in ps;
      assert IsSpace('\n');
      NoBlankLineNoDoubleNewline(ps[k]);
    }
    JoinNoTripleNewline(ps);
    if ps != [] {
      assert ps[0] in ps && ps[|ps| - 1] in ps;
      JoinEnds(ps, "\n\n");
    }
  }

  /**
   * `cleanTranslationText(text)`: the surviving paragraphs joined by one blank
   * line. The final `trim()` removes nothing, no three newlines ever follow
   * one another, and text that is empty or all whitespace gives `""`.
   */
  function CleanTranslationText(text: string): (r: string)
    ensures r == Join(TranslationParagraphs(text), "\n\n")
    ensures !Contains(r, "\n\n\n")
    ensures AllSpace(text) ==> r == ""
  {
    var ps := TranslationParagraphs(text);
    var joined := Join(ps, "\n\n");
    JoinedParagraphs(ps);
    TrimOfTrimmed(joined);
    BlankTextNoParagraphs(text);
    Trim(joined)
  }

  // ---------------------------------------------------------------------------
  // cleanInsights

  /**
   * `cleanInsights(insights)`: heading markers deleted, runs of three or more
   * newlines collapsed to a blank line, then trimmed. The result holds no three
   * newlines in a row and neither begins nor ends with whitespace.
   */
  function CleanInsights(insights: string): (r: string)
    ensures !Contains(r, "\n\n\n")
    ensures r == [] || (!IsSpace(r[0]) && !IsSpace(r[|r| - 1]))
  {
    var unheaded := ReplaceAll(Heading, insights, "");
    var collapsed := ReplaceAll(NewlineRun, unheaded, "\n\n");
    NewlineRunCollapse(unheaded, 0);
    NotContainsInSlice(collapsed, TrimOffset(collapsed), TrimLimit(collapsed), "\n\n\n");
    Trim(collapsed)
  }

  // ---------------------------------------------------------------------------
  // The generation entry points

  const NotConfiguredMessage: string := "OPENAI_API_KEY is not configured"

  /**
   * The environment as `isOpenAIConfigured` sees it: the key present when the
   * module was loaded (which decided whether a client was built) and the key
   * present now. `None` is an unset variable.
   */
  datatype Environment = Environment(keyAtLoad: Option<string>, keyNow: Option<string>)

  /**
   * `!!openaiInstance && !!process.env.OPENAI_API_KEY`: an empty key is as
   * good as none, and both the key the client was built with and the current
   * key must be set.
   */
  function IsConfigured(env: Environment): (b: bool)
    ensures env.keyAtLoad.None? || env.keyAtLoad == Some("") ==> !b
    ensures env.keyNow.None? || env.keyNow == Some("") ==> !b
    ensures env.keyAtLoad.Some? && env.keyAtLoad.value != [] && env.keyNow.Some? && env.keyNow.value != [] ==> b
  {
    env.keyAtLoad.Some? && env.keyAtLoad.value != "" && env.keyNow.Some? && env.keyNow.value != ""
  }

  /**
   * What the chat completion call did: it answered, with the content of the
   * first choice's message if there is one, or it threw.
   */
  datatype ChatReply = Answered(content: Option<string>) | Threw(message: string)

  /** `response.choices[0]?.message?.content || ''`. */
  function ReplyText(content: Option<string>): string
  {
    content.GetOr("")
  }

  /**
   * `translateToChinese`: refuses before anything else when the client is not
   * configured; a thrown call propagates; otherwise the cleaned reply, which
   * is `""` and not an error when the reply carried no content.
   */
  function TranslateToChinese(env: Environment, reply: ChatReply): (r: Result<string>)
    ensures !IsConfigured(env) ==> r == Failure(NotConfiguredMessage)
    ensures IsConfigured(env) && reply.Threw? ==> r == Failure(reply.message)
    ensures IsConfigured(env) && reply.Answered? ==> r == Success(CleanTranslationText(ReplyText(reply.content)))
    ensures IsConfigured(env) && reply.Answered? ==> r.Success? && !Contains(r.value, "\n\n\n")
    ensures IsConfigured(env) && reply == Answered(None) ==> r == Success("")
  {
    if !IsConfigured(env) then Failure(NotConfiguredMessage)
    else match reply
      case Threw(message) => Failure(message)
      case Answered(content) =>
        assert AllSpace("");
        Success(CleanTranslationText(ReplyText(content)))
  }

  /** The request `generateInsights` sends: its prompts, token budget and temperature (in hundredths). */
  datatype InsightsRequest = InsightsRequest(system: string, user: string, maxTokens: nat, temperature: nat)

  /** The style argument, with `getDefaultStyle()` when it is omitted. */
  function StyleOrDefault(style: Option<PromptStyles.Style>): (s: PromptStyles.Style)
    ensures style.None? ==> PromptStyles.Key(s) == "warmBookish"
    ensures style.Some? ==> s == style.value
  {
    style.GetOr(PromptStyles.DefaultStyle())
  }

  /**
   * The request for a translation in a style: the style's system prompt, a
   * user prompt that embeds the translation verbatim, and the style's token
   * budget and temperature.
   */
  function RequestFor(translation: string, s: PromptStyles.Style): (q: InsightsRequest)
    ensures PromptStyles.ArticleOf(PromptStyles.UserTemplate, q.user, PromptStyles.ConfigOf(s).name) == translation
    ensures q.system == PromptStyles.SystemPrompt(s)
    ensures q.maxTokens == PromptStyles.ConfigOf(s).maxTokens && q.temperature == PromptStyles.ConfigOf(s).temperature
    ensures 2200 <= q.maxTokens <= 2500 && 70 <= q.temperature <= 85
  {
    var c := PromptStyles.ConfigOf(s);
    InsightsRequest(PromptStyles.SystemPrompt(s), PromptStyles.UserPrompt(translation, s), c.maxTokens, c.temperature)
  }

  /**
   * `generateInsights`: the same guard as `translateToChinese`, then the
   * cleaned reply (`""` when the reply carried no content).
   */
  function GenerateInsights(env: Environment, reply: ChatReply): (r: Result<string>)
    ensures !IsConfigured(env) ==> r == Failure(NotConfiguredMessage)
    ensures IsConfigured(env) && reply.Threw? ==> r == Failure(reply.message)
    ensures IsConfigured(env) && reply.Answered? ==> r == Success(CleanInsights(ReplyText(reply.content)))
    ensures IsConfigured(env) && reply.Answered? ==> r.Success? && !Contains(r.value, "\n\n\n")
    ensures IsConfigured(env) && reply == Answered(None) ==> r == Success("")
  {
    if !IsConfigured(env) then Failure(NotConfiguredMessage)
    else match reply
      case Threw(message) => Failure(message)
      case Answered(content) =>
        var r := CleanInsights(ReplyText(content));
        assert ReplyText(content) == "" ==> r == "" by {
          assert ReplaceFrom(Heading, "", 0, "") == "";
          assert ReplaceFrom(NewlineRun, "", 0, "\n\n") == "";
        }
        Success(r)
  }

  // ---------------------------------------------------------------------------
  // Heading markers

  /**
   * Where a heading marker matches (`HeadingMarkerMatch` gives its length), the
   * replacement drops the whole match and goes on after it.
   */
  lemma HeadingReplaced(s: string, i: nat, k: nat)
    requires i < |s| && MatchAt(Heading, s, i) == Some(k)
    ensures ReplaceFrom(Heading, s, i, "") == ReplaceFrom(Heading, s, i + k, "")
  {
    ReplaceAfterMatch(MatchesOf(Heading, s), s, i, "", k);
    assert "" + ReplaceFrom(Heading, s, i + k, "") == ReplaceFrom(Heading, s, i + k, "");
  }

  /** A line that starts with four `#` keeps them. */
  lemma FourHashesKept(s: string, i: nat)
    requires HasAt(s, i, "####")
    ensures ReplaceFrom(Heading, s, i, "") == [s[i]] + ReplaceFrom(Heading, s, i + 1, "")
  {
    FourHashesNoHeading(s, i);
  }

  /** No heading marker starts at a character other than `#`, nor inside a line. */
  lemma HeadingNone(s: string, j: nat)
    requires j < |s| && (!AtLineStart(s, j) || s[j] != '#')
    ensures MatchAt(Heading, s, j).None?
  {
    if s[j] != '#' {
      RunEndAt(s, j, Hashes, j);
    }
  }

  /** No run of three newlines starts at `j` when index `m`, one of the next three, is not a newline. */
  lemma NewlineRunNone(s: string, j: nat, m: nat)
    requires j < |s| && j <= m < j + 3 && m <= |s| && (m < |s| ==> s[m] != '\n')
    ensures MatchAt(NewlineRun, s, j).None?
  {
    if m < |s| {
      assert !InClass(Newlines, s[m]);
    }
  }

  /** A heading marker at the very start, and none after it, is all that the heading pass removes. */
  lemma HeadingOnlyAtStart(s: string, k: nat)
    requires 0 < |s| && MatchAt(Heading, s, 0) == Some(k)
    requires forall j | k <= j < |s| :: MatchAt(Heading, s, j).None?
    ensures ReplaceAll(Heading, s, "") == s[k..]
  {
    HeadingReplaced(s, 0, k);
    ReplaceWithoutMatch(MatchesOf(Heading, s), s, k, "");
  }

  /** `"### Title\n\nBody"` loses its heading marker. */
  lemma ExampleUnheaded()
    ensures ReplaceAll(Heading, "### Title\n\nBody", "") == "Title\n\nBody"
  {
    var s := "### Title\n\nBody";
    RunEndAt(s, 0, Hashes, 3);
    RunEndAt(s, 3, Spaces, 4);
    forall j | 4 <= j < |s| ensures MatchAt(Heading, s, j).None? {
      HeadingNone(s, j);
    }
    HeadingOnlyAtStart(s, 4);
    assert s[4..] == "Title\n\nBody";
  }

  /** Where a run of three or more newlines starts, the text holds three newlines in a row. */
  lemma NewlineRunContained(s: string, j: nat)
    requires j < |s| && MatchAt(NewlineRun, s, j).Some?
    ensures Contains(s, "\n\n\n")
  {
    var e := RunEnd(s, j, Newlines);
    assert InClass(Newlines, s[j]) && InClass(Newlines, s[j + 1]) && InClass(Newlines, s[j + 2]);
    assert s[j..j + 3] == "\n\n\n";
    ContainsAt(s, j, "\n\n\n");
  }

  /**
   * Text that is already clean (no heading marker at the start of any line,
   * no three newlines in a row, nothing to trim) comes out of `cleanInsights`
   * unchanged.
   */
  lemma CleanInsightsKeepsClean(s: string)
    requires forall j, n | 0 <= j < |s| && AtLineStart(s, j) :: !HeadingMarker(s, j, n)
    requires !Contains(s, "\n\n\n")
    requires s == [] || (!IsSpace(s[0]) && !IsSpace(s[|s| - 1]))
    ensures CleanInsights(s) == s
  {
    forall j | 0 <= j < |s| ensures MatchAt(Heading, s, j).None? {
      HeadingMatch(s, j);
    }
    ReplaceWithoutMatch(MatchesOf(Heading, s), s, 0, "");
    assert s[0..] == s;
    forall j | 0 <= j < |s| ensures MatchAt(NewlineRun, s, j).None? {
      if MatchAt(NewlineRun, s, j).Some? {
        NewlineRunContained(s, j);
      }
    }
    ReplaceWithoutMatch(MatchesOf(NewlineRun, s), s, 0, "\n\n");
    CleanInsightsSteps(s, s, s);
    TrimOfTrimmed(s);
  }

  /** `cleanInsights` is its three steps. */
  lemma CleanInsightsSteps(x: string, unheaded: string, collapsed: string)
    requires ReplaceAll(Heading, x, "") == unheaded
    requires ReplaceAll(NewlineRun, unheaded, "\n\n") == collapsed
    ensures CleanInsights(x) == Trim(collapsed)
  {
  }

  /** The blank line of `"Title\n\nBody"` survives the newline collapse. */
  lemma ExampleCollapsed(t: string)
    requires t == "Title\n\nBody"
    ensures ReplaceAll(NewlineRun, t, "\n\n") == t
  {
    forall j | 0 <= j < |t| ensures MatchAt(NewlineRun, t, j).None? {
      NewlineRunNone(t, j, if j == 5 || j == 6 then 7 else j);
    }
    ReplaceWithoutMatch(MatchesOf(NewlineRun, t), t, 0, "\n\n");
    assert t[0..] == t;
  }

  /** `cleanInsights("### Title\n\nBody")` comes down to a trim of `"Title\n\nBody"`. */
  lemma ExampleSteps(x: string, t: string)
    requires x == "### Title\n\nBody" && t == "Title\n\nBody"
    ensures CleanInsights(x) == Trim(t)
  {
    ExampleUnheaded();
    ExampleCollapsed(t);
    CleanInsightsSteps(x, t, t);
  }

  /** A string that neither begins nor ends with whitespace is its own trim. */
  lemma TrimmedExample(t: string)
    requires t == "Title\n\nBody" || t == "# x" || t == "x"
    ensures Trim(t) == t
  {
    TrimOfTrimmed(t);
  }

  /** `cleanInsights("### Title\n\nBody")` is `"Title\n\nBody"`. */
  lemma CleanInsightsExample(x: string, t: string)
    requires x == "### Title\n\nBody" && t == "Title\n\nBody"
    ensures CleanInsights(x) == t
  {
    ExampleSteps(x, t);
    TrimmedExample(t);
  }

  /** The first pass over `"## # x"` leaves `"# x"`. */
  lemma ExampleFirstPass()
    ensures ReplaceAll(Heading, "## # x", "") == "# x"
  {
    var s := "## # x";
    RunEndAt(s, 0, Hashes, 2);
    RunEndAt(s, 2, Spaces, 3);
    forall j | 3 <= j < |s| ensures MatchAt(Heading, s, j).None? {
      HeadingNone(s, j);
    }
    HeadingOnlyAtStart(s, 3);
    assert s[3..] == "# x";
  }

  /** The second pass over `"# x"` leaves `"x"`. */
  lemma ExampleSecondPass()
    ensures ReplaceAll(Heading, "# x", "") == "x"
  {
    var s := "# x";
    RunEndAt(s, 0, Hashes, 1);
    RunEndAt(s, 1, Spaces, 2);
    HeadingNone(s, 2);
    HeadingOnlyAtStart(s, 2);
    assert s[2..] == "x";
  }

  /** Text without newlines is left alone by the newline collapse. */
  lemma NoNewlineCollapse(t: string)
    requires forall k | 0 <= k < |t| :: t[k] != '\n'
    ensures ReplaceAll(NewlineRun, t, "\n\n") == t
  {
    forall j | 0 <= j < |t| ensures MatchAt(NewlineRun, t, j).None? {
      NewlineRunNone(t, j, j);
    }
    ReplaceWithoutMatch(MatchesOf(NewlineRun, t), t, 0, "\n\n");
    assert t[0..] == t;
  }

  /**
   * Cleaning insights twice is not the same as cleaning them once: the first
   * pass turns `"## # x"` into `"# x"`, which is again a heading.
   */
  lemma CleanInsightsNotIdempotent(x: string, y: string)
    requires x == "## # x" && y == "# x"
    ensures CleanInsights(x) == y
    ensures CleanInsights(y) == "x"
  {
    ExampleFirstPass();
    ExampleSecondPass();
    NoNewlineCollapse(y);
    NoNewlineCollapse("x");
    CleanInsightsSteps(x, y, y);
    CleanInsightsSteps(y, "x", "x");
    TrimmedExample(y);
    TrimmedExample("x");
  }
}
