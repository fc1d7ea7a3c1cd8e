/**
 * The catalogue of insight-writing styles (lib/prompt-styles.ts): a closed set
 * of five archetypes, one fixed configuration each, a default, and the two
 * prompt builders that splice configuration fields into fixed templates.
 */
module PromptStyles {
  import opened Wrappers
  import opened JsText

  /** `StyleArchetype`: the five string keys of `styleArchetypes`. */
  datatype Style = WarmBookish | LifeReflection | Contrarian | Education | Science

  datatype Structure = Structure(opening: string, body: string, ending: string)

  /** `StyleConfig`, with `temperature` in hundredths (0.85 is 85). */
  datatype StyleConfig = StyleConfig(
    name: string,
    nameEn: string,
    description: string,
    tone: string,
    structure: Structure,
    rhetoricalDevices: seq<string>,
    sentenceStyle: string,
    avoid: seq<string>,
    temperature: nat,
    maxTokens: nat)

  const AllStyles: seq<Style> := [WarmBookish, LifeReflection, Contrarian, Education, Science]

  /** The string a style is known by in the program. */
  function Key(s: Style): string
  {
    match s
    case WarmBookish => "warmBookish"
    case LifeReflection => "lifeReflection"
    case Contrarian => "contrarian"
    case Education => "education"
    case Science => "science"
  }

  /** The style a key names, if it names one. */
  function ParseKey(k: string): (r: Option<Style>)
    ensures r.Some? ==> Key(r.value) == k
  {
    if k == "warmBookish" then Some(WarmBookish)
    else if k == "lifeReflection" then Some(LifeReflection)
    else if k == "contrarian" then Some(Contrarian)
    else if k == "education" then Some(Education)
    else if k == "science" then Some(Science)
    else None
  }

  /** There are exactly five styles, each listed once, and each key names its own style. */
  lemma StylesClosed()
    ensures |AllStyles| == 5
    ensures forall s: Style :: s in AllStyles
    ensures forall i, j | 0 <= i < j < |AllStyles| :: AllStyles[i] != AllStyles[j]
    ensures forall s: Style :: ParseKey(Key(s)) == Some(s)
  {
    forall s: Style ensures s in AllStyles && ParseKey(Key(s)) == Some(s) {
      match s
      case WarmBookish => assert AllStyles[0] == s;
      case LifeReflection => assert AllStyles[1] == s;
      case Contrarian => assert AllStyles[2] == s;
      case Education => assert AllStyles[3] == s;
      case Science => assert AllStyles[4] == s;
    }
  }

  // The entries of `styleArchetypes`, one function per field.

  function Name(s: Style): string
  {
    match s
    case WarmBookish => "温暖书卷风"
    case LifeReflection => "人生思考+实用智慧"
    case Contrarian => "反直觉评论+犀利逻辑"
    case Education => "教育/写作/互联网观察"
    case Science => "科学解释+怀疑思维"
  }

  function NameEn(s: Style): string
  {
    match s
    case WarmBookish => "Warm Bookish"
    case LifeReflection => "Life Reflection"
    case Contrarian => "Contrarian"
    case Education => "Education"
    case Science => "Science"
  }

  function Description(s: Style): string
  {
    match s
    case WarmBookish => "深度阅读+情绪共鸣+长文风格，像十点读书那样陪伴读者"
    case LifeReflection => "像有书那样提供人生思考+读书方法论+稳定输出"
    case Contrarian => "像远方青木那样观点尖锐、反直觉、逻辑推进强"
    case Education => "像玉树芝兰那样提供框架和可教方法；思考但实用"
    case Science => "像果壳那样让复杂话题易懂；纠正误解"
  }

  function Tone(s: Style): string
  {
    match s
    case WarmBookish => "温暖、温和、略带抒情；共情；\"陪你读/陪你想\"的陪伴感"
    case LifeReflection => "冷静、鼓励、略带说教但友好；像\"靠谱前辈/班主任\""
    case Contrarian => "自信、直接、偶尔讽刺；有冲击力；较少\"共情\"，更多\"拆解\""
    case Education => "理性、反思、偶尔个人经验；较少煽情、更多\"方法论+观察\""
    case Science => "好奇、精确、有趣但严谨；尊重证据；避免耸人听闻"
  }

  function Opening(s: Style): string
  {
    match s
    case WarmBookish => "开头（2-3句）：从生活摩擦引入（孤独、焦虑、关系、工作倦怠）→ 快速转向\"为什么这很重要\""
    case LifeReflection => "开头（2-3句）：明确论点（\"这篇只讲三件事\"）"
    case Contrarian => "开头（2-3句）：非常明确的立场；然后构建多步骤论证"
    case Education => "开头（2-3句）：概念定义前置"
    case Science => "开头（2-3句）：定义术语；解释机制"
  }

  function Body(s: Style): string
  {
    match s
    case WarmBookish =>
      "中段：3个小标题（观点→证据→反例/边界）\n"
      + "- 短段落（每段1-3句），节奏感强\n"
      + "- 频繁的微转折：\"后来我发现... / 其实... / 你有没有...\"\n"
      + "- 使用1-2个短引用或转述的\"书中观点\"作为转折点"
    case LifeReflection =>
      "中段（3小标题）：\n"
      + "- \"问题—原因—方法\"路径非常明显\n"
      + "- 列表、步骤和要点突出\n"
      + "- 简单逻辑+日常例子；偶尔轻量级研究引用"
    case Contrarian =>
      "中段（3小标题）：\n"
      + "- 使用\"If...then...\"推理\n"
      + "- 强转折：\"关键在于... / 真正的问题是... / 所以...\"\n"
      + "- 例子、激励、博弈论式解释；有时数字（轻量）"
    case Education =>
      "中段（3小标题）：\n"
      + "- 清晰的模型（如2×2、三层、流程）\n"
      + "- 使用写作/教学/在线平台的例子\n"
      + "- 案例片段+原则；有时引用认知/学习理念（轻量）"
    case Science =>
      "中段（3小标题）：\n"
      + "- 区分\"我们知道什么\"vs\"什么不确定\"\n"
      + "- 辟谣部分常见\n"
      + "- 研究/共识总结、注意事项、\"我们如何知道这个\""
  }

  function Ending(s: Style): string
  {
    match s
    case WarmBookish => "结尾：3条行动建议/思考题"
    case LifeReflection => "结尾：3条建议（行动导向）"
    case Contrarian => "结尾：3条建议/问题（挑战性思考）"
    case Education => "结尾：3条建议（方法论导向）"
    case Science => "结尾：3条建议/问题（批判性思考）"
  }

  function RhetoricalDevices(s: Style): (r: seq<string>)
    ensures |r| == 3
  {
    match s
    case WarmBookish => ["第二人称称呼（\"你\"）增加亲密感", "感官/场景片段（深夜、地铁、雨）营造氛围", "温和的呼吁（\"不妨试试...\"）"]
    case LifeReflection => ["清晰的论点", "结构化的步骤", "可执行的建议"]
    case Contrarian => ["清晰的立场", "逻辑链条", "反直觉观点"]
    case Education => ["概念定义", "结构化模型", "可教的方法"]
    case Science => ["机制解释", "证据评估", "误区澄清"]
  }

  function SentenceStyle(s: Style): string
  {
    match s
    case WarmBookish => "中等长度，偶尔用诗意的短句强调"
    case LifeReflection => "短到中等长度，非常易读；最少隐喻"
    case Contrarian => "短句强调+长推理段落的混合"
    case Education => "清晰、适度正式；欢迎标题和要点"
    case Science => "清晰、解释性；谨慎使用类比"
  }

  function Avoid(s: Style): (r: seq<string>)
    ensures |r| > 0
  {
    match s
    case WarmBookish => ["过于学术的术语", "激进的爆款观点", "数据密集的段落"]
    case LifeReflection => ["太多情绪化写作", "太多情节式场景"]
    case Contrarian => ["过于软的语言", "太多抒情隐喻"]
    case Education => ["标题党", "过于绝对的声明"]
    case Science => ["过度自信的确定性", "道德化", "过度简化的声明"]
  }

  /** The sampling temperature in hundredths. */
  function Temperature(s: Style): (t: nat)
    ensures 70 <= t <= 85
  {
    match s
    case WarmBookish => 85
    case LifeReflection => 75
    case Contrarian => 80
    case Education => 75
    case Science => 70
  }

  function MaxTokens(s: Style): (m: nat)
    ensures 2200 <= m <= 2500
  {
    match s
    case WarmBookish => 2500
    case LifeReflection => 2200
    case Contrarian => 2300
    case Education => 2400
    case Science => 2500
  }

  /**
   * `styleArchetypes[style]`: every configuration has three rhetorical
   * devices, something to avoid, `2200 <= maxTokens <= 2500` and a
   * temperature between 0.70 and 0.85.
   */
  function ConfigOf(s: Style): (c: StyleConfig)
    ensures |c.rhetoricalDevices| == 3
    ensures |c.avoid| > 0
    ensures 2200 <= c.maxTokens <= 2500
    ensures 70 <= c.temperature <= 85
  {
    StyleConfig(Name(s), NameEn(s), Description(s), Tone(s), Structure(Opening(s), Body(s), Ending(s)),
      RhetoricalDevices(s), SentenceStyle(s), Avoid(s), Temperature(s), MaxTokens(s))
  }

  /** `getDefaultStyle()`. */
  function DefaultStyle(): (s: Style)
    ensures Key(s) == "warmBookish"
  {
    WarmBookish
  }

  // ---------------------------------------------------------------------------
  // The system prompt

  /** `items.map(x => `- ${x}`)`. */
  function Bullets(items: seq<string>): (r: seq<string>)
    ensures |r| == |items|
    ensures forall k | 0 <= k < |items| :: r[k] == "- " + items[k]
  {
    seq(|items|, k requires 0 <= k < |items| => "- " + items[k])
  }

  /** `items.map(x => `- ${x}`).join('\n')`. */
  function BulletList(items: seq<string>): string
  {
    Join(Bullets(items), "\n")
  }

  /** Where the line of item `k` begins (at its leading newline) in `"\n" + BulletList(items) + "\n"`. */
  function BulletLinePos(items: seq<string>, k: nat): nat
    requires k < |items|
  {
    JoinOffset(Bullets(items), "\n", k)
  }

  /** A newline, `x` and a newline, each found where the previous one ends, make a line holding `x`. */
  lemma FramedLine(f: string, o: nat, x: string)
    requires HasAt(f, o, "\n") && HasAt(f, o + 1, x) && HasAt(f, o + 1 + |x|, "\n")
    ensures HasAt(f, o, "\n" + x + "\n")
  {
    HasAtConcat(f, o, "\n", x);
    HasAtConcat(f, o, "\n" + x, "\n");
  }

  /** In the framed list, a newline sits where each item's line begins. */
  lemma BulletLineStart(items: seq<string>, k: nat)
    requires k < |items|
    ensures HasAt("\n" + BulletList(items) + "\n", BulletLinePos(items, k), "\n")
  {
    var bs := Bullets(items);
    if k == 0 {
      HasAtShift([], "\n", BulletList(items) + "\n", 0, "\n");
      assert [] + "\n" + (BulletList(items) + "\n") == "\n" + BulletList(items) + "\n";
    } else {
      JoinPieceAt(bs, "\n", k - 1);
      HasAtShift("\n", BulletList(items), "\n", JoinOffset(bs, "\n", k - 1) + |bs[k - 1]|, "\n");
    }
  }

  /** In the framed list, a newline follows each item's line. */
  lemma BulletLineEnd(items: seq<string>, k: nat)
    requires k < |items|
    ensures HasAt("\n" + BulletList(items) + "\n", BulletLinePos(items, k) + 1 + |"- " + items[k]|, "\n")
  {
    var bs := Bullets(items);
    var j := BulletList(items);
    JoinPieceAt(bs, "\n", k);
    if k + 1 < |items| {
      HasAtShift("\n", j, "\n", JoinOffset(bs, "\n", k) + |bs[k]|, "\n");
    } else {
      HasAtShift("\n" + j, "\n", [], 0, "\n");
      assert "\n" + j + "\n" + [] == "\n" + j + "\n";
    }
  }

  /**
   * Framed by newlines, a bullet list holds item `k` as a line of its own,
   * `"- "` and the item, and the lines come in the order of the items.
   */
  lemma BulletLine(items: seq<string>, k: nat)
    requires k < |items|
    ensures HasAt("\n" + BulletList(items) + "\n", BulletLinePos(items, k), "\n- " + items[k] + "\n")
    ensures k + 1 < |items| ==> BulletLinePos(items, k) < BulletLinePos(items, k + 1)
  {
    var bs := Bullets(items);
    JoinPieceAt(bs, "\n", k);
    HasAtShift("\n", BulletList(items), "\n", JoinOffset(bs, "\n", k), bs[k]);
    BulletLineStart(items, k);
    BulletLineEnd(items, k);
    FramedLine("\n" + BulletList(items) + "\n", BulletLinePos(items, k), bs[k]);
    BulletText(items[k]);
  }

  lemma BulletText(x: string)
    ensures "\n" + ("- " + x) + "\n" == "\n- " + x + "\n"
  {
    assert "\n" + "- " == "\n- ";
  }

  /**
   * The fixed text of the system prompt, in the pieces that lie between the
   * configuration fields.
   */
  datatype SystemText = SystemText(
    beforeName: string,
    beforeDescription: string,
    beforeTone: string,
    beforeOpening: string,
    betweenParts: string,
    beforeDevices: string,
    beforeSentenceStyle: string,
    beforeAvoid: string,
    guidelines: string)

  /** The text of the template in `getStyleSystemPrompt`. */
  const SystemTemplate: SystemText := SystemText(
    "You are an expert writer and analyst writing for a Chinese-speaking audience, following the \"",
    "\" style.\n\n**Core Goal**: ",
    "\n\n**Tone**: ",
    "\n\n**Structure Requirements**:\n",
    "\n\n",
    "\n\n**Rhetorical Devices to Use**:",
    "\n**Sentence Style**: ",
    "\n\n**What to Avoid**:",
    "\n**Important Guidelines**:\n"
    + "- Write naturally in Simplified Chinese\n"
    + "- Use evidence and examples to support your points\n"
    + "- Always include boundaries/limitations for your arguments\n"
    + "- End with exactly 3 actionable suggestions or thought-provoking questions\n"
    + "- Make the content engaging and less robotic\n"
    + "- Vary sentence length for rhythm\n"
    + "- Use transitions naturally (\"后来我发现...\", \"其实...\", \"你有没有...\")")

  /** The system prompt up to the list of rhetorical devices. */
  function SystemHead(t: SystemText, c: StyleConfig): string
  {
    t.beforeName + c.name + t.beforeDescription + c.description + t.beforeTone + c.tone
    + t.beforeOpening + c.structure.opening + t.betweenParts + c.structure.body + t.betweenParts
    + c.structure.ending + t.beforeDevices
  }

  /** A list framed by the newlines around it in the template. */
  function Framed(items: seq<string>): string
  {
    "\n" + BulletList(items) + "\n"
  }

  /** The system prompt between the two lists. */
  function SystemMiddle(t: SystemText, c: StyleConfig): string
  {
    t.beforeSentenceStyle + c.sentenceStyle + t.beforeAvoid
  }

  /** The system prompt built from template text `t` and configuration `c`. */
  function SystemPromptWith(t: SystemText, c: StyleConfig): string
  {
    SystemHead(t, c) + Framed(c.rhetoricalDevices) + SystemMiddle(t, c) + Framed(c.avoid) + t.guidelines
  }

  /**
   * `getStyleSystemPrompt(style)`: it names the style right after the opening
   * sentence, lists each rhetorical device and then each item to avoid as a
   * `"- "` line of its own, in list order, every device line before every
   * avoid line.
   */
  function SystemPrompt(s: Style): (r: string)
    ensures ListsConfig(r, SystemTemplate, ConfigOf(s))
  {
    SystemPromptListsAll(SystemTemplate, ConfigOf(s));
    SystemPromptWith(SystemTemplate, ConfigOf(s))
  }

  /**
   * `r` names the style at the end of `t`'s opening text and lists each
   * rhetorical device and then each item to avoid of `c` as a `"- "` line of
   * its own, in list order, every device line before every avoid line.
   */
  predicate ListsConfig(r: string, t: SystemText, c: StyleConfig) {
    HasAt(r, |t.beforeName|, c.name)
    && (forall k | 0 <= k < |c.rhetoricalDevices| ::
      HasAt(r, DeviceLinePos(t, c, k), "\n- " + c.rhetoricalDevices[k] + "\n"))
    && (forall k | 0 <= k < |c.avoid| ::
      HasAt(r, AvoidLinePos(t, c, k), "\n- " + c.avoid[k] + "\n"))
    && (forall d, k | 0 <= d < |c.rhetoricalDevices| && 0 <= k < |c.avoid| ::
      DeviceLinePos(t, c, d) < AvoidLinePos(t, c, k))
  }

  /** A match inside a string is still a match once more text follows. */
  lemma HasAtExtend(x: string, y: string, i: nat, sub: string)
    requires HasAt(x, i, sub)
    ensures HasAt(x + y, i, sub)
  {
    assert (x + y)[i..i + |sub|] == x[i..i + |sub|];
  }

  /** The style is named right after the opening text of the system prompt. */
  lemma SystemPromptNamesStyle(t: SystemText, c: StyleConfig)
    ensures HasAt(SystemPromptWith(t, c), |t.beforeName|, c.name)
  {
    var i := |t.beforeName|;
    var p0 := t.beforeName + c.name;
    assert p0[i..i + |c.name|] == c.name;
    var p1 := p0 + t.beforeDescription;
    HasAtExtend(p0, t.beforeDescription, i, c.name);
    var p2 := p1 + c.description;
    HasAtExtend(p1, c.description, i, c.name);
    var p3 := p2 + t.beforeTone;
    HasAtExtend(p2, t.beforeTone, i, c.name);
    var p4 := p3 + c.tone;
    HasAtExtend(p3, c.tone, i, c.name);
    var p5 := p4 + t.beforeOpening;
    HasAtExtend(p4, t.beforeOpening, i, c.name);
    var p6 := p5 + c.structure.opening;
    HasAtExtend(p5, c.structure.opening, i, c.name);
    var p7 := p6 + t.betweenParts;
    HasAtExtend(p6, t.betweenParts, i, c.name);
    var p8 := p7 + c.structure.body;
    HasAtExtend(p7, c.structure.body, i, c.name);
    var p9 := p8 + t.betweenParts;
    HasAtExtend(p8, t.betweenParts, i, c.name);
    var p10 := p9 + c.structure.ending;
    HasAtExtend(p9, c.structure.ending, i, c.name);
    var p11 := p10 + t.beforeDevices;
    HasAtExtend(p10, t.beforeDevices, i, c.name);
    var p12 := p11 + Framed(c.rhetoricalDevices);
    HasAtExtend(p11, Framed(c.rhetoricalDevices), i, c.name);
    var p13 := p12 + SystemMiddle(t, c);
    HasAtExtend(p12, SystemMiddle(t, c), i, c.name);
    var p14 := p13 + Framed(c.avoid);
    HasAtExtend(p13, Framed(c.avoid), i, c.name);
    var p15 := p14 + t.guidelines;
    HasAtExtend(p14, t.guidelines, i, c.name);
    assert p11 == SystemHead(t, c);
    assert p15 == SystemPromptWith(t, c);
  }

  /** The device and avoid lines of the system prompt, every one of them. */
  lemma SystemPromptListsAll(t: SystemText, c: StyleConfig)
    ensures ListsConfig(SystemPromptWith(t, c), t, c)
  {
    SystemPromptNamesStyle(t, c);
    forall k | 0 <= k < |c.rhetoricalDevices|
      ensures HasAt(SystemPromptWith(t, c), DeviceLinePos(t, c, k), "\n- " + c.rhetoricalDevices[k] + "\n")
    {
      SystemPromptListsDevices(t, c, k);
    }
    forall k | 0 <= k < |c.avoid|
      ensures HasAt(SystemPromptWith(t, c), AvoidLinePos(t, c, k), "\n- " + c.avoid[k] + "\n")
      ensures forall d | 0 <= d < |c.rhetoricalDevices| :: DeviceLinePos(t, c, d) < AvoidLinePos(t, c, k)
    {
      SystemPromptListsAvoid(t, c, k);
    }
  }

  /** Where the line of rhetorical device `k` begins in the system prompt. */
  function DeviceLinePos(t: SystemText, c: StyleConfig, k: nat): nat
    requires k < |c.rhetoricalDevices|
  {
    |SystemHead(t, c)| + BulletLinePos(c.rhetoricalDevices, k)
  }

  /** Where the line of avoid item `k` begins in the system prompt. */
  function AvoidLinePos(t: SystemText, c: StyleConfig, k: nat): nat
    requires k < |c.avoid|
  {
    |SystemHead(t, c)| + |Framed(c.rhetoricalDevices)| + |SystemMiddle(t, c)| + BulletLinePos(c.avoid, k)
  }

  /** Each rhetorical device is a `"- "` line of the system prompt, in list order. */
  lemma SystemPromptListsDevices(t: SystemText, c: StyleConfig, k: nat)
    requires k < |c.rhetoricalDevices|
    ensures HasAt(SystemPromptWith(t, c), DeviceLinePos(t, c, k), "\n- " + c.rhetoricalDevices[k] + "\n")
    ensures k + 1 < |c.rhetoricalDevices| ==> DeviceLinePos(t, c, k) < DeviceLinePos(t, c, k + 1)
    ensures DeviceLinePos(t, c, k) < |SystemHead(t, c)| + |Framed(c.rhetoricalDevices)|
  {
    var head, list := SystemHead(t, c), Framed(c.rhetoricalDevices);
    var post := SystemMiddle(t, c) + Framed(c.avoid) + t.guidelines;
    BulletLine(c.rhetoricalDevices, k);
    HasAtShift(head, list, post, BulletLinePos(c.rhetoricalDevices, k), "\n- " + c.rhetoricalDevices[k] + "\n");
    assert head + list + post == SystemPromptWith(t, c);
  }

  /** Each item to avoid is a `"- "` line of the system prompt, in list order, after every device line. */
  lemma SystemPromptListsAvoid(t: SystemText, c: StyleConfig, k: nat)
    requires k < |c.avoid|
    ensures HasAt(SystemPromptWith(t, c), AvoidLinePos(t, c, k), "\n- " + c.avoid[k] + "\n")
    ensures k + 1 < |c.avoid| ==> AvoidLinePos(t, c, k) < AvoidLinePos(t, c, k + 1)
    ensures forall d | 0 <= d < |c.rhetoricalDevices| :: DeviceLinePos(t, c, d) < AvoidLinePos(t, c, k)
  {
    var pre := SystemHead(t, c) + Framed(c.rhetoricalDevices) + SystemMiddle(t, c);
    var list := Framed(c.avoid);
    BulletLine(c.avoid, k);
    HasAtShift(pre, list, t.guidelines, BulletLinePos(c.avoid, k), "\n- " + c.avoid[k] + "\n");
    assert pre + list + t.guidelines == SystemPromptWith(t, c);
    forall d | 0 <= d < |c.rhetoricalDevices| ensures DeviceLinePos(t, c, d) < AvoidLinePos(t, c, k) {
      SystemPromptListsDevices(t, c, d);
    }
  }

  // ---------------------------------------------------------------------------
  // The user prompt

  /** The fixed text of the user prompt around the style name and the article. */
  datatype UserText = UserText(beforeName: string, beforeArticle: string, afterArticle: string)

  /** The text of the template in `getStyleUserPrompt`. */
  const UserTemplate: UserText := UserText(
    "Based on the following translated article, write an insightful interpretation following the \"",
    "\" style.\n\n**Article to analyze:**\n",
    "\n\n**Your task:**\n"
    + "1. Write an engaging opening (2-3 sentences) that hooks the reader\n"
    + "2. Develop 3 main sections with clear subheadings, each containing:\n"
    + "   - A clear viewpoint\n"
    + "   - Supporting evidence (examples, scenarios, or logical reasoning)\n"
    + "   - Boundaries/limitations (when this doesn't apply)\n"
    + "3. End with exactly 3 actionable suggestions or thought-provoking questions\n"
    + "\n**Remember:**\n"
    + "- Write in a natural, engaging style - avoid robotic or formulaic language\n"
    + "- Use the rhetorical devices and sentence style specified for this archetype\n"
    + "- Make it feel like a thoughtful human wrote this, not an AI\n"
    + "- Vary your language and structure throughout")

  /** Where the article begins in a user prompt for a style named `name`. */
  function ArticlePos(t: UserText, name: string): nat
  {
    |t.beforeName| + |name| + |t.beforeArticle|
  }

  /** The user prompt from template text `t` for a style named `name`: it embeds `article` verbatim. */
  function UserPromptWith(t: UserText, article: string, name: string): (r: string)
    ensures HasAt(r, |t.beforeName|, name)
    ensures HasAt(r, ArticlePos(t, name), article)
  {
    HasAtShift(t.beforeName, name, t.beforeArticle + article + t.afterArticle, 0, name);
    HasAtShift(t.beforeName + name + t.beforeArticle, article, t.afterArticle, 0, article);
    assert t.beforeName + name + (t.beforeArticle + article + t.afterArticle)
      == t.beforeName + name + t.beforeArticle + article + t.afterArticle;
    t.beforeName + name + t.beforeArticle + article + t.afterArticle
  }

  /**
   * `getStyleUserPrompt(article, style)`: of the configuration it reads the
   * name and nothing else; the prompt names the style and embeds the article
   * whole, so the article can be read back out of it.
   */
  function UserPrompt(article: string, s: Style): (r: string)
    ensures HasAt(r, |UserTemplate.beforeName|, ConfigOf(s).name)
    ensures HasAt(r, ArticlePos(UserTemplate, ConfigOf(s).name), article)
    ensures ArticleOf(UserTemplate, r, ConfigOf(s).name) == article
  {
    ArticleRoundTrip(UserTemplate, article, ConfigOf(s).name);
    UserPromptWith(UserTemplate, article, ConfigOf(s).name)
  }

  /** The article embedded in a user prompt for a style named `name`. */
  function ArticleOf(t: UserText, prompt: string, name: string): string
  {
    var a := ArticlePos(t, name);
    if a + |t.afterArticle| <= |prompt| then prompt[a..|prompt| - |t.afterArticle|] else ""
  }

  /** The article can be read back out of the user prompt: the prompt keeps it whole. */
  lemma ArticleRoundTrip(t: UserText, article: string, name: string)
    ensures ArticleOf(t, UserPromptWith(t, article, name), name) == article
  {
    var pre := t.beforeName + name + t.beforeArticle;
    var p := UserPromptWith(t, article, name);
    assert p == pre + article + t.afterArticle;
    assert p[|pre|..|p| - |t.afterArticle|] == article;
  }
}
