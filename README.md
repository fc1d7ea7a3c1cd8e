# Article translator core, in Dafny

This project models the server-side core of a web application. The application fetches an
article from a URL, translates it into Simplified Chinese, writes an interpretation of it in
one of five Chinese writing styles, and meters every user's use of the language model in
tokens. The model covers these parts:

- **Token accounting** (`TokenTracker`, `lib/token-tracker.ts`).
  - The four-characters-per-token estimate.
  - Reconciling a stored user's limit with their user type.
  - The allowed/remaining report, and consuming tokens.
  - The user table is a `map` field of a `TokenLedger` class, whose methods update it in place.
- **Language-model helpers** (`OpenAI`, `lib/openai.ts`).
  - The configuration guard.
  - The two sanitisers of model output: `cleanTranslationText` with its eleven regular-expression passes, paragraph split and metadata filter, and `cleanInsights` with its heading and newline passes.
  - The two request functions. The model's reply is an input.
- **Article extraction** (`ContentExtractor`, `lib/content-extractor.ts`).
  - The subscription-site test and the two-stage paywall classifier.
  - The selector loop and the body fallback, which removes elements in place (`ParsedDocument.Remove`).
  - The whitespace clean-up, and how a failed fetch is handled.
  - The parsed page is a tree of `Node`s.
- **Error normalisation** (`ErrorHandler`, `lib/error-handler.ts`).
  - The thirteen error codes and their message table.
  - `parseError`, with its three stages: a known code, an API error response, and keyword classification of the message.
- **Prompt styles** (`PromptStyles`, `lib/prompt-styles.ts`).
  - The five style archetypes, with their numeric parameters.
  - The system and user prompt templates, and the default style.
- **Support-form validation** (`SupportForm`, `components/SupportForm.tsx`).
  - The e-mail pattern and the word count.
  - The four field checks that decide whether the form is submitted.

Two shared modules model the JavaScript built-ins these files rely on:

- `JsText` (`text.dfy`): the `\s` whitespace class, `trim`, `includes`, `join`, `filter` and ASCII `toLowerCase`.
- `JsRegex` (`regex.dfy`): every regular expression of the core.
  - Each pattern is a `Pattern` constructor.
  - `MatchAt` gives, for each pattern, the length of the match a JavaScript engine finds at an index, greedy and lazy quantifiers included.
  - Global `replace` is defined over the table of those matches. `split` and `test` are defined over `MatchAt`.

`Wrappers` (`wrappers.dfy`) holds `Option` and `Result`. In `Result`, `Failure(message)` stands for a thrown `Error` with that message.

Strings are `seq<char>`. Indices and lengths count characters.

## Model

| member | source | states |
|---|---|---|
| `TokenTracker.CalculateTokensUsed` | lib/token-tracker.ts:8-12 | The estimate is the ceiling of length/4: four times the estimate covers the text, and is less than the length plus four. |
| `TokenTracker.TokensAreCeiling` | lib/token-tracker.ts:8-12 | The estimate is the least count whose four-character budget covers the text. Empty text costs nothing. |
| `TokenTracker.CorrectLimit` | lib/token-tracker.ts:29-35 | A paid user's limit is 100000. Every other type's limit is 1000. |
| `TokenTracker.Healed` | lib/token-tracker.ts:37-59 | Reconciling a user sets the limit to the correct one. `tokensUsed` is capped at that limit and kept when already within it. No other field changes. |
| `TokenTracker.HealedIsStable` | lib/token-tracker.ts:37-59 | A reconciled record already has the correct limit. Reconciling it again changes nothing. |
| `TokenTracker.SubscriptionActive` | lib/token-tracker.ts:64-67 | A subscription without an expiry is active. One that expires exactly now has lapsed, and a lapsed one has an expiry at or before now. |
| `TokenTracker.LapsedStaysLapsed` | lib/token-tracker.ts:64-67 | A subscription that has lapsed stays lapsed at every later instant. |
| `TokenTracker.ReportFor` | lib/token-tracker.ts:61-81 | The report's limit is the correct limit. Remaining is never negative, and used plus remaining is the limit when something remains. `allowed` holds iff tokens remain and the user is a trial user, or a paid user whose subscription has no expiry or has not yet expired. |
| `TokenTracker.TrialExhausted` | lib/token-tracker.ts:61-73 | A trial user who has used 1000 or more tokens is refused, with nothing remaining, against a limit of 1000. |
| `TokenTracker.OtherTypeNeverAllowed` | lib/token-tracker.ts:72-73 | A user whose type is neither trial nor paid is never allowed. |
| `TokenTracker.LegacyTrialHealed` | lib/token-tracker.ts:39-59 | A trial user stored with a 100000 limit and 50000 used is reconciled to 1000/1000, and is reported as refused with nothing remaining. |
| `TokenTracker.Consumed` | lib/token-tracker.ts:96-98 | Consuming adds exactly `tokens` to `tokensUsed`. No other field changes. |
| `TokenTracker.ConsumeThenReport` | lib/token-tracker.ts:87-99 | Consuming keeps a reconciled record reconciled. The next report shows the increased usage against the same limit. |
| `TokenTracker.TokenLedger.CheckTokenLimit` | lib/token-tracker.ts:17-82 | An unknown user fails with "User not found" and the table is unchanged. For a known user there are two cases. If the limit is wrong and the write succeeds, the reconciled record is stored and reported. Otherwise the table is unchanged and the stored record is reported against the correct limit. |
| `TokenTracker.TokenLedger.ConsumeTokens` | lib/token-tracker.ts:87-99 | An unknown user fails and the table is unchanged. A failed write fails with its message and the table is unchanged. Otherwise only that user's record changes, to `Consumed`. |
| `TokenTracker.TokenLedger.GetTokenUsage` | lib/token-tracker.ts:104-106 | Gives the same result and the same new table as `CheckTokenLimit`. |
| `JsText.Trim` | lib/openai.ts:125 | `trim` removes exactly the leading and trailing whitespace. The result is a slice of the input that starts and ends with non-whitespace. It is empty iff the input is all whitespace. |
| `JsText.TrimOfTrimmed` | lib/openai.ts:74 | Trimming a string that is already trimmed changes nothing. |
| `JsText.Lower` | lib/content-extractor.ts:24 | `toLowerCase` keeps the length and maps every character through ASCII lower-casing. |
| `JsText.Filter` | lib/openai.ts:59 | `filter` keeps exactly the elements that satisfy the test, and never lengthens the sequence. |
| `JsText.JoinNoTripleNewline` | lib/openai.ts:74 | Joining non-empty pieces with `\n\n` gives no `\n\n\n`, provided no piece starts or ends with a newline or holds `\n\n`. |
| `JsRegex.MatchAt` | lib/openai.ts:34-56 | Every match of every pattern is non-empty and lies inside the string. |
| `JsRegex.UrlNeedsLowerScheme` | lib/openai.ts:49 | The URL pattern has no `i` flag, so no match starts at a character other than a lower-case `h`. |
| `JsRegex.UrlSchemeCase` | lib/openai.ts:49 | `HTTP://x.com` is not matched by the URL pattern, while `http://x.com` is matched whole. |
| `JsRegex.ReplaceChars` | lib/openai.ts:34-56 | Every character a global `replace` produces comes from the input or from the replacement text. |
| `JsRegex.ReplaceWithoutMatch` | lib/content-extractor.ts:132 | With no match from an index onwards, `replace` leaves the rest of the string unchanged. |
| `JsRegex.WhitespaceMatch` | lib/content-extractor.ts:131 | `/\s+/` matches exactly at whitespace characters, and takes the whole whitespace run. |
| `JsRegex.BlankLineNeedsNewline` | lib/content-extractor.ts:132 | `/\n\s*\n/` cannot match at a character other than a newline. |
| `JsRegex.BlankLineFound` | lib/openai.ts:59 | Two newlines with only whitespace between them start a match of `/\n\s*\n/`. |
| `JsRegex.BlankLineFree` | lib/openai.ts:59 | A stretch in which `/\n\s*\n/` starts no match holds no blank line. |
| `JsRegex.BlankLineSplitPieces` | lib/openai.ts:59 | Every piece of `split(/\n\s*\n/)` is a slice of the input in which the separator starts no match. |
| `JsRegex.BlankLineSplitChars` | lib/openai.ts:59 | The pieces of the split hold only characters of the input. |
| `JsRegex.JsonLikeLineTest` | lib/openai.ts:64 | `/^[\{\[].*[\}\]]$/.test(p)` holds iff `p` is one line that opens with `{` or `[` and closes with `}` or `]`. |
| `JsRegex.UpperLabelTest` | lib/openai.ts:68 | `/^[A-Z_]+:/.test(p)` holds iff `p` opens with one or more capitals or underscores and then a colon. |
| `JsRegex.HeadingMatch` | lib/openai.ts:120 | `/^#{1,3}\s+/gm` matches iff a line starts with one to three `#` and whitespace. The match takes the marker and the whole whitespace run after it. |
| `JsRegex.HeadingMarkerMatch` | lib/openai.ts:120 | Gives the length of the heading match after a given marker: it ends where the whitespace run after the marker ends. |
| `JsRegex.FourHashesNoHeading` | lib/openai.ts:120 | No heading match starts at `####`. |
| `JsRegex.NewlineRunCollapse` | lib/openai.ts:52 | After `/\n{3,}/g` is replaced by `\n\n`, no `\n\n\n` remains. |
| `OpenAI.StripArtifacts` | lib/openai.ts:34-56 | The eleven replace passes produce only characters of the input, spaces and newlines. |
| `OpenAI.Paragraphs` | lib/openai.ts:59 | Every paragraph is a trimmed piece of the blank-line split, non-empty and free of blank lines. Every piece that is not all whitespace yields a paragraph. |
| `OpenAI.IsMetadataParagraph` | lib/openai.ts:62-72 | A paragraph is dropped as metadata iff one of these holds: it is a one-line `{…}`/`[…]` shape; it contains `"@type"` or `"@context"`; or it is shorter than 20 characters and opens with an upper-case label and a colon. |
| `OpenAI.TranslationParagraphs` | lib/openai.ts:59-72 | Every paragraph that survives both filters is a paragraph of the split that is non-empty, trimmed, free of blank lines and not metadata. Every paragraph of the split that is not metadata survives. |
| `OpenAI.BlankTextNoParagraphs` | lib/openai.ts:32-72 | Whitespace-only text leaves no paragraph. |
| `OpenAI.JoinedParagraphs` | lib/openai.ts:74 | Joining clean paragraphs with `\n\n` gives text without `\n\n\n`, which starts and ends with non-whitespace. |
| `OpenAI.CleanTranslationText` | lib/openai.ts:32-75 | The result is the surviving paragraphs joined by one blank line each, and never holds `\n\n\n`. Whitespace-only text gives `""`. |
| `OpenAI.CleanInsights` | lib/openai.ts:118-126 | The result never holds `\n\n\n`, and starts and ends with non-whitespace. |
| `OpenAI.FourHashesKept` | lib/openai.ts:120 | At `####` the heading pass copies the `#` and moves on. |
| `OpenAI.HeadingNone` | lib/openai.ts:120 | No heading match starts away from a line start, or at a character other than `#`. |
| `OpenAI.HeadingOnlyAtStart` | lib/openai.ts:120 | When the only heading match is at the start, the pass deletes exactly that prefix. |
| `OpenAI.NewlineRunNone` | lib/openai.ts:123 | `/\n{3,}/` does not match where fewer than three newlines follow. |
| `OpenAI.NoNewlineCollapse` | lib/openai.ts:123 | Text without newlines is unchanged by the newline pass. |
| `OpenAI.CleanInsightsExample` | lib/openai.ts:118-126 | `"### Title\n\nBody"` is cleaned to `"Title\n\nBody"`. |
| `OpenAI.CleanInsightsNotIdempotent` | lib/openai.ts:118-126 | Cleaning `"## # x"` gives `"# x"`, and cleaning that again gives `"x"`, so the sanitiser is not idempotent. |
| `OpenAI.CleanInsightsKeepsClean` | lib/openai.ts:118-126 | Text with no heading marker at the start of any line, no `\n\n\n` and no surrounding whitespace comes out of `cleanInsights` unchanged. |
| `OpenAI.IsConfigured` | lib/openai.ts:11-28 | The client counts as configured only when the key read at load and the key read now are both set and non-empty. |
| `OpenAI.TranslateToChinese` | lib/openai.ts:77-115 | Without a configured key it fails with "OPENAI_API_KEY is not configured". A thrown call fails with its message. Otherwise it succeeds with `cleanTranslationText` of the reply's content (`""` when there is none), which holds no `\n\n\n`. |
| `OpenAI.StyleOrDefault` | lib/openai.ts:128-131 | A missing style is the default, `warmBookish`. A given style is kept. |
| `OpenAI.RequestFor` | lib/openai.ts:136-148 | The system prompt is the style's system prompt, and the user prompt gives back the translation exactly. The token budget and temperature are the style's own, so they lie in 2200..2500 and 0.70..0.85. |
| `OpenAI.GenerateInsights` | lib/openai.ts:128-154 | Without a configured key it fails with "OPENAI_API_KEY is not configured". A thrown call fails with its message. Otherwise it succeeds with `cleanInsights` of the reply's content (`""` when there is none), which holds no `\n\n\n`. |
| `PromptStyles.ParseKey` | lib/prompt-styles.ts:6-11 | A recognised key names the style it parses to. |
| `PromptStyles.StylesClosed` | lib/prompt-styles.ts:6-11 | There are exactly five distinct styles, and each style's key parses back to it. |
| `PromptStyles.RhetoricalDevices` | lib/prompt-styles.ts:30-135 | Every style lists three rhetorical devices. |
| `PromptStyles.Avoid` | lib/prompt-styles.ts:30-135 | Every style lists something to avoid. |
| `PromptStyles.Temperature` | lib/prompt-styles.ts:30-135 | Every style's temperature lies in 0.70..0.85. |
| `PromptStyles.MaxTokens` | lib/prompt-styles.ts:30-135 | Every style's token budget lies in 2200..2500. |
| `PromptStyles.ConfigOf` | lib/prompt-styles.ts:30-135 | Every style's configuration lists three rhetorical devices and something to avoid, with a token budget in 2200..2500 and a temperature in 0.70..0.85. |
| `PromptStyles.DefaultStyle` | lib/prompt-styles.ts:205-207 | The default style is `warmBookish`. |
| `PromptStyles.Bullets` | lib/prompt-styles.ts:157 | The bullet map keeps the number of items and prefixes each item with `- `. |
| `PromptStyles.BulletLine` | lib/prompt-styles.ts:157 | In the framed bullet list, each item stands on its own line as `- item`, in order. |
| `PromptStyles.SystemPromptListsDevices` | lib/prompt-styles.ts:140-172 | The system prompt holds every rhetorical device on its own `- ` line, in order, inside the devices section. |
| `PromptStyles.SystemPromptListsAvoid` | lib/prompt-styles.ts:161-162 | The system prompt holds every item to avoid on its own `- ` line, in order, after all the devices. |
| `PromptStyles.SystemPrompt` | lib/prompt-styles.ts:140-172 | The system prompt for a style names the style after the opening sentence. It lists each of the style's rhetorical devices, then each item to avoid, as a `- ` line of its own, in list order, every device line before every avoid line. |
| `PromptStyles.UserPromptWith` | lib/prompt-styles.ts:177-200 | The user prompt holds the style's name and the article at their template positions. |
| `PromptStyles.UserPrompt` | lib/prompt-styles.ts:177-200 | The user prompt for a style names the style and embeds the article whole, so the article can be read back out of the prompt. |
| `PromptStyles.ArticleRoundTrip` | lib/prompt-styles.ts:177-200 | The article can be read back from the user prompt unchanged. |
| `ErrorHandler.CodeNamed` | lib/error-handler.ts:14-39 | A key that names a code is that code's string value. |
| `ErrorHandler.AuthTokenRoundTrip` | lib/error-handler.ts:15-21 | The authentication and token codes are found again from their names. |
| `ErrorHandler.ContentRoundTrip` | lib/error-handler.ts:23-27 | The content codes are found again from their names. |
| `ErrorHandler.ServiceRoundTrip` | lib/error-handler.ts:29-34 | The service and input codes are found again from their names. |
| `ErrorHandler.GenericRoundTrip` | lib/error-handler.ts:36-38 | The generic codes are found again from their names. |
| `ErrorHandler.CodeRoundTrip` | lib/error-handler.ts:14-133 | Every code is found again from its name, and its table entry carries that name as its code. |
| `ErrorHandler.TableConsistent` | lib/error-handler.ts:14-133 | The table is keyed consistently, and distinct codes have distinct names. |
| `ErrorHandler.StatusCode` | lib/error-handler.ts:41-133 | Every entry's status lies in 400..503. It is 5xx exactly for the OpenAI, network, unknown and server codes, 401 exactly for the two session codes, 402 exactly for a missing subscription and 403 exactly for the two token codes. |
| `ErrorHandler.Entry` | lib/error-handler.ts:41-133 | Each code's entry carries a code string that names that code again, and a status with the classes above. |
| `ErrorHandler.Or` | lib/error-handler.ts:153 | The logical or of two string properties gives `a` when it is present and non-empty, and `b` otherwise. |
| `ErrorHandler.Classify` | lib/error-handler.ts:159-184 | The seven case-sensitive keyword tests are tried in order. Each code is chosen exactly when its own test holds and every earlier one fails, and `UNKNOWN_ERROR` exactly when all seven fail. |
| `ErrorHandler.LimitBeforeInsufficient` | lib/error-handler.ts:161-166 | A message naming token, limit and insufficient is "token limit reached", because that test comes first. |
| `ErrorHandler.FetchFailedIsExtraction` | lib/error-handler.ts:173-178 | "fetch failed" is classified as a failed extraction whenever none of the token, authentication and subscription tests fires, and is never a network error. A message is a network error iff it says "network" and none of the earlier keywords. |
| `ErrorHandler.UnrecognisedIsUnknown` | lib/error-handler.ts:161-184 | A message with none of the keywords is an unknown error. |
| `ErrorHandler.FromResponseOrMessage` | lib/error-handler.ts:145-184 | A response whose `error` names a code gives that code's entry, with the user message taken from `message`, else from `userMessage`, else from the table. Anything else is classified by `message`, else `error`, else the stringified value. The result is always a table entry up to its user message. |
| `ErrorHandler.ParseError` | lib/error-handler.ts:138-185 | A known own code gives its table entry unchanged. Every result is a table entry up to its user message. |
| `ErrorHandler.Lookup` | lib/error-handler.ts:140-141 | Indexing the table by a code name gives that code's entry, and these are the only keys that give an entry. An `Object.prototype` key gives the inherited member of that name, and these are the only keys that give one. |
| `ErrorHandler.ParseErrorAsWritten` | lib/error-handler.ts:138-185 | As written, `parseError` returns an inherited member iff the code is an `Object.prototype` key. Otherwise it agrees with `ParseError`. |
| `ErrorHandler.InheritedCodeEscapes` | lib/error-handler.ts:140-142 | An error whose code is `"toString"` makes `parseError` return the inherited function instead of an `AppError`. |
| `ContentExtractor.SelectIsFilter` | lib/content-extractor.ts:73 | `$(group)` holds exactly the page's elements that match one of the group's selectors. |
| `ContentExtractor.FirstMatches` | lib/content-extractor.ts:108 | `.first()` finds a matching element of the page, and finds none only when no element matches. |
| `ContentExtractor.PruneRemovesAll` | lib/content-extractor.ts:120 | After `.remove()`, no element of the page matches the removed selectors. |
| `ContentExtractor.ParsedDocument.Remove` | lib/content-extractor.ts:120 | The page is replaced by its pruned tree. |
| `ContentExtractor.ContainsAny` | lib/content-extractor.ts:25 | `some(includes)` holds iff some listed string occurs in the text. |
| `ContentExtractor.IsKnownSubscriptionSite` | lib/content-extractor.ts:21-29 | A URL is a subscription site iff it parses and its lower-cased hostname contains one of the nine domains. |
| `ContentExtractor.SiteCheckIgnoresCase` | lib/content-extractor.ts:24 | Letter case in the hostname never changes the verdict. |
| `ContentExtractor.WiderHostIsSubscriptionSite` | lib/content-extractor.ts:25 | A hostname that contains a subscription hostname is one too. |
| `ContentExtractor.MicrosoftIsSubscriptionSite` | lib/content-extractor.ts:25 | The substring test makes `www.microsoft.com` a subscription site, because it contains `ft.com`. |
| `ContentExtractor.StructuralPaywall` | lib/content-extractor.ts:57-74 | The structural stage fires iff some element of the page has a `class` or `id` that contains one of the ten indicators. |
| `ContentExtractor.TextPaywall` | lib/content-extractor.ts:76-92 | The text stage fires iff the lower-cased body text contains one of the seven phrases. |
| `ContentExtractor.AnyIndicatorSelected` | lib/content-extractor.ts:71-74 | The structural stage holds iff some indicator's `[class*=…], [id*=…]` group selects an element. |
| `ContentExtractor.IndicatorElementDetected` | lib/content-extractor.ts:57-74 | An element whose class or id contains an indicator is selected by that indicator's group. |
| `ContentExtractor.CandidateExists` | lib/content-extractor.ts:108-110 | A selector yields a text exactly when some element of the page matches it. |
| `ContentExtractor.FirstLongWins` | lib/content-extractor.ts:107-115 | The first selector whose trimmed text is longer than 200 characters decides the text. |
| `ContentExtractor.NoLongTakesLast` | lib/content-extractor.ts:107-115 | If no selector's text is longer than 200 characters, the loop keeps the text of the last selector that matched, or `""` when none matched. |
| `ContentExtractor.Selected` | lib/content-extractor.ts:106-115 | The selector loop settles on `""` or on the trimmed text of the first element some content selector matches. The text never starts with whitespace. |
| `ContentExtractor.SelectArticleText` | lib/content-extractor.ts:106-115 | The loop over the seven selectors computes `Selected`. |
| `ContentExtractor.CollapseWhitespace` | lib/content-extractor.ts:131 | After `/\s+/g` is replaced by a space, the non-whitespace characters are those of the input, in order, and every whitespace character is a single plain space. The output is empty only for empty input. It starts with whitespace exactly when the input does, and is all whitespace exactly when the input is. |
| `ContentExtractor.NoBlankLineMatch` | lib/content-extractor.ts:132 | After the collapse no newline is left, so `/\n\s*\n/g` changes nothing. |
| `ContentExtractor.Normalize` | lib/content-extractor.ts:130-133 | The clean-up keeps the non-whitespace characters of the input, in order, and leaves only single plain spaces and no newline. Its result starts and ends with non-whitespace, and is empty iff the input is all whitespace. |
| `ContentExtractor.CollapseClean` | lib/content-extractor.ts:131 | Text that is already cleaned is unchanged by the whitespace pass. |
| `ContentExtractor.NormalizeIdempotent` | lib/content-extractor.ts:130-133 | Cleaning up twice is the same as cleaning up once. |
| `ContentExtractor.Extraction` | lib/content-extractor.ts:117-138 | Whitespace-only chosen text gives the placeholder. Otherwise the content is the cleaned text, which is non-empty. The page is flagged iff one of these holds: the site is a subscription site; a paywall stage fired; or the body fallback ran and was shorter than 200 characters. |
| `ContentExtractor.TwoHundredKept` | lib/content-extractor.ts:111-124 | Text of exactly 200 characters is kept without the fallback, and flagged only by the site or a paywall stage. |
| `ContentExtractor.FallbackText` | lib/content-extractor.ts:117-121 | The fallback text is trimmed at both ends, and every character of it comes from the page's text. |
| `ContentExtractor.ExtractFromPage` | lib/content-extractor.ts:53-138 | For a fetched page, the step-by-step classification, selection, fallback and clean-up compute `Extraction`. |
| `ContentExtractor.ExtractContentFromUrl` | lib/content-extractor.ts:31-164 | On a subscription site, a thrown fetch or a response that is not ok gives `("", true)`. Elsewhere it fails with `Failed to extract content: ` and the error message (`Failed to fetch URL: <statusText>` for a response that is not ok). An ok response gives `Extraction`. |
| `SupportForm.EmailPatternSound` | components/SupportForm.tsx:30-33 | Every string the e-mail pattern accepts has the shape below. |
| `SupportForm.EmailPatternComplete` | components/SupportForm.tsx:30-33 | Every string with the shape is accepted by the pattern. The shape is: no whitespace, exactly one `@` that is not first, and after it a `.` with a character on each side. |
| `SupportForm.EmailPatternShape` | components/SupportForm.tsx:30-33 | The pattern accepts a string iff the string has the shape. |
| `SupportForm.IsValidEmail` | components/SupportForm.tsx:30-33 | An e-mail is valid iff it has the shape. |
| `SupportForm.PaddedEmailInvalid` | components/SupportForm.tsx:57-63 | An address with leading or trailing whitespace is rejected. |
| `SupportForm.BlankEmailInvalid` | components/SupportForm.tsx:57-63 | A blank address is rejected. |
| `SupportForm.CountWords` | components/SupportForm.tsx:36-38 | The count is the number of maximal non-whitespace runs, and is zero iff the text is blank. |
| `SupportForm.NoWordsIsBlank` | components/SupportForm.tsx:36-38 | A text has no words iff it is all whitespace. |
| `SupportForm.FilterNonEmptyCount` | components/SupportForm.tsx:37 | `filter(w => w.length > 0).length` counts the non-empty pieces. |
| `SupportForm.SplitCount` | components/SupportForm.tsx:37 | The non-empty pieces of `split(/\s+/)` are the words of the text. |
| `SupportForm.CountWordsIsWords` | components/SupportForm.tsx:36-38 | `trim().split(/\s+/).filter(…).length` is the number of words. |
| `SupportForm.EmailError` | components/SupportForm.tsx:57-63 | The email field has no error iff the address has the shape. Otherwise the error is "Required" for a blank address and "Invalid email address" for any other. |
| `SupportForm.MessageError` | components/SupportForm.tsx:71-79 | The message field has no error iff it has at least 10 words. Otherwise the error is "Required" for a blank message and "Message must contain at least 10 words" for any other. |
| `SupportForm.Validate` | components/SupportForm.tsx:47-84 | Name and subject are "Required" iff blank. Email and message carry the errors above. The form proceeds iff there is no error. |

## Left out

- Network and I/O are not modelled.
  - `fetch`, `response.text()` and the HTTP request headers are outside the model.
  - The outcome of a fetch is an input `Fetched`: a response with its `ok` flag, status text and parsed page, or a thrown error's message.
- HTML parsing (cheerio) is not modelled.
  - The page is given already parsed, as a tree of text and element nodes.
  - Selectors are limited to the four forms the extractor uses.
  - `.text()` is the concatenation of the text nodes.
- URL parsing (`new URL`) is not modelled. The hostname is an input, or `None` when the URL does not parse.
- The database is a `map` from user id to user record.
  - Whether a write succeeds is an input: `updateFails` or `updateError`.
  - Concurrent requests are not modelled, so neither are lost updates between a read and a write.
- The clock is not modelled. The current time and an expiry time are integers compared with `>`, as `new Date(…) > new Date()` compares them.
- Logging (`console.log`, `console.error`) has no effect on results and is left out.
- The chat-completion calls are not modelled.
  - The model's reply is an input `ChatReply`.
  - The translation request's prompt text, model name, `max_tokens` and `temperature` (lib/openai.ts:82-109) are constants the result does not depend on, and are not modelled.
  - The environment variable is an input. The value read at module load decides whether a client exists, and the value read now is the second half of the guard.
- The catch block's second test (lib/content-extractor.ts:150-160) is unreachable. A subscription site has already returned at lines 143-148, so the inner `if` can never hold. The model omits it.
- Non-`Error` values thrown into `parseError` or the extractor's catch enter as their string form.
  - `ErrorInput.asString` stands for `String(error)`.
  - `ErrorInput.error` is the `error` property when it is a string. A property of another type is treated as absent.
- `ErrorHandler.ParseError`: where the source throws, the model classifies `String(error)` instead.
  - `parseError(null)` and `parseError(undefined)` throw a TypeError at lib/error-handler.ts:140, when `error.code` is read.
  - A falsy `message` with a truthy non-string `error`, or a truthy non-string `message`, makes `errorMessage` a value without a string `includes`. The call at lib/error-handler.ts:161 then throws a TypeError for a number or a plain object.
- React state updates and the POST after a successful validation (components/SupportForm.tsx:40-45 and 86 onwards) are not modelled.
- Lengths count Unicode characters, not UTF-16 code units. This affects `text.length` in `calculateTokensUsed` and the 20- and 200-character thresholds only for characters outside the Basic Multilingual Plane.
- `ContentExtractor.CollapseWhitespace`: does not state that a single space stands exactly where a whitespace run separated two non-whitespace characters. It states that the non-whitespace characters are kept in order, that every whitespace character is a single plain space, and how the ends behave.
- `ContentExtractor.Normalize`: does not state that a single space stands exactly where whitespace separated two non-whitespace characters. It states that the non-whitespace characters are kept in order and that the spaces are single.
- `JsText.Lower`: lower-cases ASCII letters only. Hostnames are ASCII after URL parsing. None of the paywall phrases can be completed by lower-casing a non-ASCII character.
- `PromptStyles.Temperature`: stated in hundredths (70 for 0.7), because Dafny has no floating point.
- `OpenAI.RequestFor`: its temperature is in hundredths for the same reason.
- `JsText.Filter`: its contract states which elements are kept, not their order. The definition keeps their order.
- `OpenAI.StripArtifacts`: its contract states where the output's characters come from, not the effect of each pass.
  - Each pass's matching is defined in `JsRegex.MatchAt`.
  - The passes whose effect the later steps need are characterised by their own lemmas: the blank-line split and the newline collapse.
- The regular expressions are modelled only for the strings the patterns can meet.
  - The case-insensitive flag (`i`) folds ASCII letters only. Patterns without it, such as the URL pattern, compare characters exactly.
  - The multiline flag (`m`) treats `\n`, `\r`, U+2028 and U+2029 as line ends.
- Two properties one might expect do not hold, and the model follows the code:
  - The output sanitisers are not idempotent (`OpenAI.CleanInsightsNotIdempotent`).
  - The extractor's clean-up removes every newline, because `/\s+/g` runs before `/\n\s*\n/g` (`ContentExtractor.Normalize`, `ContentExtractor.NoBlankLineMatch`).

## Findings

| source | as written | input that shows it | evidently intended | confidence | as-written member | corrected member |
|---|---|---|---|---|---|---|
| lib/error-handler.ts:140-142 | `error.code && ErrorMessages[error.code]` also succeeds for keys inherited from `Object.prototype`, and returns that member. | An error object whose `code` is `"toString"` gets back `Object.prototype.toString` instead of an `AppError`. | Only the table's own keys are treated as known codes. Anything else falls through to the later stages. | not executed | `ErrorHandler.ParseErrorAsWritten`, `ErrorHandler.InheritedCodeEscapes` | `ErrorHandler.ParseError` |
