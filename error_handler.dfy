/**
 * The error classifier of lib/error-handler.ts: a closed set of error codes,
 * one fixed user-facing entry per code, and `parseError`, which turns
 * whatever was thrown or returned into one of those entries.
 */
module ErrorHandler {
  import opened Wrappers
  import opened JsText

  /** `ErrorCodes`: each value is the string of its own key. */
  datatype ErrorCode =
    | UNAUTHORIZED | SESSION_EXPIRED
    | TOKEN_LIMIT_REACHED | INSUFFICIENT_TOKENS
    | CONTENT_EXTRACTION_FAILED | SUBSCRIPTION_REQUIRED | INVALID_URL | EMPTY_CONTENT
    | OPENAI_ERROR | NETWORK_ERROR
    | INVALID_INPUT
    | UNKNOWN_ERROR | SERVER_ERROR

  /** `AppError`; every entry of the table sets `actionable`. */
  datatype AppError = AppError(code: string, message: string, userMessage: string, actionable: string, statusCode: nat)

  /** The string value of a code. */
  function CodeName(c: ErrorCode): string
  {
    match c
    case UNAUTHORIZED => "UNAUTHORIZED"
    case SESSION_EXPIRED => "SESSION_EXPIRED"
    case TOKEN_LIMIT_REACHED => "TOKEN_LIMIT_REACHED"
    case INSUFFICIENT_TOKENS => "INSUFFICIENT_TOKENS"
    case CONTENT_EXTRACTION_FAILED => "CONTENT_EXTRACTION_FAILED"
    case SUBSCRIPTION_REQUIRED => "SUBSCRIPTION_REQUIRED"
    case INVALID_URL => "INVALID_URL"
    case EMPTY_CONTENT => "EMPTY_CONTENT"
    case OPENAI_ERROR => "OPENAI_ERROR"
    case NETWORK_ERROR => "NETWORK_ERROR"
    case INVALID_INPUT => "INVALID_INPUT"
    case UNKNOWN_ERROR => "UNKNOWN_ERROR"
    case SERVER_ERROR => "SERVER_ERROR"
  }

  /** The code whose string is `key`, if there is one: an own key of `ErrorCodes` and of `ErrorMessages`. */
  function CodeNamed(key: string): (r: Option<ErrorCode>)
    ensures r.Some? ==> CodeName(r.value) == key
  {
    if key == "UNAUTHORIZED" then Some(UNAUTHORIZED)
    else if key == "SESSION_EXPIRED" then Some(SESSION_EXPIRED)
    else if key == "TOKEN_LIMIT_REACHED" then Some(TOKEN_LIMIT_REACHED)
    else if key == "INSUFFICIENT_TOKENS" then Some(INSUFFICIENT_TOKENS)
    else if key == "CONTENT_EXTRACTION_FAILED" then Some(CONTENT_EXTRACTION_FAILED)
    else if key == "SUBSCRIPTION_REQUIRED" then Some(SUBSCRIPTION_REQUIRED)
    else if key == "INVALID_URL" then Some(INVALID_URL)
    else if key == "EMPTY_CONTENT" then Some(EMPTY_CONTENT)
    else if key == "OPENAI_ERROR" then Some(OPENAI_ERROR)
    else if key == "NETWORK_ERROR" then Some(NETWORK_ERROR)
    else if key == "INVALID_INPUT" then Some(INVALID_INPUT)
    else if key == "UNKNOWN_ERROR" then Some(UNKNOWN_ERROR)
    else if key == "SERVER_ERROR" then Some(SERVER_ERROR)
    else None
  }

  // The entries of `ErrorMessages`, one function per field.

  /** The `message` of each entry. */
  function Message(c: ErrorCode): string
  {
    match c
    case UNAUTHORIZED => "User is not authenticated"
    case SESSION_EXPIRED => "Session has expired"
    case TOKEN_LIMIT_REACHED => "Token limit reached"
    case INSUFFICIENT_TOKENS => "Insufficient tokens"
    case CONTENT_EXTRACTION_FAILED => "Failed to extract content from URL"
    case SUBSCRIPTION_REQUIRED => "Article requires subscription"
    case INVALID_URL => "Invalid URL provided"
    case EMPTY_CONTENT => "No content found"
    case OPENAI_ERROR => "AI processing error"
    case NETWORK_ERROR => "Network error"
    case INVALID_INPUT => "Invalid input provided"
    case UNKNOWN_ERROR => "An unexpected error occurred"
    case SERVER_ERROR => "Server error"
  }

  /** The `userMessage` of each entry. */
  function UserMessage(c: ErrorCode): string
  {
    match c
    case UNAUTHORIZED => "Please sign in to continue"
    case SESSION_EXPIRED => "Your session has expired. Please sign in again."
    case TOKEN_LIMIT_REACHED => "You've used all your free tokens. Upgrade to continue translating articles."
    case INSUFFICIENT_TOKENS => "You don't have enough tokens for this article. Upgrade for unlimited access."
    case CONTENT_EXTRACTION_FAILED => "We couldn't extract the article content. The website might be blocking access or the URL might be invalid."
    case SUBSCRIPTION_REQUIRED => "This article requires a subscription to the source website."
    case INVALID_URL => "The URL you provided is invalid or not accessible."
    case EMPTY_CONTENT => "The article appears to be empty or we couldn't find any content."
    case OPENAI_ERROR => "We encountered an error while processing your article. This might be temporary."
    case NETWORK_ERROR => "We couldn't connect to our servers. Please check your internet connection."
    case INVALID_INPUT => "The information you provided is invalid. Please check and try again."
    case UNKNOWN_ERROR => "Something went wrong. We're working on fixing it."
    case SERVER_ERROR => "Our servers are experiencing issues. Please try again in a few moments."
  }

  /** The `actionable` hint of each entry. */
  function Actionable(c: ErrorCode): string
  {
    match c
    case UNAUTHORIZED => "Sign in to access this feature"
    case SESSION_EXPIRED => "Sign in again"
    case TOKEN_LIMIT_REACHED => "Upgrade to paid plan"
    case INSUFFICIENT_TOKENS => "Upgrade to paid plan"
    case CONTENT_EXTRACTION_FAILED => "Try pasting the article text directly instead"
    case SUBSCRIPTION_REQUIRED => "Sign in to the website and copy the article content"
    case INVALID_URL => "Please check the URL and try again"
    case EMPTY_CONTENT => "Please check the URL or try pasting the text directly"
    case OPENAI_ERROR => "Please try again in a few moments"
    case NETWORK_ERROR => "Check your connection and try again"
    case INVALID_INPUT => "Review your input and try again"
    case UNKNOWN_ERROR => "Please try again later"
    case SERVER_ERROR => "Try again in a few moments"
  }

  /** The HTTP `statusCode` of each entry. */
  function StatusCode(c: ErrorCode): (n: nat)
    ensures 400 <= n <= 503
    ensures n >= 500 <==> c == OPENAI_ERROR || c == NETWORK_ERROR || c == UNKNOWN_ERROR || c == SERVER_ERROR
    ensures n == 401 <==> c == UNAUTHORIZED || c == SESSION_EXPIRED
    ensures n == 402 <==> c == SUBSCRIPTION_REQUIRED
    ensures n == 403 <==> c == TOKEN_LIMIT_REACHED || c == INSUFFICIENT_TOKENS
  {
    match c
    case UNAUTHORIZED => 401
    case SESSION_EXPIRED => 401
    case TOKEN_LIMIT_REACHED => 403
    case INSUFFICIENT_TOKENS => 403
    case CONTENT_EXTRACTION_FAILED => 400
    case SUBSCRIPTION_REQUIRED => 402
    case INVALID_URL => 400
    case EMPTY_CONTENT => 400
    case OPENAI_ERROR => 500
    case NETWORK_ERROR => 503
    case INVALID_INPUT => 400
    case UNKNOWN_ERROR => 500
    case SERVER_ERROR => 500
  }

  /**
   * `ErrorMessages[c]`: its `code` is the key it is stored under and leads
   * back to `c`; its status is a server error (5xx) exactly for the service,
   * network and generic codes, and a client error (4xx) otherwise, with 401
   * for the session codes, 402 for a missing subscription and 403 for the
   * token codes.
   */
  function Entry(c: ErrorCode): (r: AppError)
    ensures CodeNamed(r.code) == Some(c)
    ensures 400 <= r.statusCode <= 503
    ensures r.statusCode >= 500 <==> c in {OPENAI_ERROR, NETWORK_ERROR, UNKNOWN_ERROR, SERVER_ERROR}
    ensures r.statusCode == 401 <==> c in {UNAUTHORIZED, SESSION_EXPIRED}
    ensures r.statusCode == 402 <==> c == SUBSCRIPTION_REQUIRED
    ensures r.statusCode == 403 <==> c in {TOKEN_LIMIT_REACHED, INSUFFICIENT_TOKENS}
  {
    NameLeadsBack(c);
    AppError(CodeName(c), Message(c), UserMessage(c), Actionable(c), StatusCode(c))
  }

  /** The round trip for the authentication and token codes. */
  lemma AuthTokenRoundTrip(c: ErrorCode)
    requires c == UNAUTHORIZED || c == SESSION_EXPIRED || c == TOKEN_LIMIT_REACHED || c == INSUFFICIENT_TOKENS
    ensures CodeNamed(CodeName(c)) == Some(c)
  {
  }

  /** The round trip for the content codes. */
  lemma ContentRoundTrip(c: ErrorCode)
    requires c == CONTENT_EXTRACTION_FAILED || c == SUBSCRIPTION_REQUIRED || c == INVALID_URL || c == EMPTY_CONTENT
    ensures CodeNamed(CodeName(c)) == Some(c)
  {
  }

  /** The round trip for the service and validation codes. */
  lemma ServiceRoundTrip(c: ErrorCode)
    requires c == OPENAI_ERROR || c == NETWORK_ERROR || c == INVALID_INPUT
    ensures CodeNamed(CodeName(c)) == Some(c)
  {
  }

  /** The round trip for the generic codes. */
  lemma GenericRoundTrip(c: ErrorCode)
    requires c == UNKNOWN_ERROR || c == SERVER_ERROR
    ensures CodeNamed(CodeName(c)) == Some(c)
  {
  }

  /** Each code's string leads back to it. */
  lemma NameLeadsBack(c: ErrorCode)
    ensures CodeNamed(CodeName(c)) == Some(c)
  {
    if c == UNAUTHORIZED || c == SESSION_EXPIRED || c == TOKEN_LIMIT_REACHED || c == INSUFFICIENT_TOKENS {
      AuthTokenRoundTrip(c);
    } else if c == CONTENT_EXTRACTION_FAILED || c == SUBSCRIPTION_REQUIRED || c == INVALID_URL || c == EMPTY_CONTENT {
      ContentRoundTrip(c);
    } else if c == OPENAI_ERROR || c == NETWORK_ERROR || c == INVALID_INPUT {
      ServiceRoundTrip(c);
    } else {
      GenericRoundTrip(c);
    }
  }

  /** Each entry carries its own key as its code, and each code's string leads back to it. */
  lemma CodeRoundTrip(c: ErrorCode)
    ensures Entry(c).code == CodeName(c)
    ensures CodeNamed(CodeName(c)) == Some(c)
  {
    NameLeadsBack(c);
  }

  /**
   * The table is consistent: every code has an entry whose code is its own
   * key, and distinct codes have distinct strings, so no two entries share a key.
   */
  lemma TableConsistent(c: ErrorCode, d: ErrorCode)
    ensures Entry(c).code == CodeName(c)
    ensures CodeNamed(CodeName(c)) == Some(c)
    ensures c != d ==> CodeName(c) != CodeName(d)
  {
    CodeRoundTrip(c);
    CodeRoundTrip(d);
  }

  /** Every code's string begins with a capital letter. */
  lemma CodeNamedCapital(key: string)
    ensures CodeNamed(key).Some? ==> key != "" && 'A' <= key[0] <= 'Z'
  {
    if CodeNamed(key).Some? {
      CodeNameCapital(CodeNamed(key).value);
    }
  }

  lemma CodeNameCapital(c: ErrorCode)
    ensures CodeName(c) != "" && 'A' <= CodeName(c)[0] <= 'Z'
  {
  }

  // ---------------------------------------------------------------------------
  // The input

  /**
   * The value handed to `parseError`, as far as it reads it: its `code`,
   * `error`, `message` and `userMessage` properties (`None` when absent) and
   * `String(error)`. A string thrown on its own has none of the properties.
   */
  datatype ErrorInput = ErrorInput(
    code: Option<string>,
    error: Option<string>,
    message: Option<string>,
    userMessage: Option<string>,
    asString: string)

  /** A property is truthy when it is present and not the empty string. */
  predicate Truthy(p: Option<string>) {
    p.Some? && p.value != ""
  }

  /** `a || b` over optional strings. */
  function Or(a: Option<string>, b: string): (r: string)
    ensures Truthy(a) ==> r == a.value
    ensures !Truthy(a) ==> r == b
  {
    if Truthy(a) then a.value else b
  }

  // ---------------------------------------------------------------------------
  // Matching on the message

  // The seven tests of lib/error-handler.ts:161-179, in order.
  predicate MentionsLimit(m: string) { Contains(m, "token") && Contains(m, "limit") }
  predicate MentionsInsufficient(m: string) { Contains(m, "token") && Contains(m, "insufficient") }
  predicate MentionsAuth(m: string) { Contains(m, "unauthorized") || Contains(m, "authentication") }
  predicate MentionsSubscription(m: string) { Contains(m, "subscription") || Contains(m, "paywall") }
  predicate MentionsExtraction(m: string) { Contains(m, "extract") || Contains(m, "fetch") }
  predicate MentionsNetwork(m: string) { Contains(m, "network") || Contains(m, "fetch failed") }
  predicate MentionsOpenAI(m: string) { Contains(m, "OpenAI") || Contains(m, "API key") }

  /**
   * The ordered substring tests on the message, case-sensitive: each code is
   * chosen exactly when its own test holds and every earlier test fails, and
   * `UNKNOWN_ERROR` exactly when all seven fail.
   */
  function Classify(m: string): (c: ErrorCode)
    ensures c == TOKEN_LIMIT_REACHED <==> MentionsLimit(m)
    ensures c == INSUFFICIENT_TOKENS <==> !MentionsLimit(m) && MentionsInsufficient(m)
    ensures c == UNAUTHORIZED <==> !MentionsLimit(m) && !MentionsInsufficient(m) && MentionsAuth(m)
    ensures c == SUBSCRIPTION_REQUIRED <==>
      !MentionsLimit(m) && !MentionsInsufficient(m) && !MentionsAuth(m) && MentionsSubscription(m)
    ensures c == CONTENT_EXTRACTION_FAILED <==>
      !MentionsLimit(m) && !MentionsInsufficient(m) && !MentionsAuth(m) && !MentionsSubscription(m)
      && MentionsExtraction(m)
    ensures c == NETWORK_ERROR <==>
      !MentionsLimit(m) && !MentionsInsufficient(m) && !MentionsAuth(m) && !MentionsSubscription(m)
      && !MentionsExtraction(m) && MentionsNetwork(m)
    ensures c == OPENAI_ERROR <==>
      !MentionsLimit(m) && !MentionsInsufficient(m) && !MentionsAuth(m) && !MentionsSubscription(m)
      && !MentionsExtraction(m) && !MentionsNetwork(m) && MentionsOpenAI(m)
    ensures c == UNKNOWN_ERROR <==>
      !MentionsLimit(m) && !MentionsInsufficient(m) && !MentionsAuth(m) && !MentionsSubscription(m)
      && !MentionsExtraction(m) && !MentionsNetwork(m) && !MentionsOpenAI(m)
  {
    if MentionsLimit(m) then TOKEN_LIMIT_REACHED
    else if MentionsInsufficient(m) then INSUFFICIENT_TOKENS
    else if MentionsAuth(m) then UNAUTHORIZED
    else if MentionsSubscription(m) then SUBSCRIPTION_REQUIRED
    else if MentionsExtraction(m) then CONTENT_EXTRACTION_FAILED
    else if MentionsNetwork(m) then NETWORK_ERROR
    else if MentionsOpenAI(m) then OPENAI_ERROR
    else UNKNOWN_ERROR
  }

  /** A string that holds `x + y` holds `x`. */
  lemma ContainsPrefix(s: string, x: string, y: string)
    requires Contains(s, x + y)
    ensures Contains(s, x)
  {
    var i :| 0 <= i <= |s| - |x + y| && HasAt(s, i, x + y);
    assert s[i..i + |x|] == s[i..i + |x + y|][..|x|];
    assert HasAt(s, i, x);
  }

  /** A message that mentions both a token limit and insufficient tokens is a reached limit. */
  lemma LimitBeforeInsufficient(m: string)
    requires Contains(m, "token") && Contains(m, "limit") && Contains(m, "insufficient")
    ensures Classify(m) == TOKEN_LIMIT_REACHED
  {
  }

  /**
   * "fetch failed" always means a failed extraction: the test for "fetch"
   * comes first. The network entry is reached through "network" only.
   */
  lemma FetchFailedIsExtraction(m: string)
    ensures (Contains(m, "fetch failed") && !MentionsLimit(m) && !MentionsInsufficient(m)
             && !MentionsAuth(m) && !MentionsSubscription(m))
      ==> Classify(m) == CONTENT_EXTRACTION_FAILED
    ensures Contains(m, "fetch failed") ==> Classify(m) != NETWORK_ERROR
    ensures Classify(m) == NETWORK_ERROR <==>
      Contains(m, "network") && !Contains(m, "fetch") && !Contains(m, "extract")
      && !Contains(m, "subscription") && !Contains(m, "paywall")
      && !Contains(m, "unauthorized") && !Contains(m, "authentication")
      && !(Contains(m, "token") && (Contains(m, "limit") || Contains(m, "insufficient")))
  {
    if Contains(m, "fetch failed") {
      assert "fetch failed" == "fetch" + " failed";
      ContainsPrefix(m, "fetch", " failed");
    }
  }

  /** A message that none of the tests recognise is an unknown error. */
  lemma UnrecognisedIsUnknown(m: string)
    requires !Contains(m, "token") && !Contains(m, "unauthorized") && !Contains(m, "authentication")
    requires !Contains(m, "subscription") && !Contains(m, "paywall") && !Contains(m, "extract") && !Contains(m, "fetch")
    requires !Contains(m, "network") && !Contains(m, "OpenAI") && !Contains(m, "API key")
    ensures Classify(m) == UNKNOWN_ERROR
  {
    if Contains(m, "fetch failed") {
      assert "fetch failed" == "fetch" + " failed";
      ContainsPrefix(m, "fetch", " failed");
    }
  }

  // ---------------------------------------------------------------------------
  // parseError

  /**
   * Everything after the own-code check: an API error response whose `error`
   * is a known code keeps that entry with the first truthy of `message`,
   * `userMessage` and the entry's own text as its user message; anything else
   * is classified by its message.
   */
  function FromResponseOrMessage(e: ErrorInput): (r: AppError)
    ensures CodeNamed(r.code).Some? && r == Entry(CodeNamed(r.code).value).(userMessage := r.userMessage)
    ensures Truthy(e.error) && CodeNamed(e.error.value).Some? ==>
      var base := Entry(CodeNamed(e.error.value).value);
      r == base.(userMessage := Or(e.message, Or(e.userMessage, base.userMessage)))
    ensures !(Truthy(e.error) && CodeNamed(e.error.value).Some?) ==>
      r == Entry(Classify(Or(e.message, Or(e.error, e.asString))))
  {
    if Truthy(e.error) && CodeNamed(e.error.value).Some? then
      var baseError := Entry(CodeNamed(e.error.value).value);
      CodeRoundTrip(CodeNamed(e.error.value).value);
      baseError.(userMessage := Or(e.message, Or(e.userMessage, baseError.userMessage)))
    else
      var errorMessage := Or(e.message, Or(e.error, e.asString));
      CodeRoundTrip(Classify(errorMessage));
      Entry(Classify(errorMessage))
  }

  /**
   * `parseError(error)`, with `ErrorMessages[error.code]` read as an own
   * property of the table: the result is always a table entry, save that an
   * API error response may replace its user message.
   */
  function ParseError(e: ErrorInput): (r: AppError)
    ensures CodeNamed(r.code).Some? && r == Entry(CodeNamed(r.code).value).(userMessage := r.userMessage)
    ensures Truthy(e.code) && CodeNamed(e.code.value).Some? ==> r == Entry(CodeNamed(e.code.value).value)
  {
    if Truthy(e.code) && CodeNamed(e.code.value).Some? then
      CodeRoundTrip(CodeNamed(e.code.value).value);
      Entry(CodeNamed(e.code.value).value)
    else
      FromResponseOrMessage(e)
  }

  // ---------------------------------------------------------------------------
  // The table lookup as written

  /** The names `Object.prototype` gives every object, which `ErrorMessages[key]` also finds. */
  const PrototypeKeys: set<string> := {
    "constructor", "hasOwnProperty", "isPrototypeOf", "propertyIsEnumerable", "toLocaleString",
    "toString", "valueOf", "__proto__", "__defineGetter__", "__defineSetter__",
    "__lookupGetter__", "__lookupSetter__"
  }

  /** What `ErrorMessages[key]` evaluates to. */
  datatype Property = TableEntry(entry: AppError) | Inherited(name: string) | Undefined

  /** No member of `Object.prototype` begins with a capital letter. */
  lemma PrototypeKeysNotCapital(key: string)
    ensures key in PrototypeKeys ==> key != "" && !('A' <= key[0] <= 'Z')
  {
  }

  function Lookup(key: string): (p: Property)
    ensures p.TableEntry? <==> CodeNamed(key).Some?
    ensures p.Inherited? <==> key in PrototypeKeys
    ensures CodeNamed(key).Some? ==> p == TableEntry(Entry(CodeNamed(key).value))
    ensures CodeNamed(key).None? && key in PrototypeKeys ==> p == Inherited(key)
  {
    CodeNamedCapital(key);
    PrototypeKeysNotCapital(key);
    match CodeNamed(key)
    case Some(c) => TableEntry(Entry(c))
    case None => if key in PrototypeKeys then Inherited(key) else Undefined
  }

  /** What `parseError` returns as written: an entry, or an inherited member of `Object.prototype`. */
  datatype Returned = AppErr(err: AppError) | PrototypeMember(name: string)

  /**
   * `parseError(error)` as written: `error.code && ErrorMessages[error.code]`
   * also holds for a code such as `"toString"`, and that member is returned.
   */
  function ParseErrorAsWritten(e: ErrorInput): (r: Returned)
    ensures r.PrototypeMember? <==> Truthy(e.code) && e.code.value in PrototypeKeys
    ensures r.AppErr? ==> r.err == ParseError(e)
  {
    if Truthy(e.code) && !Lookup(e.code.value).Undefined? then
      match Lookup(e.code.value)
      case TableEntry(entry) => AppErr(entry)
      case Inherited(name) => PrototypeMember(name)
    else
      AppErr(FromResponseOrMessage(e))
  }

  /** An error object whose `code` is `"toString"` makes `parseError` return a function, not an `AppError`. */
  lemma InheritedCodeEscapes()
    ensures ParseErrorAsWritten(ErrorInput(Some("toString"), None, None, None, "[object Object]")) == PrototypeMember("toString")
  {
    assert "toString" in PrototypeKeys;
  }
}
