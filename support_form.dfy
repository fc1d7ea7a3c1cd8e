/**
 * The client-side checks of the support form (components/SupportForm.tsx):
 * the e-mail test, the word count, and the validation that runs on submit
 * before anything is sent.
 */
module SupportForm {
  import opened Wrappers
  import opened JsText
  import opened JsRegex

  // ---------------------------------------------------------------------------
  // The e-mail test

  /**
   * `/^[^\s@]+@[^\s@]+\.[^\s@]+$/.test(email)`. The pattern is anchored at
   * both ends, so it can only match the whole string. The first `[^\s@]+`
   * cannot cross an `@`, so it ends at the first `@`; `$` then forces every
   * later character into `[^\s@]`, and backtracking the second run finds a
   * `.` with at least one character on each side exactly when one exists.
   */
  predicate EmailPatternMatches(email: string) {
    var a := RunEnd(email, 0, NotSpacesOrAt);
    0 < a < |email| && email[a] == '@' && RunEnd(email, a + 1, NotSpacesOrAt) == |email|
    && LastIndexOfChar(email, '.', a + 2, |email| - 1).Some?
  }

  /**
   * The strings the pattern accepts: no whitespace anywhere, exactly one `@`,
   * not first, and after it a `.` with at least one character on each side.
   */
  predicate EmailShape(p: string) {
    (forall k | 0 <= k < |p| :: !IsSpace(p[k]))
    && exists a | 0 < a < |p| ::
      p[a] == '@' && (forall k | 0 <= k < |p| && k != a :: p[k] != '@')
      && exists d | a + 1 < d < |p| - 1 :: p[d] == '.'
  }

  /** Whatever the pattern accepts has the shape. */
  lemma EmailPatternSound(p: string)
    requires EmailPatternMatches(p)
    ensures EmailShape(p)
  {
    var a := RunEnd(p, 0, NotSpacesOrAt);
    var d := LastIndexOfChar(p, '.', a + 2, |p| - 1).value;
    forall k | 0 <= k < |p| ensures !IsSpace(p[k]) && (k != a ==> p[k] != '@') {
      if k != a {
        assert InClass(NotSpacesOrAt, p[k]);
      }
    }
    assert a + 1 < d < |p| - 1 && p[d] == '.';
  }

  /** The pattern accepts every string of that shape. */
  lemma EmailPatternComplete(p: string)
    requires EmailShape(p)
    ensures EmailPatternMatches(p)
  {
    var at :| 0 < at < |p| && p[at] == '@' && (forall k | 0 <= k < |p| && k != at :: p[k] != '@')
      && exists d | at + 1 < d < |p| - 1 :: p[d] == '.';
    var d :| at + 1 < d < |p| - 1 && p[d] == '.';
    RunEndAt(p, 0, NotSpacesOrAt, at);
    RunEndAt(p, at + 1, NotSpacesOrAt, |p|);
    assert LastIndexOfChar(p, '.', at + 2, |p| - 1).Some?;
  }

  lemma EmailPatternShape(p: string)
    ensures EmailPatternMatches(p) <==> EmailShape(p)
  {
    if EmailPatternMatches(p) {
      EmailPatternSound(p);
    }
    if EmailShape(p) {
      EmailPatternComplete(p);
    }
  }

  /**
   * `isValidEmail(email)`: no whitespace, exactly one `@` that is not the
   * first character, and a `.` after it with text on both sides.
   */
  function IsValidEmail(email: string): (valid: bool)
    ensures valid <==> EmailShape(email)
  {
    EmailPatternShape(email);
    EmailPatternMatches(email)
  }

  /** The test runs on the untrimmed input, so surrounding whitespace makes an address invalid. */
  lemma PaddedEmailInvalid(email: string)
    requires |email| > 0 && (IsSpace(email[0]) || IsSpace(email[|email| - 1]))
    ensures !IsValidEmail(email)
  {
  }

  /** An address that is blank after trimming never passes the test. */
  lemma BlankEmailInvalid(email: string)
    requires AllSpace(email)
    ensures !IsValidEmail(email)
  {
    if |email| > 0 {
      assert IsSpace(email[0]);
    }
  }

  // ---------------------------------------------------------------------------
  // The word count

  /** The number of maximal runs of non-whitespace characters in `s[i..]`. */
  function Words(s: string, i: nat): nat
    requires i <= |s|
    decreases |s| - i
  {
    if i == |s| then 0
    else if IsSpace(s[i]) then Words(s, i + 1)
    else 1 + Words(s, RunEnd(s, i, NonSpaces))
  }

  predicate NonEmpty(w: string) {
    |w| > 0
  }

  /**
   * `countWords(text)`: `text.trim().split(/\s+/).filter(w => w.length > 0).length`,
   * which is the number of words of `text`, and zero exactly for a blank text.
   */
  function CountWords(text: string): (count: nat)
    ensures count == Words(text, 0)
    ensures count == 0 <==> AllSpace(text)
  {
    CountWordsIsWords(text);
    NoWordsIsBlank(text, 0);
    |Filter(Split(Whitespace, Trim(text)), NonEmpty)|
  }

  /** Leading whitespace holds no word. */
  lemma {:induction false} WordsSkipSpaces(s: string, i: nat, e: nat)
    requires i <= e <= |s|
    requires forall k | i <= k < e :: IsSpace(s[k])
    ensures Words(s, i) == Words(s, e)
    decreases e - i
  {
    if i < e {
      WordsSkipSpaces(s, i + 1, e);
    }
  }

  /** `s[i..]` has no word exactly when it is all whitespace. */
  lemma {:induction false} NoWordsIsBlank(s: string, i: nat)
    requires i <= |s|
    ensures Words(s, i) == 0 <==> forall k | i <= k < |s| :: IsSpace(s[k])
    ensures i == 0 ==> (Words(s, i) == 0 <==> AllSpace(s))
    decreases |s| - i
  {
    if i < |s| && IsSpace(s[i]) {
      NoWordsIsBlank(s, i + 1);
    }
  }

  /** A word of `s[a..b]` ends where the same word of `s` ends, since `s[b..]` is whitespace. */
  lemma SliceRunEnd(s: string, a: nat, b: nat, i: nat)
    requires a <= b <= |s| && i < b - a
    requires forall k | b <= k < |s| :: IsSpace(s[k])
    ensures a + RunEnd(s[a..b], i, NonSpaces) == RunEnd(s, a + i, NonSpaces)
  {
    var t := s[a..b];
    var e := RunEnd(t, i, NonSpaces);
    forall k | a + i <= k < a + e ensures InClass(NonSpaces, s[k]) {
      assert s[k] == t[k - a];
    }
    if e < |t| {
      assert s[a + e] == t[e];
    }
    RunEndAt(s, a + i, NonSpaces, a + e);
  }

  /**
   * Cutting whitespace off the end of a string, and any prefix that ends
   * where a word could not continue, keeps the count of the rest.
   */
  lemma {:induction false} WordsSlice(s: string, a: nat, b: nat, i: nat)
    requires a <= b <= |s| && i <= b - a
    requires forall k | b <= k < |s| :: IsSpace(s[k])
    ensures Words(s[a..b], i) == Words(s, a + i)
    decreases b - a - i
  {
    var t := s[a..b];
    if i == b - a {
      WordsSkipSpaces(s, b, |s|);
    } else if IsSpace(t[i]) {
      assert t[i] == s[a + i];
      WordsSlice(s, a, b, i + 1);
    } else {
      assert t[i] == s[a + i];
      SliceRunEnd(s, a, b, i);
      WordsSlice(s, a, b, RunEnd(t, i, NonSpaces));
    }
  }

  /** The number of non-empty pieces in `xs`. */
  function NonEmptyPieces(xs: seq<string>): nat {
    if xs == [] then 0 else (if |xs[0]| > 0 then 1 else 0) + NonEmptyPieces(xs[1..])
  }

  /** `xs.filter(w => w.length > 0).length` counts the non-empty pieces. */
  lemma {:induction false} FilterNonEmptyCount(xs: seq<string>)
    ensures |Filter(xs, NonEmpty)| == NonEmptyPieces(xs)
  {
    if xs != [] {
      FilterNonEmptyCount(xs[1..]);
    }
  }

  lemma NonEmptyPiecesCons(x: string, rest: seq<string>)
    ensures NonEmptyPieces([x] + rest) == (if |x| > 0 then 1 else 0) + NonEmptyPieces(rest)
  {
    assert ([x] + rest)[1..] == rest;
  }

  /** At a whitespace character the split closes the current piece and skips the whole run. */
  lemma SplitAtSpace(s: string, start: nat, q: nat)
    requires start <= q < |s| && IsSpace(s[q])
    ensures SplitFrom(Whitespace, s, start, q)
      == [s[start..q]] + SplitFrom(Whitespace, s, RunEnd(s, q, Spaces), RunEnd(s, q, Spaces))
  {
    WhitespaceMatch(s, q);
  }

  /** At any other character the current piece grows by one. */
  lemma SplitAtWordChar(s: string, start: nat, q: nat)
    requires start <= q < |s| && !IsSpace(s[q])
    ensures SplitFrom(Whitespace, s, start, q) == SplitFrom(Whitespace, s, start, q + 1)
  {
    WhitespaceMatch(s, q);
  }

  /** The last piece: `s[start..]`, which holds no whitespace, is one word or none. */
  lemma SplitCountAtEnd(s: string, start: nat)
    requires start <= |s|
    requires forall k | start <= k < |s| :: !IsSpace(s[k])
    ensures NonEmptyPieces(SplitFrom(Whitespace, s, start, |s|)) == Words(s, start)
  {
    assert SplitFrom(Whitespace, s, start, |s|) == [s[start..]] + [];
    NonEmptyPiecesCons(s[start..], []);
    if start < |s| {
      RunEndAt(s, start, NonSpaces, |s|);
    }
  }

  /** A whitespace run at `q` closes the piece `s[start..q]`, one word when it is not empty. */
  lemma SplitCountAtSpace(s: string, start: nat, q: nat)
    requires start <= q < |s| && IsSpace(s[q])
    requires forall k | start <= k < q :: !IsSpace(s[k])
    requires var e := RunEnd(s, q, Spaces);
      NonEmptyPieces(SplitFrom(Whitespace, s, e, e)) == Words(s, e)
    ensures NonEmptyPieces(SplitFrom(Whitespace, s, start, q)) == Words(s, start)
  {
    var e := RunEnd(s, q, Spaces);
    SplitAtSpace(s, start, q);
    NonEmptyPiecesCons(s[start..q], SplitFrom(Whitespace, s, e, e));
    WordsSkipSpaces(s, q, e);
    if start < q {
      RunEndAt(s, start, NonSpaces, q);
      assert Words(s, start) == 1 + Words(s, q);
    }
  }

  /**
   * Splitting at whitespace runs, with `s[start..q]` the current piece (which
   * holds no whitespace), leaves as many non-empty pieces as `s[start..]` has words.
   */
  lemma {:induction false} SplitCount(s: string, start: nat, q: nat)
    requires start <= q <= |s|
    requires forall k | start <= k < q :: !IsSpace(s[k])
    ensures NonEmptyPieces(SplitFrom(Whitespace, s, start, q)) == Words(s, start)
    decreases |s| - q
  {
    if q == |s| {
      SplitCountAtEnd(s, start);
    } else if IsSpace(s[q]) {
      var e := RunEnd(s, q, Spaces);
      SplitCount(s, e, e);
      SplitCountAtSpace(s, start, q);
    } else {
      SplitAtWordChar(s, start, q);
      SplitCount(s, start, q + 1);
    }
  }

  /** `countWords` counts the words of the untrimmed text. */
  lemma CountWordsIsWords(text: string)
    ensures |Filter(Split(Whitespace, Trim(text)), NonEmpty)| == Words(text, 0)
  {
    var a, b := TrimOffset(text), TrimLimit(text);
    SplitCount(Trim(text), 0, 0);
    FilterNonEmptyCount(Split(Whitespace, Trim(text)));
    WordsSlice(text, a, b, 0);
    WordsSkipSpaces(text, 0, a);
  }

  // ---------------------------------------------------------------------------
  // Validation on submit

  /** The `validationErrors` object: one optional message per field. */
  datatype FieldErrors = FieldErrors(name: Option<string>, email: Option<string>, subject: Option<string>, message: Option<string>)

  const NoErrors: FieldErrors := FieldErrors(None, None, None, None)

  datatype FormData = FormData(name: string, email: string, subject: string, message: string)

  const Required: string := "Required"
  const InvalidEmail: string := "Invalid email address"
  const TooFewWords: string := "Message must contain at least 10 words"
  const MinWords: nat := 10

  /** The e-mail rule: "Required" when blank after trimming, else invalid when the test fails. */
  function EmailError(email: string): (r: Option<string>)
    ensures r.None? <==> EmailShape(email)
    ensures r.Some? ==> r.value == (if AllSpace(email) then Required else InvalidEmail)
  {
    if Trim(email) == "" then
      BlankEmailInvalid(email);
      Some(Required)
    else if !IsValidEmail(email) then Some(InvalidEmail)
    else None
  }

  /** The message rule: "Required" when blank after trimming, else too short below ten words. */
  function MessageError(message: string): (r: Option<string>)
    ensures r.None? <==> Words(message, 0) >= MinWords
    ensures r.Some? ==> r.value == (if Words(message, 0) == 0 then Required else TooFewWords)
  {
    var wordCount := CountWords(message);
    if Trim(message) == "" then Some(Required)
    else if wordCount < MinWords then Some(TooFewWords)
    else None
  }

  /**
   * The validation block of `handleSubmit`: a field that is blank after
   * trimming is "Required"; a non-blank e-mail that fails the test is
   * invalid; a non-blank message with fewer than ten words is too short.
   * The form is sent (`proceed`) exactly when no field has an error.
   */
  method Validate(form: FormData) returns (errors: FieldErrors, proceed: bool)
    ensures errors.name.Some? <==> AllSpace(form.name)
    ensures errors.subject.Some? <==> AllSpace(form.subject)
    ensures errors.email.Some? <==> !EmailShape(form.email)
    ensures errors.message.Some? <==> Words(form.message, 0) < MinWords
    ensures errors.name.Some? ==> errors.name.value == Required
    ensures errors.subject.Some? ==> errors.subject.value == Required
    ensures errors.email.Some? ==> errors.email.value == (if AllSpace(form.email) then Required else InvalidEmail)
    ensures errors.message.Some? ==>
      errors.message.value == (if Words(form.message, 0) == 0 then Required else TooFewWords)
    ensures proceed <==> errors == NoErrors
  {
    errors := NoErrors;
    var hasErrors := false;

    if Trim(form.name) == "" {
      errors := errors.(name := Some(Required));
      hasErrors := true;
    }

    var emailError := EmailError(form.email);
    if emailError.Some? {
      errors := errors.(email := emailError);
      hasErrors := true;
    }

    if Trim(form.subject) == "" {
      errors := errors.(subject := Some(Required));
      hasErrors := true;
    }

    var messageError := MessageError(form.message);
    if messageError.Some? {
      errors := errors.(message := messageError);
      hasErrors := true;
    }

    proceed := !hasErrors;
  }
}
