/** The client of the text-simplification service (services/geminiService.ts):
    the input guard `validateInput`, and `simplifyLegalText` around a remote call
    that is not modelled; its outcome is a parameter. */
module GeminiService {
  import opened Wrappers
  import opened Strings
  import opened Constants
  import opened Types
  import opened DisallowedPatterns

  /** The characters `String.prototype.trim` removes: the ECMAScript WhiteSpace
      and LineTerminator code points. */
  predicate IsWhitespace(c: char) {
    var n := c as int;
    || 0x09 <= n <= 0x0D
    || n == 0x20 || n == 0xA0 || n == 0x1680
    || 0x2000 <= n <= 0x200A
    || n == 0x2028 || n == 0x2029 || n == 0x202F || n == 0x205F || n == 0x3000 || n == 0xFEFF
  }

  /** `s` with its leading whitespace removed: the longest suffix of `s` that does
      not start with whitespace. */
  function TrimStart(s: string): (r: string)
    ensures |r| <= |s| && r == s[|s| - |r|..]
    ensures forall k | 0 <= k < |s| - |r| :: IsWhitespace(s[k])
    ensures r != [] ==> !IsWhitespace(r[0])
    decreases |s|
  {
    if s != [] && IsWhitespace(s[0]) then TrimStart(s[1..]) else s
  }

  /** `s` with its trailing whitespace removed: the longest prefix of `s` that
      does not end with whitespace. */
  function TrimEnd(s: string): (r: string)
    ensures |r| <= |s| && r == s[..|r|]
    ensures forall k | |r| <= k < |s| :: IsWhitespace(s[k])
    ensures r != [] ==> !IsWhitespace(r[|r| - 1])
    decreases |s|
  {
    if s != [] && IsWhitespace(s[|s| - 1]) then TrimEnd(s[..|s| - 1]) else s
  }

  /** `r` is the slice of `s` starting at `i` and only whitespace lies around it. */
  predicate SliceWithin(s: string, r: string, i: int) {
    && 0 <= i && i + |r| <= |s|
    && r == s[i..i + |r|]
    && (forall k | 0 <= k < i :: IsWhitespace(s[k]))
    && (forall k | i + |r| <= k < |s| :: IsWhitespace(s[k]))
  }

  /** `input.trim()`: `s` without whitespace at either end. */
  function Trim(s: string): (r: string)
    ensures exists i | 0 <= i <= |s| :: SliceWithin(s, r, i)
    ensures r != [] ==> !IsWhitespace(r[0]) && !IsWhitespace(r[|r| - 1])
  {
    var front := TrimStart(s);
    var r := TrimEnd(front);
    assert SliceWithin(s, r, |s| - |front|);
    r
  }

  /** Text without whitespace at either end is its own trim. */
  lemma TrimKeepsTrimmed(s: string)
    requires s != [] ==> !IsWhitespace(s[0]) && !IsWhitespace(s[|s| - 1])
    ensures Trim(s) == s
  {
  }

  /** Trimming is idempotent. */
  lemma TrimIdempotent(s: string)
    ensures Trim(Trim(s)) == Trim(s)
  {
    TrimKeepsTrimmed(Trim(s));
  }

  /** Leading whitespace never counts towards the trimmed length. */
  lemma TrimDropsPadding(s: string, k: nat)
    requires k <= |s| && forall m | 0 <= m < k :: IsWhitespace(s[m])
    ensures |Trim(s)| <= |s| - k
  {
    var front := TrimStart(s);
    if front != [] {
      assert front[0] == s[|s| - |front|];
    }
  }

  /** Why `validateInput` refuses a text. */
  datatype Rejection = InvalidInput | TooShort | TooLong | DisallowedContent

  /** The message of the `Error` thrown for each rejection. */
  function RejectionMessage(reason: Rejection): string {
    match reason
    case InvalidInput => "Invalid input provided."
    case TooShort => "Input is too short (minimum 10 characters)."
    case TooLong => "Input exceeds maximum length of 3000 characters."
    case DisallowedContent => "Input contains disallowed characters or patterns."
  }

  /** `validateInput`: fail-fast guards on the text, in the order emptiness,
      trimmed length below the minimum, trimmed length above the maximum, then the
      disallowed patterns; an accepted text is returned trimmed. */
  function ValidateInput(input: string): (r: Result<string, Rejection>)
    ensures input == "" ==> r == Err(InvalidInput)
    ensures r.Ok? ==> r.value == Trim(input)
    ensures r.Ok? ==> MIN_INPUT_LENGTH <= |r.value| <= MAX_INPUT_LENGTH && !Disallowed(r.value)
    ensures r.Ok? <==> input != "" && MIN_INPUT_LENGTH <= |Trim(input)| <= MAX_INPUT_LENGTH && !Disallowed(Trim(input))
  {
    if input == "" then Err(InvalidInput)
    else
      var clean := Trim(input);
      if |clean| < MIN_INPUT_LENGTH then Err(TooShort)
      else if |clean| > MAX_INPUT_LENGTH then Err(TooLong)
      else if Disallowed(clean) then Err(DisallowedContent)
      else Ok(clean)
  }

  /** The first guard that fails decides the reason: each reason is reported
      exactly when its own guard fails and every earlier guard passes. */
  lemma FirstFailingGuardDecides(input: string)
    ensures ValidateInput(input) == Err(TooShort) <==>
              input != "" && |Trim(input)| < MIN_INPUT_LENGTH
    ensures ValidateInput(input) == Err(TooLong) <==>
              input != "" && |Trim(input)| > MAX_INPUT_LENGTH
    ensures ValidateInput(input) == Err(DisallowedContent) <==>
              input != "" && MIN_INPUT_LENGTH <= |Trim(input)| <= MAX_INPUT_LENGTH && Disallowed(Trim(input))
  {
  }

  /** An accepted text is accepted again unchanged: validation is a normalisation. */
  lemma ValidateIdempotent(input: string)
    requires ValidateInput(input).Ok?
    ensures ValidateInput(ValidateInput(input).value) == ValidateInput(input)
  {
    TrimIdempotent(input);
  }

  /** A text holding a script element is refused whatever surrounds it: as too
      long if its trimmed length exceeds the maximum, and for its content otherwise. */
  lemma ScriptInjectionRefused(input: string, i: int)
    requires OccursAt(Trim(input), "<script>alert(1)</script>", i)
    ensures ValidateInput(input).Err?
    ensures |Trim(input)| <= MAX_INPUT_LENGTH ==> ValidateInput(input) == Err(DisallowedContent)
  {
    ScriptElementCaught(Trim(input), i);
  }

  /** A plain sentence of fifty characters. */
  const PLAIN_SENTENCE: string := "The tenant pays the rent " + "on the first of the month"

  /** The plain sentence is accepted and returned as it is. */
  lemma PlainSentenceAccepted()
    ensures ValidateInput(PLAIN_SENTENCE) == Ok(PLAIN_SENTENCE)
  {
    NoneOfConcat("The tenant pays the rent ", "on the first of the month", {'>', ':', '='});
    PlainTextAllowed(PLAIN_SENTENCE);
    TrimKeepsTrimmed(PLAIN_SENTENCE);
  }

  /** The messages `simplifyLegalText` can fail with besides the rejections. */
  const KEY_MISSING := "API Key is missing. Please configure the environment."
  const EMPTY_RESPONSE := "Empty response from AI"
  const GENERIC_FAILURE: string :=
    "Failed to simplify text. " +
    "The system might be overloaded " +
    "or the text was invalid."

  /** The catch block of `simplifyLegalText`: an error raised inside the `try` is
      rethrown unchanged when its message mentions "Input" or "Key", and replaced
      by the generic failure otherwise. */
  function ClassifyError(message: string): (r: string)
    ensures r == message || r == GENERIC_FAILURE
    ensures r == message <== Contains(message, "Input") || Contains(message, "Key")
    ensures !Contains(message, "Input") && !Contains(message, "Key") ==> r == GENERIC_FAILURE
  {
    if Contains(message, "Input") || Contains(message, "Key") then message else GENERIC_FAILURE
  }

  /** The generic failure is itself left alone by the classification, so
      classifying twice is classifying once. */
  lemma ClassifyIdempotent(message: string)
    ensures ClassifyError(ClassifyError(message)) == ClassifyError(message)
  {
    var head, tail := "Failed to simplify text. ", "The system might be overloaded ";
    NoneOfConcat(head, tail, {'I', 'K'});
    NoneOfConcat(head + tail, "or the text was invalid.", {'I', 'K'});
    NotContainsWithoutHead(GENERIC_FAILURE, "Input");
    NotContainsWithoutHead(GENERIC_FAILURE, "Key");
  }

  /** An empty reply from the service surfaces as the generic failure. */
  lemma EmptyReplyIsGeneric()
    ensures ClassifyError(EMPTY_RESPONSE) == GENERIC_FAILURE
  {
    NotContainsWithoutHead(EMPTY_RESPONSE, "Input");
    NotContainsWithoutHead(EMPTY_RESPONSE, "Key");
  }

  /** What the remote call inside the `try` produced: a parsed reply, whose
      `keyPoints` may be absent; a reply without text; or a raised error. */
  datatype ServiceOutcome =
    | Parsed(simplified: string, keyPoints: Option<seq<string>>)
    | EmptyText
    | Raised(message: string)

  /** `simplifyLegalText`: the API key guard and `validateInput` run before the
      `try`, so their errors propagate as they are; the outcome of the remote
      call is then turned into a result or classified. */
  function SimplifyLegalText(hasApiKey: bool, text: string, outcome: ServiceOutcome): (r: Result<SimplificationResponse, string>)
    ensures !hasApiKey ==> r == Err(KEY_MISSING)
    ensures hasApiKey && ValidateInput(text).Err? ==> r == Err(RejectionMessage(ValidateInput(text).error))
    ensures r.Ok? ==> hasApiKey && ValidateInput(text) == Ok(r.value.original) && outcome.Parsed?
    ensures r.Ok? ==> r.value.simplified == outcome.simplified && r.value.keyPoints == outcome.keyPoints.GetOr([])
    ensures hasApiKey && ValidateInput(text).Ok? && outcome.Parsed? ==> r.Ok?
    ensures hasApiKey && ValidateInput(text).Ok? && outcome.EmptyText? ==> r == Err(GENERIC_FAILURE)
    ensures hasApiKey && ValidateInput(text).Ok? && outcome.Raised? ==> r == Err(ClassifyError(outcome.message))
  {
    if !hasApiKey then Err(KEY_MISSING)
    else
      match ValidateInput(text)
      case Err(reason) => Err(RejectionMessage(reason))
      case Ok(clean) =>
        match outcome
        case Parsed(simplified, keyPoints) =>
          Ok(SimplificationResponse(clean, simplified, keyPoints.GetOr([])))
        case EmptyText =>
          EmptyReplyIsGeneric();
          Err(ClassifyError(EMPTY_RESPONSE))
        case Raised(message) => Err(ClassifyError(message))
  }
}
