/** The page component (App.tsx) as a state machine over its state hooks. Each
    event handler is a method; `handleSimplify` is split at its `await` into
    `HandleSimplify`, which runs up to the service call, and `SettleSimplify`,
    which runs when the call settles. */
module App {
  import opened Wrappers
  import opened Constants
  import opened Types
  import opened RateLimiting
  import opened GeminiService

  const OFFLINE: string := "You are currently offline. Please check your internet connection."
  const TEXT_TOO_SHORT: string := "Text is too short. Please enter at least 10 characters."
  const TEXT_TOO_LONG: string := "Text exceeds maximum limit of 3000 characters."
  const UNEXPECTED: string := "An unexpected error occurred."

  /** The content of the error alert: a message, or the rate-limit message with
      its number of seconds to wait. */
  datatype Notice = Message(text: string) | RateLimited(seconds: int)

  /** JavaScript truthiness of the alert's string. */
  predicate Shown(n: Notice) {
    n.RateLimited? || n.text != ""
  }

  /** `Math.ceil(ms / 1000)`. */
  function WaitSeconds(ms: int): (s: int)
    ensures (s - 1) * 1000 < ms <= s * 1000
  {
    (ms + 999) / 1000
  }

  /** The message of a failed service call: `err.message || UNEXPECTED`. */
  function FailureText(message: string): (t: string)
    ensures t != ""
    ensures message != "" ==> t == message
    ensures message == "" ==> t == UNEXPECTED
  {
    if message == "" then UNEXPECTED else message
  }

  /** The raw-length gate of `handleSimplify`, on the untrimmed text. */
  predicate RawLengthOk(text: string) {
    MIN_INPUT_LENGTH <= |text| <= MAX_INPUT_LENGTH
  }

  /** A refused request waits between 1 and 60 seconds: the notice is never
      "wait 0 seconds" and never longer than the window. */
  lemma DenialNoticeSeconds(ts: seq<int>, now: int)
    requires NotAfter(ts, now)
    requires !Step(ts, now).admitted
    ensures 1 <= WaitSeconds(RemainingTime(Step(ts, now).log, now)) <= RATE_LIMIT_WINDOW_MS / 1000
  {
    DenialWait(ts, now);
  }

  /** Leading whitespace counts toward the raw-length gate but not toward the
      service's trimmed-length check: such a text takes a rate-limit slot and is
      then refused by the service as too short. */
  lemma PaddingPassesRawGate(core: string, pad: nat, hasApiKey: bool, outcome: ServiceOutcome)
    requires |core| < MIN_INPUT_LENGTH <= pad + |core| <= MAX_INPUT_LENGTH
    ensures RawLengthOk(seq(pad, _ => ' ') + core)
    ensures hasApiKey ==> SimplifyLegalText(hasApiKey, seq(pad, _ => ' ') + core, outcome) == Err(RejectionMessage(TooShort))
  {
    var input := seq(pad, _ => ' ') + core;
    TrimDropsPadding(input, pad);
    FirstFailingGuardDecides(input);
  }

  class App {
    var inputText: string
    var status: TranslationStatus
    var result: Option<SimplificationResponse>
    var errorMsg: Option<Notice>
    var feedbackGiven: bool
    /** The module-wide rate limiter. */
    const limiter: RateLimiter

    /** The combinations of state every handler keeps. */
    ghost predicate Valid()
      reads this, limiter
    {
      && limiter.Valid()
      && (status == Error ==> errorMsg.Some?)
      && (status == Success ==> result.Some?)
      && (status == Loading ==> result.None? && errorMsg.None?)
      && (status == Idle ==> errorMsg.None?)
      && (errorMsg.Some? ==> Shown(errorMsg.value))
    }

    constructor (limiter: RateLimiter)
      requires limiter.Valid()
      ensures Valid()
      ensures this.limiter == limiter
      ensures inputText == "" && status == Idle && result == None && errorMsg == None && !feedbackGiven
    {
      this.limiter := limiter;
      inputText := "";
      status := Idle;
      result := None;
      errorMsg := None;
      feedbackGiven := false;
    }

    /** `handleInputChange`: store the text; typing dismisses a shown error. */
    method HandleInputChange(value: string)
      requires Valid()
      modifies this
      ensures Valid()
      ensures inputText == value
      ensures result == old(result) && feedbackGiven == old(feedbackGiven)
      ensures old(status) == Error ==> status == Idle && errorMsg == None
      ensures old(status) != Error ==> status == old(status) && errorMsg == old(errorMsg)
    {
      inputText := value;
      // an alert string is never empty (Valid), so this is the source's truthiness test
      if errorMsg.Some? && status == Error {
        errorMsg := None;
        status := Idle;
      }
    }

    /** `handleFeedback`: record that feedback was given, whichever way. */
    method HandleFeedback(up: bool)
      requires Valid()
      modifies this
      ensures Valid()
      ensures feedbackGiven
      ensures inputText == old(inputText) && status == old(status)
      ensures result == old(result) && errorMsg == old(errorMsg)
    {
      feedbackGiven := true;
    }

    /** `handleSimplify` up to its `await`, at instant `now`. It refuses when
        offline, then on the untrimmed length, then when the limiter denies; the
        first two refusals leave the limiter untouched. When all pass, it enters
        `Loading` and returns the text to send to the service. */
    method HandleSimplify(isOnline: bool, now: int) returns (request: Option<string>)
      requires Valid()
      modifies this, limiter
      ensures Valid()
      ensures inputText == old(inputText)
      // offline or a raw length out of range: refused without touching the limiter
      ensures !isOnline ==>
                && request == None && errorMsg == Some(Message(OFFLINE)) && status == Error
                && result == old(result) && feedbackGiven == old(feedbackGiven)
                && limiter.timestamps == old(limiter.timestamps)
      ensures isOnline && |inputText| < MIN_INPUT_LENGTH ==>
                && request == None && errorMsg == Some(Message(TEXT_TOO_SHORT)) && status == Error
                && result == old(result) && feedbackGiven == old(feedbackGiven)
                && limiter.timestamps == old(limiter.timestamps)
      ensures isOnline && |inputText| > MAX_INPUT_LENGTH ==>
                && request == None && errorMsg == Some(Message(TEXT_TOO_LONG)) && status == Error
                && result == old(result) && feedbackGiven == old(feedbackGiven)
                && limiter.timestamps == old(limiter.timestamps)
      // otherwise the limiter decides, and its log moves on either way
      ensures isOnline && RawLengthOk(inputText) ==>
                && limiter.timestamps == Step(old(limiter.timestamps), now).log
                && (request.Some? <==> Step(old(limiter.timestamps), now).admitted)
      ensures isOnline && RawLengthOk(inputText) && request.None? ==>
                && errorMsg == Some(RateLimited(WaitSeconds(RemainingTime(limiter.timestamps, now))))
                && status == Error && result == old(result) && feedbackGiven == old(feedbackGiven)
      ensures request.Some? ==>
                && request.value == inputText
                && status == Loading && errorMsg == None && result == None && !feedbackGiven
    {
      if !isOnline {
        errorMsg := Some(Message(OFFLINE));
        status := Error;
        return None;
      }
      if |inputText| < MIN_INPUT_LENGTH {
        errorMsg := Some(Message(TEXT_TOO_SHORT));
        status := Error;
        return None;
      }
      if |inputText| > MAX_INPUT_LENGTH {
        errorMsg := Some(Message(TEXT_TOO_LONG));
        status := Error;
        return None;
      }
      var admitted := limiter.CheckLimit(now);
      if !admitted {
        var ms := limiter.GetRemainingTime(now);
        errorMsg := Some(RateLimited(WaitSeconds(ms)));
        status := Error;
        return None;
      }
      status := Loading;
      errorMsg := None;
      result := None;
      feedbackGiven := false;
      return Some(inputText);
    }

    /** The rest of `handleSimplify`, when the service call settles with
        `outcome`. */
    method SettleSimplify(outcome: Result<SimplificationResponse, string>)
      requires Valid()
      modifies this
      ensures Valid()
      ensures inputText == old(inputText) && feedbackGiven == old(feedbackGiven)
      ensures outcome.Ok? ==>
                status == Success && result == Some(outcome.value) && errorMsg == old(errorMsg)
      ensures outcome.Err? ==>
                status == Error && errorMsg == Some(Message(FailureText(outcome.error))) && result == old(result)
    {
      match outcome
      case Ok(response) =>
        result := Some(response);
        status := Success;
      case Err(message) =>
        errorMsg := Some(Message(FailureText(message)));
        status := Error;
    }

    /** One uninterrupted run of `handleSimplify` against the service model:
        the admitted text goes to `simplifyLegalText` and its result settles the
        page. */
    method Simplify(isOnline: bool, now: int, hasApiKey: bool, service: ServiceOutcome)
      requires Valid()
      modifies this, limiter
      ensures Valid()
      ensures inputText == old(inputText)
      ensures limiter.timestamps ==
                if isOnline && RawLengthOk(inputText) then Step(old(limiter.timestamps), now).log
                else old(limiter.timestamps)
      ensures isOnline && RawLengthOk(inputText) && Step(old(limiter.timestamps), now).admitted ==>
                var r := SimplifyLegalText(hasApiKey, inputText, service);
                && !feedbackGiven
                && (r.Ok? ==> status == Success && result == Some(r.value) && errorMsg == None)
                && (r.Err? ==> status == Error && result == None && errorMsg == Some(Message(FailureText(r.error))))
      // a refused request leaves the page in error with its result and feedback
      ensures !(isOnline && RawLengthOk(inputText) && Step(old(limiter.timestamps), now).admitted) ==>
                && status == Error && errorMsg.Some?
                && result == old(result) && feedbackGiven == old(feedbackGiven)
    {
      var request := HandleSimplify(isOnline, now);
      if request.Some? {
        SettleSimplify(SimplifyLegalText(hasApiKey, request.value, service));
      }
    }
  }
}
