/**
 * The chat execution state machine of contexts/ChatContext.tsx: `execReducer`,
 * a guarded transition function over an `ExecStateData` record, and the pure
 * helpers beside it (tier budgets, token estimate, conversation title,
 * semantic stop detection).
 */
module ChatExec {
  import opened Wrappers
  import JsString

  datatype ExecState =
    | Idle | Validating | Routing | Preflight | Tooling | Streaming | Stalled
    | Retrying | Finalizing | Limited | Error | Cancelled | Done

  /** An LLM error category is kept as its name. */
  type ErrorCategory = string

  datatype ExecAction =
    | StartValidation(requestId: string)
    | BeginRouting
    | BeginPreflight
    | StartStreaming
    | TokenReceived(token: string, estimatedTokens: int)
    | MarkStalled
    | ResumeStreaming
    | Retry
    | Complete(reason: Option<string>)
    | Fail(error: string, category: Option<ErrorCategory>)
    | Cancel
    | HitLimit
    | Reset

  datatype ExecStateData = ExecStateData(
    state: ExecState,
    requestId: Option<string>,
    error: Option<string>,
    errorCategory: Option<ErrorCategory>,
    tokenCount: int,
    charCount: int,
    tokenBudget: int,
    charBudget: int)

  /** The states a new request may start from. */
  predicate Resting(st: ExecState) {
    st in {Idle, Done, Error, Limited, Cancelled}
  }

  /** The record the provider starts with. */
  function Initial(tokenBudget: int, charBudget: int): ExecStateData {
    ExecStateData(Idle, None, None, None, 0, 0, tokenBudget, charBudget)
  }

  /** `execReducer`. Each case checks the current state against its own list, as the source does. */
  function ExecReducer(s: ExecStateData, a: ExecAction): (r: ExecStateData)
    ensures r.tokenBudget == s.tokenBudget && r.charBudget == s.charBudget
    ensures s.state !in AllowedFrom(a) ==> r == s
    ensures s.state in AllowedFrom(a) ==> r.state == Target(a)
  {
    match a
    case StartValidation(id) =>
      if s.state !in [Idle, Done, Error, Limited, Cancelled] then s
      else s.(state := Validating, requestId := Some(id), error := None, errorCategory := None,
               tokenCount := 0, charCount := 0)
    case BeginRouting =>
      if s.state !in [Validating] then s else s.(state := Routing)
    case BeginPreflight =>
      if s.state !in [Routing] then s else s.(state := Preflight)
    case StartStreaming =>
      if s.state !in [Preflight, Tooling, Retrying] then s else s.(state := Streaming)
    case TokenReceived(token, estimated) =>
      if s.state !in [Streaming] then s
      else
        var newTokenCount := s.tokenCount + estimated;
        var newCharCount := s.charCount + |token|;
        // the 95% budget check returns the same record as the fall-through
        if newTokenCount as real > s.tokenBudget as real * 0.95 then
          s.(tokenCount := newTokenCount, charCount := newCharCount)
        else
          s.(tokenCount := newTokenCount, charCount := newCharCount)
    case MarkStalled =>
      if s.state !in [Streaming] then s else s.(state := Stalled)
    case ResumeStreaming =>
      if s.state !in [Stalled] then s else s.(state := Streaming)
    case Retry =>
      if s.state !in [Stalled, Error] then s
      else s.(state := Retrying, error := None, errorCategory := None)
    case Complete(_) =>
      if s.state !in [Streaming, Stalled] then s
      else s.(state := Done, requestId := None)
    case Fail(err, category) =>
      if s.state !in [Validating, Routing, Preflight, Tooling, Streaming, Stalled, Retrying] then s
      else s.(state := Error, error := Some(err), errorCategory := category, requestId := None)
    case Cancel =>
      if s.state !in [Validating, Routing, Preflight, Tooling, Streaming, Stalled, Retrying] then s
      else s.(state := Cancelled, requestId := None)
    case HitLimit =>
      if s.state !in [Validating, Preflight, Streaming, Stalled] then s
      else s.(state := Limited, requestId := None)
    case Reset =>
      ResetAllowedEverywhere(s.state);
      s.(state := Idle, requestId := None, error := None, errorCategory := None,
         tokenCount := 0, charCount := 0)
  }

  /** The transition table: from which states each action is accepted. */
  function AllowedFrom(a: ExecAction): set<ExecState> {
    match a
    case StartValidation(_) => {Idle, Done, Error, Limited, Cancelled}
    case BeginRouting => {Validating}
    case BeginPreflight => {Routing}
    case StartStreaming => {Preflight, Tooling, Retrying}
    case TokenReceived(_, _) => {Streaming}
    case MarkStalled => {Streaming}
    case ResumeStreaming => {Stalled}
    case Retry => {Stalled, Error}
    case Complete(_) => {Streaming, Stalled}
    case Fail(_, _) => {Validating, Routing, Preflight, Tooling, Streaming, Stalled, Retrying}
    case Cancel => {Validating, Routing, Preflight, Tooling, Streaming, Stalled, Retrying}
    case HitLimit => {Validating, Preflight, Streaming, Stalled}
    case Reset => {Idle, Validating, Routing, Preflight, Tooling, Streaming, Stalled,
                   Retrying, Finalizing, Limited, Error, Cancelled, Done}
  }

  lemma ResetAllowedEverywhere(st: ExecState)
    ensures st in AllowedFrom(Reset)
  {
    match st
    case Idle => case Validating => case Routing => case Preflight => case Tooling =>
    case Streaming => case Stalled => case Retrying => case Finalizing => case Limited =>
    case Error => case Cancelled => case Done =>
  }

  /** The state an accepted action leads to. */
  function Target(a: ExecAction): ExecState {
    match a
    case StartValidation(_) => Validating
    case BeginRouting => Routing
    case BeginPreflight => Preflight
    case StartStreaming => Streaming
    case TokenReceived(_, _) => Streaming
    case MarkStalled => Stalled
    case ResumeStreaming => Streaming
    case Retry => Retrying
    case Complete(_) => Done
    case Fail(_, _) => Error
    case Cancel => Cancelled
    case HitLimit => Limited
    case Reset => Idle
  }

  /** START_VALIDATION is accepted exactly from the resting states and opens a fresh request. */
  lemma StartValidationEffect(s: ExecStateData, id: string)
    ensures var r := ExecReducer(s, StartValidation(id));
      if Resting(s.state) then
        r == s.(state := Validating, requestId := Some(id), error := None, errorCategory := None,
                tokenCount := 0, charCount := 0)
      else r == s
  {
  }

  /** TOKEN_RECEIVED only counts, and only while streaming; it never leaves streaming, even past 95% of the budget. */
  lemma TokenReceivedEffect(s: ExecStateData, token: string, estimated: int)
    ensures var r := ExecReducer(s, TokenReceived(token, estimated));
      if s.state == Streaming then
        r == s.(tokenCount := s.tokenCount + estimated, charCount := s.charCount + |token|)
        && r.state == Streaming
      else r == s
  {
  }

  /** COMPLETE, FAIL, CANCEL and HIT_LIMIT end the request; FAIL keeps the message and the category (or none). */
  lemma EndingActionsClearRequest(s: ExecStateData, a: ExecAction)
    requires a.Complete? || a.Fail? || a.Cancel? || a.HitLimit?
    requires s.state in AllowedFrom(a)
    ensures ExecReducer(s, a).requestId == None
    ensures a.Fail? ==> ExecReducer(s, a).error == Some(a.error)
                        && ExecReducer(s, a).errorCategory == a.category
    ensures !a.Fail? ==> ExecReducer(s, a).error == s.error
                         && ExecReducer(s, a).errorCategory == s.errorCategory
    ensures ExecReducer(s, a).tokenCount == s.tokenCount && ExecReducer(s, a).charCount == s.charCount
  {
  }

  /** BEGIN_ROUTING, BEGIN_PREFLIGHT, START_STREAMING, MARK_STALLED and RESUME_STREAMING
      change the state and nothing else. */
  lemma StateOnlyEffect(s: ExecStateData, a: ExecAction)
    requires a.BeginRouting? || a.BeginPreflight? || a.StartStreaming? || a.MarkStalled? || a.ResumeStreaming?
    ensures var r := ExecReducer(s, a);
      if s.state in AllowedFrom(a) then r == s.(state := Target(a)) else r == s
  {
  }

  /** RETRY, from stalled or error, moves to retrying and clears the error and its category;
      the request and the counts are kept. */
  lemma RetryEffect(s: ExecStateData)
    ensures var r := ExecReducer(s, Retry);
      if s.state == Stalled || s.state == Error then
        r == s.(state := Retrying, error := None, errorCategory := None)
      else r == s
  {
  }

  /** RESET from any state gives the initial record with the budgets kept. */
  lemma ResetEffect(s: ExecStateData)
    ensures ExecReducer(s, Reset) == Initial(s.tokenBudget, s.charBudget)
  {
  }

  /** The invariant: at rest there is no open request. */
  predicate NoRequestAtRest(s: ExecStateData) {
    Resting(s.state) ==> s.requestId == None
  }

  /** Every action keeps the invariant. */
  lemma StepKeepsNoRequestAtRest(s: ExecStateData, a: ExecAction)
    requires NoRequestAtRest(s)
    ensures NoRequestAtRest(ExecReducer(s, a))
  {
  }

  /** The record after a sequence of dispatched actions. */
  function Run(s: ExecStateData, actions: seq<ExecAction>): ExecStateData
    decreases |actions|
  {
    if actions == [] then s else Run(ExecReducer(s, actions[0]), actions[1..])
  }

  /** From the initial record: the budgets never change, at rest there is no open request,
      and `tooling` and `finalizing` are never reached, since no action leads there. */
  lemma {:induction false} RunFromInitial(tokenBudget: int, charBudget: int, actions: seq<ExecAction>)
    ensures var r := Run(Initial(tokenBudget, charBudget), actions);
      && r.tokenBudget == tokenBudget && r.charBudget == charBudget
      && NoRequestAtRest(r)
      && r.state != Tooling && r.state != Finalizing
  {
    RunKeeps(Initial(tokenBudget, charBudget), actions);
  }

  lemma {:induction false} RunKeeps(s: ExecStateData, actions: seq<ExecAction>)
    requires NoRequestAtRest(s) && s.state != Tooling && s.state != Finalizing
    ensures var r := Run(s, actions);
      && r.tokenBudget == s.tokenBudget && r.charBudget == s.charBudget
      && NoRequestAtRest(r)
      && r.state != Tooling && r.state != Finalizing
    decreases |actions|
  {
    if actions != [] {
      var next := ExecReducer(s, actions[0]);
      StepKeepsNoRequestAtRest(s, actions[0]);
      RunKeeps(next, actions[1..]);
    }
  }

  // ---------------------------------------------------------------------------
  // Helpers.

  /** `getTokenBudget`: free (or none) 10000, plus/paid 100000, super 500000, anything else 10000. */
  function GetTokenBudget(subscription: Option<string>): (r: int)
    ensures r == 100000 <==> subscription == Some("plus") || subscription == Some("paid")
    ensures r == 500000 <==> subscription == Some("super")
    ensures r == 10000 || r == 100000 || r == 500000
  {
    if !JsString.Truthy(subscription) || subscription.value == "free" then 10000
    else if subscription.value == "plus" || subscription.value == "paid" then 100000
    else if subscription.value == "super" then 500000
    else 10000
  }

  /** `getCharBudget`: the same tiers, 1500 / 6000 / 12000 characters. */
  function GetCharBudget(subscription: Option<string>): (r: int)
    ensures r == 6000 <==> subscription == Some("plus") || subscription == Some("paid")
    ensures r == 12000 <==> subscription == Some("super")
    ensures r == 1500 || r == 6000 || r == 12000
  {
    if !JsString.Truthy(subscription) || subscription.value == "free" then 1500
    else if subscription.value == "plus" || subscription.value == "paid" then 6000
    else if subscription.value == "super" then 12000
    else 1500
  }

  /** The two budget helpers put every subscription in the same tier. */
  lemma BudgetsAgreeOnTier(subscription: Option<string>)
    ensures GetTokenBudget(subscription) == 10000 <==> GetCharBudget(subscription) == 1500
    ensures GetTokenBudget(subscription) == 100000 <==> GetCharBudget(subscription) == 6000
    ensures GetTokenBudget(subscription) == 500000 <==> GetCharBudget(subscription) == 12000
  {
  }

  /** `estimateTokenCount`: `Math.ceil(length / 4)`. */
  function EstimateTokenCount(text: string): (r: nat)
    ensures 4 * r >= |text| && 4 * r < |text| + 4
  {
    (|text| + 3) / 4
  }

  const TitleLength: nat := 48
  const Ellipsis: char := '\U{2026}'

  /** `generateTitleFromText`. */
  function GenerateTitleFromText(text: string): string {
    var trimmed := JsString.Trim(text);
    if trimmed == "" then "Untitled"
    else JsString.Slice(trimmed, 0, TitleLength) + (if |trimmed| > TitleLength then [Ellipsis] else "")
  }

  /** Blank text is "Untitled"; a short trimmed text is kept whole; a long one is cut to 48 characters and marked with an ellipsis. */
  lemma TitleSpec(text: string)
    ensures var t := JsString.Trim(text); var r := GenerateTitleFromText(text);
      && (t == "" ==> r == "Untitled")
      && (t != "" && |t| <= TitleLength ==> r == t)
      && (|t| > TitleLength ==> r == t[..TitleLength] + [Ellipsis])
      && |r| <= TitleLength + 1
  {
  }

  predicate IsSentencePunct(c: char) {
    c == '.' || c == '!' || c == '?'
  }

  /** `/[.!?]\s*$/.test(t)`: the last character that is not white space ends a sentence. */
  predicate HasSentenceEnding(t: string) {
    var u := JsString.TrimEnd(t);
    u != [] && IsSentencePunct(u[|u| - 1])
  }

  /** `/```\s*$/.test(t)`. */
  predicate HasCodeFenceClosure(t: string) {
    JsString.EndsWith(JsString.TrimEnd(t), "```")
  }

  /** The number of matches of `/[.!?]\s+/g`: sentence punctuation followed by white space. */
  function SentenceCount(t: string): nat
    decreases |t|
  {
    if |t| < 2 then 0
    else (if IsSentencePunct(t[0]) && JsString.IsJsSpace(t[1]) then 1 else 0) + SentenceCount(t[1..])
  }

  /** `detectSemanticStop`. */
  function DetectSemanticStop(text: string, tokenCount: int): bool {
    if text == "" || |text| < 50 then false
    else
      var trimmed := JsString.Trim(text);
      var hasSentenceEnding := HasSentenceEnding(trimmed);
      var hasCodeFenceClosure := HasCodeFenceClosure(trimmed);
      var sentenceCount := SentenceCount(trimmed);
      if hasCodeFenceClosure then true
      else if tokenCount > 2000 && hasSentenceEnding then true
      else if sentenceCount >= 3 && hasSentenceEnding && tokenCount > 100 then true
      else false
  }

  /** A stop is never detected in fewer than 50 characters, is only detected after a sentence end or a closing fence,
      and once detected stays detected as the token count grows. */
  lemma SemanticStopSpec(text: string, tokenCount: int, more: int)
    requires tokenCount <= more
    ensures |text| < 50 ==> !DetectSemanticStop(text, tokenCount)
    ensures DetectSemanticStop(text, tokenCount) ==>
      var t := JsString.Trim(text);
      t != [] && (IsSentencePunct(t[|t| - 1]) || JsString.EndsWith(t, "```"))
    ensures DetectSemanticStop(text, tokenCount) ==> DetectSemanticStop(text, more)
  {
    var t := JsString.Trim(text);
    JsString.TrimSpec(text);
    if t != [] {
      assert JsString.TrimEnd(t) == t;
    }
  }
}
