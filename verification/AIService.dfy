/** The legacy single-provider service of `src/lib/services/AIService.ts`: a
    GitHub Models client with a fixed endpoint and model, a prompt without the
    language instruction, a `catch` that only wraps, and a reconciliation that
    drops the studies count and keeps no metadata. It is modelled beside the
    adapters so that every difference is stated against them. */
module AIService {
  import opened Wrappers
  import opened Strings
  import opened Types
  import opened Reconcile
  import opened Languages
  import opened Prompts
  import opened ProviderErrors
  import opened Providers

  const LegacyBaseUrl := "https://models.github.ai/inference"
  const LegacyModel := "gpt-4.1"
  const MissingKeyError := "AI API key not configured"
  const LegacyNoResponse := "No response from AI service"
  /** One string in the source; split in two so that the proofs can read its
      first character (see `ProviderErrors.FailureMessage`). */
  const LegacyUnknownError := "Unknown error occurred" + " while parsing messages"

  /** A constructed service: the client it built, and the text its own
      `getSystemPrompt` returns. That text is not the shared system prompt
      (for one, it asks for every known publisher to be listed); like the
      shared one it is carried as a value. */
  datatype Service = Service(client: Client, systemPrompt: string)

  /** The constructor: an empty key throws, any other key is accepted.
      `systemPrompt` is the service's fixed `getSystemPrompt` text. */
  function NewService(apiKey: string, systemPrompt: string): (r: Result<Service, string>)
    ensures r.Success? <==> apiKey != ""
    ensures r.Failure? ==> r.error == MissingKeyError
    ensures r.Success? ==> r.value.client == Client(LegacyBaseUrl, apiKey) && r.value.systemPrompt == systemPrompt
  {
    if apiKey == "" then Failure(MissingKeyError) else Success(Service(Client(LegacyBaseUrl, apiKey), systemPrompt))
  }

  /** The legacy user prompt: the framed message text and the framed roster
      names, with no language instruction. */
  function LegacyUserPrompt(toJson: seq<string> -> string, messages: string, publishers: seq<Publisher>): string {
    DataSection(messages) + PublishersSection(toJson(Names(publishers)))
  }

  /** The shared template is the legacy prompt followed by the language
      instruction: whatever the language, the legacy prompt is its prefix. */
  lemma {:induction false} TemplateExtendsLegacy(toJson: seq<string> -> string, messages: string, publishers: seq<Publisher>, language: string)
    ensures CreateUserPrompt(toJson, messages, publishers, language)
         == LegacyUserPrompt(toJson, messages, publishers) + LanguageSection(GetTranslation(language).languageInstruction)
    ensures IsPrefix(LegacyUserPrompt(toJson, messages, publishers), CreateUserPrompt(toJson, messages, publishers, language))
  {
    var legacy := LegacyUserPrompt(toJson, messages, publishers);
    var tail := LanguageSection(GetTranslation(language).languageInstruction);
    PrefixOfConcat(legacy, tail);
  }

  /** The request: the system prompt as a first message, temperature 0.1,
      4000 tokens, the fixed model. */
  function LegacyRequest(service: Service, systemPrompt: string, userPrompt: string): Request {
    Request(service.client, LegacyModel, None,
            [ChatMessage(SystemRole, systemPrompt), ChatMessage(UserRole, userPrompt)], Some(0.1), 4000)
  }

  /** It is exactly the request the GitHub Models adapter sends for the same
      prompts and that model. */
  lemma LegacyRequestIsAdapterRequest(service: Service, systemPrompt: string, userPrompt: string)
    ensures LegacyRequest(service, systemPrompt, userPrompt)
         == ParseRequest(GitHubModels, service.client, LegacyModel, PromptPair(systemPrompt, userPrompt))
  {
  }

  /** `!content` throws: absent and empty content are refused. */
  function LegacyExtract(content: Content): (r: Result<string, Thrown>)
    ensures r.Success? ==> content == Text(r.value) && r.value != ""
    ensures r.Failure? ==> r.error == OtherError(LegacyNoResponse)
  {
    match content
    case Text(s) => if s == "" then Failure(OtherError(LegacyNoResponse)) else Success(s)
    case _ => Failure(OtherError(LegacyNoResponse))
  }

  /** It refuses exactly what the GitHub Models adapter refuses. */
  lemma LegacyExtractAgrees(content: Content)
    ensures LegacyExtract(content).Success? <==> ExtractText(GitHubModels, content).Success?
    ensures LegacyExtract(content).Success? ==> LegacyExtract(content).value == ExtractText(GitHubModels, content).value
  {
  }

  // ---------------------------------------------------------------------
  // reconciliation without studies or metadata

  datatype LegacyResult = LegacyResult(newPublishers: seq<Publisher>, reports: seq<Report>)

  datatype LegacyAcc = LegacyAcc(lookup: map<string, Id>, newPublishers: seq<Publisher>, reports: seq<Report>, next: nat)

  /** The legacy report: no `studies` field at all. */
  function LegacyReportFor(c: Candidate, id: Id, pid: Id, now: Timestamp): Report {
    Report(id, pid, Some(c.isActive), c.hours, None, Some(c.comment.GetOr("")), now)
  }

  /** One turn of the legacy `forEach`: same minting rule and id draws as the
      adapters'. */
  function LegacyStep(env: Env, acc: LegacyAcc, c: Candidate): LegacyAcc {
    var key := env.lower(c.name);
    if c.isNew || key !in acc.lookup then
      var pid := env.uuid(acc.next);
      LegacyAcc(acc.lookup[key := pid], acc.newPublishers + [Publisher(pid, c.name, env.now)],
                acc.reports + [LegacyReportFor(c, env.uuid(acc.next + 1), pid, env.now)], acc.next + 2)
    else
      LegacyAcc(acc.lookup, acc.newPublishers,
                acc.reports + [LegacyReportFor(c, env.uuid(acc.next), acc.lookup[key], env.now)], acc.next + 1)
  }

  function LegacyFold(env: Env, existing: seq<Publisher>, cands: seq<Candidate>): LegacyAcc
    decreases |cands|
  {
    if |cands| == 0 then LegacyAcc(BuildLookup(env.lower, existing), [], [], 0)
    else LegacyStep(env, LegacyFold(env, existing, cands[..|cands| - 1]), cands[|cands| - 1])
  }

  /** The legacy `convertAIResponseToParseResult`. */
  function LegacyConvert(env: Env, resp: AIResponse, existing: seq<Publisher>): LegacyResult {
    var acc := LegacyFold(env, existing, resp.reports);
    LegacyResult(acc.newPublishers, acc.reports)
  }

  /** A report with its studies count erased. */
  function WithoutStudies(r: Report): Report {
    r.(studies := None)
  }

  /** The legacy fold runs in lockstep with the adapters': same lookup, same
      minted publishers, same draws, and the same reports up to studies. */
  lemma {:induction false} LegacyFoldLockstep(env: Env, existing: seq<Publisher>, cands: seq<Candidate>)
    ensures var l := LegacyFold(env, existing, cands);
      var a := Fold(env, existing, cands);
      && l.lookup == a.lookup && l.newPublishers == a.newPublishers && l.next == a.next
      && |l.reports| == |a.reports|
      && forall i :: 0 <= i < |l.reports| ==> l.reports[i] == WithoutStudies(a.reports[i])
    decreases |cands|
  {
    if |cands| > 0 {
      var n := |cands| - 1;
      LegacyFoldLockstep(env, existing, cands[..n]);
      FoldLast(env, existing, cands);
      StepLockstep(env, LegacyFold(env, existing, cands[..n]), Fold(env, existing, cands[..n]), cands[n]);
    }
  }

  /** The two accumulators agree up to studies. */
  predicate InLockstep(l: LegacyAcc, a: Acc) {
    && l.lookup == a.lookup && l.newPublishers == a.newPublishers && l.next == a.next
    && |l.reports| == |a.reports|
    && forall i :: 0 <= i < |l.reports| ==> l.reports[i] == WithoutStudies(a.reports[i])
  }

  /** One turn of each loop keeps them in lockstep. */
  lemma StepLockstep(env: Env, l: LegacyAcc, a: Acc, c: Candidate)
    requires InLockstep(l, a)
    ensures InLockstep(LegacyStep(env, l, c), Step(env, a, c))
  {
    var l', a' := LegacyStep(env, l, c), Step(env, a, c);
    assert l'.reports[|l.reports|] == WithoutStudies(a'.reports[|a.reports|]);
  }

  /** The legacy result has the adapters' minted publishers, and its reports
      are theirs with the studies count dropped. */
  lemma LegacyMatchesCore(env: Env, resp: AIResponse, existing: seq<Publisher>)
    ensures var l := LegacyConvert(env, resp, existing);
      var a := Convert(env, resp, existing);
      && l.newPublishers == a.newPublishers
      && |l.reports| == |a.reports|
      && forall i :: 0 <= i < |l.reports| ==> l.reports[i] == WithoutStudies(a.reports[i])
  {
    LegacyFoldLockstep(env, existing, resp.reports);
  }

  // ---------------------------------------------------------------------
  // parseMessages

  /** The `try` block. */
  function LegacyAttempt(deps: Deps, req: Request, publishers: seq<Publisher>): Result<LegacyResult, Thrown> {
    match deps.send(req)
    case Threw(t) => Failure(t)
    case Answered(content) =>
      var text :- LegacyExtract(content);
      var resp :- deps.parse(text);
      Success(LegacyConvert(deps.env, resp, publishers))
  }

  /** The thrown value is an `Error` instance (`error instanceof Error`). */
  predicate IsErrorInstance(t: Thrown) {
    !t.NotAnError? && !t.StatusObject?
  }

  /** The `catch`: every `Error` is wrapped with its own message, whatever
      its class or status; anything else, a plain object with a `status`
      included, is unknown. */
  function LegacyFailureMessage(t: Thrown): (m: string)
    ensures !IsErrorInstance(t) <==> m == LegacyUnknownError
    ensures IsErrorInstance(t) ==> m == WrappedPrefix + t.message && IsPrefix(WrappedPrefix, m)
  {
    if !IsErrorInstance(t) then LegacyUnknownError
    else
      assert (WrappedPrefix + t.message)[0] == 'F' != LegacyUnknownError[0];
      PrefixOfConcat(WrappedPrefix, t.message);
      WrappedPrefix + t.message
  }

  /** `parseMessages(messages, publishers)`, sending the service's own
      system prompt; `deps.prompts` is not consulted. */
  function LegacyParseMessages(service: Service, deps: Deps, messages: string, publishers: seq<Publisher>): (r: Result<LegacyResult, string>)
    ensures r.Failure? ==> r.error == LegacyUnknownError || IsPrefix(WrappedPrefix, r.error)
  {
    var req := LegacySentRequest(service, deps, messages, publishers);
    match LegacyAttempt(deps, req, publishers)
    case Success(result) => Success(result)
    case Failure(t) =>
      Failure(LegacyFailureMessage(t))
  }

  /** The request the legacy service sends: its own system prompt first,
      then the legacy user prompt, whatever prompt service `deps` carries. */
  function LegacySentRequest(service: Service, deps: Deps, messages: string, publishers: seq<Publisher>): (req: Request)
    ensures req.messages == [ChatMessage(SystemRole, service.systemPrompt), ChatMessage(UserRole, LegacyUserPrompt(deps.toJson, messages, publishers))]
    ensures req.client == service.client && req.model == LegacyModel && req.system.None?
  {
    LegacyRequest(service, service.systemPrompt, LegacyUserPrompt(deps.toJson, messages, publishers))
  }

  /** The shared prompt service plays no part in the legacy service: any
      other one gives the same request and the same outcome. */
  lemma LegacyIgnoresPromptService(service: Service, deps: Deps, other: PromptService, messages: string, publishers: seq<Publisher>)
    ensures LegacySentRequest(service, deps.(prompts := other), messages, publishers) == LegacySentRequest(service, deps, messages, publishers)
    ensures LegacyParseMessages(service, deps.(prompts := other), messages, publishers) == LegacyParseMessages(service, deps, messages, publishers)
  {
    assert LegacyAttempt(deps.(prompts := other), LegacySentRequest(service, deps, messages, publishers), publishers)
        == LegacyAttempt(deps, LegacySentRequest(service, deps, messages, publishers), publishers);
  }

  /** Different errors thrown inside the `try` give different messages, so
      the caller can read the original message back. */
  lemma LegacyFailureMessageInjective(t1: Thrown, t2: Thrown)
    requires IsErrorInstance(t1) && IsErrorInstance(t2)
    requires LegacyFailureMessage(t1) == LegacyFailureMessage(t2)
    ensures t1.message == t2.message
  {
    FrameCancel(WrappedPrefix, t1.message, t2.message, "");
    assert WrappedPrefix + t1.message + "" == WrappedPrefix + t1.message;
    assert WrappedPrefix + t2.message + "" == WrappedPrefix + t2.message;
  }

  /** What the SDK throws surfaces wrapped, with no classification by status:
      a rate-limit error reads differently from the adapters' message. */
  lemma LegacySendFailure(service: Service, deps: Deps, messages: string, publishers: seq<Publisher>)
    requires deps.send(LegacySentRequest(service, deps, messages, publishers)).Threw?
    ensures LegacyParseMessages(service, deps, messages, publishers)
         == Failure(LegacyFailureMessage(deps.send(LegacySentRequest(service, deps, messages, publishers)).thrown))
  {
  }

  /** Absent or empty content surfaces as the wrapped no-response message. */
  lemma LegacyNoResponseWrapped(service: Service, deps: Deps, messages: string, publishers: seq<Publisher>)
    requires deps.send(LegacySentRequest(service, deps, messages, publishers)).Answered?
    requires LegacyExtract(deps.send(LegacySentRequest(service, deps, messages, publishers)).content).Failure?
    ensures LegacyParseMessages(service, deps, messages, publishers) == Failure(WrappedPrefix + LegacyNoResponse)
  {
    assert LegacyAttempt(deps, LegacySentRequest(service, deps, messages, publishers), publishers)
        == Failure(OtherError(LegacyNoResponse));
  }

  /** A decoded answer is reconciled against the roster passed in. */
  lemma LegacyParseSucceeds(service: Service, deps: Deps, messages: string, publishers: seq<Publisher>,
                            text: string, resp: AIResponse)
    requires deps.send(LegacySentRequest(service, deps, messages, publishers)) == Answered(Text(text))
    requires text != ""
    requires deps.parse(text) == Success(resp)
    ensures LegacyParseMessages(service, deps, messages, publishers) == Success(LegacyConvert(deps.env, resp, publishers))
  {
  }

  /** A rate-limited call: the adapters name the class, the legacy service
      passes the SDK's message through behind the prefix. */
  lemma RateLimitReadsDifferently(b: Backend, message: string)
    ensures LegacyFailureMessage(ApiError(Some(429), message)) == WrappedPrefix + message
    ensures FailureMessage(b, Classify(ApiError(Some(429), message))) != LegacyFailureMessage(ApiError(Some(429), message))
  {
    var legacy := LegacyFailureMessage(ApiError(Some(429), message));
    RankOfFailureMessage(b, RateLimited);
    assert legacy[0] == 'F';
  }

  /** A rate-limit status thrown on a plain object: the adapters classify it
      by its status like an SDK error, the legacy service, finding no
      `Error`, reports the unknown error. */
  lemma StatusObjectReadsDifferently(b: Backend, message: string)
    ensures FailureMessage(b, Classify(StatusObject(Some(429), message))) == FailureMessage(b, RateLimited)
    ensures LegacyFailureMessage(StatusObject(Some(429), message)) == LegacyUnknownError
    ensures LegacyFailureMessage(ApiError(Some(429), message)) != LegacyUnknownError
  {
  }
}
