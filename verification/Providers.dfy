/** The two provider adapters of `src/lib/services/providers/`: GitHub Models
    (`GitHubModelsProvider.ts`) and Anthropic (`AnthropicProvider.ts`). They
    share one shape, so one model covers both, told apart by `Backend`: the
    configuration check, configure-before-use, the connection probe, and the
    translation of whatever the transport or the decoding of its answer threw
    into the message the adapter throws. The SDK call is the function `send`,
    `JSON.parse` is `parse`, and a decoded answer is reconciled by
    `Reconcile.Convert`. */
module Providers {
  import opened Wrappers
  import opened Strings
  import opened Types
  import opened Reconcile
  import opened Prompts
  import opened ProviderErrors

  /** The `provider` tag a configuration must carry for this adapter. */
  function Tag(b: Backend): string {
    match b
    case GitHubModels => "github"
    case Anthropic => "anthropic"
  }

  /** The base URL used when the configuration names no endpoint. */
  function DefaultBaseUrl(b: Backend): string {
    match b
    case GitHubModels => "https://models.inference.ai.azure.com"
    case Anthropic => "https://api.anthropic.com"
  }

  // ---------------------------------------------------------------------
  // configuration

  /** `validateConfig`: the adapter's own tag, a key and a model. */
  predicate ValidateConfig(b: Backend, config: ProviderConfig) {
    config.provider == Tag(b) && config.apiKey != "" && config.model != ""
  }

  /** No configuration is accepted by both adapters. */
  lemma ValidateConfigExclusive(b1: Backend, b2: Backend, config: ProviderConfig)
    requires ValidateConfig(b1, config) && ValidateConfig(b2, config)
    ensures b1 == b2
  {
  }

  /** `config.endpoint || default`: an empty endpoint counts as none. */
  function BaseUrl(b: Backend, config: ProviderConfig): (url: string)
    ensures url == DefaultBaseUrl(b) || url == config.endpoint.GetOr("")
    ensures url == DefaultBaseUrl(b) <==> config.endpoint.GetOr("") in {"", DefaultBaseUrl(b)}
  {
    if config.endpoint.Some? && config.endpoint.value != "" then config.endpoint.value else DefaultBaseUrl(b)
  }

  /** What the SDK client is built from. */
  datatype Client = Client(baseUrl: string, apiKey: string)

  function ConfigurationError(b: Backend): string {
    "Invalid " + DisplayName(b) + " configuration"
  }

  /** `createClient`: refuses a configuration `validateConfig` rejects. */
  function CreateClient(b: Backend, config: ProviderConfig): (r: Result<Client, string>)
    ensures r.Success? <==> ValidateConfig(b, config)
    ensures r.Failure? ==> r.error == ConfigurationError(b)
    ensures r.Success? ==> r.value.apiKey == config.apiKey && r.value.baseUrl == BaseUrl(b, config)
  {
    if ValidateConfig(b, config) then Success(Client(BaseUrl(b, config), config.apiKey))
    else Failure(ConfigurationError(b))
  }

  /** An adapter instance: the configuration and the client it caches. */
  datatype Adapter = Adapter(backend: Backend, config: Option<ProviderConfig>, client: Option<Client>)

  /** The state `configure` maintains: no configuration and no client, or an
      accepted configuration together with the client built from it. */
  predicate Consistent(a: Adapter) {
    match a.config
    case None => a.client.None?
    case Some(c) => a.client.Some? && CreateClient(a.backend, c) == Success(a.client.value)
  }

  /** A freshly constructed adapter. */
  function NewAdapter(b: Backend): (a: Adapter)
    ensures a.backend == b && a.config.None? && Consistent(a)
  {
    Adapter(b, None, None)
  }

  /** `configure`: on an accepted configuration, store it and build the
      client; otherwise throw before changing anything. */
  function Configure(a: Adapter, config: ProviderConfig): (r: Result<Adapter, string>)
    ensures r.Success? <==> ValidateConfig(a.backend, config)
    ensures r.Failure? ==> r.error == ConfigurationError(a.backend)
    ensures r.Success? ==> r.value.backend == a.backend && r.value.config == Some(config) && Consistent(r.value)
  {
    var client :- CreateClient(a.backend, config);
    Success(Adapter(a.backend, Some(config), Some(client)))
  }

  // ---------------------------------------------------------------------
  // the transport, as an input

  /** The first content item of a completion: absent (or `null`), text, or a
      block of another type. */
  datatype Content = Missing | Text(text: string) | NonText

  /** The outcome of one SDK call. */
  datatype Reply = Answered(content: Content) | Threw(thrown: Thrown)

  datatype Role = SystemRole | UserRole

  datatype ChatMessage = ChatMessage(role: Role, content: string)

  /** One completion request as handed to the SDK. */
  datatype Request = Request(
    client: Client,
    model: string,
    system: Option<string>,
    messages: seq<ChatMessage>,
    temperature: Option<real>,
    maxTokens: nat)

  /** Everything a call depends on besides the adapter and its arguments. */
  datatype Deps = Deps(
    send: Request -> Reply,
    parse: string -> Result<AIResponse, Thrown>,
    toJson: seq<string> -> string,
    prompts: PromptService,
    env: Env)

  // ---------------------------------------------------------------------
  // testConnection

  const ProbeText := "Hello, this is a test."

  /** The probe: one user message and a five-token budget. */
  function ProbeRequest(client: Client, model: string): Request {
    Request(client, model, None, [ChatMessage(UserRole, ProbeText)], None, 5)
  }

  datatype ConnectionTestResult = ConnectionTestResult(success: bool, error: Option<string>)

  /** The message `testConnection` reports for what the probe threw. */
  function ConnectionFailureMessage(b: Backend, t: Thrown): string {
    match t
    case ApiError(status, message) => ConnectionStatusMessage(b, status, message)
    case StatusObject(status, message) => ConnectionStatusMessage(b, status, message)
    case SyntaxError(message) => message
    case TypeError(message) => message
    case OtherError(message) => message
    case NotAnError => "Unknown connection error"
  }

  /** The `switch (status)` of the probe's `catch`, for anything thrown with
      a `status` property. */
  function ConnectionStatusMessage(b: Backend, status: Option<nat>, message: string): string {
    if status == Some(401) then
      (if b == GitHubModels then "Invalid Personal Access Token. Please check your token."
       else "Invalid API key. Please check your API key.")
    else if status == Some(403) then
      (if b == GitHubModels then "Access forbidden. Check your token permissions."
       else "Access forbidden. Check your API key permissions.")
    else if status == Some(429) then "Rate limit exceeded. Please try again later."
    else if status == Some(404) then "Model not found. Please check your model selection."
    else "Connection failed (" + RenderStatus(status) + "): " + OrElse(message, "Unknown error")
  }

  /** `testConnection`: never throws. A rejected configuration is reported
      without any request; otherwise the probe succeeds exactly when the
      SDK answers. */
  function TestConnection(b: Backend, config: ProviderConfig, send: Request -> Reply): (r: ConnectionTestResult)
    ensures r.success <==> r.error.None?
    ensures !ValidateConfig(b, config) ==> r == ConnectionTestResult(false, Some("Invalid configuration"))
    ensures ValidateConfig(b, config) ==>
      (r.success <==> send(ProbeRequest(Client(BaseUrl(b, config), config.apiKey), config.model)).Answered?)
    ensures ValidateConfig(b, config) && !r.success ==>
      r.error == Some(ConnectionFailureMessage(b, send(ProbeRequest(Client(BaseUrl(b, config), config.apiKey), config.model)).thrown))
  {
    if !ValidateConfig(b, config) then ConnectionTestResult(false, Some("Invalid configuration"))
    else
      match send(ProbeRequest(CreateClient(b, config).value, config.model))
      case Answered(_) => ConnectionTestResult(true, None)
      case Threw(t) => ConnectionTestResult(false, Some(ConnectionFailureMessage(b, t)))
  }

  /** A configuration that passes the probe is one `configure` accepts, and
      the probe went out with the client `configure` builds. */
  lemma TestedConfigConfigures(b: Backend, config: ProviderConfig, send: Request -> Reply)
    requires TestConnection(b, config, send).success
    ensures Configure(NewAdapter(b), config).Success?
    ensures send(ProbeRequest(Configure(NewAdapter(b), config).value.client.value, config.model)).Answered?
  {
  }

  /** The probe's `catch` reads the status of any thrown object, `Error`
      or not. */
  lemma ConnectionStatusObject(b: Backend, status: Option<nat>, message: string)
    ensures ConnectionFailureMessage(b, StatusObject(status, message))
         == ConnectionFailureMessage(b, ApiError(status, message))
  {
  }

  /** The probe's 401 and 403 messages, which name the credential each
      backend takes: a token for GitHub Models, an API key for Anthropic. */
  lemma ConnectionAuthMessages(b: Backend, message: string)
    ensures ConnectionFailureMessage(b, ApiError(Some(401), message)) == (if b == GitHubModels then "Invalid Personal Access Token. Please check your token." else "Invalid API key. Please check your API key.")
    ensures ConnectionFailureMessage(b, ApiError(Some(403), message)) == (if b == GitHubModels then "Access forbidden. Check your token permissions." else "Access forbidden. Check your API key permissions.")
  {
  }

  /** The status cases of the probe: 401, 403, 429 and 404 have fixed
      messages, and every other status, 500 included, reports the status and
      the error's message. */
  lemma ConnectionStatusMessages(b: Backend, status: nat, message: string)
    ensures status !in {401, 403, 429, 404} ==>
      ConnectionFailureMessage(b, ApiError(Some(status), message))
        == "Connection failed (" + NatToString(status) + "): " + OrElse(message, "Unknown error")
    ensures status == 429 ==> ConnectionFailureMessage(b, ApiError(Some(status), message)) == "Rate limit exceeded. Please try again later."
    ensures status == 404 ==> ConnectionFailureMessage(b, ApiError(Some(status), message)) == "Model not found. Please check your model selection."
  {
  }

  // ---------------------------------------------------------------------
  // parseMessages

  const NotConfiguredError := "Provider not configured"

  /** The completion request: both prompts, temperature 0.1 and 4000 tokens.
      GitHub Models takes the system prompt as a first message, Anthropic as a
      separate field. */
  function ParseRequest(b: Backend, client: Client, model: string, prompts: PromptPair): (req: Request)
    ensures req.client == client && req.model == model
    ensures req.temperature == Some(0.1) && req.maxTokens == 4000
    ensures |req.messages| >= 1 && req.messages[|req.messages| - 1] == ChatMessage(UserRole, prompts.userPrompt)
    ensures req.system == Some(prompts.systemPrompt) || req.messages[0] == ChatMessage(SystemRole, prompts.systemPrompt)
  {
    match b
    case GitHubModels =>
      Request(client, model, None,
              [ChatMessage(SystemRole, prompts.systemPrompt), ChatMessage(UserRole, prompts.userPrompt)], Some(0.1), 4000)
    case Anthropic =>
      Request(client, model, Some(prompts.systemPrompt), [ChatMessage(UserRole, prompts.userPrompt)], Some(0.1), 4000)
  }

  /** The text to decode. GitHub Models refuses absent and empty content;
      Anthropic refuses an absent or non-text first block but accepts empty
      text. Either refusal is an ordinary `Error`, caught like the rest. */
  function ExtractText(b: Backend, content: Content): (r: Result<string, Thrown>)
    ensures r.Success? ==> content == Text(r.value)
    ensures r.Failure? ==> r.error == OtherError(NoResponseError(b))
    ensures r.Failure? <==> content.Missing? || content.NonText? || (b == GitHubModels && content == Text(""))
  {
    match content
    case Text(s) =>
      if s == "" && b == GitHubModels then Failure(OtherError(NoResponseError(b))) else Success(s)
    case _ => Failure(OtherError(NoResponseError(b)))
  }

  /** The `try` block: send, take the text, decode it, reconcile it. */
  function Attempt(b: Backend, deps: Deps, req: Request, publishers: seq<Publisher>): Result<ParseResult, Thrown> {
    match deps.send(req)
    case Threw(t) => Failure(t)
    case Answered(content) =>
      var text :- ExtractText(b, content);
      var resp :- deps.parse(text);
      Success(Convert(deps.env, resp, publishers))
  }

  /** `parseMessages`. Without a configuration it throws before building any
      request. Otherwise it sends the prompts built from the arguments; a
      success is the reconciliation of a decoded answer against `publishers`,
      and a failure carries one of the classified messages. */
  function ParseMessages(a: Adapter, deps: Deps, messages: string, publishers: seq<Publisher>, language: string): (r: Result<ParseResult, string>)
    ensures a.config.None? ==> r == Failure(NotConfiguredError)
  {
    match a.config
    case None => Failure(NotConfiguredError)
    case Some(config) =>
      var client :- if a.client.Some? then Success(a.client.value) else CreateClient(a.backend, config);
      var prompts := GetPrompts(deps.prompts, deps.toJson, messages, publishers, language);
      var req := ParseRequest(a.backend, client, config.model, prompts);
      match Attempt(a.backend, deps, req, publishers)
      case Success(result) => Success(result)
      case Failure(t) => Failure(FailureMessage(a.backend, Classify(t)))
  }

  /** The request a configured, consistent adapter sends. */
  function SentRequest(a: Adapter, deps: Deps, messages: string, publishers: seq<Publisher>, language: string): Request
    requires Consistent(a) && a.config.Some?
  {
    ParseRequest(a.backend, a.client.value, a.config.value.model,
                 GetPrompts(deps.prompts, deps.toJson, messages, publishers, language))
  }

  /** A consistent, configured adapter fails exactly when the `try` block
      throws, with the message of that error's class, and otherwise returns
      what the block produced. */
  lemma ParseOutcome(a: Adapter, deps: Deps, messages: string, publishers: seq<Publisher>, language: string)
    requires Consistent(a) && a.config.Some?
    ensures var attempt := Attempt(a.backend, deps, SentRequest(a, deps, messages, publishers, language), publishers);
      ParseMessages(a, deps, messages, publishers, language)
        == if attempt.Success? then Success(attempt.value) else Failure(FailureMessage(a.backend, Classify(attempt.error)))
  {
  }

  /** When the `try` block throws `t`, the caller sees the message of `t`'s
      class. */
  lemma ParseFailsWith(a: Adapter, deps: Deps, messages: string, publishers: seq<Publisher>, language: string, t: Thrown)
    requires Consistent(a) && a.config.Some?
    requires Attempt(a.backend, deps, SentRequest(a, deps, messages, publishers, language), publishers) == Failure(t)
    ensures ParseMessages(a, deps, messages, publishers, language) == Failure(FailureMessage(a.backend, Classify(t)))
  {
    ParseOutcome(a, deps, messages, publishers, language);
  }

  /** What `parseMessages` can return: a success is the reconciliation of
      some decoded answer against `publishers`, and a configured adapter's
      failure carries one of the classified messages. */
  lemma ParseMessagesOutcomes(a: Adapter, deps: Deps, messages: string, publishers: seq<Publisher>, language: string)
    ensures var r := ParseMessages(a, deps, messages, publishers, language);
      && (r.Success? ==> exists resp :: r.value == Convert(deps.env, resp, publishers))
      && (Consistent(a) && a.config.Some? && r.Failure? ==> exists k :: r.error == FailureMessage(a.backend, k))
  {
  }

  /** Once `configure` has accepted a configuration, `parseMessages` never
      reports the adapter as unconfigured. */
  lemma ConfiguredAdapterIsUsable(a: Adapter, config: ProviderConfig, deps: Deps, messages: string, publishers: seq<Publisher>, language: string)
    requires Configure(a, config).Success?
    ensures ParseMessages(Configure(a, config).value, deps, messages, publishers, language) != Failure(NotConfiguredError)
  {
    var c := Configure(a, config).value;
    var r := ParseMessages(c, deps, messages, publishers, language);
    ParseMessagesOutcomes(c, deps, messages, publishers, language);
    if r.Failure? {
      var k :| r.error == FailureMessage(c.backend, k);
      RankOfFailureMessage(c.backend, k);
    }
  }

  /** A reply whose content is absent, not text, or (for GitHub Models)
      empty raises "No response from …" inside the `try`, so the caller sees
      it behind the generic prefix. */
  lemma NoResponseSurfacesWrapped(a: Adapter, deps: Deps, messages: string, publishers: seq<Publisher>, language: string)
    requires Consistent(a) && a.config.Some?
    requires deps.send(SentRequest(a, deps, messages, publishers, language)).Answered?
    requires ExtractText(a.backend, deps.send(SentRequest(a, deps, messages, publishers, language)).content).Failure?
    ensures ParseMessages(a, deps, messages, publishers, language) == Failure(FailureMessage(a.backend, Wrapped(NoResponseError(a.backend))))
  {
    var req := SentRequest(a, deps, messages, publishers, language);
    AttemptNoText(a.backend, deps, req, publishers);
    ParseFailsWith(a, deps, messages, publishers, language, OtherError(NoResponseError(a.backend)));
  }

  /** An answer without usable text makes the block throw "No response". */
  lemma AttemptNoText(b: Backend, deps: Deps, req: Request, publishers: seq<Publisher>)
    requires deps.send(req).Answered? && ExtractText(b, deps.send(req).content).Failure?
    ensures Attempt(b, deps, req, publishers) == Failure(OtherError(NoResponseError(b)))
  {
  }

  /** Text the decoder rejects with a `SyntaxError` surfaces as the
      invalid-format message, whatever the decoder said. */
  lemma SyntaxErrorIsInvalidFormat(a: Adapter, deps: Deps, messages: string, publishers: seq<Publisher>, language: string,
                                   text: string, detail: string)
    requires Consistent(a) && a.config.Some?
    requires deps.send(SentRequest(a, deps, messages, publishers, language)) == Answered(Text(text))
    requires text != "" || a.backend == Anthropic
    requires deps.parse(text) == Failure(SyntaxError(detail))
    ensures ParseMessages(a, deps, messages, publishers, language) == Failure(FailureMessage(a.backend, InvalidFormat))
  {
    var req := SentRequest(a, deps, messages, publishers, language);
    AttemptRejected(a.backend, deps, req, publishers, text, SyntaxError(detail));
    ParseFailsWith(a, deps, messages, publishers, language, SyntaxError(detail));
  }

  /** A decoder error inside the `try` is what the block throws. */
  lemma AttemptRejected(b: Backend, deps: Deps, req: Request, publishers: seq<Publisher>, text: string, t: Thrown)
    requires deps.send(req) == Answered(Text(text)) && (text != "" || b == Anthropic)
    requires deps.parse(text) == Failure(t)
    ensures Attempt(b, deps, req, publishers) == Failure(t)
  {
  }

  /** Whatever the SDK throws is classified, and the message is the class's. */
  lemma SendFailureClassified(a: Adapter, deps: Deps, messages: string, publishers: seq<Publisher>, language: string)
    requires Consistent(a) && a.config.Some?
    requires deps.send(SentRequest(a, deps, messages, publishers, language)).Threw?
    ensures ParseMessages(a, deps, messages, publishers, language)
         == Failure(FailureMessage(a.backend, Classify(deps.send(SentRequest(a, deps, messages, publishers, language)).thrown)))
  {
    ParseOutcome(a, deps, messages, publishers, language);
  }

  /** A decoded answer is reconciled against the roster passed in. */
  lemma ParseSucceeds(a: Adapter, deps: Deps, messages: string, publishers: seq<Publisher>, language: string,
                      text: string, resp: AIResponse)
    requires Consistent(a) && a.config.Some?
    requires deps.send(SentRequest(a, deps, messages, publishers, language)) == Answered(Text(text))
    requires text != "" || a.backend == Anthropic
    requires deps.parse(text) == Success(resp)
    ensures ParseMessages(a, deps, messages, publishers, language) == Success(Convert(deps.env, resp, publishers))
  {
    ParseOutcome(a, deps, messages, publishers, language);
  }
}
