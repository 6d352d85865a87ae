/** The provider registry of `src/lib/services/AIProviderRegistry.ts`: a
    `Map` from provider tag to factory, filled at construction with the
    three shipped providers. A `Map` remembers insertion order, and
    re-setting a key keeps its place, so the model carries the key order next
    to the map. The OpenAI provider is not part of this model: what its
    `configure` does is a parameter. */
module Registry {
  import opened Wrappers
  import opened Types
  import opened ProviderErrors
  import opened Providers
  import AiProviders

  /** What a factory builds: one of the two modelled adapters, the OpenAI
      provider, or a provider registered by a caller, named by `key`. */
  datatype Factory = OpenAIFactory | AdapterFactory(backend: Backend) | CustomFactory(key: string)

  /** A provider instance. */
  datatype Provider = OpenAIProvider(openAIConfig: Option<ProviderConfig>) | AdapterProvider(adapter: Adapter) | CustomProvider(key: string, customConfig: Option<ProviderConfig>)

  datatype Registry = Registry(order: seq<string>, factories: map<string, Factory>)

  /** The order lists every registered tag exactly once. */
  ghost predicate Valid(r: Registry) {
    && (forall i, j :: 0 <= i < j < |r.order| ==> r.order[i] != r.order[j])
    && (forall i :: 0 <= i < |r.order| ==> r.order[i] in r.factories)
    && (forall t :: t in r.factories ==> t in r.order)
  }

  /** `registerProvider`: set the factory for `t`; a new tag goes last. */
  function RegisterProvider(r: Registry, t: string, f: Factory): (r': Registry)
    ensures r'.factories == r.factories[t := f]
    ensures t in r.factories ==> r'.order == r.order
    ensures t !in r.factories ==> r'.order == r.order + [t]
    ensures Valid(r) ==> Valid(r')
  {
    if t in r.factories then Registry(r.order, r.factories[t := f])
    else Registry(r.order + [t], r.factories[t := f])
  }

  const Empty := Registry([], map[])

  /** The constructor: `openai`, `anthropic`, `github`, in that order. */
  function NewRegistry(): (r: Registry)
    ensures Valid(r)
    ensures r.order == ["openai", "anthropic", "github"]
    ensures r.factories == map["openai" := OpenAIFactory, "anthropic" := AdapterFactory(Anthropic), "github" := AdapterFactory(GitHubModels)]
  {
    var r := RegisterProvider(RegisterProvider(RegisterProvider(Empty, "openai", OpenAIFactory),
                                               "anthropic", AdapterFactory(Anthropic)),
                              "github", AdapterFactory(GitHubModels));
    assert r.order == ["openai", "anthropic", "github"];
    r
  }

  /** A factory call: every call builds a new, unconfigured instance. */
  function Instantiate(f: Factory): (p: Provider)
    ensures f.AdapterFactory? ==> p == AdapterProvider(NewAdapter(f.backend))
    ensures f.OpenAIFactory? ==> p == OpenAIProvider(None)
    ensures f.CustomFactory? ==> p == CustomProvider(f.key, None)
  {
    match f
    case OpenAIFactory => OpenAIProvider(None)
    case AdapterFactory(b) => AdapterProvider(NewAdapter(b))
    case CustomFactory(key) => CustomProvider(key, None)
  }

  function UnknownProviderError(t: string): string {
    "Unknown AI provider: " + t
  }

  /** `getProvider`: a fresh product of the registered factory, or an error
      naming the tag. */
  function GetProvider(r: Registry, t: string): (p: Result<Provider, string>)
    ensures p.Success? <==> t in r.factories
    ensures p.Failure? ==> p.error == UnknownProviderError(t)
    ensures p.Success? ==> p.value == Instantiate(r.factories[t])
  {
    if t in r.factories then Success(Instantiate(r.factories[t])) else Failure(UnknownProviderError(t))
  }

  /** `getAvailableProviders`: the tags in registration order. */
  function GetAvailableProviders(r: Registry): (tags: seq<string>)
    ensures Valid(r) ==> forall t :: t in tags <==> t in r.factories
    ensures Valid(r) ==> forall i, j :: 0 <= i < j < |tags| ==> tags[i] != tags[j]
  {
    r.order
  }

  /** The listing follows `Map` insertion order: registering a new tag
      appends it, re-registering a known tag leaves the listing as it was,
      and the constructor lists its three tags in the order it sets them. */
  lemma AvailableInRegistrationOrder(r: Registry, t: string, f: Factory)
    ensures t !in r.factories ==> GetAvailableProviders(RegisterProvider(r, t, f)) == GetAvailableProviders(r) + [t]
    ensures t in r.factories ==> GetAvailableProviders(RegisterProvider(r, t, f)) == GetAvailableProviders(r)
    ensures GetAvailableProviders(NewRegistry()) == ["openai", "anthropic", "github"]
  {
  }

  /** `isProviderSupported`. */
  predicate IsProviderSupported(r: Registry, t: string) {
    t in r.factories
  }

  /** A tag is supported exactly when the available list names it. */
  lemma SupportedIffAvailable(r: Registry, t: string)
    requires Valid(r)
    ensures IsProviderSupported(r, t) <==> t in GetAvailableProviders(r)
  {
  }

  /** After construction `openai`, `anthropic` and `github` are supported and
      anything else, `azure` included, is not; yet `azure` has an entry in
      the metadata table. */
  lemma DefaultRegistration(t: string)
    ensures IsProviderSupported(NewRegistry(), t) <==> t in {"openai", "anthropic", "github"}
    ensures !IsProviderSupported(NewRegistry(), "azure") && AiProviders.GetProviderById("azure").Some?
  {
  }

  /** Each shipped adapter is registered under the tag its `validateConfig`
      demands, so a configuration routed by its `provider` field reaches the
      adapter that accepts it. */
  lemma RegisteredUnderOwnTag(t: string)
    requires t in NewRegistry().factories && NewRegistry().factories[t].AdapterFactory?
    ensures Tag(NewRegistry().factories[t].backend) == t
  {
  }

  /** Registering `t` changes the factory for `t` only, and nothing else the
      registry reports. */
  lemma RegisterAffectsOnlyItsTag(r: Registry, t: string, f: Factory, u: string)
    requires u != t
    ensures GetProvider(RegisterProvider(r, t, f), u) == GetProvider(r, u)
    ensures GetProvider(RegisterProvider(r, t, f), t) == Success(Instantiate(f))
    ensures IsProviderSupported(RegisterProvider(r, t, f), u) == IsProviderSupported(r, u)
  {
  }

  /** Every call of `getProvider` for an adapter hands out an unconfigured
      one, whatever was configured through an earlier instance. */
  lemma ProviderIsFresh(r: Registry, t: string)
    requires GetProvider(r, t).Success? && GetProvider(r, t).value.AdapterProvider?
    ensures GetProvider(r, t).value.adapter.config.None? && GetProvider(r, t).value.adapter.client.None?
  {
  }

  /** `configure` on a provider instance. The adapters are modelled; the
      OpenAI and caller-registered providers are not, so their outcome is
      the parameter `foreign`. */
  function ConfigureProvider(p: Provider, config: ProviderConfig, foreign: (Provider, ProviderConfig) -> Result<Provider, string>): (r: Result<Provider, string>)
    ensures p.AdapterProvider? ==> (r.Success? <==> ValidateConfig(p.adapter.backend, config))
    ensures p.AdapterProvider? && r.Failure? ==> r.error == ConfigurationError(p.adapter.backend)
    ensures p.AdapterProvider? && r.Success? ==>
      r.value.AdapterProvider? && r.value.adapter.config == Some(config) && Consistent(r.value.adapter)
    ensures !p.AdapterProvider? ==> r == foreign(p, config)
  {
    match p
    case AdapterProvider(a) =>
      var a' :- Configure(a, config);
      Success(AdapterProvider(a'))
    case _ => foreign(p, config)
  }

  /** `createService`: look the tag up, build, configure. */
  function CreateService(r: Registry, config: ProviderConfig, foreign: (Provider, ProviderConfig) -> Result<Provider, string>): (s: Result<Provider, string>)
    ensures config.provider !in r.factories ==> s == Failure(UnknownProviderError(config.provider))
    ensures config.provider in r.factories ==>
      s == ConfigureProvider(Instantiate(r.factories[config.provider]), config, foreign)
  {
    var p :- GetProvider(r, config.provider);
    ConfigureProvider(p, config, foreign)
  }

  /** On the default registry, a configuration for `github` or `anthropic`
      yields a configured adapter exactly when that adapter's
      `validateConfig` accepts it; `azure` is refused as unknown. */
  lemma CreateServiceDefault(config: ProviderConfig, foreign: (Provider, ProviderConfig) -> Result<Provider, string>)
    ensures config.provider == "azure" ==>
      CreateService(NewRegistry(), config, foreign) == Failure(UnknownProviderError("azure"))
    ensures config.provider in {"github", "anthropic"} ==>
      var b := if config.provider == "github" then GitHubModels else Anthropic;
      var s := CreateService(NewRegistry(), config, foreign);
      && (s.Success? <==> config.apiKey != "" && config.model != "")
      && (s.Success? ==> s.value.AdapterProvider? && s.value.adapter.backend == b
                         && s.value.adapter.config == Some(config) && Consistent(s.value.adapter))
  {
  }
}
