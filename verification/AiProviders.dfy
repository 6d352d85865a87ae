/** The provider metadata table of `src/lib/constants/aiProviders.ts`: what
    the settings screen shows for each provider, keyed by provider id, and
    its three lookups. */
module AiProviders {
  import opened Wrappers

  /** `AIProviderInfo`; `defaultEndpoint` and `isDefault` are optional. */
  datatype ProviderInfo = ProviderInfo(
    id: string,
    name: string,
    description: string,
    models: seq<string>,
    defaultEndpoint: Option<string>,
    configFields: seq<string>,
    isDefault: Option<bool>)

  const OpenAIInfo := ProviderInfo("openai", "OpenAI", "Most Popular",
    ["gpt-4o", "gpt-4-turbo", "gpt-3.5-turbo", "gpt-4"], Some("https://api.openai.com/v1"),
    ["apiKey", "model", "endpoint"], Some(true))
  const AnthropicInfo := ProviderInfo("anthropic", "Anthropic (Claude)", "Best Reasoning",
    ["claude-3-5-sonnet-20241022", "claude-3-haiku-20240307", "claude-3-opus-20240229"], Some("https://api.anthropic.com"),
    ["apiKey", "model"], None)
  const AzureInfo := ProviderInfo("azure", "Azure OpenAI", "Enterprise Ready",
    [], None,
    ["apiKey", "resourceName", "deploymentName", "apiVersion"], None)
  const GitHubInfo := ProviderInfo("github", "GitHub Models", "Developer Friendly",
    ["gpt-4o", "gpt-4o-mini", "claude-3-5-sonnet"], Some("https://models.inference.ai.azure.com"),
    ["apiKey", "model"], None)

  /** The table's keys in declaration order, which is the order
      `Object.values` lists the entries in. */
  const TableOrder: seq<string> := ["openai", "anthropic", "azure", "github"]

  /** `AI_PROVIDERS`. */
  const Table: map<string, ProviderInfo> :=
    map["openai" := OpenAIInfo, "anthropic" := AnthropicInfo, "azure" := AzureInfo, "github" := GitHubInfo]

  /** `getProviderById`: the entry, or `undefined` for any other id. */
  function GetProviderById(id: string): (r: Option<ProviderInfo>)
    ensures r.Some? <==> id in Table
    ensures r.Some? ==> r.value == Table[id] && r.value.id == id
  {
    if id in Table then Some(Table[id]) else None
  }

  /** `getAvailableProviders`: every entry, in table order. */
  function GetAvailableProviders(): (r: seq<ProviderInfo>)
    ensures |r| == |TableOrder|
    ensures forall i :: 0 <= i < |r| ==> TableOrder[i] in Table && r[i] == Table[TableOrder[i]]
  {
    [Table["openai"], Table["anthropic"], Table["azure"], Table["github"]]
  }

  /** `getDefaultProvider`: the `openai` entry. */
  function GetDefaultProvider(): (r: ProviderInfo)
    ensures r == Table["openai"] && r.isDefault == Some(true)
  {
    Table["openai"]
  }

  /** The listed order names every key exactly once, and every entry's `id`
      is its own key. */
  lemma TableOrderIsKeys()
    ensures forall i, j :: 0 <= i < j < |TableOrder| ==> TableOrder[i] != TableOrder[j]
    ensures (set i | 0 <= i < |TableOrder| :: TableOrder[i]) == Table.Keys
    ensures forall id :: id in Table ==> Table[id].id == id
  {
    assert Table.Keys == {"openai", "anthropic", "azure", "github"};
    assert forall i :: 0 <= i < 4 ==> TableOrder[i] in Table.Keys;
    assert TableOrder[0] == "openai" && TableOrder[1] == "anthropic" && TableOrder[2] == "azure" && TableOrder[3] == "github";
  }

  /** The available list contains every entry of the table and nothing else. */
  lemma AvailableIsTable(info: ProviderInfo)
    ensures info in GetAvailableProviders() <==> info in Table.Values
  {
    var all := GetAvailableProviders();
    if info in Table.Values {
      var id :| id in Table && Table[id] == info;
      assert id in {"openai", "anthropic", "azure", "github"};
    }
    if info in all {
      var i :| 0 <= i < |all| && all[i] == info;
      assert TableOrder[i] in Table;
    }
  }

  /** The default entry is the only one marked default. */
  lemma OnlyOpenAIIsDefault(id: string)
    requires id in Table && Table[id].isDefault == Some(true)
    ensures id == "openai" && GetDefaultProvider() == Table[id]
  {
  }

  /** `azure` lists no models and no default endpoint; every other entry has
      a default endpoint. */
  lemma AzureIsTheDynamicEntry(id: string)
    requires id in Table
    ensures Table[id].defaultEndpoint.None? <==> id == "azure"
    ensures id == "azure" ==> Table[id].models == []
  {
  }
}
