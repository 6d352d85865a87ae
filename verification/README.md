# ai-reporter core, modelled in Dafny

ai-reporter is a browser app. It sends free-text activity messages to a text-completion provider (GitHub Models, Anthropic, or an older fixed GitHub Models service) and receives a structured answer: a list of name/activity candidates plus a global reasoning string. It then **reconciles** that answer against the current publisher roster. The result is the newly minted publishers, one report per candidate, and provenance metadata that is never persisted.

This project models that core as immutable datatypes and pure functions:

- **Reconciliation.** `Reconcile` models it once, as a left fold over the candidates. The fold threads a lowercased-name → id map, a fresh-id supply and the call's timestamp. The join key is `toLowerCase()` only, with no trim; a later roster entry overwrites an earlier one with the same key (`Reconcile.LookupLastWins`, `ReconcileProofs.LaterRosterEntryWins`). The two adapters' `convertAIResponseToParseResult` are textually the same, and both use it. `Reconcile.ConvertLoop` follows the code's two `forEach` loops and is proved equal to the fold. `AIService` models the legacy variant and proves it is the same fold with `studies` and metadata dropped.
- **Provider adapters without the transport** (`Providers`, `ProviderErrors`): `validateConfig`, `configure`, `testConnection` and `parseMessages`. The SDK call is an input function returning an answer or a thrown value. The `catch` blocks are a classification of that thrown value into a message class.
- **Registry and tables**:
  - the provider registry, as an insertion-ordered map of factories (`Registry`);
  - the provider metadata table (`AiProviders`);
  - the translation table (`Languages`).
- **The in-memory stores** as state transitions, with persistence dropped: `ReportState`, `PublisherState` and `CardViewState`.
- **String builders**:
  - the user-prompt template (`Prompts`);
  - the CSV and SpreadsheetML exports (`Export`), with CSV field quoting as in section 2 (rules 6 and 7) of RFC 4180 and XML escaping with the five predefined entities of section 4.6 of XML 1.0;
  - a reader for the SpreadsheetML rows and cells (`SheetReader`), and the proof that it reads the exported file back (`ExcelReadBack`).

`Wrappers` (Option/Result), `Strings` (join, split, replace, trim, decimal rendering) and `Types` (the records of `src/lib/types/index.ts`) are shared.

Each operation is paired with a partner, and the pair is connected by a proof:

- the CSV and XML escapes with decoders, proved to be their inverses;
- the whole CSV file with a record reader, and the whole SpreadsheetML file with a row-and-cell reader, each proved to read the file back;
- the sequential five-pass XML escape with a one-pass reference;
- the reconciliation fold with per-candidate resolution facts and the loops of the code;
- the legacy fold with the adapters' fold;
- the error classification with message injectivity;
- the store transitions with their lookups and inverses.

## Model

| member | source | states |
|---|---|---|
| Types.Names | src/lib/services/prompts/promptTemplates.ts:21 | the names list has one entry per roster entry, each that entry's name, in roster order |
| Strings.Trim | src/lib/state/PublisherState.svelte.ts:23 | `trim` keeps a contiguous slice, cuts only ECMAScript whitespace and line terminators on either side, and leaves none at either end |
| Strings.TrimIdempotent | src/lib/state/PublisherState.svelte.ts:23 | trimming a trimmed name changes nothing |
| Languages.GetTranslation | src/lib/constants/languages.ts:56-58 | a listed code gets its table entry; any other code gets the English entry; the result is always a table entry |
| Languages.TranslationsWellFormed | src/lib/constants/languages.ts:1-53 | the table is keyed by exactly the supported codes; every translation, the fallback included, has five headers, an empty value `''` and distinct yes/no words |
| Languages.InstructionDeterminesTranslation | src/lib/constants/languages.ts:24-53 | two codes get the same language instruction exactly when they get the same translation (English, Swedish, Spanish and Latvian are pairwise distinct) |
| Prompts.CreateUserPrompt | src/lib/services/prompts/promptTemplates.ts:16-31 | the prompt opens with the message text verbatim between `<data>` tags, then holds the serialised roster names between `<publishers>` tags, and ends with the language's instruction |
| Prompts.TemplateParts | src/lib/services/prompts/promptTemplates.ts:24-30 | the data, publishers and language sections sit in that order at the start, after the data section, and at the end |
| Prompts.CreateUserPromptDefault | src/lib/services/prompts/promptTemplates.ts:19 | an omitted language is `'en'` |
| Prompts.UnknownLanguageIsEnglish | src/lib/services/prompts/promptTemplates.ts:22-30 | a code outside the table yields the same prompt as `en`, asking for English |
| Prompts.PromptDependsOnlyOnNames | src/lib/services/prompts/promptTemplates.ts:21 | two rosters with the same names in the same order give the same prompt |
| Prompts.PromptDeterminesMessages | src/lib/services/prompts/promptTemplates.ts:24-25 | under the same roster and language, two prompts are equal exactly when the message texts are |
| Prompts.GetSystemPrompt | src/lib/services/prompts/PromptService.ts:14-16 | the system prompt is the service's fixed constant |
| Prompts.GetPrompts | src/lib/services/prompts/PromptService.ts:38-47 | the pair is the fixed system prompt and `createUserPrompt` of the same three arguments |
| Prompts.SystemPromptIndependent | src/lib/services/prompts/PromptService.ts:43-46 | the system prompt of `getPrompts` is the same for all arguments |
| AiProviders.GetProviderById | src/lib/constants/aiProviders.ts:44-46 | an entry exists exactly for the four table keys, and its `id` is the key asked for |
| AiProviders.GetAvailableProviders | src/lib/constants/aiProviders.ts:48-50 | one entry per key, in declaration order |
| AiProviders.GetDefaultProvider | src/lib/constants/aiProviders.ts:52-54 | the `openai` entry, marked default |
| AiProviders.TableOrderIsKeys | src/lib/constants/aiProviders.ts:3-36 | the listing order names every key exactly once, and every entry's `id` is its own key |
| AiProviders.AvailableIsTable | src/lib/constants/aiProviders.ts:48-50 | an entry is listed exactly when it is in the table |
| AiProviders.OnlyOpenAIIsDefault | src/lib/constants/aiProviders.ts:4-35 | the only entry marked default is `openai`, the default provider |
| AiProviders.AzureIsTheDynamicEntry | src/lib/constants/aiProviders.ts:21-27 | exactly `azure` lacks a default endpoint, and it lists no models |
| Registry.RegisterProvider | src/lib/services/AIProviderRegistry.ts:23-25 | sets the tag's factory; a new tag goes last in the key order, an existing one keeps its place; the order stays a duplicate-free listing of the keys |
| Registry.NewRegistry | src/lib/services/AIProviderRegistry.ts:14-18 | the constructor registers `openai`, `anthropic`, `github` in that order, with `openai` building the OpenAI provider, `anthropic` the Anthropic adapter and `github` the GitHub Models adapter |
| Registry.Instantiate | src/lib/services/AIProviderRegistry.ts:15-17 | each factory call builds a new instance of its provider: an adapter in its initial unconfigured state, or an OpenAI or custom provider with no configuration |
| Registry.GetProvider | src/lib/services/AIProviderRegistry.ts:30-36 | succeeds exactly for registered tags, with the registered factory's product; otherwise fails with `Unknown AI provider: <tag>` |
| Registry.GetAvailableProviders | src/lib/services/AIProviderRegistry.ts:41-43 | lists exactly the registered tags, each once |
| Registry.AvailableInRegistrationOrder | src/lib/services/AIProviderRegistry.ts:23-43 | the listing is in `Map` insertion order: a new tag is appended, a re-registered tag keeps its place, and a new registry lists `openai`, `anthropic`, `github` |
| Registry.SupportedIffAvailable | src/lib/services/AIProviderRegistry.ts:41-59 | `IsProviderSupported` holds for a tag exactly when the available list names it |
| Registry.DefaultRegistration | src/lib/services/AIProviderRegistry.ts:14-18 | after construction exactly `openai`, `anthropic` and `github` are supported; `azure` is not, though the metadata table lists it |
| Registry.RegisteredUnderOwnTag | src/lib/services/AIProviderRegistry.ts:14-18 | each shipped adapter is registered under the tag its `validateConfig` demands |
| Registry.RegisterAffectsOnlyItsTag | src/lib/services/AIProviderRegistry.ts:23-25 | registering a tag changes the lookup of that tag only |
| Registry.ProviderIsFresh | src/lib/services/AIProviderRegistry.ts:30-36 | every lookup of an adapter hands out an unconfigured one |
| Registry.ConfigureProvider | src/lib/services/AIProviderRegistry.ts:48-52 | an adapter is configured exactly when its `validateConfig` accepts, else the configuration error; the result keeps config and client consistent |
| Registry.CreateService | src/lib/services/AIProviderRegistry.ts:48-52 | an unknown tag fails with the unknown-provider error; otherwise the registered product is built and configured |
| Registry.CreateServiceDefault | src/lib/services/AIProviderRegistry.ts:48-52 | on the default registry, `azure` is unknown, and `github`/`anthropic` succeed exactly for a non-empty key and model, with that adapter configured |
| ProviderErrors.OrElse | src/lib/services/providers/GitHubModelsProvider.ts:142 | `a \|\| b`: a non-empty value is kept, an empty one replaced |
| ProviderErrors.RenderStatus | src/lib/services/providers/GitHubModelsProvider.ts:164 | a rendered status never holds `)`, so the status in the message is delimited |
| ProviderErrors.RenderStatusInjective | src/lib/services/providers/GitHubModelsProvider.ts:164 | distinct statuses (absent included) render differently |
| ProviderErrors.RankOfFailureMessage | src/lib/services/providers/GitHubModelsProvider.ts:140-183 | every failure message can be read back to its class |
| ProviderErrors.FailureMessageInjective | src/lib/services/providers/GitHubModelsProvider.ts:138-184 | `FailureMessage` gives distinct classes, statuses or wrapped details distinct messages |
| ProviderErrors.WrappedMessageInjective | src/lib/services/providers/GitHubModelsProvider.ts:179-181 | the wrapped message determines the original error message |
| ProviderErrors.ServiceErrorShape | src/lib/services/providers/AnthropicProvider.ts:151-152 | the default status message is the service name, `service error (`, the status, `): ` and the detail |
| ProviderErrors.ServiceErrorMessageInjective | src/lib/services/providers/GitHubModelsProvider.ts:163-164 | the default status message determines both status and detail |
| ProviderErrors.AnthropicNoResponseMessage | src/lib/services/providers/AnthropicProvider.ts:166-168 | the wrapped no-response text reads `Failed to parse messages: No response from Anthropic` |
| ProviderErrors.StatusDecidesFirst | src/lib/services/providers/GitHubModelsProvider.ts:138-166 | `Classify` reads a thrown value's status before its class, whether or not it is an Error; the listed statuses ignore the message; 500 and 502–504 split as written |
| ProviderErrors.SyntaxAndNetworkDistinct | src/lib/services/providers/GitHubModelsProvider.ts:168-176 | a decoding failure and a `fetch` TypeError never yield the same message |
| Providers.ValidateConfigExclusive | src/lib/services/providers/GitHubModelsProvider.ts:28-33 | no configuration is accepted by both adapters |
| Providers.BaseUrl | src/lib/services/providers/GitHubModelsProvider.ts:92 | the endpoint when given and non-empty, else the adapter's default URL |
| Providers.CreateClient | src/lib/services/providers/GitHubModelsProvider.ts:85-96 | builds a client exactly when `validateConfig` accepts, with the key and base URL; otherwise `Invalid <name> configuration` |
| Providers.NewAdapter | src/lib/services/providers/GitHubModelsProvider.ts:23-26 | a constructed adapter has neither configuration nor client |
| Providers.Configure | src/lib/services/providers/GitHubModelsProvider.ts:188-194 | accepts exactly what `validateConfig` accepts; on success stores the configuration with the client built from it, otherwise throws the configuration error |
| Providers.TestConnection | src/lib/services/providers/GitHubModelsProvider.ts:35-83 | never throws; a rejected configuration reports `Invalid configuration` with no request; otherwise success exactly when the probe is answered, and a failure reports the probe error's message |
| Providers.TestedConfigConfigures | src/lib/services/providers/GitHubModelsProvider.ts:35-96 | a configuration that passes the probe is accepted by `configure`, whose client answered the probe |
| Providers.ConnectionStatusObject | src/lib/services/providers/GitHubModelsProvider.ts:56-75 | the probe reports a thrown plain object with a status exactly as an SDK error with that status |
| Providers.ConnectionAuthMessages | src/lib/services/providers/GitHubModelsProvider.ts:60-67 | 401 and 403 give fixed messages naming the credential: a token for GitHub Models, an API key for Anthropic (src/lib/services/providers/AnthropicProvider.ts:55-58) |
| Providers.ConnectionStatusMessages | src/lib/services/providers/AnthropicProvider.ts:50-65 | 429 and 404 give fixed messages; any status outside 401/403/429/404, 500 included, gives `Connection failed (<status>): <message>` |
| Providers.ParseRequest | src/lib/services/providers/GitHubModelsProvider.ts:114-128 | the request carries the client, the model, temperature 0.1, 4000 tokens, the user prompt last and the system prompt as first message or field |
| Providers.ExtractText | src/lib/services/providers/AnthropicProvider.ts:116-120 | refuses absent and non-text content (and, for GitHub Models, empty text) with `No response from <name>`; otherwise the text |
| Providers.ParseMessages | src/lib/services/providers/GitHubModelsProvider.ts:103-105 | an unconfigured adapter fails with `Provider not configured` |
| Providers.ParseOutcome | src/lib/services/providers/GitHubModelsProvider.ts:98-185 | a configured adapter fails exactly when the `try` block throws, with the message of that error's class, and otherwise returns the block's result |
| Providers.ParseFailsWith | src/lib/services/providers/GitHubModelsProvider.ts:138-184 | a block that throws `t` makes the call fail with the message of `t`'s class |
| Providers.ParseMessagesOutcomes | src/lib/services/providers/GitHubModelsProvider.ts:98-185 | a success is the reconciliation of some decoded answer against the roster passed in; a configured adapter's failure is one of the class messages |
| Providers.ConfiguredAdapterIsUsable | src/lib/services/providers/GitHubModelsProvider.ts:103-105 | once `configure` accepted, `parseMessages` never reports the adapter unconfigured |
| Providers.NoResponseSurfacesWrapped | src/lib/services/providers/AnthropicProvider.ts:116-168 | content without usable text surfaces as `Failed to parse messages: No response from <name>` |
| Providers.AttemptNoText | src/lib/services/providers/AnthropicProvider.ts:116-120 | an answer without usable text makes the block throw the no-response error |
| Providers.SyntaxErrorIsInvalidFormat | src/lib/services/providers/GitHubModelsProvider.ts:168-171 | text the decoder rejects with a SyntaxError surfaces as the invalid-format message |
| Providers.AttemptRejected | src/lib/services/providers/GitHubModelsProvider.ts:136-137 | a decoder error is what the block throws |
| Providers.SendFailureClassified | src/lib/services/providers/GitHubModelsProvider.ts:113-184 | whatever the SDK throws surfaces as its class's message |
| Providers.ParseSucceeds | src/lib/services/providers/GitHubModelsProvider.ts:136-137 | a decoded answer is reconciled against the roster passed in |
| Reconcile.LookupLastWins | src/lib/services/providers/GitHubModelsProvider.ts:206-208 | the lookup has a key exactly when some roster entry lowercases to it, and maps it to the last such entry's id |
| Reconcile.Fold | src/lib/services/providers/GitHubModelsProvider.ts:210-248 | one report per candidate; one id drawn per report plus one per minted publisher |
| Reconcile.FoldLookup | src/lib/services/providers/GitHubModelsProvider.ts:206-223 | the lookup is always that of the roster followed by the publishers minted so far |
| Reconcile.FoldPrefix | src/lib/services/providers/GitHubModelsProvider.ts:210-248 | processing more candidates only extends the reports and minted publishers, so reports follow candidate order |
| Reconcile.FoldCarries | src/lib/services/providers/GitHubModelsProvider.ts:230-238 | every report carries its candidate's flag, hours, studies, comment (missing becomes `''`) and the call's timestamp |
| Reconcile.ResolvedIdKnown | src/lib/services/providers/GitHubModelsProvider.ts:224-226 | a looked-up id belongs to the roster or to a publisher minted earlier |
| Reconcile.FoldIntegrity | src/lib/services/providers/GitHubModelsProvider.ts:210-239 | every report points to a roster publisher or a minted one |
| Reconcile.FoldMetadataKeys | src/lib/services/providers/GitHubModelsProvider.ts:241-247 | the metadata keys are exactly the reports' publisher ids |
| Reconcile.FoldMintedNames | src/lib/services/providers/GitHubModelsProvider.ts:217-221 | every minted publisher has a candidate's original-case name and the call's timestamp |
| Reconcile.Convert | src/lib/services/providers/GitHubModelsProvider.ts:196-256 | one report per candidate in order, carrying its fields; referential integrity; metadata keyed by the reports' publisher ids; reasoning passed through; empty input gives empty outputs |
| Reconcile.LookupLoop | src/lib/services/providers/GitHubModelsProvider.ts:205-208 | the roster `forEach` builds the last-wins lookup |
| Reconcile.ConvertLoop | src/lib/services/providers/AnthropicProvider.ts:184-244 | the code's two loops compute the fold |
| Reconcile.PushCandidate | src/lib/services/providers/GitHubModelsProvider.ts:210-248 | one turn of the candidate `forEach` is one fold step |
| ReconcileProofs.ResolvedAt | src/lib/services/providers/GitHubModelsProvider.ts:210-226 | a new or unmatched candidate mints one publisher with its own name and the next id, which its report uses; otherwise nothing is minted and the report points to the last matching roster-or-minted entry |
| ReconcileProofs.MintsIff | src/lib/services/providers/GitHubModelsProvider.ts:214 | a candidate mints exactly when it is marked new or its lowercased name is unknown so far |
| ReconcileProofs.MetadataLastWins | src/lib/services/providers/GitHubModelsProvider.ts:242-247 | a publisher's metadata is the provenance of the last candidate resolved to it |
| ReconcileProofs.ConvertMetadata | src/lib/services/providers/AnthropicProvider.ts:230-242 | the metadata is keyed by the reports' publisher ids, each value from the last candidate resolved there |
| ReconcileProofs.FoldDrawsBelow | src/lib/services/providers/GitHubModelsProvider.ts:216-231 | every minted publisher id and report id was drawn from the id supply |
| ReconcileProofs.FoldDrawsDistinct | src/lib/services/providers/GitHubModelsProvider.ts:216-231 | with a non-repeating supply, minted and report ids are pairwise distinct |
| ReconcileProofs.FoldIdsFresh | src/lib/services/providers/GitHubModelsProvider.ts:216-231 | a supply that avoids roster ids gives new ids outside the roster |
| ReconcileProofs.ConvertIdsFresh | src/lib/services/providers/AnthropicProvider.ts:184-244 | under a fresh non-repeating supply, minted ids clash with no roster id and all new ids are distinct |
| ReconcileProofs.CaseInsensitiveMatch | src/lib/services/providers/AnthropicProvider.ts:194-215 | a non-new candidate matching a roster name in lowercase resolves to the last such entry and mints nothing |
| ReconcileProofs.LaterRosterEntryWins | src/lib/services/providers/GitHubModelsProvider.ts:206-208 | of two roster entries lowercasing alike, a match resolves to the later |
| ReconcileProofs.MintedNameReused | src/lib/services/providers/GitHubModelsProvider.ts:214-226 | a minted name is reused by a later non-new candidate with the same lowercased name, even when it duplicates a roster name |
| ReconcileProofs.IsNewAlwaysMints | src/lib/services/providers/GitHubModelsProvider.ts:214-223 | a candidate marked new mints a fresh publisher even when the roster holds its name |
| AIService.NewService | src/lib/services/AIService.ts:28-37 | an empty key fails with `AI API key not configured`; any other key builds the fixed-URL client, and the service keeps its own system prompt |
| AIService.TemplateExtendsLegacy | src/lib/services/AIService.ts:42-46 | the legacy prompt is the shared template without the language line, hence its prefix |
| AIService.LegacyRequestIsAdapterRequest | src/lib/services/AIService.ts:49-63 | the legacy request is the GitHub Models adapter's request for model `gpt-4.1` |
| AIService.LegacyExtract | src/lib/services/AIService.ts:65-69 | absent and empty content throw `No response from AI service`; otherwise the text |
| AIService.LegacyExtractAgrees | src/lib/services/AIService.ts:65-69 | it refuses exactly what the GitHub Models adapter refuses |
| AIService.LegacyFoldLockstep | src/lib/services/AIService.ts:138-176 | the legacy fold keeps the adapters' lookup, minted publishers and draws, with reports equal up to `studies` |
| AIService.LegacyMatchesCore | src/lib/services/AIService.ts:134-179 | `LegacyConvert` yields the adapters' minted publishers and their reports without `studies`, and no metadata |
| AIService.LegacyFailureMessage | src/lib/services/AIService.ts:73-78 | every Error is wrapped behind `Failed to parse messages: `, and exactly the non-Errors, a plain object with a status among them, give the unknown-error message |
| AIService.LegacyParseMessages | src/lib/services/AIService.ts:39-79 | every failure is wrapped or the unknown-error message |
| AIService.LegacySentRequest | src/lib/services/AIService.ts:49-63 | the request carries the service's client, `gpt-4.1`, no separate system field, and the messages: the service's own system prompt, then the legacy user prompt |
| AIService.LegacyIgnoresPromptService | src/lib/services/AIService.ts:49-63 | the shared prompt service plays no part: replacing it changes neither the request nor the outcome |
| AIService.LegacyFailureMessageInjective | src/lib/services/AIService.ts:74-76 | the wrapped message determines the original message |
| AIService.LegacySendFailure | src/lib/services/AIService.ts:48-78 | an SDK error surfaces wrapped, with no status classification |
| AIService.LegacyNoResponseWrapped | src/lib/services/AIService.ts:65-75 | missing content surfaces as `Failed to parse messages: No response from AI service` |
| AIService.LegacyParseSucceeds | src/lib/services/AIService.ts:71-72 | a decoded answer is reconciled against the roster passed in |
| AIService.StatusObjectReadsDifferently | src/lib/services/AIService.ts:73-77 | a plain object with status 429 gets the adapters' rate-limit message but the legacy unknown-error message, unlike an Error with that status |
| AIService.RateLimitReadsDifferently | src/lib/services/AIService.ts:73-76 | a 429 reads as the wrapped SDK message here and differently from the adapters' message |
| Export.EscapeCSV | src/lib/services/ExportService.ts:63-68 | the value is unchanged exactly when it holds no comma, quote or line feed; otherwise it is enclosed in quotes |
| Export.UndoubleDoubleQuotes | src/lib/services/ExportService.ts:65 | reading `""` back as `"` undoes the quote doubling |
| Export.EscapeCSVRoundTrip | src/lib/services/ExportService.ts:63-68 | stripping the quotes and undoubling recovers the value |
| Export.FieldOfEscaped | src/lib/services/ExportService.ts:63-68 | an escaped value followed by a comma, line feed or the end reads back as that field |
| Export.RecordOfEscaped | src/lib/services/ExportService.ts:9-14 | escaped values joined by commas read back as the values |
| Export.RecordsOfLines | src/lib/services/ExportService.ts:6-16 | records of escaped values joined by line feeds read back as the records |
| Export.ActiveCell | src/lib/services/ExportService.ts:11 | `''` exactly when undefined; `Yes` exactly when true |
| Export.HoursCell | src/lib/services/ExportService.ts:12 | `''` when missing, else the number's rendering |
| Export.CsvLines | src/lib/services/ExportService.ts:8-15 | one line per row, in order |
| Export.CsvLineIsRecord | src/lib/services/ExportService.ts:9-14 | a row's line is its four values escaped and comma-joined |
| Export.CsvRoundTrip | src/lib/services/ExportService.ts:4-19 | `ExportToCsv`'s file reads back, through an independent CSV reader, as the header record followed by each row's name, Active cell, Hours cell and comment, in order |
| Export.CsvStartsWithHeader | src/lib/services/ExportService.ts:5-7 | the file opens with `Name,Active,Hours,Comment` |
| Export.EscapeXMLChar | src/lib/services/ExportService.ts:70-77 | one character escapes to its predefined entity, or to itself |
| Export.EscapeXMLConcat | src/lib/services/ExportService.ts:70-77 | escaping distributes over concatenation |
| Export.EscapeXMLIsEscapeEach | src/lib/services/ExportService.ts:70-77 | the five sequential passes equal the one-pass entity replacement, so nothing is escaped twice |
| Export.EscapeXMLWellEscaped | src/lib/services/ExportService.ts:70-77 | the output has no raw `<`, `>`, `"` or `'`, and every `&` opens a predefined entity |
| Export.EscapeXMLIdentity | src/lib/services/ExportService.ts:70-77 | a string with none of the five characters is unchanged |
| Export.EscapeXMLRoundTrip | src/lib/services/ExportService.ts:70-77 | decoding the five entities inverts `EscapeXML` |
| Export.ExportToExcelLoop | src/lib/services/ExportService.ts:21-61 | the appending code builds the prelude, the header row, one row per element in order, and the epilogue |
| Export.AppendHeaderCells | src/lib/services/ExportService.ts:37-40 | the header loop appends the four string cells, then `</Row>` |
| Export.AppendRows | src/lib/services/ExportService.ts:42-53 | the data loop appends each row's markup in order |
| SheetReader.DocumentRoundTrip | src/lib/services/ExportService.ts:24-58 | a document of header cells and rows whose types hold no quote and whose contents hold no tag reads back as each row's decoded cell values, header first, in order |
| ExcelReadBack.ExcelRoundTrip | src/lib/services/ExportService.ts:21-61 | `ExportToExcel`'s file reads back, through an independent SpreadsheetML reader, as the header row followed by each row's name, Active cell, Hours cell and comment, in order, with the escapes decoded |
| ExcelReadBack.ExcelIsDocument | src/lib/services/ExportService.ts:24-58 | the exported file is exactly the reader's document of the four header cells and the rows' typed cells |
| Export.XmlRowsSnoc | src/lib/services/ExportService.ts:42-53 | one more row appends exactly its markup |
| ReportState.Overlay | src/lib/state/ReportState.svelte.ts:28-30 | a key present in the patch wins, an absent key keeps the base |
| ReportState.FindIndex | src/lib/state/ReportState.svelte.ts:23 | the first report of the publisher, or -1 exactly when it has none |
| ReportState.UpdateReport | src/lib/state/ReportState.svelte.ts:19-47 | a present publisher's first report alone changes: id and publisher kept, supplied fields overwritten, others kept, time refreshed; an absent one gets one appended report with the fresh id and only the supplied fields |
| ReportState.ClearReportsData | src/lib/state/ReportState.svelte.ts:49-60 | order, ids and publishers kept; the four data fields undefined; time refreshed |
| ReportState.GetReportByPublisher | src/lib/state/ReportState.svelte.ts:62-64 | none exactly when no report has the publisher; otherwise one of its reports |
| ReportState.DeleteReportsByPublisher | src/lib/state/ReportState.svelte.ts:66-69 | exactly the publisher's reports are removed |
| ReportState.GetIsFindIndex | src/lib/state/ReportState.svelte.ts:62-64 | the lookup returns the first report of the publisher |
| ReportState.GetAfterUpdate | src/lib/state/ReportState.svelte.ts:19-64 | after an update the lookup returns a report of that publisher carrying the supplied fields |
| ReportState.UpdateLeavesOthers | src/lib/state/ReportState.svelte.ts:19-64 | an update leaves every other publisher's lookup unchanged |
| ReportState.UpdateKeepsOnePerPublisher | src/lib/state/ReportState.svelte.ts:19-47 | updates keep at most one report per publisher |
| ReportState.DeleteDistributes | src/lib/state/ReportState.svelte.ts:66-69 | deleting distributes over concatenation, so the survivors keep their order |
| ReportState.GetAfterDelete | src/lib/state/ReportState.svelte.ts:62-69 | after deleting, the publisher has no report and others' lookups are unchanged |
| ReportState.ClearIdempotent | src/lib/state/ReportState.svelte.ts:49-60 | clearing twice is clearing once at the later time |
| ReportState.GetAfterClear | src/lib/state/ReportState.svelte.ts:49-64 | clearing keeps each lookup on the same report, now emptied |
| PublisherState.Merge | src/lib/state/PublisherState.svelte.ts:39 | each field given in the patch wins, the others are kept |
| PublisherState.FindIndex | src/lib/state/PublisherState.svelte.ts:37 | the first entry with the id, or -1 exactly when the id is absent |
| PublisherState.AddPublisher | src/lib/state/PublisherState.svelte.ts:20-29 | appends exactly one publisher with the fresh id, the time and the trimmed name; existing entries unchanged |
| PublisherState.Remove | src/lib/state/PublisherState.svelte.ts:32 | keeps exactly the entries with another id |
| PublisherState.DeletePublisher | src/lib/state/PublisherState.svelte.ts:31-34 | the entries left are exactly the old entries with another id, unchanged, and no more of them; the ids left are the old ids without the deleted one; order is kept by `RemoveDistributes` |
| PublisherState.UpdatePublisher | src/lib/state/PublisherState.svelte.ts:36-42 | an unknown id changes nothing; a known id merges the first match only, length kept |
| PublisherState.ToggleEditMode | src/lib/state/PublisherState.svelte.ts:44-46 | negates the flag, roster kept |
| PublisherState.ToggleTwice | src/lib/state/PublisherState.svelte.ts:44-46 | toggling twice restores the store |
| PublisherState.RemoveDistributes | src/lib/state/PublisherState.svelte.ts:32 | deleting distributes over concatenation, so the rest keeps its order |
| PublisherState.RemoveAbsent | src/lib/state/PublisherState.svelte.ts:32 | deleting an absent id changes nothing |
| PublisherState.AddThenDelete | src/lib/state/PublisherState.svelte.ts:20-34 | deleting a just-added publisher with a fresh id restores the store |
| PublisherState.UpdateKeepsIds | src/lib/state/PublisherState.svelte.ts:36-42 | an update giving no id keeps every id |
| PublisherState.MergeIdempotent | src/lib/state/PublisherState.svelte.ts:39 | merging a patch twice is merging it once |
| PublisherState.UpdateIdempotent | src/lib/state/PublisherState.svelte.ts:36-42 | repeating an update that gives no id changes nothing more |
| CardViewState.ToggleExpansion | src/lib/state/CardViewState.svelte.ts:6-25 | stated in terms of `IsExpanded` (the `has` test): a toggle flips the card; collapsing leaves the others; expanding makes the card the only expanded one |
| CardViewState.CollapseAll | src/lib/state/CardViewState.svelte.ts:18-21 | nothing is expanded |
| CardViewState.ApplyKeepsSingle | src/lib/state/CardViewState.svelte.ts:6-21 | each operation keeps at most one card expanded |
| CardViewState.SingleExpansion | src/lib/state/CardViewState.svelte.ts:6-21 | from at most one expanded card, any sequence of toggles and collapses leaves at most one |
| CardViewState.ToggleTwice | src/lib/state/CardViewState.svelte.ts:6-16 | toggling a card twice restores an expanded card and otherwise collapses all |

## Left out

- The SDK and network calls are left out. The send function `Deps.send` is an input returning an answer (absent, text or non-text content) or a thrown value. A thrown value is an Error with an optional status, a non-Error object with a status, a SyntaxError, a TypeError, another Error, or any other non-Error. A thrown value is told apart only by these features; its other properties are not modelled.
- `JSON.parse` and `JSON.stringify` are input functions (`Deps.parse`, `toJson`). The decoded answer is already a datatype.
- `crypto.randomUUID()` is an id supply `nat -> Id`, drawn in the code's order: publisher id first, then report id.
- `new Date()` is one `now` per call, where the code reads the clock several times in one call.
- `toLowerCase` is an uninterpreted function. Properties speak only of equality of its results.
- The stores' `save*`/`load*` calls are left out, and so are IndexedDB and local storage. So is the point that `updatePublisher` skips saving for an unknown id.
- Svelte `$state` reactivity is left out.
- `AppState` and `SettingsState` are left out. The text of `systemPrompts.ts` is a value the prompt service carries. The legacy service's own `getSystemPrompt` text (AIService.ts:81-132) is a different value, and its `Service` carries it; the two texts differ (the legacy one asks for every known publisher to be listed), and neither text is modelled.
- `downloadFile` is left out.
- The OpenAI provider is not part of this model. Its `configure` outcome is a parameter of `Registry.CreateService`.
- The Azure-only configuration fields, the extra headers and `AZURE_API_VERSIONS` are left out: no modelled code reads them.
- Table lookups are finite maps, so JavaScript prototype keys such as `constructor` are not modelled.
- The exports take number formatting as a parameter `fmt`.
- Export.CsvRoundTrip assumes that numbers render without commas, quotes or line feeds (`PlainNumbers`). This holds of JavaScript number rendering, which is not modelled.
- ExcelReadBack.ExcelRoundTrip assumes that numbers render without `<` or `&` (`XmlPlainNumbers`), for the same reason. The reader skips the value of each cell's `ss:Type` attribute, accepting any value without a quote, and does not return it, and it reads no XML beyond the markup this file uses.
- The CSV joins lines with `\n`, as the code does. RFC 4180 asks for CRLF, and a value holding a lone `\r` is not quoted; the read-back reader treats `\r` as an ordinary character.
- The exports use the fixed English headers and drop `studies`, as the code does. The translated headers in `Languages` are not used by them.
- ProviderErrors.Classify takes a status as absent or a natural number. A non-numeric or negative `status` property is not modelled.
- ReportState.UpdateReport models a patch key as absent, present, or present-and-`undefined` (`Option<Option<_>>`). PublisherState.Merge has only absent or present. An explicit `undefined` in a `Partial<Publisher>` is not modelled.
- PublisherState.UpdateIdempotent and PublisherState.UpdateKeepsIds require a patch that gives no `id`: a patch that renames the id moves the entry out of its own lookup.
- Providers.ParseMessages returns the result only. It does not return the adapter, so the client the code caches lazily is not returned; for a consistent adapter the cached client equals the one built on the spot.
- Providers.NoResponseSurfacesWrapped and Providers.SyntaxErrorIsInvalidFormat state the outcome as a message class, `FailureMessage(backend, kind)`. `ProviderErrors` proves each class's message apart from every other.
