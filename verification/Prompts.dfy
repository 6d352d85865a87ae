/** The user-prompt template of `src/lib/services/prompts/promptTemplates.ts`
    and the delegating `PromptService` of `PromptService.ts`. `JSON.stringify`
    of the roster names is the parameter `toJson`; the fixed system prompt is
    the value a `PromptService` carries. */
module Prompts {
  import opened Strings
  import opened Types
  import opened Languages

  /** The language code used when a caller passes none. */
  const DefaultLanguage := "en"

  /** The fixed pieces of the template, in order. */
  const DataOpen := "Extract data from the following message data:\n<data>"
  const DataClose := "</data>"
  const PublishersOpen := "\n\nusing this list with publisher names:\n<publishers>"
  const PublishersClose := "</publishers>"
  const LanguageOpen := "\n\nIMPORTANT: Output all text content (names, comments, reasoning) in "
  const LanguageClose := "."

  /** The prompt as three sections: the framed message text, the framed
      serialised roster names, and the closing language instruction. */
  function Template(messages: string, namesJson: string, instruction: string): string {
    DataSection(messages) + PublishersSection(namesJson) + LanguageSection(instruction)
  }

  function DataSection(messages: string): string {
    DataOpen + messages + DataClose
  }

  function PublishersSection(namesJson: string): string {
    PublishersOpen + namesJson + PublishersClose
  }

  function LanguageSection(instruction: string): string {
    LanguageOpen + instruction + LanguageClose
  }

  /** `createUserPrompt(messages, publishers, language)`. The prompt opens with
      the message text between `<data>` and `</data>`, then the serialised
      roster names between `<publishers>` tags, and ends with the language's
      instruction. */
  function CreateUserPrompt(toJson: seq<string> -> string, messages: string, publishers: seq<Publisher>, language: string): (p: string)
    ensures IsPrefix(DataSection(messages), p)
    ensures var start := |DataSection(messages)|;
      && start + |PublishersSection(toJson(Names(publishers)))| <= |p|
      && p[start..start + |PublishersSection(toJson(Names(publishers)))|] == PublishersSection(toJson(Names(publishers)))
    ensures var tail := LanguageSection(GetTranslation(language).languageInstruction);
      |tail| <= |p| && p[|p| - |tail|..] == tail
  {
    var namesJson := toJson(Names(publishers));
    var instruction := GetTranslation(language).languageInstruction;
    TemplateParts(messages, namesJson, instruction);
    Template(messages, namesJson, instruction)
  }

  /** The three sections sit in order in the template. */
  lemma TemplateParts(messages: string, namesJson: string, instruction: string)
    ensures var p := Template(messages, namesJson, instruction);
      var d := DataSection(messages);
      var j := PublishersSection(namesJson);
      var l := LanguageSection(instruction);
      && IsPrefix(d, p) && |d| + |j| <= |p| && p[|d|..|d| + |j|] == j
      && |l| <= |p| && p[|p| - |l|..] == l
  {
    ThreeParts(DataSection(messages), PublishersSection(namesJson), LanguageSection(instruction));
  }

  /** `createUserPrompt` with the language argument omitted. */
  function CreateUserPromptDefault(toJson: seq<string> -> string, messages: string, publishers: seq<Publisher>): (p: string)
    ensures p == CreateUserPrompt(toJson, messages, publishers, DefaultLanguage)
  {
    CreateUserPrompt(toJson, messages, publishers, DefaultLanguage)
  }

  /** The prompt names the language's instruction; a code outside the table
      asks for English, exactly as `en` does. */
  lemma UnknownLanguageIsEnglish(toJson: seq<string> -> string, messages: string, publishers: seq<Publisher>, language: string)
    requires language !in Translations
    ensures CreateUserPrompt(toJson, messages, publishers, language)
         == CreateUserPrompt(toJson, messages, publishers, DefaultLanguage)
    ensures CreateUserPrompt(toJson, messages, publishers, language)
         == Template(messages, toJson(Names(publishers)), "English")
  {
  }

  /** Two rosters with the same names in the same order give the same prompt:
      ids and creation dates never reach the service. */
  lemma {:induction false} PromptDependsOnlyOnNames(toJson: seq<string> -> string, messages: string, p1: seq<Publisher>, p2: seq<Publisher>, language: string)
    requires |p1| == |p2|
    requires forall i :: 0 <= i < |p1| ==> p1[i].name == p2[i].name
    ensures CreateUserPrompt(toJson, messages, p1, language) == CreateUserPrompt(toJson, messages, p2, language)
  {
    assert Names(p1) == Names(p2);
  }

  /** Everything of the prompt after the message text. */
  function AfterMessages(namesJson: string, instruction: string): string {
    DataClose + PublishersSection(namesJson) + LanguageSection(instruction)
  }

  lemma TemplateShape(messages: string, namesJson: string, instruction: string)
    ensures Template(messages, namesJson, instruction) == DataOpen + messages + AfterMessages(namesJson, instruction)
  {
    Regroup(DataOpen, messages, DataClose, PublishersSection(namesJson), LanguageSection(instruction));
  }

  /** Different message texts give different prompts under the same roster
      and language: the message text is recoverable from the prompt. */
  lemma {:induction false} PromptDeterminesMessages(toJson: seq<string> -> string, m1: string, m2: string, publishers: seq<Publisher>, language: string)
    ensures CreateUserPrompt(toJson, m1, publishers, language) == CreateUserPrompt(toJson, m2, publishers, language)
        <==> m1 == m2
  {
    var json, instruction := toJson(Names(publishers)), GetTranslation(language).languageInstruction;
    TemplateShape(m1, json, instruction);
    TemplateShape(m2, json, instruction);
    FrameCancel(DataOpen, m1, m2, AfterMessages(json, instruction));
  }

  /** `PromptService`: the fixed system prompt and the shared user template. */
  datatype PromptService = PromptService(systemPrompt: string)

  datatype PromptPair = PromptPair(systemPrompt: string, userPrompt: string)

  /** `getSystemPrompt`: the constant, whatever the call. */
  function GetSystemPrompt(service: PromptService): (s: string)
    ensures s == service.systemPrompt
  {
    service.systemPrompt
  }

  /** `getPrompts`: the constant system prompt beside the template applied to
      the same three arguments. */
  function GetPrompts(service: PromptService, toJson: seq<string> -> string, messages: string, publishers: seq<Publisher>, language: string): (r: PromptPair)
    ensures r.systemPrompt == GetSystemPrompt(service)
    ensures r.userPrompt == CreateUserPrompt(toJson, messages, publishers, language)
  {
    PromptPair(GetSystemPrompt(service), CreateUserPrompt(toJson, messages, publishers, language))
  }

  /** The system prompt of `getPrompts` ignores every argument. */
  lemma SystemPromptIndependent(service: PromptService, toJson: seq<string> -> string,
                                m1: string, p1: seq<Publisher>, l1: string,
                                m2: string, p2: seq<Publisher>, l2: string)
    ensures GetPrompts(service, toJson, m1, p1, l1).systemPrompt == GetPrompts(service, toJson, m2, p2, l2).systemPrompt
  {
  }
}
