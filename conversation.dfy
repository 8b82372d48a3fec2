/** Answering a question about a notebook: retrieve the relevant passages,
    build the task prompt around them, pick the language model and ask it.
    The configuration files, the embedding, the search and the model call
    are inputs. */
module ConversationManager {
  import opened Wrappers
  import opened PyText
  import opened PromptBuilder
  import opened VectorStoreManager

  const NoInformationMessage := "I couldn't find any relevant information in this notebook to answer your question."
  const DefaultProvider := "groq"
  const DefaultModel := "meta-llama/llama-4-scout-17b-16e-instruct"
  const RagPromptKey := "rag_assistant_prompt"
  const SystemPromptKey := "ai_assistant_system_prompt_advanced"
  const NoteOpening := "You are assisting with the notebook '"
  const NoteClosing := "'."
  const DefaultNResults := 5
  const DefaultThreshold := 0.3

  /** The language model chosen by `get_llm`. */
  datatype Llm = Groq(model: string) | Ollama(model: string)

  /** What the configuration files provide: the `llm` section of the app
      configuration and the prompt templates by name. */
  datatype Configs = Configs(llm: map<string, string>, prompts: map<string, PromptConfig>)

  /** The outside services: embedding of the query, the nearest-neighbour
      search of a collection, and the model call. */
  datatype Services = Services(embedQuery: string -> Embedding,
                               search: (seq<Entry>, Embedding, int) -> seq<Hit>,
                               invoke: (Llm, string) -> Result<string>)

  /** `d.get(key, default)` on a string map. */
  function Get(d: map<string, string>, key: string, default: string): string {
    if key in d then d[key] else default
  }

  /** The provider after defaulting: an empty (or absent) provider falls back
      to the configured one, and that to `groq`. */
  function ResolvedProvider(provider: string, llmConfig: map<string, string>): string {
    if provider == "" then Get(llmConfig, "provider", DefaultProvider) else provider
  }

  /** The model after defaulting, in the same way. */
  function ResolvedModel(modelName: string, llmConfig: map<string, string>): string {
    if modelName == "" then Get(llmConfig, "model", DefaultModel) else modelName
  }

  /** `get_llm(provider, model_name)`; the empty string stands for `None`. */
  function GetLlm(provider: string, modelName: string, llmConfig: map<string, string>): (r: Result<Llm>)
    ensures r.Err? ==> r == Err(InvalidProvider)
    ensures r.Ok? ==> r.value.model == ResolvedModel(modelName, llmConfig)
  {
    var p := ResolvedProvider(provider, llmConfig);
    var m := ResolvedModel(modelName, llmConfig);
    if p == "groq" then Ok(Groq(m))
    else if p == "ollama" then Ok(Ollama(m))
    else Err(InvalidProvider)
  }

  /** A model is chosen exactly for the two known providers, and it carries
      the resolved model name; with nothing given and nothing configured it
      is Groq with the default model. */
  lemma GetLlmDispatch(provider: string, modelName: string, llmConfig: map<string, string>)
    ensures var p := ResolvedProvider(provider, llmConfig);
            (GetLlm(provider, modelName, llmConfig).Ok? <==> p == "groq" || p == "ollama")
            && (p == "groq" ==> GetLlm(provider, modelName, llmConfig) == Ok(Groq(ResolvedModel(modelName, llmConfig))))
            && (p == "ollama" ==> GetLlm(provider, modelName, llmConfig) == Ok(Ollama(ResolvedModel(modelName, llmConfig))))
            && (p != "groq" && p != "ollama" ==> GetLlm(provider, modelName, llmConfig) == Err(InvalidProvider))
    ensures GetLlm("", "", map[]) == Ok(Groq(DefaultModel))
  {
  }

  /** A provider or model given by the caller wins over the configuration. */
  lemma GivenProviderWins(provider: string, modelName: string, llmConfig: map<string, string>)
    requires provider != "" && modelName != ""
    ensures ResolvedProvider(provider, llmConfig) == provider
    ensures ResolvedModel(modelName, llmConfig) == modelName
  {
  }

  /** The input data handed to the prompt: the retrieved passages as a
      Python list, then the question. */
  function RagInput(documents: seq<string>, query: string): string {
    "Relevant documents:\n\n" + PyListRepr(documents) + "\n\nUser's question:\n\n" + query
  }

  /** `prompt_config.get(key, {})`. */
  function Template(prompts: map<string, PromptConfig>, key: string): PromptConfig {
    if key in prompts then prompts[key] else map[]
  }

  /** `respond_to_query(notebook, query, n_results, threshold, provider,
      model_name)`. */
  function RespondToQuery(configs: Configs, services: Services, storage: map<string, seq<Entry>>,
                          notebook: string, query: string, nResults: int := DefaultNResults,
                          threshold: real := DefaultThreshold, provider: string := "",
                          modelName: string := ""): (r: Result<string>)
    ensures r.Ok? ==> notebook in storage
    ensures r.Ok? && r.value != NoInformationMessage ==> GetLlm(provider, modelName, configs.llm).Ok?
  {
    var documents :- RetrieveRelevant(storage, notebook, query, nResults, threshold,
                                      services.embedQuery, services.search);
    if documents == [] then Ok(NoInformationMessage)
    else
      var prompt :- TaskPrompt(Template(configs.prompts, RagPromptKey), RagInput(documents, query), None);
      var llm :- GetLlm(provider, modelName, configs.llm);
      services.invoke(llm, prompt)
  }

  /** An empty retrieval answers with the fixed message, whatever the
      provider, the configuration and the model call: no prompt is built and
      no model is chosen. */
  lemma EmptyRetrievalShortCircuits(storage: map<string, seq<Entry>>, notebook: string, query: string,
                                    nResults: int, threshold: real, provider: string, modelName: string,
                                    configs: Configs, services: Services)
    requires RetrieveRelevant(storage, notebook, query, nResults, threshold,
                              services.embedQuery, services.search) == Ok([])
    ensures RespondToQuery(configs, services, storage, notebook, query, nResults, threshold, provider, modelName)
            == Ok(NoInformationMessage)
  {
  }

  /** A notebook without storage raises the not-found error first. */
  lemma MissingNotebookFails(storage: map<string, seq<Entry>>, notebook: string, query: string,
                             nResults: int, threshold: real, provider: string, modelName: string,
                             configs: Configs, services: Services)
    requires notebook !in storage
    ensures RespondToQuery(configs, services, storage, notebook, query, nResults, threshold, provider, modelName)
            == Err(StorageNotFound(notebook))
  {
  }

  /** With passages found but no RAG template configured, the empty
      template makes prompt building raise the missing-instruction error,
      before any provider is looked at. */
  lemma MissingTemplateFails(storage: map<string, seq<Entry>>, notebook: string, query: string,
                             nResults: int, threshold: real, provider: string, modelName: string,
                             configs: Configs, services: Services)
    requires RetrieveRelevant(storage, notebook, query, nResults, threshold,
                              services.embedQuery, services.search).Ok?
    requires RetrieveRelevant(storage, notebook, query, nResults, threshold,
                              services.embedQuery, services.search).value != []
    requires RagPromptKey !in configs.prompts
    ensures RespondToQuery(configs, services, storage, notebook, query, nResults, threshold, provider, modelName)
            == Err(MissingField(InstructionKey))
  {
    var documents := RetrieveRelevant(storage, notebook, query, nResults, threshold,
                                      services.embedQuery, services.search).value;
    TaskPromptRequiresInstruction(map[], RagInput(documents, query), None);
  }

  /** With passages found and a usable template, an unknown provider is
      reported without calling any model; a known one gets exactly the
      built prompt, which ends with the task directive. */
  lemma ProviderCheckedAfterPrompt(storage: map<string, seq<Entry>>, notebook: string, query: string,
                                   nResults: int, threshold: real, provider: string, modelName: string,
                                   configs: Configs, services: Services)
    requires RetrieveRelevant(storage, notebook, query, nResults, threshold,
                              services.embedQuery, services.search).Ok?
    requires RetrieveRelevant(storage, notebook, query, nResults, threshold,
                              services.embedQuery, services.search).value != []
    requires TaskPrompt(Template(configs.prompts, RagPromptKey),
                        RagInput(RetrieveRelevant(storage, notebook, query, nResults, threshold,
                                                  services.embedQuery, services.search).value, query), None).Ok?
    ensures var documents := RetrieveRelevant(storage, notebook, query, nResults, threshold,
                                              services.embedQuery, services.search).value;
            var prompt := TaskPrompt(Template(configs.prompts, RagPromptKey), RagInput(documents, query), None).value;
            var answer := RespondToQuery(configs, services, storage, notebook, query, nResults, threshold, provider,
                                         modelName);
            (GetLlm(provider, modelName, configs.llm).Err? ==> answer == Err(InvalidProvider))
            && (GetLlm(provider, modelName, configs.llm).Ok? ==>
                  answer == services.invoke(GetLlm(provider, modelName, configs.llm).value, prompt)
                  && EndsWith(prompt, Directive))
  {
    var documents := RetrieveRelevant(storage, notebook, query, nResults, threshold,
                                      services.embedQuery, services.search).value;
    TaskPromptEndsWithDirective(Template(configs.prompts, RagPromptKey), RagInput(documents, query), None);
  }

  /** The RAG prompt holds the retrieved passages and the question once, fenced,
      right before the directive; everything before it is what the template
      alone yields. */
  lemma RagPromptCarriesInput(prompts: map<string, PromptConfig>, documents: seq<string>, query: string)
    requires TaskParts(Template(prompts, RagPromptKey), RagInput(documents, query), None).Ok?
    ensures TaskParts(Template(prompts, RagPromptKey), "", None).Ok?
    ensures var base := TaskParts(Template(prompts, RagPromptKey), "", None).value;
            TaskParts(Template(prompts, RagPromptKey), RagInput(documents, query), None).value
            == base[..|base| - 1] + [ContentFence(RagInput(documents, query)), Directive]
  {
    var template := Template(prompts, RagPromptKey);
    var input := RagInput(documents, query);
    TaskPartsTail(template, input, None);
    assert input[0] == 'R';
    assert InputParts(input) == [ContentFence(input)];
    StrategyOnlyWhenConfigured(template, None);
  }

  /** The document note naming the notebook. */
  function NotebookNote(notebook: string): string {
    NoteOpening + notebook + NoteClosing
  }

  /** `create_system_prompt(notebook)`. */
  function CreateSystemPrompt(prompts: map<string, PromptConfig>, notebook: string): (r: Result<string>)
    ensures r.Ok? ==> SystemPromptKey in prompts
  {
    SystemPrompt(Template(prompts, SystemPromptKey), NotebookNote(notebook))
  }

  /** Without the advanced system template the empty template raises the
      missing-role error. */
  lemma MissingSystemTemplateFails(prompts: map<string, PromptConfig>, notebook: string)
    requires SystemPromptKey !in prompts
    ensures CreateSystemPrompt(prompts, notebook) == Err(MissingField(RoleKey))
  {
    SystemPromptRequiresRole(map[], NotebookNote(notebook));
  }

  /** The note needs no stripping: it opens with a letter and closes with a
      full stop. */
  lemma NotebookNoteStripped(notebook: string)
    ensures Strip(NotebookNote(notebook)) == NotebookNote(notebook)
  {
    var note := NotebookNote(notebook);
    assert note[0] == 'Y';
    assert note[|note| - 1] == '.';
    StripUnchanged(note);
  }

  /** A system prompt built around a note that needs no stripping ends with
      the document block holding that note verbatim. */
  lemma SystemPromptEndsWithNote(config: PromptConfig, note: string)
    requires |note| > 0 && Strip(note) == note
    requires SystemPrompt(config, note).Ok?
    ensures EndsWith(SystemPrompt(config, note).value, DocumentOpening + note + DocumentClosing)
  {
    SystemPromptShape(config, note);
  }

  /** A produced system prompt ends with the document block holding, verbatim,
      the note that names the notebook. */
  lemma SystemPromptNamesNotebook(prompts: map<string, PromptConfig>, notebook: string)
    requires CreateSystemPrompt(prompts, notebook).Ok?
    ensures EndsWith(CreateSystemPrompt(prompts, notebook).value,
                     DocumentOpening + NotebookNote(notebook) + DocumentClosing)
  {
    NotebookNoteStripped(notebook);
    SystemPromptEndsWithNote(Template(prompts, SystemPromptKey), NotebookNote(notebook));
  }
}
