/** Prompt rendering from a prompt-template dictionary: the task prompt
    (`build_prompt_from_config`) and the system prompt
    (`build_system_prompt_from_config`). Both collect a list of parts and join
    it with a blank line. */
module PromptBuilder {
  import opened Wrappers
  import opened PyText

  /** A template field as it comes out of YAML: a string or a list of strings. */
  datatype Value = Str(s: string) | List(items: seq<string>)

  /** A prompt template: field name to value. */
  type PromptConfig = map<string, Value>

  /** The strategy table `app_config["reasoning_strategies"]`, present only when
      `app_config` itself is truthy (a missing table is the empty map). */
  type Strategies = map<string, Value>

  /** Python truthiness of a field value. */
  predicate Truthy(v: Value) {
    match v
    case Str(s) => s != ""
    case List(items) => items != []
  }

  /** `config.get(key)`. A missing key reads as the empty string: the source
      only ever tests a fetched value for truthiness before using it. */
  function Field(config: map<string, Value>, key: string): Value {
    if key in config then config[key] else Str("")
  }

  /** `f"{v}"` / `str(v)`: a string as itself, a list as its `repr`. */
  function Render(v: Value): string {
    match v
    case Str(s) => s
    case List(items) => PyListRepr(items)
  }

  /** The template fields read by the builders. */
  const RoleKey := "role"
  const InstructionKey := "instruction"
  const ContextKey := "context"
  const ConstraintsKey := "output_constraints"
  const ToneKey := "style_or_tone"
  const FormatKey := "output_format"
  const ExamplesKey := "examples"
  const GoalKey := "goal"
  const StrategyKey := "reasoning_strategy"

  const PartSeparator := "\n\n"
  const Directive := "Now perform the task as instructed above."
  const TaskLeadIn := "Your task is as follows:"
  const ContextLeadIn := "Here's some background that may help you:\n"
  const ConstraintsLeadIn := "Ensure your response follows these rules:"
  const ToneLeadIn := "Follow these style and tone guidelines in your response:"
  const FormatLeadIn := "Structure your response as follows:"
  const ExampleLabelStart := "Example "
  const ExamplesHeader := "Here are some examples to guide your response:"
  const GoalLeadIn := "Your goal is to achieve the following outcome:\n"
  const SystemConstraintsLeadIn := "Follow these important guidelines:"
  const SystemToneLeadIn := "Communication style:"
  const SystemFormatLeadIn := "Response formatting:"
  const SystemGoalLeadIn := "Your primary objective: "
  const ContentOpening := "Here is the content you need to work with:\n<<<BEGIN CONTENT>>>\n```\n"
  const ContentClosing := "\n```\n<<<END CONTENT>>>"
  // Written as two literals so that the first character stays in reach of
  // the verifier, which does not index into a literal this long.
  const DocumentOpening := "Base your responses " + "on this document content:\n\n=== DOCUMENT CONTENT ===\n"
  const DocumentClosing := "\n=== END DOCUMENT CONTENT ==="

  /** `lowercase_first_char`: the first character lowered, the rest untouched. */
  function LowercaseFirstChar(text: string): (r: string)
    ensures |r| == |text|
    ensures text != "" ==> r[1..] == text[1..]
    ensures text != "" ==> !IsUpperAscii(r[0]) && LowerAscii(r[0]) == LowerAscii(text[0])
  {
    if text != "" then [LowerAscii(text[0])] + text[1..] else text
  }

  lemma LowercaseFirstCharIdempotent(text: string)
    ensures LowercaseFirstChar(LowercaseFirstChar(text)) == LowercaseFirstChar(text)
  {
  }

  /** The `- item` lines of a list-valued section. */
  function Bullets(items: seq<string>): seq<string> {
    seq(|items|, i requires 0 <= i < |items| => "- " + items[i])
  }

  /** `format_prompt_section`: the lead-in, a line break, then the value. */
  function FormatPromptSection(leadIn: string, value: Value): (r: string)
    ensures leadIn + "\n" <= r
  {
    var formatted := match value
      case List(items) => Join(Bullets(items), "\n")
      case Str(s) => s;
    leadIn + "\n" + formatted
  }

  /** A string section is the lead-in line followed by the value; a list
      section, read back line by line, is the lead-in line followed by one
      `- item` line per item, in list order. */
  lemma FormatPromptSectionLines(leadIn: string, value: Value)
    ensures value.Str? ==> FormatPromptSection(leadIn, value)[|leadIn| + 1..] == value.s
    ensures value.List? && value.items != [] && '\n' !in leadIn
            && (forall i :: 0 <= i < |value.items| ==> '\n' !in value.items[i])
            ==> Split(FormatPromptSection(leadIn, value), '\n') == [leadIn] + Bullets(value.items)
  {
    if value.List? && value.items != [] && '\n' !in leadIn
       && (forall i :: 0 <= i < |value.items| ==> '\n' !in value.items[i]) {
      var lines := [leadIn] + Bullets(value.items);
      assert lines[1..] == Bullets(value.items);
      assert Join(lines, "\n") == FormatPromptSection(leadIn, value);
      forall i | 0 <= i < |lines|
        ensures '\n' !in lines[i]
      {
        if i > 0 {
          assert lines[i] == "- " + value.items[i - 1];
        }
      }
      SplitJoin(lines, '\n');
    }
  }

  /** The opening sentence built from the role. */
  function RoleSentence(role: string): string {
    "You are " + LowercaseFirstChar(Strip(role)) + "."
  }

  /** What the role contributes to a task prompt: nothing when absent, one
      sentence when it is a string; a list has no `strip` and raises. */
  function RoleParts(config: PromptConfig): Result<seq<string>> {
    var role := Field(config, RoleKey);
    if !Truthy(role) then Ok([])
    else if role.List? then Err(NotAString(RoleKey))
    else Ok([RoleSentence(role.s)])
  }

  /** A section rendered with `format_prompt_section`, when its field is truthy. */
  function SectionParts(config: PromptConfig, key: string, leadIn: string): seq<string> {
    var v := Field(config, key);
    if Truthy(v) then [FormatPromptSection(leadIn, v)] else []
  }

  /** A section rendered with an f-string, when its field is truthy. */
  function TextParts(config: PromptConfig, key: string, leadIn: string): seq<string> {
    var v := Field(config, key);
    if Truthy(v) then [leadIn + Render(v)] else []
  }

  /** The label of the `i`-th example, counting from 1. */
  function ExampleLabel(i: nat, example: string): string {
    ExampleLabelStart + NatToString(i) + ":\n" + example
  }

  function ExampleParts(items: seq<string>): seq<string> {
    seq(|items|, i requires 0 <= i < |items| => ExampleLabel(i + 1, items[i]))
  }

  /** Labelling one more example appends its label. */
  lemma ExamplePartsSnoc(items: seq<string>, i: nat)
    requires i < |items|
    ensures ExampleParts(items[..i + 1]) == ExampleParts(items[..i]) + [ExampleLabel(i + 1, items[i])]
  {
  }

  /** The examples section: a header part, then one part per example (a list)
      or the example text itself (a string). */
  function ExamplesSection(config: PromptConfig): seq<string> {
    var v := Field(config, ExamplesKey);
    if !Truthy(v) then []
    else [ExamplesHeader] + match v
      case List(items) => ExampleParts(items)
      case Str(s) => [s]
  }

  /** The fenced block holding the stripped input data. */
  function ContentFence(inputData: string): string {
    ContentOpening + Strip(inputData) + ContentClosing
  }

  function InputParts(inputData: string): seq<string> {
    if inputData != "" then [ContentFence(inputData)] else []
  }

  /** The condition under which the reasoning-strategy text is looked at:
      a truthy strategy name other than "None", and a truthy `app_config`. */
  predicate StrategyRequested(config: PromptConfig, strategies: Option<Strategies>) {
    var name := Field(config, StrategyKey);
    Truthy(name) && name != Str("None") && strategies.Some?
  }

  /** The reasoning-strategy part. A list used as a strategy name is not
      hashable, and a list found as strategy text has no `strip`: both raise. */
  function StrategyParts(config: PromptConfig, strategies: Option<Strategies>): Result<seq<string>> {
    var name := Field(config, StrategyKey);
    if !StrategyRequested(config, strategies) then Ok([])
    else if name.List? then Err(NotAString(StrategyKey))
    else
      var text := Field(strategies.value, name.s);
      if !Truthy(text) then Ok([])
      else if text.List? then Err(NotAString("reasoning_strategies"))
      else Ok([Strip(text.s)])
  }

  /** The sections taken from the template before the examples: the
      instruction, then context, constraints, tone and format when truthy. */
  function LeadingSections(config: PromptConfig): seq<string> {
    [FormatPromptSection(TaskLeadIn, Field(config, InstructionKey))]
    + TextParts(config, ContextKey, ContextLeadIn)
    + SectionParts(config, ConstraintsKey, ConstraintsLeadIn)
    + SectionParts(config, ToneKey, ToneLeadIn)
    + SectionParts(config, FormatKey, FormatLeadIn)
  }

  /** Every section the template itself yields after the role. */
  function TemplateSections(config: PromptConfig): seq<string> {
    LeadingSections(config) + ExamplesSection(config) + TextParts(config, GoalKey, GoalLeadIn)
  }

  /** The parts of a task prompt, in their fixed order. */
  function TaskParts(config: PromptConfig, inputData: string, strategies: Option<Strategies>): Result<seq<string>> {
    var role :- RoleParts(config);
    if !Truthy(Field(config, InstructionKey)) then Err(MissingField(InstructionKey))
    else
      var strategy :- StrategyParts(config, strategies);
      Ok(role + TemplateSections(config) + InputParts(inputData) + strategy + [Directive])
  }

  /** The task prompt: its parts joined by a blank line. */
  function TaskPrompt(config: PromptConfig, inputData: string, strategies: Option<Strategies>): (r: Result<string>)
    ensures r.Ok? ==> Truthy(Field(config, InstructionKey))
  {
    var parts :- TaskParts(config, inputData, strategies);
    Ok(Join(parts, PartSeparator))
  }

  /** `if value: parts.append(format_prompt_section(leadIn, value))` for the
      field `key`. */
  method AppendSection(parts: seq<string>, config: PromptConfig, key: string, leadIn: string)
    returns (extended: seq<string>)
    ensures extended == parts + SectionParts(config, key, leadIn)
  {
    extended := parts;
    var value := Field(config, key);
    if Truthy(value) {
      extended := extended + [FormatPromptSection(leadIn, value)];
    }
  }

  /** `if value: parts.append(f"{leadIn}{value}")` for the field `key`. */
  method AppendText(parts: seq<string>, config: PromptConfig, key: string, leadIn: string)
    returns (extended: seq<string>)
    ensures extended == parts + TextParts(config, key, leadIn)
  {
    extended := parts;
    var value := Field(config, key);
    if Truthy(value) {
      extended := extended + [leadIn + Render(value)];
    }
  }

  /** `for i, example in enumerate(items, 1): parts.append(...)`: each
      example labelled with its 1-based position. */
  method AppendLabelled(parts: seq<string>, items: seq<string>) returns (extended: seq<string>)
    ensures extended == parts + ExampleParts(items)
  {
    extended := parts;
    for i := 0 to |items|
      invariant extended == parts + ExampleParts(items[..i])
    {
      ExamplePartsSnoc(items, i);
      extended := extended + [ExampleLabel(i + 1, items[i])];
    }
    assert items[..|items|] == items;
  }

  /** The examples block of `build_prompt_from_config`: when the field is
      truthy, the header, then the labelled examples of a list, or a string
      example as it is. */
  method AppendExamples(parts: seq<string>, config: PromptConfig) returns (extended: seq<string>)
    ensures extended == parts + ExamplesSection(config)
  {
    extended := parts;
    var examples := Field(config, ExamplesKey);
    if Truthy(examples) {
      extended := extended + [ExamplesHeader];
      match examples {
        case List(items) =>
          extended := AppendLabelled(extended, items);
        case Str(s) =>
          extended := extended + [s];
      }
    }
  }

  /** Regrouping the seven appends of the template sections. */
  lemma TemplateSteps<T>(p0: seq<T>, a: seq<T>, b: seq<T>, c: seq<T>, d: seq<T>, e: seq<T>, f: seq<T>, g: seq<T>, p7: seq<T>)
    requires p7 == p0 + a + b + c + d + e + f + g
    ensures p7 == p0 + ((a + b + c + d + e) + f + g)
  {
  }

  /** `build_prompt_from_config`. */
  method BuildPromptFromConfig(config: PromptConfig, inputData: string, strategies: Option<Strategies>)
    returns (r: Result<string>)
    ensures r == TaskPrompt(config, inputData, strategies)
  {
    var parts: seq<string> := [];
    var role := Field(config, RoleKey);
    if Truthy(role) {
      if role.List? {
        return Err(NotAString(RoleKey));
      }
      parts := parts + [RoleSentence(role.s)];
      assert parts == [RoleSentence(role.s)];
      assert RoleParts(config) == Ok(parts);
    } else {
      assert RoleParts(config) == Ok(parts);
    }
    var instruction := Field(config, InstructionKey);
    if !Truthy(instruction) {
      return Err(MissingField(InstructionKey));
    }
    ghost var roleParts := parts;
    parts := parts + [FormatPromptSection(TaskLeadIn, instruction)];
    parts := AppendText(parts, config, ContextKey, ContextLeadIn);
    parts := AppendSection(parts, config, ConstraintsKey, ConstraintsLeadIn);
    parts := AppendSection(parts, config, ToneKey, ToneLeadIn);
    parts := AppendSection(parts, config, FormatKey, FormatLeadIn);
    parts := AppendExamples(parts, config);
    parts := AppendText(parts, config, GoalKey, GoalLeadIn);
    ghost var beforeInput := parts;
    TemplateSteps(roleParts, [FormatPromptSection(TaskLeadIn, instruction)], TextParts(config, ContextKey, ContextLeadIn),
                  SectionParts(config, ConstraintsKey, ConstraintsLeadIn), SectionParts(config, ToneKey, ToneLeadIn),
                  SectionParts(config, FormatKey, FormatLeadIn), ExamplesSection(config),
                  TextParts(config, GoalKey, GoalLeadIn), parts);
    assert parts == roleParts + TemplateSections(config);
    if inputData != "" {
      parts := parts + [ContentFence(inputData)];
    }
    assert parts == beforeInput + InputParts(inputData);
    ghost var beforeStrategy := parts;
    var name := Field(config, StrategyKey);
    if Truthy(name) && name != Str("None") && strategies.Some? {
      if name.List? {
        return Err(NotAString(StrategyKey));
      }
      var text := Field(strategies.value, name.s);
      if Truthy(text) {
        if text.List? {
          return Err(NotAString("reasoning_strategies"));
        }
        parts := parts + [Strip(text.s)];
      }
    }
    assert StrategyParts(config, strategies).Ok?;
    assert parts == beforeStrategy + StrategyParts(config, strategies).value;
    parts := parts + [Directive];
    assert TaskParts(config, inputData, strategies) == Ok(parts);
    r := Ok(Join(parts, PartSeparator));
  }

  /** A task prompt is produced exactly when the role (if any) is a string,
      the instruction is truthy and the strategy lookup does not raise; a
      falsy instruction raises the missing-instruction error unless a list
      role has already raised. */
  lemma TaskPromptRequiresInstruction(config: PromptConfig, inputData: string, strategies: Option<Strategies>)
    ensures TaskPrompt(config, inputData, strategies).Ok?
            <==> RoleParts(config).Ok? && Truthy(Field(config, InstructionKey))
                 && StrategyParts(config, strategies).Ok?
    ensures !Truthy(Field(config, InstructionKey)) && RoleParts(config).Ok?
            ==> TaskPrompt(config, inputData, strategies) == Err(MissingField(InstructionKey))
  {
  }

  /** Every task prompt ends with the directive. */
  lemma TaskPromptEndsWithDirective(config: PromptConfig, inputData: string, strategies: Option<Strategies>)
    requires TaskPrompt(config, inputData, strategies).Ok?
    ensures EndsWith(TaskPrompt(config, inputData, strategies).value, Directive)
  {
    var parts := TaskParts(config, inputData, strategies).value;
    JoinEndsWith(parts, PartSeparator);
  }

  /** A task prompt opens with the role sentence and a blank line when a role
      is given, and with the instruction lead-in otherwise. */
  lemma TaskPromptOpening(config: PromptConfig, inputData: string, strategies: Option<Strategies>)
    requires TaskPrompt(config, inputData, strategies).Ok?
    ensures var role := Field(config, RoleKey);
            Truthy(role) ==> RoleSentence(role.s) + PartSeparator <= TaskPrompt(config, inputData, strategies).value
    ensures !Truthy(Field(config, RoleKey)) ==> TaskLeadIn + "\n" <= TaskPrompt(config, inputData, strategies).value
  {
    var parts := TaskParts(config, inputData, strategies).value;
    var role := Field(config, RoleKey);
    if Truthy(role) {
      assert Join(parts, PartSeparator) == parts[0] + PartSeparator + Join(parts[1..], PartSeparator);
    } else {
      JoinStartsWith(parts, PartSeparator);
    }
  }

  /** The parts of a produced task prompt, component by component. */
  lemma TaskPartsOk(config: PromptConfig, inputData: string, strategies: Option<Strategies>)
    requires TaskParts(config, inputData, strategies).Ok?
    ensures RoleParts(config).Ok? && StrategyParts(config, strategies).Ok?
    ensures TaskParts(config, inputData, strategies).value
            == RoleParts(config).value + TemplateSections(config) + InputParts(inputData)
               + StrategyParts(config, strategies).value + [Directive]
  {
  }

  /** Within the template sections, list examples sit between the leading
      sections and the goal. */
  lemma TemplateExamples(config: PromptConfig)
    requires Field(config, ExamplesKey).List? && Field(config, ExamplesKey).items != []
    ensures TemplateSections(config)
            == LeadingSections(config) + [ExamplesHeader] + ExampleParts(Field(config, ExamplesKey).items)
               + TextParts(config, GoalKey, GoalLeadIn)
  {
  }

  /** Examples given as a list appear as the header part immediately
      followed by one labelled part per example, in order. */
  lemma TaskPromptExamples(config: PromptConfig, inputData: string, strategies: Option<Strategies>)
    requires TaskParts(config, inputData, strategies).Ok?
    requires Field(config, ExamplesKey).List? && Field(config, ExamplesKey).items != []
    ensures exists before, after :: TaskParts(config, inputData, strategies).value
              == before + [ExamplesHeader] + ExampleParts(Field(config, ExamplesKey).items) + after
  {
    TaskPartsOk(config, inputData, strategies);
    TemplateExamples(config);
    Surrounded(TaskParts(config, inputData, strategies).value, RoleParts(config).value, TemplateSections(config),
               InputParts(inputData), StrategyParts(config, strategies).value, [Directive],
               LeadingSections(config), [ExamplesHeader], ExampleParts(Field(config, ExamplesKey).items),
               TextParts(config, GoalKey, GoalLeadIn));
  }

  /** A run inside the middle piece of a whole is a run of the whole. */
  lemma Surrounded<T>(whole: seq<T>, r: seq<T>, t: seq<T>, i: seq<T>, s: seq<T>, d: seq<T>,
                      l: seq<T>, h: seq<T>, e: seq<T>, g: seq<T>)
    requires whole == r + t + i + s + d
    requires t == l + h + e + g
    ensures exists before, after :: whole == before + h + e + after
  {
    assert whole == (r + l) + h + e + (g + i + s + d);
  }

  /** In a run of digits followed by a colon, the colon is the first one. */
  lemma DigitsThenColon(digits: string, rest: string)
    requires forall i :: 0 <= i < |digits| ==> '0' <= digits[i] <= '9'
    ensures IndexOf(digits + ":\n" + rest, ':') == |digits|
  {
    var s := digits + ":\n" + rest;
    assert s[..|digits|] == digits;
    IndexOfAt(s, ':', |digits|);
  }

  /** Different examples, or different positions, get different labels: the
      number in a label is followed by a colon, so it is read back whole. */
  lemma ExampleLabelInjective(i: nat, x: string, j: nat, y: string)
    requires ExampleLabel(i, x) == ExampleLabel(j, y)
    ensures i == j && x == y
  {
    var a, b := NatToString(i), NatToString(j);
    var n := |ExampleLabelStart|;
    var tail := ExampleLabel(i, x)[n..];
    assert tail == a + ":\n" + x;
    assert tail == b + ":\n" + y;
    DigitsThenColon(a, x);
    DigitsThenColon(b, y);
    assert a == tail[..|a|] == b;
    NatToStringInjective(i, j);
    assert x == tail[|a| + 2..] == y;
  }


  /** The input data and the strategy table only ever add parts just before
      the directive: the fenced input (once, when the input is non-empty)
      and then the strategy text. Everything before is what the template
      alone yields. */
  lemma TaskPartsTail(config: PromptConfig, inputData: string, strategies: Option<Strategies>)
    requires TaskParts(config, inputData, strategies).Ok?
    ensures TaskParts(config, "", None).Ok?
    ensures var base := TaskParts(config, "", None).value;
            TaskParts(config, inputData, strategies).value
            == base[..|base| - 1] + InputParts(inputData) + StrategyParts(config, strategies).value + [Directive]
  {
    var role := RoleParts(config).value;
    assert StrategyParts(config, None) == Ok([]);
    assert InputParts("") == [];
    var base := TaskParts(config, "", None).value;
    assert base == role + TemplateSections(config) + [Directive];
    assert base[..|base| - 1] == role + TemplateSections(config);
  }

  /** The strategy text is added only when a truthy name other than "None" is
      given, a truthy `app_config` is given, and its table maps that name to
      truthy text; then the stripped text is the one part added. */
  lemma StrategyOnlyWhenConfigured(config: PromptConfig, strategies: Option<Strategies>)
    ensures !StrategyRequested(config, strategies) ==> StrategyParts(config, strategies) == Ok([])
    ensures StrategyRequested(config, strategies) && Field(config, StrategyKey).Str?
            ==> var text := Field(strategies.value, Field(config, StrategyKey).s);
                (!Truthy(text) ==> StrategyParts(config, strategies) == Ok([]))
                && (text.Str? && text.s != "" ==> StrategyParts(config, strategies) == Ok([Strip(text.s)]))
  {
  }

  /** The document block that closes a system prompt. */
  function DocumentBlock(documentContent: string): string {
    DocumentOpening + Strip(documentContent) + DocumentClosing
  }

  function DocumentParts(documentContent: string): seq<string> {
    if |documentContent| > 0 then [DocumentBlock(documentContent)] else []
  }

  /** The optional sections of a system prompt, in their fixed order. */
  function SystemSections(config: PromptConfig): seq<string> {
    SectionParts(config, ConstraintsKey, SystemConstraintsLeadIn)
    + SectionParts(config, ToneKey, SystemToneLeadIn)
    + SectionParts(config, FormatKey, SystemFormatLeadIn)
    + TextParts(config, GoalKey, SystemGoalLeadIn)
  }

  /** The parts of a system prompt; the role is required. */
  function SystemParts(config: PromptConfig, documentContent: string): Result<seq<string>> {
    var role := Field(config, RoleKey);
    if !Truthy(role) then Err(MissingField(RoleKey))
    else if role.List? then Err(NotAString(RoleKey))
    else Ok(SystemPartsFor(role.s, config, documentContent))
  }

  /** The parts of a system prompt for a given string role. */
  function SystemPartsFor(role: string, config: PromptConfig, documentContent: string): seq<string> {
    [RoleSentence(role)] + SystemSections(config) + DocumentParts(documentContent)
  }

  function SystemPrompt(config: PromptConfig, documentContent: string): (r: Result<string>)
    ensures r.Ok? ==> Truthy(Field(config, RoleKey)) && Field(config, RoleKey).Str?
  {
    var parts :- SystemParts(config, documentContent);
    Ok(Join(parts, PartSeparator))
  }

  /** Regrouping the five appends after the role sentence. */
  lemma SystemSteps<T>(p0: seq<T>, a: seq<T>, b: seq<T>, c: seq<T>, d: seq<T>, e: seq<T>, p5: seq<T>)
    requires p5 == p0 + a + b + c + d + e
    ensures p5 == p0 + (a + b + c + d) + e
  {
  }

  /** With a string role, the system prompt is the join of its parts. */
  lemma SystemPromptFor(config: PromptConfig, documentContent: string)
    requires Truthy(Field(config, RoleKey)) && Field(config, RoleKey).Str?
    ensures SystemPrompt(config, documentContent)
            == Ok(Join(SystemPartsFor(Field(config, RoleKey).s, config, documentContent), PartSeparator))
  {
  }

  /** `build_system_prompt_from_config`. */
  method BuildSystemPromptFromConfig(config: PromptConfig, documentContent: string)
    returns (r: Result<string>)
    ensures r == SystemPrompt(config, documentContent)
  {
    var role := Field(config, RoleKey);
    if !Truthy(role) {
      return Err(MissingField(RoleKey));
    }
    if role.List? {
      return Err(NotAString(RoleKey));
    }
    var parts := [RoleSentence(role.s)];
    ghost var opening := parts;
    parts := AppendSection(parts, config, ConstraintsKey, SystemConstraintsLeadIn);
    parts := AppendSection(parts, config, ToneKey, SystemToneLeadIn);
    parts := AppendSection(parts, config, FormatKey, SystemFormatLeadIn);
    parts := AppendText(parts, config, GoalKey, SystemGoalLeadIn);
    ghost var beforeDocument := parts;
    if |documentContent| > 0 {
      parts := parts + [DocumentBlock(documentContent)];
    }
    assert parts == beforeDocument + DocumentParts(documentContent);
    SystemSteps(opening, SectionParts(config, ConstraintsKey, SystemConstraintsLeadIn),
                SectionParts(config, ToneKey, SystemToneLeadIn), SectionParts(config, FormatKey, SystemFormatLeadIn),
                TextParts(config, GoalKey, SystemGoalLeadIn), DocumentParts(documentContent), parts);
    SystemPromptFor(config, documentContent);
    r := Ok(Join(parts, PartSeparator));
  }

  /** A system prompt exists exactly when the role is a truthy string; a
      missing or empty role raises the missing-role error. */
  lemma SystemPromptRequiresRole(config: PromptConfig, documentContent: string)
    ensures SystemPrompt(config, documentContent).Ok? <==> Field(config, RoleKey).Str? && Truthy(Field(config, RoleKey))
    ensures !Truthy(Field(config, RoleKey)) ==> SystemPrompt(config, documentContent) == Err(MissingField(RoleKey))
  {
  }

  /** A system prompt opens with the role sentence, and closes with the
      document block whenever document content is given. */
  lemma SystemPromptShape(config: PromptConfig, documentContent: string)
    requires SystemPrompt(config, documentContent).Ok?
    ensures RoleSentence(Field(config, RoleKey).s) <= SystemPrompt(config, documentContent).value
    ensures |documentContent| > 0 ==> EndsWith(SystemPrompt(config, documentContent).value, DocumentBlock(documentContent))
  {
    var parts := SystemParts(config, documentContent).value;
    JoinStartsWith(parts, PartSeparator);
    JoinEndsWith(parts, PartSeparator);
  }

  /** Every part in `parts` is non-empty and does not start with `c`. */
  ghost predicate NoneOpensWith(parts: seq<string>, c: char) {
    forall i :: 0 <= i < |parts| ==> |parts[i]| > 0 && parts[i][0] != c
  }

  lemma SectionOpening(config: PromptConfig, key: string, leadIn: string, c: char)
    requires |leadIn| > 0 && leadIn[0] != c
    ensures NoneOpensWith(SectionParts(config, key, leadIn), c)
    ensures NoneOpensWith(TextParts(config, key, leadIn), c)
  {
    var v := Field(config, key);
    if Truthy(v) {
      assert FormatPromptSection(leadIn, v)[0] == leadIn[0];
      assert (leadIn + Render(v))[0] == leadIn[0];
    }
  }

  lemma NoneOpensWithConcat(xs: seq<string>, ys: seq<string>, c: char)
    requires NoneOpensWith(xs, c) && NoneOpensWith(ys, c)
    ensures NoneOpensWith(xs + ys, c)
  {
  }

  lemma SystemSectionsOpening(config: PromptConfig)
    ensures NoneOpensWith(SystemSections(config), 'N')
  {
    SectionOpening(config, ConstraintsKey, SystemConstraintsLeadIn, 'N');
    SectionOpening(config, ToneKey, SystemToneLeadIn, 'N');
    SectionOpening(config, FormatKey, SystemFormatLeadIn, 'N');
    SectionOpening(config, GoalKey, SystemGoalLeadIn, 'N');
    var a := SectionParts(config, ConstraintsKey, SystemConstraintsLeadIn);
    var b := SectionParts(config, ToneKey, SystemToneLeadIn);
    var c := SectionParts(config, FormatKey, SystemFormatLeadIn);
    var d := TextParts(config, GoalKey, SystemGoalLeadIn);
    NoneOpensWithConcat(a, b, 'N');
    NoneOpensWithConcat(a + b, c, 'N');
    NoneOpensWithConcat(a + b + c, d, 'N');
  }

  lemma DocumentPartsOpening(documentContent: string)
    ensures NoneOpensWith(DocumentParts(documentContent), 'N')
  {
    if |documentContent| > 0 {
      assert DocumentOpening[0] == 'B';
      assert DocumentBlock(documentContent)[0] == DocumentOpening[0];
    }
  }

  /** No part of a system prompt is the task directive: every part starts
      with a fixed lead-in whose first letter is not the directive's. */
  lemma SystemPromptHasNoDirective(config: PromptConfig, documentContent: string)
    requires SystemParts(config, documentContent).Ok?
    ensures Directive !in SystemParts(config, documentContent).value
  {
    var opening := [RoleSentence(Field(config, RoleKey).s)];
    assert NoneOpensWith(opening, 'N');
    SystemSectionsOpening(config);
    DocumentPartsOpening(documentContent);
    NoneOpensWithConcat(opening, SystemSections(config), 'N');
    NoneOpensWithConcat(opening + SystemSections(config), DocumentParts(documentContent), 'N');
    assert Directive[0] == 'N';
  }
}
