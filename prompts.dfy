/**
 * Model of src/lonai/core/prompts.py (`PromptManager`): the system prompts in
 * English and Chinese, the research prompt with optional extra instructions,
 * and a registry of named custom prompts.
 */
module Prompts {
  import opened Text

  /** The heading placed between the research prompt and custom instructions. */
  const ADDITIONAL_INSTRUCTIONS: string := "\n\n## Additional Instructions\n\n"

  /** The kinds of built-in prompt. */
  datatype PromptKind = Research | Analysis | Summary

  /** The two languages with built-in prompts. */
  datatype Language = English | Chinese

  /** The language a code selects: "zh" is Chinese, every other code English. */
  function LanguageOf(code: string): (r: Language)
    ensures r == Chinese <==> code == "zh"
  {
    if code == "zh" then Chinese else English
  }

  /** The built-in prompt texts, as lists of lines. */
  function PromptLines(kind: PromptKind, language: Language): seq<string> {
    match (kind, language)
    case (Research, English) => RESEARCH_PROMPT_EN_LINES
    case (Research, Chinese) => RESEARCH_PROMPT_ZH_LINES
    case (Analysis, English) => ANALYSIS_PROMPT_EN_LINES
    case (Analysis, Chinese) => ANALYSIS_PROMPT_ZH_LINES
    case (Summary, English) => SUMMARY_PROMPT_EN_LINES
    case (Summary, Chinese) => SUMMARY_PROMPT_ZH_LINES
  }

  /** A built-in prompt text. */
  function PromptText(kind: PromptKind, language: Language): string {
    Join(PromptLines(kind, language), '\n')
  }

  /** `base`, then the heading and the instructions when they are truthy. */
  function WithInstructions(base: string, customInstructions: Option<string>): (r: string)
    ensures |r| >= |base| && r[..|base|] == base
    ensures !Truthy(customInstructions) ==> r == base
    ensures Truthy(customInstructions) ==>
      && |r| == |base| + |ADDITIONAL_INSTRUCTIONS| + |customInstructions.value|
      && r[|base|..|base| + |ADDITIONAL_INSTRUCTIONS|] == ADDITIONAL_INSTRUCTIONS
      && r[|base| + |ADDITIONAL_INSTRUCTIONS|..] == customInstructions.value
  {
    if Truthy(customInstructions) then
      var r := base + ADDITIONAL_INSTRUCTIONS + customInstructions.value;
      assert r[..|base|] == base;
      assert r[|base|..|base| + |ADDITIONAL_INSTRUCTIONS|] == ADDITIONAL_INSTRUCTIONS;
      r
    else base
  }

  /** A join of lines starts with the first character of the first line. */
  lemma JoinStarts(lines: seq<string>, sep: char)
    requires |lines| >= 1 && lines[0] != []
    ensures Join(lines, sep) != [] && Join(lines, sep)[0] == lines[0][0]
  {
    if |lines| > 1 {
      assert Join(lines, sep) == lines[0] + [sep] + Join(lines[1..], sep);
    }
  }

  /** The English and the Chinese text of every built-in prompt differ:
      the English ones start with 'Y', the Chinese ones with '你'. */
  lemma LanguagesDiffer(kind: PromptKind)
    ensures PromptText(kind, English) != PromptText(kind, Chinese)
  {
    var en := PromptLines(kind, English);
    var zh := PromptLines(kind, Chinese);
    match kind {
      case Research =>
        assert RESEARCH_PROMPT_EN_LINES[0][0] == 'Y';
        assert RESEARCH_PROMPT_ZH_LINES[0][0] == '你';
      case Analysis =>
        assert ANALYSIS_PROMPT_EN_LINES[0][0] == 'Y';
        assert ANALYSIS_PROMPT_ZH_LINES[0][0] == '你';
      case Summary =>
        assert SUMMARY_PROMPT_EN_LINES[0][0] == 'Y';
        assert SUMMARY_PROMPT_ZH_LINES[0][0] == '你';
    }
    JoinStarts(en, '\n');
    JoinStarts(zh, '\n');
  }

  class PromptManager {
    const language: string
    /** The custom prompts registered so far, by name. */
    var customPrompts: map<string, string>

    constructor (language: string := "en")
      ensures this.language == language && customPrompts == map[]
    {
      this.language := language;
      customPrompts := map[];
    }

    /** The research prompt of the manager's language: Chinese for "zh",
        English for every other code. */
    function BaseResearchPrompt(): (r: string)
      ensures language == "zh" ==> r == PromptText(Research, Chinese)
      ensures language != "zh" ==> r == PromptText(Research, English)
    {
      PromptText(Research, LanguageOf(language))
    }

    /** `get_research_prompt`: the base prompt, followed by the heading and
        the instructions when the instructions are a non-empty string. The
        base prompt is always a prefix; the instructions can be read back
        from the end. */
    function GetResearchPrompt(customInstructions: Option<string>): (r: string)
      ensures language == "zh" ==> r == WithInstructions(PromptText(Research, Chinese), customInstructions)
      ensures language != "zh" ==> r == WithInstructions(PromptText(Research, English), customInstructions)
    {
      WithInstructions(BaseResearchPrompt(), customInstructions)
    }

    /** `get_analysis_prompt`. */
    function GetAnalysisPrompt(): (r: string)
      ensures language == "zh" ==> r == PromptText(Analysis, Chinese)
      ensures language != "zh" ==> r == PromptText(Analysis, English)
    {
      PromptText(Analysis, LanguageOf(language))
    }

    /** `get_summary_prompt`. */
    function GetSummaryPrompt(): (r: string)
      ensures language == "zh" ==> r == PromptText(Summary, Chinese)
      ensures language != "zh" ==> r == PromptText(Summary, English)
    {
      PromptText(Summary, LanguageOf(language))
    }

    /** The research prompt is the Chinese text exactly when the language
        is "zh", and the English text exactly when it is not. */
    lemma ResearchPromptLanguage()
      ensures BaseResearchPrompt() == PromptText(Research, Chinese) <==> language == "zh"
      ensures BaseResearchPrompt() == PromptText(Research, English) <==> language != "zh"
    {
      LanguagesDiffer(Research);
    }

    /** The analysis and summary prompts follow the same rule. */
    lemma OtherPromptsLanguage()
      ensures GetAnalysisPrompt() == PromptText(Analysis, Chinese) <==> language == "zh"
      ensures GetSummaryPrompt() == PromptText(Summary, Chinese) <==> language == "zh"
    {
      LanguagesDiffer(Analysis);
      LanguagesDiffer(Summary);
    }

    /** `add_custom_prompt`: registers or replaces the prompt under `name`. */
    method AddCustomPrompt(name: string, prompt: string)
      modifies this
      ensures customPrompts == old(customPrompts)[name := prompt]
      ensures GetCustomPrompt(name) == Some(prompt)
      ensures forall other :: other != name ==> GetCustomPrompt(other) == old(GetCustomPrompt(other))
    {
      customPrompts := customPrompts[name := prompt];
    }

    /** `get_custom_prompt`: the registered prompt, or None. */
    function GetCustomPrompt(name: string): (r: Option<string>)
      reads this
      ensures r.Some? <==> name in customPrompts
      ensures r.Some? ==> r.value == customPrompts[name]
    {
      if name in customPrompts then Some(customPrompts[name]) else None
    }
  }

  // The built-in prompt texts, line by line. Each English text opens with
  // the short literal "You are an expert " joined to the rest of its first
  // line: the verifier reads the first character of a short literal but not
  // of a long one, and `LanguagesDiffer` needs that character.

  const RESEARCH_PROMPT_EN_LINES: seq<string> := [
    @"You are an expert " + @"researcher with exceptional analytical and synthesis capabilities. ",
    @"",
    @"Your mission is to conduct thorough, systematic research on any given topic and produce comprehensive, well-structured reports.",
    @"",
    @"## Your Capabilities",
    @"",
    @"You have access to the following tools:",
    @"",
    @"### `internet_search`",
    @"Perform web searches to gather information. You can:",
    @"- Specify the number of results (up to 10)",
    @"- Choose search topics: general, news, or finance",
    @"- Optionally include raw content for deeper analysis",
    @"",
    @"## Research Process",
    @"",
    @"When given a research task, follow this systematic approach:",
    @"",
    @"1. **Planning**: Break down the research question into specific subtopics and queries",
    @"2. **Information Gathering**: Use the search tool strategically to collect relevant data",
    @"3. **Analysis**: Critically evaluate sources and extract key insights",
    @"4. **Synthesis**: Combine findings into a coherent narrative",
    @"5. **Reporting**: Present your findings in a clear, well-organized format",
    @"",
    @"## Best Practices",
    @"",
    @"- **Be thorough**: Don't stop at the first result; gather multiple perspectives",
    @"- **Be critical**: Evaluate source credibility and cross-reference information",
    @"- **Be organized**: Structure your findings logically",
    @"- **Be concise**: Focus on the most relevant and valuable information",
    @"- **Cite sources**: Always reference where information comes from",
    @"",
    @"## Output Format",
    @"",
    @"Your final report should include:",
    @"- Executive summary",
    @"- Detailed findings organized by subtopic",
    @"- Key insights and conclusions",
    @"- Source references",
    @"",
    @"Remember: Quality over quantity. A well-researched, focused report is better than a lengthy but shallow one.",
    @""
  ]

  const RESEARCH_PROMPT_ZH_LINES: seq<string> := [
    @"你是一位专业的研究专家，拥有卓越的分析和综合能力。",
    @"",
    @"你的使命是对任何给定主题进行彻底、系统的研究，并生成全面、结构良好的报告。",
    @"",
    @"## 你的能力",
    @"",
    @"你可以使用以下工具：",
    @"",
    @"### `internet_search`（网络搜索）",
    @"执行网络搜索以收集信息。你可以：",
    @"- 指定结果数量（最多10个）",
    @"- 选择搜索主题：一般、新闻或金融",
    @"- 可选择包含原始内容以进行更深入的分析",
    @"",
    @"## 研究流程",
    @"",
    @"当接到研究任务时，请遵循以下系统方法：",
    @"",
    @"1. **规划**：将研究问题分解为具体的子主题和查询",
    @"2. **信息收集**：策略性地使用搜索工具收集相关数据",
    @"3. **分析**：批判性地评估来源并提取关键见解",
    @"4. **综合**：将发现组合成连贯的叙述",
    @"5. **报告**：以清晰、组织良好的格式呈现你的发现",
    @"",
    @"## 最佳实践",
    @"",
    @"- **要彻底**：不要止步于第一个结果；收集多个视角",
    @"- **要批判**：评估来源可信度并交叉引用信息",
    @"- **要有条理**：逻辑性地组织你的发现",
    @"- **要简洁**：专注于最相关和有价值的信息",
    @"- **引用来源**：始终注明信息来源",
    @"",
    @"## 输出格式",
    @"",
    @"你的最终报告应包括：",
    @"- 执行摘要",
    @"- 按子主题组织的详细发现",
    @"- 关键见解和结论",
    @"- 来源参考",
    @"",
    @"记住：质量胜于数量。一份研究充分、重点突出的报告胜过冗长但肤浅的报告。",
    @""
  ]

  const ANALYSIS_PROMPT_EN_LINES: seq<string> := [
    @"You are an expert " + @"data analyst and insight generator.",
    @"",
    @"Your task is to analyze the provided information and generate actionable insights.",
    @"",
    @"Focus on:",
    @"- Identifying patterns and trends",
    @"- Highlighting contradictions or gaps",
    @"- Providing practical recommendations",
    @"- Presenting findings clearly and concisely",
    @""
  ]

  const ANALYSIS_PROMPT_ZH_LINES: seq<string> := [
    @"你是一位专业的数据分析师和洞察生成专家。",
    @"",
    @"你的任务是分析提供的信息并生成可操作的见解。",
    @"",
    @"重点关注：",
    @"- 识别模式和趋势",
    @"- 突出矛盾或差距",
    @"- 提供实用建议",
    @"- 清晰简洁地呈现发现",
    @""
  ]

  const SUMMARY_PROMPT_EN_LINES: seq<string> := [
    @"You are an expert " + @"at creating concise, accurate summaries.",
    @"",
    @"Your task is to distill the provided information into a clear, comprehensive summary.",
    @"",
    @"Guidelines:",
    @"- Capture the main points and key takeaways",
    @"- Maintain accuracy - don't add information not in the source",
    @"- Be concise but complete",
    @"- Use clear, accessible language",
    @""
  ]

  const SUMMARY_PROMPT_ZH_LINES: seq<string> := [
    @"你是一位创建简洁、准确摘要的专家。",
    @"",
    @"你的任务是将提供的信息提炼成清晰、全面的摘要。",
    @"",
    @"准则：",
    @"- 捕捉要点和关键要点",
    @"- 保持准确性 - 不要添加来源中没有的信息",
    @"- 简洁但完整",
    @"- 使用清晰、易懂的语言",
    @""
  ]
}
