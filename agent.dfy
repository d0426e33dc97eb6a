/**
 * Model of src/lonai/core/agent.py (`ResearchAgent`): choosing the response
 * among the agent's messages, the shape of a research result, batch research,
 * and which API key the model is given. The agent framework itself is a
 * function parameter from query to messages (or to a failure).
 */
module Agent {
  import opened Text
  import Export
  import opened Storage

  /** One message of the agent's conversation: its type ("ai", "human",
      "tool", ...), its content, and the optional reasoning text. */
  datatype Message = Message(kind: string, content: string, reasoning: Option<string>)

  /** What invoking the agent on a query gives. */
  datatype Invocation = Messages(messages: seq<Message>) | Raised(error: string)

  /** An AI message with content, or with reasoning text. */
  predicate IsAnswer(m: Message) {
    m.kind == "ai" && (m.content != [] || Truthy(m.reasoning))
  }

  /** The text an answering message contributes: content before reasoning. */
  function AnswerText(m: Message): (r: string)
    requires IsAnswer(m)
    ensures r != []
    ensures m.content != [] ==> r == m.content
    ensures m.content == [] ==> r == m.reasoning.value
  {
    if m.content != [] then m.content else m.reasoning.value
  }

  /** The index of the answering message nearest the end, if any. */
  function LastAnswer(messages: seq<Message>): (r: Option<nat>)
    ensures r.Some? ==> r.value < |messages| && IsAnswer(messages[r.value])
    ensures r.Some? ==> forall j :: r.value < j < |messages| ==> !IsAnswer(messages[j])
    ensures r.None? ==> forall j :: 0 <= j < |messages| ==> !IsAnswer(messages[j])
  {
    if messages == [] then None
    else if IsAnswer(messages[|messages| - 1]) then Some(|messages| - 1)
    else LastAnswer(messages[..|messages| - 1])
  }

  /** The response `research` reports: the text of the last answering
      message; failing that, the content of the last message; failing that, "". */
  function ChosenResponse(messages: seq<Message>): string {
    match LastAnswer(messages)
    case Some(k) => AnswerText(messages[k])
    case None => if messages != [] then messages[|messages| - 1].content else ""
  }

  /** The backward scan: from the last message down, stop at the first AI
      message with content or reasoning; then fall back to the last message. */
  method ExtractResponse(messages: seq<Message>) returns (response: string)
    ensures response == ChosenResponse(messages)
  {
    response := "";
    var i := |messages|;
    while i > 0
      invariant 0 <= i <= |messages|
      invariant response == ""
      invariant forall j :: i <= j < |messages| ==> !IsAnswer(messages[j])
    {
      i := i - 1;
      var msg := messages[i];
      if msg.kind == "ai" {
        if msg.content != "" {
          response := msg.content;
          break;
        }
        if msg.reasoning.Some? && msg.reasoning.value != "" {
          response := msg.reasoning.value;
          break;
        }
      }
    }
    if response == "" && messages != [] {
      response := messages[|messages| - 1].content;
    }
  }

  /** Messages after the last answer do not change the choice, unless no
      answer exists at all (then the last message decides). */
  lemma TrailingMessagesIgnored(messages: seq<Message>, m: Message)
    requires LastAnswer(messages).Some? && !IsAnswer(m)
    ensures ChosenResponse(messages + [m]) == ChosenResponse(messages)
  {
    assert (messages + [m])[..|messages|] == messages;
  }

  /** When no message answers, the response is the last message's content,
      whatever its type. */
  lemma FallbackToLast(messages: seq<Message>)
    requires messages != [] && forall j :: 0 <= j < |messages| ==> !IsAnswer(messages[j])
    ensures ChosenResponse(messages) == messages[|messages| - 1].content
  {
  }

  datatype Provider = Anthropic | OpenAI | Google | Custom

  /** The API keys the settings hold. */
  datatype AgentKeys = AgentKeys(agent: Option<string>, anthropic: Option<string>,
                                 openai: Option<string>, google: Option<string>)

  /** The key resolution of `_configure_model`: the generic agent key when it
      is truthy, else the provider's own key (custom has none and keeps the
      generic one). */
  function ResolveApiKey(provider: Provider, keys: AgentKeys): (r: Option<string>)
    ensures Truthy(keys.agent) ==> r == keys.agent
    ensures !Truthy(keys.agent) ==> r == match provider
      case Anthropic => keys.anthropic
      case OpenAI => keys.openai
      case Google => keys.google
      case Custom => keys.agent
  {
    if Truthy(keys.agent) then keys.agent
    else match provider
      case Anthropic => keys.anthropic
      case OpenAI => keys.openai
      case Google => keys.google
      case Custom => keys.agent
  }

  /** The key handed to the model: OpenAI-compatible providers get "dummy"
      in place of a missing or empty key. */
  function ModelApiKey(provider: Provider, keys: AgentKeys): (r: Option<string>)
    ensures (provider == OpenAI || provider == Custom) ==> Truthy(r)
    ensures (provider == OpenAI || provider == Custom) && Truthy(ResolveApiKey(provider, keys)) ==>
      r == ResolveApiKey(provider, keys)
    ensures (provider == OpenAI || provider == Custom) && !Truthy(ResolveApiKey(provider, keys)) ==>
      r == Some("dummy")
    ensures (provider == Anthropic || provider == Google) ==> r == ResolveApiKey(provider, keys)
  {
    var key := ResolveApiKey(provider, keys);
    if (provider == OpenAI || provider == Custom) && !Truthy(key) then Some("dummy") else key
  }

  /** The generic key, when set, reaches every provider's model. */
  lemma AgentKeyWins(provider: Provider, keys: AgentKeys)
    requires Truthy(keys.agent)
    ensures ModelApiKey(provider, keys) == keys.agent
  {
  }

  /** Without a generic key, a set OpenAI key is the one the OpenAI model gets. */
  lemma OpenAIKeyReachesModel(keys: AgentKeys)
    requires !Truthy(keys.agent) && Truthy(keys.openai)
    ensures ModelApiKey(OpenAI, keys) == keys.openai
  {
  }

  /** A custom provider never uses a provider-specific key: without a generic
      key it gets "dummy". */
  lemma CustomWithoutKey(keys: AgentKeys)
    requires !Truthy(keys.agent)
    ensures ModelApiKey(Custom, keys) == Some("dummy")
  {
  }

  /** The dict `research` returns. */
  datatype ResearchOutput = ResearchOutput(query: string, response: string,
                                           savedPath: Option<string>, reportPath: Option<string>)

  /** `research` either returns its dict or raises. */
  datatype ResearchResult = Completed(output: ResearchOutput) | Failed(error: string)

  /** One entry of `batch_research`: the research dict, or {query, error}. */
  datatype BatchEntry = Done(output: ResearchOutput) | Error(query: string, error: string)

  function EntryQuery(e: BatchEntry): string {
    match e
    case Done(o) => o.query
    case Error(q, _) => q
  }

  /** What batch research reports for one query: the query itself; an
      error exactly when the agent call raised, with its message; otherwise
      the chosen response, no report, and a saved path iff saving was asked. */
  predicate EntryReports(e: BatchEntry, query: string, invoke: string -> Invocation, saveResults: bool) {
    && EntryQuery(e) == query
    && (e.Error? <==> invoke(query).Raised?)
    && (e.Error? ==> e.error == invoke(query).error)
    && (e.Done? ==>
          && e.output.response == ChosenResponse(invoke(query).messages)
          && e.output.reportPath.None?
          && (e.output.savedPath.Some? <==> saveResults))
  }

  /** The record `research` saves for a query whose agent call returned:
      the query, the ISO time, the chosen response and the language. */
  function SavedRecord(query: string, clock: Export.Clock, messages: seq<Message>, language: string): Entry {
    Record(Some(JsonString(query)), Some(JsonString(clock.iso)), ChosenResponse(messages), [("language", language)])
  }

  /** The data directory after `research(query, save_results=True)` at
      `clock`: the record is saved when the agent call returns, and nothing
      changes when it raises. */
  function AfterResearch(d: Directory, query: string, clock: Export.Clock, invoke: string -> Invocation,
                         isAlnum: char -> bool, language: string): Directory
  {
    match invoke(query)
    case Raised(_) => d
    case Messages(ms) => Saved(d, ResearchFilename(clock.stamp, query, isAlnum), SavedRecord(query, clock, ms, language))
  }

  /** The data directory after researching `queries` in turn with saving,
      the i-th at the time `clocks[i]`. */
  function AfterEach(d: Directory, queries: seq<string>, clocks: seq<Export.Clock>, invoke: string -> Invocation,
                     isAlnum: char -> bool, language: string): (r: Directory)
    requires |clocks| == |queries|
    decreases |queries|
  {
    if queries == [] then d
    else AfterEach(AfterResearch(d, queries[0], clocks[0], invoke, isAlnum, language), queries[1..], clocks[1..],
                   invoke, isAlnum, language)
  }

  /** The directory after the queries from `i` on, by the `i`-th save. */
  lemma AfterEachStep(d: Directory, queries: seq<string>, clocks: seq<Export.Clock>, i: nat,
                      invoke: string -> Invocation, isAlnum: char -> bool, language: string)
    requires |clocks| == |queries| && i < |queries|
    ensures AfterEach(d, queries[i..], clocks[i..], invoke, isAlnum, language)
      == AfterEach(AfterResearch(d, queries[i], clocks[i], invoke, isAlnum, language), queries[i + 1..], clocks[i + 1..],
                   invoke, isAlnum, language)
  {
    assert queries[i..][0] == queries[i] && queries[i..][1..] == queries[i + 1..];
    assert clocks[i..][0] == clocks[i] && clocks[i..][1..] == clocks[i + 1..];
  }

  /** A file no answered query saves to keeps what it held, or stays absent. */
  lemma {:induction false} AfterEachKeeps(d: Directory, queries: seq<string>, clocks: seq<Export.Clock>,
                                          invoke: string -> Invocation, isAlnum: char -> bool, language: string,
                                          name: string)
    requires |clocks| == |queries|
    requires forall i :: 0 <= i < |queries| && invoke(queries[i]).Messages? ==>
      ResearchFilename(clocks[i].stamp, queries[i], isAlnum) != name
    ensures var r := AfterEach(d, queries, clocks, invoke, isAlnum, language);
      && (name in r.files <==> name in d.files)
      && (name in d.files ==> r.files[name] == d.files[name])
    decreases |queries|
  {
    if queries != [] {
      var d1 := AfterResearch(d, queries[0], clocks[0], invoke, isAlnum, language);
      assert forall i :: 0 <= i < |queries| - 1 ==> queries[1..][i] == queries[i + 1] && clocks[1..][i] == clocks[i + 1];
      AfterEachKeeps(d1, queries[1..], clocks[1..], invoke, isAlnum, language, name);
    }
  }

  /** Every answered query's record is in the directory afterwards, unless
      a later answered query saved to the same file name. */
  lemma {:induction false} AfterEachSaves(d: Directory, queries: seq<string>, clocks: seq<Export.Clock>,
                                          invoke: string -> Invocation, isAlnum: char -> bool, language: string,
                                          i: nat)
    requires |clocks| == |queries| && i < |queries| && invoke(queries[i]).Messages?
    requires forall j :: i < j < |queries| && invoke(queries[j]).Messages? ==>
      ResearchFilename(clocks[j].stamp, queries[j], isAlnum) != ResearchFilename(clocks[i].stamp, queries[i], isAlnum)
    ensures var r := AfterEach(d, queries, clocks, invoke, isAlnum, language);
      var name := ResearchFilename(clocks[i].stamp, queries[i], isAlnum);
      name in r.files && r.files[name] == SavedRecord(queries[i], clocks[i], invoke(queries[i]).messages, language)
    decreases |queries|
  {
    var d1 := AfterResearch(d, queries[0], clocks[0], invoke, isAlnum, language);
    assert forall k :: 0 <= k < |queries| - 1 ==> queries[1..][k] == queries[k + 1] && clocks[1..][k] == clocks[k + 1];
    if i == 0 {
      AfterEachKeeps(d1, queries[1..], clocks[1..], invoke, isAlnum, language,
                     ResearchFilename(clocks[0].stamp, queries[0], isAlnum));
    } else {
      AfterEachSaves(d1, queries[1..], clocks[1..], invoke, isAlnum, language, i - 1);
    }
  }

  /** Saves at two different time stamps of one length go to two files. */
  lemma DistinctStampsDistinctFiles(stamp1: string, stamp2: string, query: string, isAlnum: char -> bool)
    requires |stamp1| == |stamp2| && stamp1 != stamp2
    ensures ResearchFilename(stamp1, query, isAlnum) != ResearchFilename(stamp2, query, isAlnum)
  {
    var k :| 0 <= k < |stamp1| && stamp1[k] != stamp2[k];
    assert ResearchFilename(stamp1, query, isAlnum)[k] == stamp1[k];
    assert ResearchFilename(stamp2, query, isAlnum)[k] == stamp2[k];
  }

  /** A batch that researches one query twice, at two different time
      stamps, keeps both records. */
  lemma RepeatedQueryKeepsBoth(d: Directory, query: string, first: Export.Clock, second: Export.Clock,
                               invoke: string -> Invocation, isAlnum: char -> bool, language: string)
    requires invoke(query).Messages?
    requires |first.stamp| == |second.stamp| && first.stamp != second.stamp
    ensures var r := AfterEach(d, [query, query], [first, second], invoke, isAlnum, language);
      && ResearchFilename(first.stamp, query, isAlnum) in r.files
      && ResearchFilename(second.stamp, query, isAlnum) in r.files
      && r.files[ResearchFilename(first.stamp, query, isAlnum)] == SavedRecord(query, first, invoke(query).messages, language)
      && r.files[ResearchFilename(second.stamp, query, isAlnum)] == SavedRecord(query, second, invoke(query).messages, language)
  {
    DistinctStampsDistinctFiles(second.stamp, first.stamp, query, isAlnum);
    AfterEachSaves(d, [query, query], [first, second], invoke, isAlnum, language, 0);
    AfterEachSaves(d, [query, query], [first, second], invoke, isAlnum, language, 1);
  }

  class ResearchAgent {
    const language: string
    const exportFormat: Export.ExportFormat
    const exportDir: string
    const storage: StorageManager
    /** The agent framework, from the user's query to its messages. */
    const invoke: string -> Invocation

    constructor (language: string, exportFormat: Export.ExportFormat, exportDir: string,
                 storage: StorageManager, invoke: string -> Invocation)
      ensures this.language == language && this.exportFormat == exportFormat
      ensures this.exportDir == exportDir && this.storage == storage && this.invoke == invoke
    {
      this.language := language;
      this.exportFormat := exportFormat;
      this.exportDir := exportDir;
      this.storage := storage;
      this.invoke := invoke;
    }

    /** `research`: runs the agent, picks the response, optionally saves it
        (with the language as metadata) and optionally exports a report. The
        result always carries the query and the chosen response; it has a
        saved path iff saving was asked for and a report path iff export was. */
    method Research(query: string, saveResults: bool, exportReport: bool, clock: Export.Clock,
                    isAlnum: char -> bool, titleCase: string -> string)
      returns (result: ResearchResult)
      requires storage.Valid()
      modifies storage
      ensures storage.Valid()
      ensures invoke(query).Raised? ==>
        result == Failed(invoke(query).error) && unchanged(storage)
      ensures invoke(query).Messages? ==>
        && result.Completed?
        && result.output.query == query
        && result.output.response == ChosenResponse(invoke(query).messages)
        && (result.output.savedPath.Some? <==> saveResults)
        && (result.output.reportPath.Some? <==> exportReport)
      ensures invoke(query).Messages? && saveResults ==>
        var name := ResearchFilename(clock.stamp, query, isAlnum);
        && result.output.savedPath == Some(PathIn(storage.dataDir, name))
        && storage.files == old(storage.files)[name := Record(Some(JsonString(query)), Some(JsonString(clock.iso)),
             ChosenResponse(invoke(query).messages), [("language", language)])]
        && storage.order == [name] + Without(old(storage.order), name)
        && storage.LoadResearch(name) == Some(Record(Some(JsonString(query)), Some(JsonString(clock.iso)),
             ChosenResponse(invoke(query).messages), [("language", language)]))
      ensures !saveResults ==> unchanged(storage)
      ensures invoke(query).Messages? && exportReport ==>
        result.output.reportPath == Some(PathIn(exportDir, Export.ExportFilename(clock.stamp, query, exportFormat, isAlnum)))
    {
      var invocation := invoke(query);
      if invocation.Raised? {
        return Failed(invocation.error);
      }
      var response := ExtractResponse(invocation.messages);
      var output := ResearchOutput(query, response, None, None);
      if saveResults {
        var savedPath := storage.SaveResearch(query, response, Some([("language", language)]), clock, isAlnum);
        output := output.(savedPath := Some(savedPath));
      }
      if exportReport {
        var filename, document := Export.Export(response, query, exportFormat,
                                                Some([("query", query), ("language", language)]),
                                                clock, isAlnum, titleCase);
        output := output.(reportPath := Some(PathIn(exportDir, filename)));
      }
      result := Completed(output);
    }

    /** One turn of `batch_research`: research without export, with a
        failure caught and reported as {query, error}. */
    method ResearchEntry(query: string, saveResults: bool, clock: Export.Clock,
                         isAlnum: char -> bool, titleCase: string -> string)
      returns (entry: BatchEntry)
      requires storage.Valid()
      modifies storage
      ensures storage.Valid()
      ensures EntryReports(entry, query, invoke, saveResults)
      ensures saveResults ==>
        storage.Contents() == AfterResearch(old(storage.Contents()), query, clock, invoke, isAlnum, language)
      ensures !saveResults ==> unchanged(storage)
    {
      var r := Research(query, saveResults, false, clock, isAlnum, titleCase);
      match r {
        case Completed(output) =>
          entry := Done(output);
        case Failed(e) =>
          entry := Error(query, e);
      }
    }

    /** `batch_research`: researches each query in turn without exporting;
        one entry per query, in order; a failing query gives {query, error}
        and the later queries still run. */
    method BatchResearch(queries: seq<string>, saveResults: bool, clocks: seq<Export.Clock>,
                         isAlnum: char -> bool, titleCase: string -> string)
      returns (results: seq<BatchEntry>)
      requires |clocks| == |queries|
      requires storage.Valid()
      modifies storage
      ensures storage.Valid()
      ensures |results| == |queries|
      ensures forall i :: 0 <= i < |queries| ==> EntryReports(results[i], queries[i], invoke, saveResults)
      ensures saveResults ==>
        storage.Contents() == AfterEach(old(storage.Contents()), queries, clocks, invoke, isAlnum, language)
      ensures !saveResults ==> unchanged(storage)
    {
      results := [];
      var i := 0;
      while i < |queries|
        invariant 0 <= i <= |queries|
        invariant storage.Valid()
        invariant |results| == i
        invariant forall k :: 0 <= k < i ==> EntryReports(results[k], queries[k], invoke, saveResults)
        invariant saveResults ==>
          AfterEach(old(storage.Contents()), queries, clocks, invoke, isAlnum, language)
          == AfterEach(storage.Contents(), queries[i..], clocks[i..], invoke, isAlnum, language)
        invariant !saveResults ==> unchanged(storage)
      {
        AfterEachStep(storage.Contents(), queries, clocks, i, invoke, isAlnum, language);
        var entry := ResearchEntry(queries[i], saveResults, clocks[i], isAlnum, titleCase);
        results := results + [entry];
        i := i + 1;
      }
    }
  }
}
