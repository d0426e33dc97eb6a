/**
 * Model of the decisions embedded in the command-line front end
 * (src/lonai/cli/commands.py): the exit decisions of `research`, Chinese
 * auto-detection, batch-file query extraction and the batch summary, the
 * chat loop and its input classification, and API-key masking in `config`.
 * Printing, progress bars and interactive prompting are not modelled: what
 * the user types arrives as parameters, and what would be printed or the
 * exit code arrives in the results.
 */
module Commands {
  import opened Text
  import Validators
  import Export
  import opened Storage
  import opened Agent

  /** How a command ends early: the exit code and the message shown. */
  datatype Exit = Exit(code: int, message: string)

  // ---------------------------------------------------------------------
  // research: exit decisions and language auto-detection
  // ---------------------------------------------------------------------

  /** A character of the CJK Unified Ideographs block, U+4E00..U+9FFF. */
  predicate IsCjk(c: char) {
    '\U{4E00}' <= c <= '\U{9FFF}'
  }

  /** Python's `any('一' <= char <= '鿿' for char in s)`. */
  function HasCjk(s: string): (r: bool)
    ensures r <==> exists i :: 0 <= i < |s| && IsCjk(s[i])
  {
    if s == [] then false
    else
      assert forall i :: 0 < i < |s| ==> s[i] == s[1..][i - 1];
      IsCjk(s[0]) || HasCjk(s[1..])
  }

  /** The language the research runs in: "en" turns into "zh" when the query
      holds a CJK ideograph; any other language, "zh" included, is kept. */
  function DetectLanguage(lang: string, query: string): (r: string)
    ensures lang != "en" ==> r == lang
    ensures lang == "en" ==> (r == "zh" <==> exists i :: 0 <= i < |query| && IsCjk(query[i]))
    ensures lang == "en" ==> (r == "en" || r == "zh")
  {
    if lang == "en" && HasCjk(query) then "zh" else lang
  }

  /** What `research` does before any agent exists: stop, or go on with
      the query and the language. */
  datatype Start = Stop(exit: Exit) | Proceed(query: string, language: string)

  /** The query the command works on: the argument when it is a non-empty
      string, otherwise what the user typed at the prompt. */
  function GivenQuery(query: Option<string>, prompted: string): string {
    if Truthy(query) then query.value else prompted
  }

  /** The exit decisions of `research`: missing keys stop it with code 1
      before the query is looked at; an invalid query stops it with code 1;
      otherwise it proceeds with the query as given and the detected
      language. A research that proceeds has every key check passed and a
      stripped query of 3 to 500 characters. */
  function ResearchStart(env: Validators.KeyEnvironment, query: Option<string>, prompted: string,
                         lang: string): (r: Start)
    ensures r.Stop? ==> r.exit.code == 1
    ensures !Validators.ValidateApiKeys(env).Valid? ==>
      r == Stop(Exit(1, Validators.ValidateApiKeys(env).message))
    ensures Validators.ValidateApiKeys(env).Valid? ==>
      (r.Proceed? <==> Validators.ValidateQuery(GivenQuery(query, prompted)).Accepted?)
    ensures Validators.ValidateApiKeys(env).Valid? && r.Stop? ==>
      r.exit.message == "Invalid query: "
        + Validators.QueryErrorMessage(Validators.ValidateQuery(GivenQuery(query, prompted)).error)
    ensures r.Proceed? ==>
      && env.tavily && Validators.HasAgentKey(env)
      && r.query == GivenQuery(query, prompted)
      && 3 <= |Strip(r.query)| <= 500
      && r.language == DetectLanguage(lang, r.query)
  {
    var keys := Validators.ValidateApiKeys(env);
    if !keys.Valid? then Stop(Exit(1, keys.message))
    else
      var q := GivenQuery(query, prompted);
      match Validators.ValidateQuery(q)
      case Rejected(e) => Stop(Exit(1, "Invalid query: " + Validators.QueryErrorMessage(e)))
      case Accepted => Proceed(q, DetectLanguage(lang, q))
  }

  /** How `research` ends: the result it displays, or an exit. */
  datatype Outcome = Shown(output: ResearchOutput) | Exited(exit: Exit)

  /** The `research` command. The agent is created only once the checks
      have passed, in the detected language; a failing agent call exits
      with code 1. */
  method ResearchCommand(env: Validators.KeyEnvironment, query: Option<string>, prompted: string,
                         lang: string, save: bool, exportReport: bool, format: Export.ExportFormat,
                         exportDir: string, storage: StorageManager, invoke: string -> Invocation,
                         clock: Export.Clock, isAlnum: char -> bool, titleCase: string -> string)
    returns (outcome: Outcome)
    requires storage.Valid()
    modifies storage
    ensures storage.Valid()
    ensures ResearchStart(env, query, prompted, lang).Stop? ==>
      outcome == Exited(ResearchStart(env, query, prompted, lang).exit) && unchanged(storage)
    ensures var s := ResearchStart(env, query, prompted, lang);
      s.Proceed? && invoke(s.query).Raised? ==>
        outcome == Exited(Exit(1, "Research failed: " + invoke(s.query).error)) && unchanged(storage)
    ensures var s := ResearchStart(env, query, prompted, lang);
      s.Proceed? && invoke(s.query).Messages? ==>
        && outcome.Shown?
        && outcome.output.query == s.query
        && outcome.output.response == ChosenResponse(invoke(s.query).messages)
        && (outcome.output.savedPath.Some? <==> save)
        && (outcome.output.reportPath.Some? <==> exportReport)
    ensures var s := ResearchStart(env, query, prompted, lang);
      s.Proceed? && invoke(s.query).Messages? && save ==>
        var name := ResearchFilename(clock.stamp, s.query, isAlnum);
        var record := SavedRecord(s.query, clock, invoke(s.query).messages, s.language);
        && outcome.output.savedPath == Some(PathIn(storage.dataDir, name))
        && storage.files == old(storage.files)[name := record]
        && storage.order == [name] + Without(old(storage.order), name)
        && storage.LoadResearch(name) == Some(record)
    ensures !save ==> unchanged(storage)
  {
    var start := ResearchStart(env, query, prompted, lang);
    if start.Stop? {
      return Exited(start.exit);
    }
    var agent := new ResearchAgent(start.language, format, exportDir, storage, invoke);
    var result := agent.Research(start.query, save, exportReport, clock, isAlnum, titleCase);
    match result {
      case Failed(e) =>
        outcome := Exited(Exit(1, "Research failed: " + e));
      case Completed(output) =>
        outcome := Shown(output);
    }
  }

  // ---------------------------------------------------------------------
  // batch: query extraction and summary
  // ---------------------------------------------------------------------

  /** The lines of a text file as reading it in text mode gives them, up to
      their terminators: "\n", "\r" and "\r\n" each end a line. Turning every
      "\r" into "\n" makes "\r\n" end a line and add one empty line, and
      empty lines never become queries. */
  function FileLines(text: string): seq<string> {
    Split(ReplaceChar(text, '\r', "\n"), '\n')
  }

  /** The lines, each passed through `strip`, that do not come out empty,
      in order (the batch command uses Python's `str.strip`). */
  function NonBlank(lines: seq<string>, strip: string -> string): (r: seq<string>)
    ensures |r| <= |lines|
    ensures forall i :: 0 <= i < |r| ==> r[i] != []
  {
    if lines == [] then []
    else
      var s := strip(lines[0]);
      (if s != [] then [s] else []) + NonBlank(lines[1..], strip)
  }

  /** Every query is a stripped line, and every line that is not blank
      gives a query. */
  lemma {:induction false} NonBlankMembers(lines: seq<string>, strip: string -> string)
    ensures forall i :: 0 <= i < |NonBlank(lines, strip)| ==>
      exists j :: 0 <= j < |lines| && NonBlank(lines, strip)[i] == strip(lines[j])
    ensures forall j :: 0 <= j < |lines| && strip(lines[j]) != [] ==> strip(lines[j]) in NonBlank(lines, strip)
  {
    if lines == [] {
      assert NonBlank(lines, strip) == [];
    } else {
      var rest := lines[1..];
      NonBlankMembers(rest, strip);
      assert forall j :: 0 < j < |lines| ==> lines[j] == rest[j - 1];
      var r := NonBlank(lines, strip);
      var skip := if strip(lines[0]) != [] then 1 else 0;
      assert r == (if skip == 1 then [strip(lines[0])] else []) + NonBlank(rest, strip);
      forall i | 0 <= i < |r|
        ensures exists j :: 0 <= j < |lines| && r[i] == strip(lines[j])
      {
        if i < skip {
          assert r[i] == strip(lines[0]);
        } else {
          assert r[i] == NonBlank(rest, strip)[i - skip];
          var k :| 0 <= k < |rest| && NonBlank(rest, strip)[i - skip] == strip(rest[k]);
          assert r[i] == strip(lines[k + 1]);
        }
      }
    }
  }

  /** Extraction works line by line: the queries of two blocks of lines are
      those of the first block followed by those of the second. */
  lemma {:induction false} NonBlankAppend(a: seq<string>, b: seq<string>, strip: string -> string)
    ensures NonBlank(a + b, strip) == NonBlank(a, strip) + NonBlank(b, strip)
  {
    if a == [] {
      assert a + b == b;
    } else {
      assert (a + b)[0] == a[0];
      assert (a + b)[1..] == a[1..] + b;
      NonBlankAppend(a[1..], b, strip);
    }
  }

  /** Lines that stripping leaves unchanged and non-empty pass through as they are. */
  lemma {:induction false} NonBlankIdentity(lines: seq<string>, strip: string -> string)
    requires forall i :: 0 <= i < |lines| ==> lines[i] != [] && strip(lines[i]) == lines[i]
    ensures NonBlank(lines, strip) == lines
  {
    if lines != [] {
      assert forall i :: 0 <= i < |lines[1..]| ==> lines[1..][i] == lines[i + 1];
      NonBlankIdentity(lines[1..], strip);
    }
  }

  /** The batch file's queries: its stripped, non-blank lines in file order. */
  function BatchQueries(text: string): seq<string> {
    NonBlank(FileLines(text), Strip)
  }

  /** Every batch query is non-empty and has no surrounding whitespace. */
  lemma BatchQueriesStripped(text: string)
    ensures forall i :: 0 <= i < |BatchQueries(text)| ==>
      BatchQueries(text)[i] != [] && Strip(BatchQueries(text)[i]) == BatchQueries(text)[i]
  {
    var lines := FileLines(text);
    NonBlankMembers(lines, Strip);
    forall i | 0 <= i < |BatchQueries(text)|
      ensures Strip(BatchQueries(text)[i]) == BatchQueries(text)[i]
    {
      var j :| 0 <= j < |lines| && BatchQueries(text)[i] == Strip(lines[j]);
      StripByIdempotent(lines[j], IsSpace);
    }
  }

  /** A character missing from every part is missing from their join. */
  lemma {:induction false} JoinAvoids(parts: seq<string>, sep: char, c: char)
    requires c != sep
    requires forall i :: 0 <= i < |parts| ==> c !in parts[i]
    ensures c !in Join(parts, sep)
  {
    if |parts| > 1 {
      JoinAvoids(parts[1..], sep, c);
    }
  }

  /** A file holding one query per line gives back exactly those queries. */
  lemma BatchQueriesRoundTrip(queries: seq<string>)
    requires queries != []
    requires forall i :: 0 <= i < |queries| ==>
      queries[i] != [] && Strip(queries[i]) == queries[i] && '\n' !in queries[i] && '\r' !in queries[i]
    ensures BatchQueries(Join(queries, '\n')) == queries
  {
    var text := Join(queries, '\n');
    JoinAvoids(queries, '\n', '\r');
    assert ReplaceChar(text, '\r', "\n") == text;
    SplitJoin(queries, '\n');
    NonBlankIdentity(queries, Strip);
  }

  /** The message shown when the file holds no query. */
  const NO_QUERIES: string := "No queries found in file."

  /** One line of the batch summary. */
  datatype SummaryLine = Succeeded(query: string) | FailedQuery(query: string, error: string)

  /** How `batch` ends: an exit, or the summary of every query. */
  datatype BatchOutcome = Ended(exit: Exit) | Reported(lines: seq<SummaryLine>)

  /** The summary line of one entry: entries with an error are failures,
      all others successes. */
  function Summarize(entry: BatchEntry): (r: SummaryLine)
    ensures r.query == EntryQuery(entry)
    ensures r.FailedQuery? <==> entry.Error?
    ensures r.FailedQuery? ==> r.error == entry.error
  {
    match entry
    case Done(output) => Succeeded(output.query)
    case Error(q, e) => FailedQuery(q, e)
  }

  /** The summary of a batch: one line per entry, in order. */
  function SummaryLines(entries: seq<BatchEntry>): (r: seq<SummaryLine>)
    ensures |r| == |entries| && forall i :: 0 <= i < |entries| ==> r[i] == Summarize(entries[i])
  {
    seq(|entries|, i requires 0 <= i < |entries| => Summarize(entries[i]))
  }

  /** The position of the first query whose agent call raises, if any. */
  function FirstRaised(queries: seq<string>, invoke: string -> Invocation): (r: Option<nat>)
    ensures r.Some? ==> r.value < |queries| && invoke(queries[r.value]).Raised?
    ensures r.Some? ==> forall k :: 0 <= k < r.value ==> invoke(queries[k]).Messages?
    ensures r.None? <==> forall k :: 0 <= k < |queries| ==> invoke(queries[k]).Messages?
  {
    if queries == [] then None
    else if invoke(queries[0]).Raised? then Some(0)
    else
      assert forall k :: 0 < k < |queries| ==> queries[k] == queries[1..][k - 1];
      match FirstRaised(queries[1..], invoke)
      case None => None
      case Some(j) => Some(j + 1)
  }

  /** The batch summary when every query succeeds. */
  function AllSucceeded(queries: seq<string>): (r: seq<SummaryLine>)
    ensures |r| == |queries| && forall i :: 0 <= i < |queries| ==> r[i] == Succeeded(queries[i])
  {
    seq(|queries|, i requires 0 <= i < |queries| => Succeeded(queries[i]))
  }

  /** One more query adds its success line. */
  lemma AllSucceededSnoc(queries: seq<string>, i: nat)
    requires i < |queries|
    ensures AllSucceeded(queries[..i + 1]) == AllSucceeded(queries[..i]) + [Succeeded(queries[i])]
  {
    assert queries[..i + 1][i] == queries[i];
  }

  /** The `batch` command as written: it calls `research` directly, so the
      first query whose agent call fails ends the whole command with code 1,
      the later queries never run, and no summary line can be a failure. */
  method BatchCommandAsWritten(env: Validators.KeyEnvironment, text: string, lang: string, save: bool,
                               format: Export.ExportFormat, exportDir: string, storage: StorageManager,
                               invoke: string -> Invocation, clocks: seq<Export.Clock>,
                               isAlnum: char -> bool, titleCase: string -> string)
    returns (outcome: BatchOutcome)
    requires |clocks| == |BatchQueries(text)|
    requires storage.Valid()
    modifies storage
    ensures storage.Valid()
    ensures !Validators.ValidateApiKeys(env).Valid? ==>
      outcome == Ended(Exit(1, Validators.ValidateApiKeys(env).message)) && unchanged(storage)
    ensures Validators.ValidateApiKeys(env).Valid? && BatchQueries(text) == [] ==>
      outcome == Ended(Exit(0, NO_QUERIES)) && unchanged(storage)
    ensures var qs := BatchQueries(text);
      Validators.ValidateApiKeys(env).Valid? && qs != [] ==>
        outcome == match FirstRaised(qs, invoke)
          case None => Reported(AllSucceeded(qs))
          case Some(i) => Ended(Exit(1, "Batch research failed: " + invoke(qs[i]).error))
    ensures Validators.ValidateApiKeys(env).Valid? && save ==>
      storage.Contents() == SavedUntilFailure(old(storage.Contents()), BatchQueries(text), clocks, invoke, isAlnum, lang)
    ensures !save ==> unchanged(storage)
  {
    var keys := Validators.ValidateApiKeys(env);
    if !keys.Valid? {
      return Ended(Exit(1, keys.message));
    }
    var queries := BatchQueries(text);
    if queries == [] {
      return Ended(Exit(0, NO_QUERIES));
    }
    var agent := new ResearchAgent(lang, format, exportDir, storage, invoke);
    var lines, failure := ResearchEachAsWritten(agent, queries, save, clocks, isAlnum, titleCase);
    if failure.Some? {
      return Ended(Exit(1, "Batch research failed: " + failure.value));
    }
    outcome := Reported(lines);
  }

  /** The loop of `batch` as written: the queries in turn through
      `research`; the first failing agent call raises out of the loop, and
      the later queries never run. Otherwise every query has its success
      line. */
  method ResearchEachAsWritten(agent: ResearchAgent, queries: seq<string>, save: bool, clocks: seq<Export.Clock>,
                               isAlnum: char -> bool, titleCase: string -> string)
    returns (lines: seq<SummaryLine>, failure: Option<string>)
    requires |clocks| == |queries|
    requires agent.storage.Valid()
    modifies agent.storage
    ensures agent.storage.Valid()
    ensures FirstRaised(queries, agent.invoke).None? ==> failure.None? && lines == AllSucceeded(queries)
    ensures FirstRaised(queries, agent.invoke).Some? ==>
      failure == Some(agent.invoke(queries[FirstRaised(queries, agent.invoke).value]).error)
    ensures save ==>
      agent.storage.Contents()
        == SavedUntilFailure(old(agent.storage.Contents()), queries, clocks, agent.invoke, isAlnum, agent.language)
    ensures !save ==> unchanged(agent.storage)
  {
    ghost var start := agent.storage.Contents();
    lines := [];
    var i := 0;
    while i < |queries|
      invariant 0 <= i <= |queries|
      invariant agent.storage.Valid()
      invariant |lines| == i
      invariant forall k :: 0 <= k < i ==> agent.invoke(queries[k]).Messages?
      invariant lines == AllSucceeded(queries[..i])
      invariant save ==>
        SavedUntilFailure(start, queries, clocks, agent.invoke, isAlnum, agent.language)
          == SavedUntilFailure(agent.storage.Contents(), queries[i..], clocks[i..], agent.invoke, isAlnum, agent.language)
      invariant !save ==> unchanged(agent.storage)
    {
      SavedUntilFailureStep(agent.storage.Contents(), queries, clocks, i, agent.invoke, isAlnum, agent.language);
      var result := ResearchWithoutExport(agent, queries[i], save, clocks[i], isAlnum, titleCase);
      if result.Failed? {
        FirstRaisedIs(queries, agent.invoke, i);
        return lines, Some(result.error);
      }
      AllSucceededSnoc(queries, i);
      lines := lines + [Succeeded(result.output.query)];
      i := i + 1;
    }
    assert queries[..i] == queries;
    failure := None;
  }

  /** The data directory after the batch loop as written: the queries are
      researched and saved in turn, the `i`-th at the time `clocks[i]`,
      until the first whose agent call raises. */
  function SavedUntilFailure(d: Directory, queries: seq<string>, clocks: seq<Export.Clock>,
                             invoke: string -> Invocation, isAlnum: char -> bool, language: string): Directory
    requires |clocks| == |queries|
    decreases |queries|
  {
    if queries == [] || invoke(queries[0]).Raised? then d
    else SavedUntilFailure(AfterResearch(d, queries[0], clocks[0], invoke, isAlnum, language), queries[1..], clocks[1..],
                           invoke, isAlnum, language)
  }

  /** The saves of the loop as written from query `i` on, by that query. */
  lemma SavedUntilFailureStep(d: Directory, queries: seq<string>, clocks: seq<Export.Clock>, i: nat,
                              invoke: string -> Invocation, isAlnum: char -> bool, language: string)
    requires |clocks| == |queries| && i < |queries|
    ensures invoke(queries[i]).Raised? ==>
      SavedUntilFailure(d, queries[i..], clocks[i..], invoke, isAlnum, language) == d
    ensures invoke(queries[i]).Messages? ==>
      SavedUntilFailure(d, queries[i..], clocks[i..], invoke, isAlnum, language)
        == SavedUntilFailure(AfterResearch(d, queries[i], clocks[i], invoke, isAlnum, language),
                             queries[i + 1..], clocks[i + 1..], invoke, isAlnum, language)
  {
    assert queries[i..][0] == queries[i] && queries[i..][1..] == queries[i + 1..];
    assert clocks[i..][0] == clocks[i] && clocks[i..][1..] == clocks[i + 1..];
  }

  /** The loop as written saves what the corrected batch saves when no
      agent call raises, and otherwise only what it saves for the queries
      before the first failing one. */
  lemma {:induction false} SavedUntilFailureIsPrefix(d: Directory, queries: seq<string>, clocks: seq<Export.Clock>,
                                                     invoke: string -> Invocation, isAlnum: char -> bool,
                                                     language: string)
    requires |clocks| == |queries|
    ensures FirstRaised(queries, invoke).None? ==>
      SavedUntilFailure(d, queries, clocks, invoke, isAlnum, language)
        == AfterEach(d, queries, clocks, invoke, isAlnum, language)
    ensures FirstRaised(queries, invoke).Some? ==>
      var n := FirstRaised(queries, invoke).value;
      SavedUntilFailure(d, queries, clocks, invoke, isAlnum, language)
        == AfterEach(d, queries[..n], clocks[..n], invoke, isAlnum, language)
    decreases |queries|
  {
    if queries != [] && invoke(queries[0]).Messages? {
      var d1 := AfterResearch(d, queries[0], clocks[0], invoke, isAlnum, language);
      SavedUntilFailureIsPrefix(d1, queries[1..], clocks[1..], invoke, isAlnum, language);
      match FirstRaised(queries[1..], invoke)
      case None =>
      case Some(j) =>
        assert queries[..j + 1][0] == queries[0] && queries[..j + 1][1..] == queries[1..][..j];
        assert clocks[..j + 1][0] == clocks[0] && clocks[..j + 1][1..] == clocks[1..][..j];
    }
  }

  /** One `research` call of the batch loop, without export: what the loop
      needs to know of its result. */
  method ResearchWithoutExport(agent: ResearchAgent, query: string, save: bool, clock: Export.Clock,
                               isAlnum: char -> bool, titleCase: string -> string)
    returns (result: ResearchResult)
    requires agent.storage.Valid()
    modifies agent.storage
    ensures agent.storage.Valid()
    ensures result.Failed? <==> agent.invoke(query).Raised?
    ensures result.Failed? ==> result.error == agent.invoke(query).error
    ensures result.Completed? ==> result.output.query == query
    ensures result.Completed? ==> result.output.response == ChosenResponse(agent.invoke(query).messages)
    ensures save ==>
      agent.storage.Contents()
        == AfterResearch(old(agent.storage.Contents()), query, clock, agent.invoke, isAlnum, agent.language)
    ensures !save ==> unchanged(agent.storage)
  {
    result := agent.Research(query, save, false, clock, isAlnum, titleCase);
  }

  /** A raising query with only successes before it is the first failure. */
  lemma FirstRaisedIs(queries: seq<string>, invoke: string -> Invocation, i: nat)
    requires i < |queries| && invoke(queries[i]).Raised?
    requires forall k :: 0 <= k < i ==> invoke(queries[k]).Messages?
    ensures FirstRaised(queries, invoke) == Some(i)
  {
  }

  /** The batch file "a\nb" with an agent that fails on "a": as written the
      command stops at "a" (exit 1, "b" never researched), while every query
      was meant to get its summary line. */
  lemma FailingFirstQueryStopsBatch(invoke: string -> Invocation)
    requires invoke("a").Raised?
    ensures BatchQueries("a\nb") == ["a", "b"]
    ensures FirstRaised(BatchQueries("a\nb"), invoke) == Some(0)
  {
    TwoQueryFile();
    FirstRaisedIs(["a", "b"], invoke, 0);
  }

  /** The file "a\nb" holds the queries "a" and "b". */
  lemma TwoQueryFile()
    ensures BatchQueries("a\nb") == ["a", "b"]
  {
    var qs := ["a", "b"];
    forall i | 0 <= i < |qs|
      ensures qs[i] != [] && Strip(qs[i]) == qs[i] && '\n' !in qs[i] && '\r' !in qs[i]
    {
      var c := if i == 0 then 'a' else 'b';
      assert qs[i] == [c];
      StripLetter(c);
    }
    assert Join(qs, '\n') == "a\nb";
    BatchQueriesRoundTrip(qs);
  }

  /** A single lower-case letter is a query line as the round trip needs
      it: non-empty, its own stripped form, and free of line ends. */
  lemma StripLetter(c: char)
    requires 'a' <= c <= 'z'
    ensures [c] != [] && Strip([c]) == [c] && '\n' !in [c] && '\r' !in [c]
  {
    assert [c][0] == c && !IsSpace(c);
    StripByKeeps([c], IsSpace);
  }

  /** The `batch` command as its summary expects it to behave: every query
      runs, and each gets a summary line, in order, that is a failure
      exactly when its agent call failed. */
  method BatchCommand(env: Validators.KeyEnvironment, text: string, lang: string, save: bool,
                      format: Export.ExportFormat, exportDir: string, storage: StorageManager,
                      invoke: string -> Invocation, clocks: seq<Export.Clock>,
                      isAlnum: char -> bool, titleCase: string -> string)
    returns (outcome: BatchOutcome)
    requires |clocks| == |BatchQueries(text)|
    requires storage.Valid()
    modifies storage
    ensures storage.Valid()
    ensures !Validators.ValidateApiKeys(env).Valid? ==>
      outcome == Ended(Exit(1, Validators.ValidateApiKeys(env).message)) && unchanged(storage)
    ensures Validators.ValidateApiKeys(env).Valid? && BatchQueries(text) == [] ==>
      outcome == Ended(Exit(0, NO_QUERIES)) && unchanged(storage)
    ensures var qs := BatchQueries(text);
      Validators.ValidateApiKeys(env).Valid? && qs != [] ==>
        && outcome.Reported?
        && |outcome.lines| == |qs|
        && (forall i :: 0 <= i < |qs| ==> outcome.lines[i].query == qs[i])
        && (forall i :: 0 <= i < |qs| ==> (outcome.lines[i].FailedQuery? <==> invoke(qs[i]).Raised?))
        && (forall i :: 0 <= i < |qs| && outcome.lines[i].FailedQuery? ==>
              outcome.lines[i].error == invoke(qs[i]).error)
    ensures Validators.ValidateApiKeys(env).Valid? && save ==>
      storage.Contents() == AfterEach(old(storage.Contents()), BatchQueries(text), clocks, invoke, isAlnum, lang)
    ensures !save ==> unchanged(storage)
  {
    var keys := Validators.ValidateApiKeys(env);
    if !keys.Valid? {
      return Ended(Exit(1, keys.message));
    }
    var queries := BatchQueries(text);
    if queries == [] {
      return Ended(Exit(0, NO_QUERIES));
    }
    var agent := new ResearchAgent(lang, format, exportDir, storage, invoke);
    var entries := agent.BatchResearch(queries, save, clocks, isAlnum, titleCase);
    outcome := Reported(SummaryLines(entries));
  }

  // ---------------------------------------------------------------------
  // chat: input classification and the session loop
  // ---------------------------------------------------------------------

  /** The inputs that end a chat session, compared in lower case. */
  const QUIT_WORDS: set<string> := {"exit", "quit", "q"}

  /** What the chat loop does with one input line. */
  datatype ChatAction = Ignore | Quit | Help | Warn(message: string) | Ask(query: string)

  /** The chat loop's classification of one input: empty input is ignored,
      then the quit words and "help" are recognised in lower case, then an
      invalid query draws a warning; only a valid query is researched, as
      typed. */
  function Classify(input: string, lower: string -> string): (r: ChatAction)
    ensures r == Ignore <==> input == []
    ensures r == Quit <==> input != [] && lower(input) in QUIT_WORDS
    ensures r == Help <==> input != [] && lower(input) == "help"
    ensures r.Warn? <==>
      input != [] && lower(input) !in QUIT_WORDS && lower(input) != "help"
      && Validators.ValidateQuery(input).Rejected?
    ensures r.Warn? ==>
      r.message == "Invalid query: " + Validators.QueryErrorMessage(Validators.ValidateQuery(input).error)
    ensures r.Ask? ==> r.query == input && 3 <= |Strip(input)| <= 500
  {
    if input == [] then Ignore
    else if lower(input) in QUIT_WORDS then Quit
    else if lower(input) == "help" then Help
    else
      match Validators.ValidateQuery(input)
      case Rejected(e) => Warn("Invalid query: " + Validators.QueryErrorMessage(e))
      case Accepted => Ask(input)
  }

  /** How a chat session ends. */
  datatype ChatEnd = Goodbye | SessionFailed(exit: Exit)

  /** The message of the EOFError Python's `input` raises once standard
      input is exhausted; the prompt reads through it. */
  const END_OF_INPUT := "EOF when reading a line"

  /** The end of a session whose input runs out: the EOFError reaches the
      outer handler, which reports it and exits with code 1. */
  const INPUT_EXHAUSTED := SessionFailed(Exit(1, "Chat session failed: " + END_OF_INPUT))

  /** The responses a session displays, in order, and how it ends. */
  datatype Transcript = Transcript(responses: seq<string>, end: ChatEnd)

  /** The classification of each input line, in order. */
  function Classified(inputs: seq<string>, lower: string -> string): (r: seq<ChatAction>)
    ensures |r| == |inputs|
    ensures forall i :: 0 <= i < |inputs| ==> r[i] == Classify(inputs[i], lower)
  {
    seq(|inputs|, i requires 0 <= i < |inputs| => Classify(inputs[i], lower))
  }

  /** The session the chat loop runs over a sequence of classified inputs:
      each valid query is researched and its response shown; a quit word
      ends the session; a failing agent call ends it with code 1, and so
      does running out of input. */
  function Session(actions: seq<ChatAction>, invoke: string -> Invocation): (r: Transcript)
    ensures |r.responses| <= |actions|
    ensures r.end.SessionFailed? ==> r.end.exit.code == 1
  {
    if actions == [] then Transcript([], INPUT_EXHAUSTED)
    else
      match actions[0]
      case Quit => Transcript([], Goodbye)
      case Ask(q) =>
        if invoke(q).Raised? then Transcript([], SessionFailed(Exit(1, "Chat session failed: " + invoke(q).error)))
        else
          var rest := Session(actions[1..], invoke);
          Transcript([ChosenResponse(invoke(q).messages)] + rest.responses, rest.end)
      case _ => Session(actions[1..], invoke)
  }

  /** The data directory after the session over `actions`: every valid
      query up to the end of the session is researched and saved, the
      `i`-th input at the time `clocks[i]`; a quit word or a failing agent
      call ends the saving. */
  function SessionSaves(d: Directory, actions: seq<ChatAction>, clocks: seq<Export.Clock>,
                        invoke: string -> Invocation, isAlnum: char -> bool, language: string): Directory
    requires |clocks| == |actions|
    decreases |actions|
  {
    if actions == [] then d
    else
      match actions[0]
      case Quit => d
      case Ask(q) =>
        if invoke(q).Raised? then d
        else SessionSaves(AfterResearch(d, q, clocks[0], invoke, isAlnum, language), actions[1..], clocks[1..],
                          invoke, isAlnum, language)
      case _ => SessionSaves(d, actions[1..], clocks[1..], invoke, isAlnum, language)
  }

  /** The saves of the session from input `i` on, by what input `i` is. */
  lemma SessionSavesStep(d: Directory, actions: seq<ChatAction>, clocks: seq<Export.Clock>, i: nat,
                         invoke: string -> Invocation, isAlnum: char -> bool, language: string)
    requires |clocks| == |actions| && i < |actions|
    ensures actions[i].Quit? ==> SessionSaves(d, actions[i..], clocks[i..], invoke, isAlnum, language) == d
    ensures actions[i].Ask? && invoke(actions[i].query).Raised? ==>
      SessionSaves(d, actions[i..], clocks[i..], invoke, isAlnum, language) == d
    ensures actions[i].Ask? && invoke(actions[i].query).Messages? ==>
      SessionSaves(d, actions[i..], clocks[i..], invoke, isAlnum, language)
        == SessionSaves(AfterResearch(d, actions[i].query, clocks[i], invoke, isAlnum, language),
                        actions[i + 1..], clocks[i + 1..], invoke, isAlnum, language)
    ensures !actions[i].Quit? && !actions[i].Ask? ==>
      SessionSaves(d, actions[i..], clocks[i..], invoke, isAlnum, language)
        == SessionSaves(d, actions[i + 1..], clocks[i + 1..], invoke, isAlnum, language)
  {
    assert actions[i..][0] == actions[i] && actions[i..][1..] == actions[i + 1..];
    assert clocks[i..][0] == clocks[i] && clocks[i..][1..] == clocks[i + 1..];
  }

  /** Whatever follows a quit word is never looked at. */
  lemma {:induction false} SessionIgnoresAfterQuit(before: seq<ChatAction>, after1: seq<ChatAction>,
                                                   after2: seq<ChatAction>, invoke: string -> Invocation)
    ensures Session(before + [Quit] + after1, invoke) == Session(before + [Quit] + after2, invoke)
  {
    var s1 := before + [Quit] + after1;
    var s2 := before + [Quit] + after2;
    if before == [] {
      assert s1[0] == Quit && s2[0] == Quit;
    } else {
      assert s1[0] == before[0] && s2[0] == before[0];
      assert s1[1..] == before[1..] + [Quit] + after1;
      assert s2[1..] == before[1..] + [Quit] + after2;
      SessionIgnoresAfterQuit(before[1..], after1, after2, invoke);
    }
  }

  /** Without a valid query among the inputs, nothing is researched or
      shown, and the session ends by a quit word exactly when one is typed;
      otherwise the input runs out and the session fails with code 1. */
  lemma {:induction false} SessionWithoutQueries(actions: seq<ChatAction>, invoke: string -> Invocation,
                                                 d: Directory, clocks: seq<Export.Clock>, isAlnum: char -> bool,
                                                 language: string)
    requires |clocks| == |actions|
    requires forall i :: 0 <= i < |actions| ==> !actions[i].Ask?
    ensures Session(actions, invoke).responses == []
    ensures SessionSaves(d, actions, clocks, invoke, isAlnum, language) == d
    ensures Session(actions, invoke).end == Goodbye <==> exists i :: 0 <= i < |actions| && actions[i] == Quit
    ensures Session(actions, invoke).end != Goodbye ==> Session(actions, invoke).end == INPUT_EXHAUSTED
  {
    if actions != [] {
      var rest := actions[1..];
      assert forall i :: 0 <= i < |rest| ==> rest[i] == actions[i + 1];
      SessionWithoutQueries(rest, invoke, d, clocks[1..], isAlnum, language);
      assert forall i :: 0 < i < |actions| ==> actions[i] == rest[i - 1];
    }
  }

  /** The `chat` command: missing keys exit with code 1 before the session;
      otherwise the loop reads the inputs in turn and runs the session
      `Session` describes over their classification, saving every research
      it does; input `i` is read at the time `clocks[i]`. */
  method ChatCommand(env: Validators.KeyEnvironment, agent: ResearchAgent, inputs: seq<string>,
                     lower: string -> string, clocks: seq<Export.Clock>, isAlnum: char -> bool,
                     titleCase: string -> string)
    returns (transcript: Transcript)
    requires |clocks| == |inputs|
    requires agent.storage.Valid()
    modifies agent.storage
    ensures agent.storage.Valid()
    ensures !Validators.ValidateApiKeys(env).Valid? ==>
      transcript == Transcript([], SessionFailed(Exit(1, Validators.ValidateApiKeys(env).message)))
      && unchanged(agent.storage)
    ensures Validators.ValidateApiKeys(env).Valid? ==>
      transcript == Session(Classified(inputs, lower), agent.invoke)
    ensures Validators.ValidateApiKeys(env).Valid? ==>
      agent.storage.Contents() == SessionSaves(old(agent.storage.Contents()), Classified(inputs, lower), clocks,
                                               agent.invoke, isAlnum, agent.language)
  {
    var keys := Validators.ValidateApiKeys(env);
    if !keys.Valid? {
      return Transcript([], SessionFailed(Exit(1, keys.message)));
    }
    transcript := RunSession(agent, Classified(inputs, lower), clocks, isAlnum, titleCase);
  }

  /** The session from input `i` on, by what input `i` is. */
  lemma SessionStep(actions: seq<ChatAction>, i: nat, invoke: string -> Invocation)
    requires i < |actions|
    ensures actions[i].Quit? ==> Session(actions[i..], invoke) == Transcript([], Goodbye)
    ensures actions[i].Ask? && invoke(actions[i].query).Raised? ==>
      Session(actions[i..], invoke)
        == Transcript([], SessionFailed(Exit(1, "Chat session failed: " + invoke(actions[i].query).error)))
    ensures actions[i].Ask? && invoke(actions[i].query).Messages? ==>
      Session(actions[i..], invoke)
        == Transcript([ChosenResponse(invoke(actions[i].query).messages)] + Session(actions[i + 1..], invoke).responses,
                      Session(actions[i + 1..], invoke).end)
    ensures !actions[i].Quit? && !actions[i].Ask? ==> Session(actions[i..], invoke) == Session(actions[i + 1..], invoke)
  {
    assert actions[i..][0] == actions[i] && actions[i..][1..] == actions[i + 1..];
  }

  /** The chat loop itself, over the classified inputs: it runs exactly
      the session `Session` describes. */
  method RunSession(agent: ResearchAgent, actions: seq<ChatAction>, clocks: seq<Export.Clock>,
                    isAlnum: char -> bool, titleCase: string -> string)
    returns (transcript: Transcript)
    requires |clocks| == |actions|
    requires agent.storage.Valid()
    modifies agent.storage
    ensures agent.storage.Valid()
    ensures transcript == Session(actions, agent.invoke)
    ensures agent.storage.Contents()
      == SessionSaves(old(agent.storage.Contents()), actions, clocks, agent.invoke, isAlnum, agent.language)
  {
    ghost var start := agent.storage.Contents();
    var responses: seq<string> := [];
    var i := 0;
    while i < |actions|
      invariant 0 <= i <= |actions|
      invariant agent.storage.Valid()
      invariant Session(actions, agent.invoke)
        == Transcript(responses + Session(actions[i..], agent.invoke).responses,
                      Session(actions[i..], agent.invoke).end)
      invariant SessionSaves(start, actions, clocks, agent.invoke, isAlnum, agent.language)
        == SessionSaves(agent.storage.Contents(), actions[i..], clocks[i..], agent.invoke, isAlnum, agent.language)
    {
      SessionStep(actions, i, agent.invoke);
      SessionSavesStep(agent.storage.Contents(), actions, clocks, i, agent.invoke, isAlnum, agent.language);
      var action := actions[i];
      if action.Quit? {
        return Transcript(responses, Goodbye);
      }
      if action.Ask? {
        var result := ResearchWithoutExport(agent, action.query, true, clocks[i], isAlnum, titleCase);
        if result.Failed? {
          return Transcript(responses, SessionFailed(Exit(1, "Chat session failed: " + result.error)));
        }
        AppendAssoc(responses, [result.output.response], Session(actions[i + 1..], agent.invoke).responses);
        responses := responses + [result.output.response];
      }
      i := i + 1;
    }
    transcript := Transcript(responses, INPUT_EXHAUSTED);
  }

  // ---------------------------------------------------------------------
  // config: key masking
  // ---------------------------------------------------------------------

  /** How `config` shows an API key: "***" and the last four characters
      (the whole key when it is shorter), or "Not set" for a missing or
      empty key. */
  function MaskKey(key: Option<string>): (r: string)
    ensures !Truthy(key) ==> r == "Not set"
    ensures Truthy(key) ==>
      && |r| == 3 + (if |key.value| < 4 then |key.value| else 4)
      && r[..3] == "***"
      && r[3..] == key.value[|key.value| - (|r| - 3)..]
  {
    if Truthy(key) then "***" + PyTail(key.value, -4) else "Not set"
  }

  /** The mask reveals nothing but the last four characters: keys that end
      alike are shown alike. */
  lemma MaskShowsOnlyTail(a: string, b: string)
    requires |a| >= 4 && |b| >= 4 && a[|a| - 4..] == b[|b| - 4..]
    ensures MaskKey(Some(a)) == MaskKey(Some(b))
  {
  }
}
