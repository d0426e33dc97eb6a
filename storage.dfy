/**
 * Model of src/lonai/tools/storage.py (`StorageManager`): research results
 * saved as JSON files in a data directory. The directory is a map from file
 * name to what the file holds, plus the order of the names by modification
 * time, newest first.
 */
module Storage {
  import opened Text
  import opened Export

  /** A JSON value stored under "query" or "timestamp": a string, or any
      other value (null, a number, a boolean, a list or an object) as written. */
  datatype JsonValue = JsonString(text: string) | NotString(json: string)

  /** What one file of the data directory holds. */
  datatype Entry =
    | Record(query: Option<JsonValue>, timestamp: Option<JsonValue>, results: string, metadata: Metadata)
      // a JSON object; `query` and `timestamp` are None when the key is absent
    | NonObject   // valid JSON that is not an object
    | Unreadable  // not valid JSON

  /** One row of `list_research`; query and time stamp are copied as they are. */
  datatype Summary = Summary(filename: string, query: JsonValue, timestamp: JsonValue, path: string)

  /** `str(data_dir / name)`. */
  function PathIn(dataDir: string, name: string): string {
    dataDir + "/" + name
  }

  /** The name of the file a save creates. */
  function ResearchFilename(stamp: string, query: string, isAlnum: char -> bool): string {
    stamp + "_" + SafeTitle(query, isAlnum) + ".json"
  }

  /** Every file name appears once in the order, and the order names exactly the files. */
  ghost predicate Consistent(files: map<string, Entry>, order: seq<string>) {
    && (forall n :: n in files <==> n in order)
    && Distinct(order)
  }

  /** The data directory as a value: its files and their order, newest first. */
  datatype Directory = Directory(files: map<string, Entry>, order: seq<string>)

  /** The directory after `save_research` writes `entry` under `name`: the
      file is written, or overwritten, and becomes the newest. */
  function Saved(d: Directory, name: string, entry: Entry): Directory {
    Directory(d.files[name := entry], [name] + Without(d.order, name))
  }

  /** A save keeps a consistent directory consistent. */
  lemma SavedConsistent(d: Directory, name: string, entry: Entry)
    requires Consistent(d.files, d.order)
    ensures var r := Saved(d, name, entry); Consistent(r.files, r.order)
  {
    MoveToFrontDistinct(d.order, name);
  }

  /** The order without `name`. */
  function Without(order: seq<string>, name: string): (r: seq<string>)
    ensures name !in r
    ensures forall n :: n in r <==> n in order && n != name
  {
    if order == [] then []
    else if order[0] == name then Without(order[1..], name)
    else [order[0]] + Without(order[1..], name)
  }

  /** Removing a name the order does not hold changes nothing. */
  lemma {:induction false} WithoutAbsent(order: seq<string>, name: string)
    requires name !in order
    ensures Without(order, name) == order
  {
    if order != [] {
      assert order[1..] + [] == order[1..];
      WithoutAbsent(order[1..], name);
      assert [order[0]] + order[1..] == order;
    }
  }

  /** Moving a name to the front keeps the names distinct. */
  lemma MoveToFrontDistinct(order: seq<string>, name: string)
    requires Distinct(order)
    ensures Distinct([name] + Without(order, name))
  {
    var rest := Without(order, name);
    WithoutDistinct(order, name);
    var r := [name] + rest;
    forall i, j | 0 <= i < j < |r| ensures r[i] != r[j] {
      assert r[j] == rest[j - 1];
      if i > 0 {
        assert r[i] == rest[i - 1];
      }
    }
  }

  predicate Distinct(s: seq<string>) {
    forall i, j :: 0 <= i < j < |s| ==> s[i] != s[j]
  }

  /** Removing a name keeps the names distinct. */
  lemma {:induction false} WithoutDistinct(order: seq<string>, name: string)
    requires Distinct(order)
    ensures Distinct(Without(order, name))
  {
    if order != [] {
      WithoutDistinct(order[1..], name);
      var rest := Without(order[1..], name);
      if order[0] != name {
        assert order[0] !in order[1..] by {
          forall k | 0 <= k < |order[1..]| ensures order[1..][k] != order[0] {
            assert order[1..][k] == order[k + 1];
          }
        }
        var r := [order[0]] + rest;
        forall i, j | 0 <= i < j < |r| ensures r[i] != r[j] {
          if i == 0 {
            assert r[j] == rest[j - 1];
          } else {
            assert r[i] == rest[i - 1] && r[j] == rest[j - 1];
          }
        }
      }
    }
  }

  /** `glob("*.json")`. */
  predicate IsJsonName(name: string) {
    |name| >= 5 && name[|name| - 5..] == ".json"
  }

  /** `if limit: files = files[:limit]`. */
  function Limited(names: seq<string>, limit: Option<int>): (r: seq<string>)
    ensures limit.Some? && limit.value > 0 ==> |r| <= limit.value
    ensures limit.Some? && limit.value > 0 ==>
      r == names[..if limit.value < |names| then limit.value else |names|]
    ensures limit.Some? && limit.value < 0 ==>
      r == names[..if |names| + limit.value < 0 then 0 else |names| + limit.value]
    ensures limit.None? || limit.value == 0 ==> r == names
  {
    if limit.Some? && limit.value != 0 then PyPrefix(names, limit.value) else names
  }

  /** The row for a readable record. */
  function SummaryOf(dataDir: string, name: string, entry: Entry): Summary
    requires entry.Record?
  {
    Summary(name,
            if entry.query.Some? then entry.query.value else JsonString(""),
            if entry.timestamp.Some? then entry.timestamp.value else JsonString(""),
            PathIn(dataDir, name))
  }

  /** The rows for `names`, skipping files that are not readable JSON objects. */
  function Summaries(dataDir: string, files: map<string, Entry>, names: seq<string>): seq<Summary>
    requires forall n :: n in names ==> n in files
  {
    if names == [] then []
    else
      var last := names[|names| - 1];
      Summaries(dataDir, files, names[..|names| - 1])
      + (if files[last].Record? then [SummaryOf(dataDir, last, files[last])] else [])
  }

  /** One more name adds its row when the file is readable. */
  lemma SummariesStep(dataDir: string, files: map<string, Entry>, names: seq<string>, i: nat)
    requires forall n :: n in names ==> n in files
    requires i < |names|
    ensures Summaries(dataDir, files, names[..i + 1])
         == Summaries(dataDir, files, names[..i])
            + (if files[names[i]].Record? then [SummaryOf(dataDir, names[i], files[names[i]])] else [])
  {
    assert names[..i + 1][..i] == names[..i];
  }

  /** What `list_research(limit)` returns. */
  function Listing(dataDir: string, files: map<string, Entry>, order: seq<string>, limit: Option<int>): seq<Summary>
    requires forall n :: n in order ==> n in files
  {
    Summaries(dataDir, files, Limited(Filter(order, IsJsonName), limit))
  }

  /** The names a listing reads all have files. */
  lemma LimitedNamesKnown(files: map<string, Entry>, order: seq<string>, limit: Option<int>)
    requires forall n :: n in order ==> n in files
    ensures forall n :: n in Limited(Filter(order, IsJsonName), limit) ==> n in files
  {
    var json := Filter(order, IsJsonName);
    forall n | n in Limited(json, limit) ensures n in files {
      var k :| 0 <= k < |Limited(json, limit)| && Limited(json, limit)[k] == n;
      assert n == json[k];
    }
  }

  /** Each row comes from a readable JSON file in `names` and carries its
      query and time stamp (or "" when absent); every readable file of
      `names` has its row. */
  lemma {:induction false} SummariesRows(dataDir: string, files: map<string, Entry>, names: seq<string>)
    requires forall n :: n in names ==> n in files
    ensures var r := Summaries(dataDir, files, names);
      && |r| <= |names|
      && (forall k :: 0 <= k < |r| ==>
            r[k].filename in names && files[r[k].filename].Record?
            && r[k] == SummaryOf(dataDir, r[k].filename, files[r[k].filename]))
      && (forall n :: n in names && files[n].Record? ==> SummaryOf(dataDir, n, files[n]) in r)
  {
    if names != [] {
      var init := names[..|names| - 1];
      SummariesRows(dataDir, files, init);
      assert names == init + [names[|names| - 1]];
    }
  }

  /** The listing read off the order directly: walk the files newest first,
      take the first `count` `.json` names, and give a row for each of them
      that is a readable record. */
  function NewestRows(dataDir: string, files: map<string, Entry>, order: seq<string>, count: nat): seq<Summary>
    requires forall n :: n in order ==> n in files
  {
    if order == [] || count == 0 then []
    else if IsJsonName(order[0]) then
      (if files[order[0]].Record? then [SummaryOf(dataDir, order[0], files[order[0]])] else [])
      + NewestRows(dataDir, files, order[1..], count - 1)
    else NewestRows(dataDir, files, order[1..], count)
  }

  /** The first `count` `.json` names of the order (all of them when fewer). */
  function FirstJsonNames(order: seq<string>, count: nat): (r: seq<string>)
    ensures forall n :: n in r ==> n in order
  {
    var json := Filter(order, IsJsonName);
    json[..if count < |json| then count else |json|]
  }

  /** Taking `.json` names from the front: a leading `.json` name is taken
      first, any other leading name is passed over. */
  lemma FirstJsonNamesCons(order: seq<string>, count: nat)
    requires order != [] && count > 0
    ensures FirstJsonNames(order, count)
         == if IsJsonName(order[0]) then [order[0]] + FirstJsonNames(order[1..], count - 1)
            else FirstJsonNames(order[1..], count)
  {
    var x, rest := order[0], order[1..];
    var restJson := Filter(rest, IsJsonName);
    assert order == [x] + rest;
    FilterAppend([x], rest, IsJsonName);
    FilterSingle(x, IsJsonName);
    if IsJsonName(x) {
      assert Filter(order, IsJsonName) == [x] + restJson;
      TakeCons(x, restJson, count);
    } else {
      assert Filter(order, IsJsonName) == restJson;
    }
  }

  /** The first `count` elements of a sequence with `x` in front. */
  lemma TakeCons<T>(x: T, s: seq<T>, count: nat)
    requires count > 0
    ensures var t := [x] + s;
      t[..if count < |t| then count else |t|] == [x] + s[..if count - 1 < |s| then count - 1 else |s|]
  {
  }

  /** The rows of a name followed by more names. */
  lemma SummariesCons(dataDir: string, files: map<string, Entry>, x: string, rest: seq<string>)
    requires x in files && forall n :: n in rest ==> n in files
    ensures Summaries(dataDir, files, [x] + rest)
         == (if files[x].Record? then [SummaryOf(dataDir, x, files[x])] else [])
            + Summaries(dataDir, files, rest)
  {
    SummariesAppend(dataDir, files, [x], rest);
    assert [x][..0] == [];
  }

  /** A leading `.json` name adds its row, when readable, before the rows
      of the names after it. */
  lemma NewestRowsJsonStep(dataDir: string, files: map<string, Entry>, order: seq<string>, count: nat)
    requires forall n :: n in order ==> n in files
    requires order != [] && count > 0 && IsJsonName(order[0])
    requires Summaries(dataDir, files, FirstJsonNames(order[1..], count - 1))
          == NewestRows(dataDir, files, order[1..], count - 1)
    ensures Summaries(dataDir, files, FirstJsonNames(order, count)) == NewestRows(dataDir, files, order, count)
  {
    FirstJsonNamesCons(order, count);
    SummariesCons(dataDir, files, order[0], FirstJsonNames(order[1..], count - 1));
  }

  /** A leading name that is not a `.json` name is passed over. */
  lemma NewestRowsOtherStep(dataDir: string, files: map<string, Entry>, order: seq<string>, count: nat)
    requires forall n :: n in order ==> n in files
    requires order != [] && count > 0 && !IsJsonName(order[0])
    requires Summaries(dataDir, files, FirstJsonNames(order[1..], count))
          == NewestRows(dataDir, files, order[1..], count)
    ensures Summaries(dataDir, files, FirstJsonNames(order, count)) == NewestRows(dataDir, files, order, count)
  {
    FirstJsonNamesCons(order, count);
  }

  /** The rows of the first `count` `.json` names are `NewestRows`. */
  lemma {:induction false} NewestRowsTake(dataDir: string, files: map<string, Entry>, order: seq<string>, count: nat)
    requires forall n :: n in order ==> n in files
    ensures Summaries(dataDir, files, FirstJsonNames(order, count)) == NewestRows(dataDir, files, order, count)
  {
    if order != [] && count != 0 {
      var x, rest := order[0], order[1..];
      if IsJsonName(x) {
        NewestRowsTake(dataDir, files, rest, count - 1);
        NewestRowsJsonStep(dataDir, files, order, count);
      } else {
        NewestRowsTake(dataDir, files, rest, count);
        NewestRowsOtherStep(dataDir, files, order, count);
      }
    } else {
      assert FirstJsonNames(order, count) == [];
    }
  }

  /** How many `.json` names `list_research(limit)` reads: all of them for a
      falsy limit, the first `limit` for a positive one, all but the last
      `-limit` for a negative one. */
  function ListedCount(jsonCount: nat, limit: Option<int>): nat {
    if limit.None? || limit.value == 0 then jsonCount
    else if limit.value > 0 then limit.value
    else if jsonCount + limit.value < 0 then 0
    else jsonCount + limit.value
  }

  /** The rows of `list_research` are the rows of the newest `.json` files,
      newest first, as many files as the limit lets through: at most
      `limit` rows when the limit is positive, each from a readable file. */
  lemma ListingRows(dataDir: string, files: map<string, Entry>, order: seq<string>, limit: Option<int>)
    requires forall n :: n in order ==> n in files
    ensures var r := Listing(dataDir, files, order, limit);
      && r == NewestRows(dataDir, files, order, ListedCount(|Filter(order, IsJsonName)|, limit))
      && (limit.Some? && limit.value > 0 ==> |r| <= limit.value)
      && (forall k :: 0 <= k < |r| ==>
            IsJsonName(r[k].filename) && r[k].filename in order && files[r[k].filename].Record?)
  {
    var json := Filter(order, IsJsonName);
    var count := ListedCount(|json|, limit);
    var names := Limited(json, limit);
    assert names == FirstJsonNames(order, count);
    NewestRowsTake(dataDir, files, order, count);
    SummariesRows(dataDir, files, names);
  }

  /** Without a limit, every readable `.json` file is listed. */
  lemma ListingComplete(dataDir: string, files: map<string, Entry>, order: seq<string>, name: string)
    requires forall n :: n in order ==> n in files
    requires name in order && IsJsonName(name) && files[name].Record?
    ensures SummaryOf(dataDir, name, files[name]) in Listing(dataDir, files, order, None)
  {
    SummariesRows(dataDir, files, Filter(order, IsJsonName));
  }

  /** The rows of the newest files come first: the rows for `a + b` are the
      rows for `a` followed by the rows for `b`. */
  lemma {:induction false} SummariesAppend(dataDir: string, files: map<string, Entry>, a: seq<string>, b: seq<string>)
    requires forall n :: n in a + b ==> n in files
    ensures Summaries(dataDir, files, a + b) == Summaries(dataDir, files, a) + Summaries(dataDir, files, b)
    decreases |b|
  {
    if b == [] {
      assert a + b == a;
    } else {
      var init := b[..|b| - 1];
      assert (a + b)[..|a + b| - 1] == a + init;
      SummariesAppend(dataDir, files, a, init);
    }
  }

  /** What `search_research` ends in: the matching rows, or the
      AttributeError raised when a listed query is not a string. */
  datatype SearchOutcome = Matches(rows: seq<Summary>) | QueryNotText

  /** The query text of a row whose query is a string. */
  function QueryText(s: Summary): string {
    if s.query.JsonString? then s.query.text else ""
  }

  /** Whether a row's lower-cased query holds the lower-cased keyword. */
  predicate Matching(s: Summary, keywordLower: string, lower: string -> string) {
    Contains(lower(QueryText(s)), keywordLower)
  }

  /** `search_research`: the rows of the full listing whose lower-cased query
      holds the lower-cased keyword; `.lower()` raises on a query that is not
      a string. */
  function SearchResults(dataDir: string, files: map<string, Entry>, order: seq<string>,
                         keyword: string, lower: string -> string): SearchOutcome
    requires forall n :: n in order ==> n in files
  {
    var all := Listing(dataDir, files, order, None);
    if !QueriesText(all) then QueryNotText
    else Matches(Filter(all, (s: Summary) => Matching(s, lower(keyword), lower)))
  }

  /** Every row's query is a string. */
  predicate QueriesText(rows: seq<Summary>) {
    forall k :: 0 <= k < |rows| ==> rows[k].query.JsonString?
  }

  /** One more row with a string query keeps every query a string. */
  lemma QueriesTextStep(rows: seq<Summary>, i: nat)
    requires i < |rows| && QueriesText(rows[..i]) && rows[i].query.JsonString?
    ensures QueriesText(rows[..i + 1])
  {
    assert forall k :: 0 <= k < i ==> rows[..i + 1][k] == rows[..i][k];
  }

  /** The search raises exactly when some listed query is not a string;
      otherwise a row is found exactly when it is in the full listing and
      its query matches. */
  lemma SearchResultsIff(dataDir: string, files: map<string, Entry>, order: seq<string>,
                         keyword: string, lower: string -> string, s: Summary)
    requires forall n :: n in order ==> n in files
    ensures var all := Listing(dataDir, files, order, None);
      (SearchResults(dataDir, files, order, keyword, lower).QueryNotText? <==>
         exists row :: row in all && !row.query.JsonString?)
    ensures SearchResults(dataDir, files, order, keyword, lower).Matches? ==>
      (s in SearchResults(dataDir, files, order, keyword, lower).rows <==>
         s in Listing(dataDir, files, order, None) && s.query.JsonString?
         && Contains(lower(s.query.text), lower(keyword)))
  {
    var all := Listing(dataDir, files, order, None);
    var result := SearchResults(dataDir, files, order, keyword, lower);
    if !QueriesText(all) {
      var k :| 0 <= k < |all| && !all[k].query.JsonString?;
      assert all[k] in all;
    }
    if result.Matches? {
      var found := result.rows;
      if s in found {
        var k :| 0 <= k < |found| && found[k] == s;
      }
      if s in all && s.query.JsonString? && Contains(lower(s.query.text), lower(keyword)) {
        var k :| 0 <= k < |all| && all[k] == s;
      }
    }
  }

  class StorageManager {
    const dataDir: string
    const autoSave: bool
    /** The files of the data directory. */
    var files: map<string, Entry>
    /** Their names, newest modification time first. */
    var order: seq<string>

    ghost predicate Valid()
      reads this
    {
      Consistent(files, order)
    }

    /** The directory as a value. */
    function Contents(): Directory
      reads this
    {
      Directory(files, order)
    }

    /** Opens the data directory with the files it already holds. */
    constructor (dataDir: string, autoSave: bool, files: map<string, Entry>, order: seq<string>)
      requires Consistent(files, order)
      ensures Valid()
      ensures this.dataDir == dataDir && this.autoSave == autoSave
      ensures this.files == files && this.order == order
    {
      this.dataDir := dataDir;
      this.autoSave := autoSave;
      this.files := files;
      this.order := order;
    }

    /** `load_research`: the parsed file, or None when it is missing or not JSON. */
    function LoadResearch(filename: string): (r: Option<Entry>)
      reads this
      ensures r.Some? <==> filename in files && files[filename] != Unreadable
      ensures r.Some? ==> r.value == files[filename]
    {
      if filename in files && files[filename] != Unreadable then Some(files[filename]) else None
    }

    /** `save_research`: writes (or overwrites) the record under a name made
        of the time stamp and the safe query; that file becomes the newest. */
    method SaveResearch(query: string, results: string, metadata: Option<Metadata>,
                        clock: Clock, isAlnum: char -> bool)
      returns (path: string)
      requires Valid()
      modifies this
      ensures Valid()
      ensures var name := ResearchFilename(clock.stamp, query, isAlnum);
        && path == PathIn(dataDir, name)
        && files == old(files)[name := Record(Some(JsonString(query)), Some(JsonString(clock.iso)), results, MetadataOrEmpty(metadata))]
        && order == [name] + Without(old(order), name)
        && LoadResearch(name) == Some(Record(Some(JsonString(query)), Some(JsonString(clock.iso)), results, MetadataOrEmpty(metadata)))
    {
      var name := clock.stamp + "_" + SafeTitle(query, isAlnum) + ".json";
      MoveToFrontDistinct(order, name);
      files := files[name := Record(Some(JsonString(query)), Some(JsonString(clock.iso)), results, MetadataOrEmpty(metadata))];
      order := [name] + Without(order, name);
      path := PathIn(dataDir, name);
    }

    /** `list_research`: the newest `.json` files first, cut to the limit when
        the limit is truthy, skipping files that are not readable JSON objects. */
    method ListResearch(limit: Option<int>) returns (rows: seq<Summary>)
      requires Valid()
      ensures rows == Listing(dataDir, files, order, limit)
    {
      var names := Filter(order, IsJsonName);
      if limit.Some? && limit.value != 0 {
        names := PyPrefix(names, limit.value);
      }
      assert names == Limited(Filter(order, IsJsonName), limit);
      LimitedNamesKnown(files, order, limit);
      rows := [];
      var i := 0;
      while i < |names|
        invariant 0 <= i <= |names|
        invariant rows == Summaries(dataDir, files, names[..i])
      {
        SummariesStep(dataDir, files, names, i);
        var entry := files[names[i]];
        if entry.Record? {
          rows := rows + [SummaryOf(dataDir, names[i], entry)];
        }
        i := i + 1;
      }
      assert names[..i] == names;
    }

    /** `search_research`: the comprehension over the full listing, which
        raises at the first query that is not a string. */
    method SearchResearch(keyword: string, lower: string -> string) returns (outcome: SearchOutcome)
      requires Valid()
      ensures outcome == SearchResults(dataDir, files, order, keyword, lower)
    {
      var all := ListResearch(None);
      var keywordLower := lower(keyword);
      var rows := [];
      var i := 0;
      while i < |all|
        invariant 0 <= i <= |all|
        invariant QueriesText(all[..i])
        invariant rows == Filter(all[..i], (s: Summary) => Matching(s, keywordLower, lower))
      {
        if !all[i].query.JsonString? {
          assert !QueriesText(all);
          return QueryNotText;
        }
        QueriesTextStep(all, i);
        FilterStep(all, i, (s: Summary) => Matching(s, keywordLower, lower));
        if Contains(lower(all[i].query.text), keywordLower) {
          rows := rows + [all[i]];
        }
        i := i + 1;
      }
      assert all[..i] == all;
      return Matches(rows);
    }

    /** `delete_research`: removes the file and reports whether it existed. */
    method DeleteResearch(filename: string) returns (deleted: bool)
      requires Valid()
      modifies this
      ensures Valid()
      ensures deleted <==> filename in old(files)
      ensures files == old(files) - {filename}
      ensures order == Without(old(order), filename)
      ensures LoadResearch(filename) == None
      ensures !deleted ==> files == old(files) && order == old(order)
    {
      deleted := filename in files;
      if !deleted {
        WithoutAbsent(order, filename);
      }
      WithoutDistinct(order, filename);
      files := files - {filename};
      order := Without(order, filename);
    }
  }

  /** The first row of a listing whose first file is readable is that file's row. */
  lemma SummariesHead(dataDir: string, files: map<string, Entry>, names: seq<string>)
    requires names != [] && forall n :: n in names ==> n in files
    requires files[names[0]].Record?
    ensures Summaries(dataDir, files, names) != []
    ensures Summaries(dataDir, files, names)[0] == SummaryOf(dataDir, names[0], files[names[0]])
  {
    assert names == [names[0]] + names[1..];
    SummariesAppend(dataDir, files, [names[0]], names[1..]);
    assert [names[0]][..0] == [];
  }

  /** The names a listing reads, when the newest file is a `.json` file and
      the limit lets at least one through, start with that file. */
  lemma ListedNamesHead(order: seq<string>, name: string, limit: Option<int>)
    requires IsJsonName(name) && (limit.None? || limit.value > 0)
    ensures var names := Limited(Filter([name] + order, IsJsonName), limit);
      names != [] && names[0] == name && forall n :: n in names ==> n in [name] + order
  {
    FilterCons(name, order);
    var json := Filter([name] + order, IsJsonName);
    var names := Limited(json, limit);
    forall n | n in names ensures n in [name] + order {
      var k :| 0 <= k < |names| && names[k] == n;
      assert n == json[k];
    }
  }

  /** After a save, the saved record is the first row of the listing (for
      any limit that lets a row through), since its file is the newest. */
  lemma SaveThenListFirst(dataDir: string, files: map<string, Entry>, order: seq<string>,
                          name: string, record: Entry, limit: Option<int>)
    requires Consistent(files, order) && record.Record? && IsJsonName(name)
    requires limit.None? || limit.value > 0
    ensures var after, afterOrder := files[name := record], [name] + Without(order, name);
      Consistent(after, afterOrder)
      && Listing(dataDir, after, afterOrder, limit) != []
      && Listing(dataDir, after, afterOrder, limit)[0] == SummaryOf(dataDir, name, record)
  {
    var after, afterOrder := files[name := record], [name] + Without(order, name);
    MoveToFrontDistinct(order, name);
    ListedNamesHead(Without(order, name), name, limit);
    SummariesHead(dataDir, after, Limited(Filter(afterOrder, IsJsonName), limit));
  }

  lemma FilterCons(name: string, rest: seq<string>)
    requires IsJsonName(name)
    ensures Filter([name] + rest, IsJsonName) == [name] + Filter(rest, IsJsonName)
  {
    FilterConsGeneral(name, rest, IsJsonName);
  }

  lemma {:induction false} FilterConsGeneral<T>(x: T, rest: seq<T>, keep: T -> bool)
    requires keep(x)
    ensures Filter([x] + rest, keep) == [x] + Filter(rest, keep)
    decreases |rest|
  {
    if rest != [] {
      var init := rest[..|rest| - 1];
      assert ([x] + rest)[..|[x] + rest| - 1] == [x] + init;
      FilterConsGeneral(x, init, keep);
    } else {
      assert [x] + rest == [x];
      assert [x][..0] == [];
    }
  }

  /** Deleting removes exactly that file: it no longer loads, and a second
      delete reports False. */
  lemma DeleteThenLoad(files: map<string, Entry>, order: seq<string>, name: string)
    requires Consistent(files, order)
    ensures var after, afterOrder := files - {name}, Without(order, name);
      Consistent(after, afterOrder) && name !in after
      && (forall n :: n in after <==> n in files && n != name)
  {
    WithoutDistinct(order, name);
  }
}
