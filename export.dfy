/**
 * Model of src/lonai/tools/export.py (`ReportExporter`): the safe title, the
 * file name per format, the markdown header, the HTML newline rewrite and
 * line-by-line markdown conversion, and the JSON record. Writing the file is
 * not modelled; each export returns the file name and the document it writes.
 */
module Export {
  import opened Text

  datatype ExportFormat = Markdown | Html | Json

  /** A metadata dict in insertion order, each value already rendered by `str`. */
  type Metadata = seq<(string, string)>

  /** The clock readings one export takes: `%Y%m%d_%H%M%S` for the file name,
      `%Y-%m-%d %H:%M:%S` for the visible "Generated" line, and `isoformat()`. */
  datatype Clock = Clock(stamp: string, display: string, iso: string)

  /** Python's `metadata or {}`. */
  function MetadataOrEmpty(metadata: Option<Metadata>): Metadata {
    if metadata.Some? then metadata.value else []
  }

  // ---------------------------------------------------------------------
  // Safe title and file name
  // ---------------------------------------------------------------------

  const MAX_SAFE_TITLE: nat := 50

  /** The comprehension: alphanumerics, spaces and underscores are kept, every
      other character becomes an underscore. */
  function KeepSafeChars(title: string, isAlnum: char -> bool): (r: string)
    ensures |r| == |title|
    ensures forall i :: 0 <= i < |title| ==>
      r[i] == if isAlnum(title[i]) || title[i] == ' ' || title[i] == '_' then title[i] else '_'
  {
    if title == [] then []
    else
      var c := title[0];
      [if isAlnum(c) || c == ' ' || c == '_' then c else '_'] + KeepSafeChars(title[1..], isAlnum)
  }

  /** The safe title: the comprehension, then spaces to underscores, then the
      first 50 characters. It has min(|title|, 50) characters; each is the
      title's own character where that is alphanumeric and not a space, and
      an underscore everywhere else. */
  function SafeTitle(title: string, isAlnum: char -> bool): (r: string)
    ensures |r| == if |title| < MAX_SAFE_TITLE then |title| else MAX_SAFE_TITLE
    ensures forall i :: 0 <= i < |r| ==>
      r[i] == if isAlnum(title[i]) && title[i] != ' ' then title[i] else '_'
    ensures forall i :: 0 <= i < |r| ==> r[i] == '_' || (isAlnum(r[i]) && r[i] != ' ')
  {
    PyPrefix(ReplaceChar(KeepSafeChars(title, isAlnum), ' ', "_"), MAX_SAFE_TITLE)
  }

  function Extension(format: ExportFormat): string {
    match format
    case Markdown => ".md"
    case Html => ".html"
    case Json => ".json"
  }

  /** `f"{timestamp}_{safe_title}{extension}"`. */
  function ExportFilename(stamp: string, title: string, format: ExportFormat, isAlnum: char -> bool): string {
    stamp + "_" + SafeTitle(title, isAlnum) + Extension(format)
  }

  /** The file name starts with the time stamp and an underscore, ends with the
      format's extension, and holds the safe title in between; so two exports
      with different formats never share a file name. */
  lemma ExportFilenameShape(stamp: string, title: string, format: ExportFormat, isAlnum: char -> bool)
    ensures var f, ext := ExportFilename(stamp, title, format, isAlnum), Extension(format);
      && |f| == |stamp| + 1 + |SafeTitle(title, isAlnum)| + |ext|
      && f[..|stamp| + 1] == stamp + "_"
      && f[|f| - |ext|..] == ext
      && f[|stamp| + 1..|f| - |ext|] == SafeTitle(title, isAlnum)
    ensures forall other: ExportFormat :: other != format ==>
      ExportFilename(stamp, title, format, isAlnum) != ExportFilename(stamp, title, other, isAlnum)
  {
    var f := ExportFilename(stamp, title, format, isAlnum);
    forall other: ExportFormat | other != format
      ensures f != ExportFilename(stamp, title, other, isAlnum)
    {
      var g := ExportFilename(stamp, title, other, isAlnum);
      if |f| == |g| {
        assert f[|f| - 1] == Extension(format)[|Extension(format)| - 1];
        assert g[|g| - 1] == Extension(other)[|Extension(other)| - 1];
      }
    }
  }

  // ---------------------------------------------------------------------
  // Markdown export
  // ---------------------------------------------------------------------

  /** `f"- **{key}**: {value}\n"`. */
  function MetadataLine(entry: (string, string)): string {
    "- **" + entry.0 + "**: " + entry.1 + "\n"
  }

  /** The metadata lines, one per entry, in order. */
  function MetadataLines(metadata: Metadata): string {
    if metadata == [] then [] else MetadataLines(metadata[..|metadata| - 1]) + MetadataLine(metadata[|metadata| - 1])
  }

  /** The metadata section: present iff there is metadata. */
  function MetadataSection(metadata: Metadata): (r: string)
    ensures r == [] <==> metadata == []
  {
    if metadata == [] then [] else "## Metadata\n\n" + MetadataLines(metadata) + "\n---\n\n"
  }

  /** The header above the content: the title line (underscores back to spaces,
      then `str.title`), the "Generated" line and the metadata section. */
  function MarkdownHeader(safeTitle: string, display: string, metadata: Metadata,
                          titleCase: string -> string): (r: string)
    ensures StartsWith(r, "# ")
    ensures |r| >= |MetadataSection(metadata)|
    ensures r[|r| - |MetadataSection(metadata)|..] == MetadataSection(metadata)
  {
    "# " + titleCase(ReplaceChar(safeTitle, '_', " ")) + "\n\n"
    + "*Generated: " + display + "*\n\n"
    + MetadataSection(metadata)
  }

  /** The markdown document is header plus content: the content is an
      unchanged suffix of the document. */
  function MarkdownDocument(content: string, safeTitle: string, display: string, metadata: Metadata,
                            titleCase: string -> string): (r: string)
    ensures |r| > |content| && r[|r| - |content|..] == content
    ensures StartsWith(r, "# ")
  {
    var header := MarkdownHeader(safeTitle, display, metadata, titleCase);
    assert (header + content)[|header|..] == content;
    header + content
  }

  /** With no line breaks inside keys and values, the metadata lines split
      into exactly one `- **key**: value` line per entry, in order. */
  lemma {:induction false} MetadataLinesSplit(metadata: Metadata)
    requires forall i :: 0 <= i < |metadata| ==> '\n' !in metadata[i].0 && '\n' !in metadata[i].1
    ensures Split(MetadataLines(metadata), '\n')
         == seq(|metadata|, i requires 0 <= i < |metadata| => "- **" + metadata[i].0 + "**: " + metadata[i].1) + [""]
  {
    var lines := seq(|metadata|, i requires 0 <= i < |metadata| => "- **" + metadata[i].0 + "**: " + metadata[i].1);
    MetadataLinesJoin(metadata);
    forall i | 0 <= i < |lines + [""]| ensures '\n' !in (lines + [""])[i] {
      if i < |lines| {
        assert lines[i] == "- **" + metadata[i].0 + "**: " + metadata[i].1;
      }
    }
    SplitJoin(lines + [""], '\n');
  }

  /** The metadata lines are the entry lines joined by newlines, plus a final newline. */
  lemma {:induction false} MetadataLinesJoin(metadata: Metadata)
    ensures MetadataLines(metadata)
         == Join(seq(|metadata|, i requires 0 <= i < |metadata| => "- **" + metadata[i].0 + "**: " + metadata[i].1) + [""], '\n')
  {
    var lines := seq(|metadata|, i requires 0 <= i < |metadata| => "- **" + metadata[i].0 + "**: " + metadata[i].1);
    if metadata == [] {
      assert lines + [""] == [""];
    } else {
      var init := metadata[..|metadata| - 1];
      var last := metadata[|metadata| - 1];
      MetadataLinesJoin(init);
      var initLines := seq(|init|, i requires 0 <= i < |init| => "- **" + init[i].0 + "**: " + init[i].1);
      assert lines == initLines + [lines[|lines| - 1]];
      JoinAppend(initLines, lines[|lines| - 1]);
      assert lines + [""] == initLines + [lines[|lines| - 1], ""];
    }
  }

  /** Appending one more line before the empty last piece of a join. */
  lemma {:induction false} JoinAppend(lines: seq<string>, line: string)
    ensures Join(lines + [line, ""], '\n') == Join(lines + [""], '\n') + line + "\n"
  {
    if lines == [] {
      assert [line, ""][1..] == [""];
    } else {
      JoinAppend(lines[1..], line);
      assert (lines + [line, ""])[1..] == lines[1..] + [line, ""];
      assert (lines + [""])[1..] == lines[1..] + [""];
    }
  }

  /** One more entry adds its line at the end. */
  lemma MetadataLinesStep(entries: Metadata, i: nat)
    requires i < |entries|
    ensures MetadataLines(entries[..i + 1]) == MetadataLines(entries[..i]) + MetadataLine(entries[i])
  {
    assert entries[..i + 1][..i] == entries[..i];
  }

  /** The header accumulated around the metadata lines is the header
      followed by the metadata section. */
  lemma MetadataSectionAfter(top: string, entries: Metadata)
    requires entries != []
    ensures top + "## Metadata\n\n" + MetadataLines(entries) + "\n---\n\n" == top + MetadataSection(entries)
  {
  }

  /** The loop of `_export_markdown`: one `- **key**: value` line per entry, in order. */
  method AppendMetadataLines(header: string, entries: Metadata) returns (r: string)
    ensures r == header + MetadataLines(entries)
  {
    r := header;
    var i := 0;
    while i < |entries|
      invariant 0 <= i <= |entries|
      invariant r == header + MetadataLines(entries[..i])
    {
      MetadataLinesStep(entries, i);
      r := r + MetadataLine(entries[i]);
      i := i + 1;
    }
    assert entries[..i] == entries;
  }

  /** `_export_markdown`: accumulates the header, metadata line by metadata line. */
  method ExportMarkdown(content: string, safeTitle: string, clock: Clock, metadata: Option<Metadata>,
                        titleCase: string -> string)
    returns (filename: string, document: string)
    ensures filename == clock.stamp + "_" + safeTitle + ".md"
    ensures document == MarkdownDocument(content, safeTitle, clock.display, MetadataOrEmpty(metadata), titleCase)
  {
    filename := clock.stamp + "_" + safeTitle + ".md";
    var header := "# " + titleCase(ReplaceChar(safeTitle, '_', " ")) + "\n\n";
    header := header + "*Generated: " + clock.display + "*\n\n";
    var entries := MetadataOrEmpty(metadata);
    if entries != [] {
      var top := header;
      header := header + "## Metadata\n\n";
      header := AppendMetadataLines(header, entries);
      header := header + "\n---\n\n";
      MetadataSectionAfter(top, entries);
    }
    document := header + content;
  }

  // ---------------------------------------------------------------------
  // HTML export
  // ---------------------------------------------------------------------

  /** Each line but the last, followed by `<br>`. */
  function WithBreaks(lines: seq<string>): (r: seq<string>)
    ensures |r| == |lines|
    ensures forall i :: 0 <= i < |lines| ==> r[i] == lines[i] + (if i < |lines| - 1 then "<br>" else "")
  {
    if |lines| <= 1 then lines else [lines[0] + "<br>"] + WithBreaks(lines[1..])
  }

  /** `content.replace('\n', '<br>\n')`. */
  function BreakNewlines(content: string): string {
    ReplaceChar(content, '\n', "<br>\n")
  }

  lemma {:induction false} BreakNewlinesJoin(lines: seq<string>)
    requires |lines| >= 1
    requires forall i :: 0 <= i < |lines| ==> '\n' !in lines[i]
    ensures BreakNewlines(Join(lines, '\n')) == Join(WithBreaks(lines), '\n')
  {
    if |lines| > 1 {
      var rest := lines[1..];
      var tail := Join(rest, '\n');
      BreakNewlinesJoin(rest);
      assert Join(lines, '\n') == lines[0] + ("\n" + tail);
      ReplaceCharAppend(lines[0], "\n" + tail, '\n', "<br>\n");
      ReplaceCharAppend("\n", tail, '\n', "<br>\n");
      assert ReplaceChar("\n", '\n', "<br>\n") == "<br>\n";
      assert WithBreaks(lines) == [lines[0] + "<br>"] + WithBreaks(rest);
    }
  }

  /** After the rewrite the text has the same lines as before, and every line
      but the last ends in `<br>`: each newline became `<br>\n`. */
  lemma BreakNewlinesLines(content: string)
    ensures Split(BreakNewlines(content), '\n') == WithBreaks(Split(content, '\n'))
  {
    var lines := Split(content, '\n');
    JoinSplit(content, '\n');
    BreakNewlinesJoin(lines);
    var broken := WithBreaks(lines);
    forall i | 0 <= i < |broken| ensures '\n' !in broken[i] {
      assert broken[i] == lines[i] + (if i < |lines| - 1 then "<br>" else "");
    }
    SplitJoin(broken, '\n');
  }

  /** The conversion `_simple_markdown_to_html` applies to one line. */
  function ConvertLine(line: string): string {
    if StartsWith(line, "### ") then "<h3>" + line[4..] + "</h3>"
    else if StartsWith(line, "## ") then "<h2>" + line[3..] + "</h2>"
    else if StartsWith(line, "# ") then "<h1>" + line[2..] + "</h1>"
    else if Contains(line, "**") then Embolden(line)
    else if StartsWith(Strip(line), "- ") then ListItem(line)
    else line
  }

  /** The bold rewrite: the first two `**` become `<strong>` and `</strong>`. */
  function Embolden(line: string): string {
    ReplaceFirst(ReplaceFirst(line, "**", "<strong>"), "**", "</strong>")
  }

  /** The list-item rewrite of a line whose stripped form starts with `- `. */
  function ListItem(line: string): string
    requires StartsWith(Strip(line), "- ")
  {
    "<li>" + Strip(line)[2..] + "</li>"
  }

  lemma ReplaceFirstKeepsOut(s: string, pat: string, rep: string, c: char)
    requires c !in s && c !in rep
    ensures c !in ReplaceFirst(s, pat, rep)
  {
    match IndexOf(s, pat)
    case None =>
    case Some(i) =>
      assert ReplaceFirst(s, pat, rep) == s[..i] + rep + s[i + |pat|..];
  }

  /** A character absent from a string is absent from each of its slices. */
  lemma NotInSlice(s: string, c: char, i: nat, j: nat)
    requires c !in s && i <= j <= |s|
    ensures c !in s[i..j]
  {
    forall k | 0 <= k < j - i ensures s[i..j][k] != c {
      assert s[i..j][k] == s[i + k];
    }
  }

  /** A character absent from three strings is absent from their concatenation. */
  lemma NotInWrapped(open: string, middle: string, close: string, c: char)
    requires c !in open && c !in middle && c !in close
    ensures c !in open + middle + close
  {
    var w := open + middle + close;
    forall k | 0 <= k < |w| ensures w[k] != c {
      if k < |open| {
        assert w[k] == open[k];
      } else if k < |open| + |middle| {
        assert w[k] == middle[k - |open|];
      } else {
        assert w[k] == close[k - |open| - |middle|];
      }
    }
  }

  lemma ListItemOneLine(line: string)
    requires '\n' !in line && StartsWith(Strip(line), "- ")
    ensures '\n' !in ListItem(line)
  {
    StripBySlice(line, IsSpace);
    var i := |line| - |TrimLeft(line, IsSpace)|;
    var n := |Strip(line)|;
    NotInSlice(line, '\n', i + 2, i + n);
    assert Strip(line)[2..] == line[i + 2..i + n];
    NotInWrapped("<li>", Strip(line)[2..], "</li>", '\n');
  }

  /** The conversion never introduces a line break into a line. */
  lemma ConvertLineOneLine(line: string)
    requires '\n' !in line
    ensures '\n' !in ConvertLine(line)
  {
    if StartsWith(line, "### ") {
      NotInSlice(line, '\n', 4, |line|);
      NotInWrapped("<h3>", line[4..], "</h3>", '\n');
    } else if StartsWith(line, "## ") {
      NotInSlice(line, '\n', 3, |line|);
      NotInWrapped("<h2>", line[3..], "</h2>", '\n');
    } else if StartsWith(line, "# ") {
      NotInSlice(line, '\n', 2, |line|);
      NotInWrapped("<h1>", line[2..], "</h1>", '\n');
    } else if Contains(line, "**") {
      ReplaceFirstKeepsOut(line, "**", "<strong>", '\n');
      ReplaceFirstKeepsOut(ReplaceFirst(line, "**", "<strong>"), "**", "</strong>", '\n');
      assert ConvertLine(line) == Embolden(line);
    } else if StartsWith(Strip(line), "- ") {
      ListItemOneLine(line);
      assert ConvertLine(line) == ListItem(line);
    }
  }

  predicate IsHeading(line: string) {
    StartsWith(line, "### ") || StartsWith(line, "## ") || StartsWith(line, "# ")
  }

  /** The three heading prefixes exclude one another, so each heading line is
      wrapped at exactly its own level with its prefix removed. */
  lemma ConvertHeading(line: string)
    requires IsHeading(line)
    ensures StartsWith(line, "### ") ==> !StartsWith(line, "## ") && !StartsWith(line, "# ")
    ensures StartsWith(line, "## ") ==> !StartsWith(line, "# ")
    ensures var level := if StartsWith(line, "### ") then 3 else if StartsWith(line, "## ") then 2 else 1;
      ConvertLine(line) == "<h" + [DigitChar(level)] + ">" + line[level + 1..] + "</h" + [DigitChar(level)] + ">"
  {
    if StartsWith(line, "### ") {
      assert line[..4][2] == '#' && line[..4][1] == '#';
      assert line[2] == '#' && line[1] == '#';
    } else if StartsWith(line, "## ") {
      assert line[..3][1] == '#';
      assert line[1] == '#';
    }
  }

  /** The first occurrence of `pat` in `x + y`, when none starts inside `x`,
      is the first occurrence in `y`, shifted. */
  lemma IndexOfAfter(x: string, y: string, pat: string)
    requires pat != []
    requires forall k: nat :: k < |x| ==> !OccursAt(x + y, pat, k)
    ensures IndexOf(x + y, pat) == match IndexOf(y, pat) case None => None case Some(j) => Some(|x| + j)
  {
    var s := x + y;
    forall j: nat ensures OccursAt(s, pat, |x| + j) <==> OccursAt(y, pat, j) {
      if |x| + j + |pat| <= |s| {
        assert s[|x| + j..|x| + j + |pat|] == y[j..j + |pat|];
      }
    }
    match IndexOf(y, pat)
    case None =>
      forall k: nat ensures !OccursAt(s, pat, k) {
        if k >= |x| {
          assert !OccursAt(y, pat, k - |x|);
        }
      }
      IndexOfNone(s, pat);
    case Some(j) =>
      forall k | 0 <= k < |x| + j ensures !OccursAt(s, pat, k) {
        if k >= |x| {
          assert !OccursAt(y, pat, k - |x|);
        }
      }
      IndexOfIs(s, pat, |x| + j);
  }

  /** `**` does not occur in `a + tag + rest` before `rest` when `a` holds no
      earlier `**` and the tag starts with `<`, ends with `>` and holds no `*`. */
  lemma NoStarsBefore(line: string, i: nat, tag: string, rest: string)
    requires IndexOf(line, "**") == Some(i)
    requires |tag| >= 2 && tag[0] == '<' && tag[|tag| - 1] == '>' && '*' !in tag
    ensures forall k: nat :: k < |line[..i] + tag| ==> !OccursAt(line[..i] + tag + rest, "**", k)
  {
    var s := line[..i] + tag + rest;
    forall k: nat | k < i + |tag| ensures !OccursAt(s, "**", k) {
      if k + 1 < i {
        assert s[k..k + 2] == line[k..k + 2];
        assert !OccursAt(line, "**", k);
      } else if k + 1 == i {
        assert s[k + 1] == '<';
      } else {
        assert s[k] == tag[k - i];
      }
    }
  }

  /** Bold: in a line holding `**`, the first `**` becomes `<strong>`, the
      next one (if any) becomes `</strong>`, and everything else, later `**`
      included, is untouched. */
  lemma EmboldenShape(line: string)
    requires Contains(line, "**")
    ensures var i := IndexOf(line, "**").value;
      var rest := line[i + 2..];
      Embolden(line) == line[..i] + "<strong>" +
        match IndexOf(rest, "**")
        case None => rest
        case Some(j) => rest[..j] + "</strong>" + rest[j + 2..]
  {
    var i := IndexOf(line, "**").value;
    FirstReplaced(line, i, "<strong>");
    SecondStars(line, i, "<strong>");
    SecondReplaced(line[..i] + "<strong>", line[i + 2..]);
  }

  /** The first rewrite puts the tag in place of the first `**`. */
  lemma FirstReplaced(line: string, i: nat, tag: string)
    requires IndexOf(line, "**") == Some(i)
    ensures i + 2 <= |line|
    ensures ReplaceFirst(line, "**", tag) == line[..i] + tag + line[i + 2..]
  {
  }

  /** The second rewrite, given where the next `**` lies. */
  lemma SecondReplaced(head: string, rest: string)
    requires IndexOf(head + rest, "**") == match IndexOf(rest, "**") case None => None case Some(j) => Some(|head| + j)
    ensures ReplaceFirst(head + rest, "**", "</strong>") == head +
        match IndexOf(rest, "**")
        case None => rest
        case Some(j) => rest[..j] + "</strong>" + rest[j + 2..]
  {
    match IndexOf(rest, "**")
    case None =>
    case Some(j) =>
      ReplaceAfterHead(head, rest, j);
  }

  /** After the first rewrite, the next `**` is the first one of the rest. */
  lemma SecondStars(line: string, i: nat, tag: string)
    requires IndexOf(line, "**") == Some(i)
    requires |tag| >= 2 && tag[0] == '<' && tag[|tag| - 1] == '>' && '*' !in tag
    ensures IndexOf(line[..i] + tag + line[i + 2..], "**")
        == match IndexOf(line[i + 2..], "**") case None => None case Some(j) => Some(i + |tag| + j)
  {
    NoStarsBefore(line, i, tag, line[i + 2..]);
    IndexOfAfter(line[..i] + tag, line[i + 2..], "**");
  }

  lemma ReplaceAfterHead(head: string, rest: string, j: nat)
    requires IndexOf(head + rest, "**") == Some(|head| + j) && j + 2 <= |rest|
    ensures ReplaceFirst(head + rest, "**", "</strong>") == head + (rest[..j] + "</strong>" + rest[j + 2..])
  {
    var once := head + rest;
    assert once[..|head| + j] == head + rest[..j];
    assert once[|head| + j + 2..] == rest[j + 2..];
  }

  /** A non-heading line holding `**` takes the bold rewrite. */
  lemma ConvertBold(line: string)
    requires !IsHeading(line) && Contains(line, "**")
    ensures ConvertLine(line) == Embolden(line)
  {
  }

  /** A line's leading character survives stripping when it is not whitespace. */
  lemma StripKeepsFirst(line: string)
    requires line != [] && !IsSpace(line[0])
    ensures Strip(line) != [] && Strip(line)[0] == line[0]
  {
    assert TrimLeft(line, IsSpace) == line;
    TrimRightDropped(line, IsSpace);
    StripBySlice(line, IsSpace);
  }

  /** List items: a line without `**` whose stripped form starts with `- ` is
      never a heading and becomes `<li>` around the stripped text after `- `. */
  lemma ConvertListItem(line: string)
    requires !Contains(line, "**") && StartsWith(Strip(line), "- ")
    ensures ConvertLine(line) == ListItem(line) == "<li>" + Strip(line)[2..] + "</li>"
  {
    if IsHeading(line) {
      StripKeepsFirst(line);
      assert false;
    }
  }

  /** Every other line is returned unchanged. */
  lemma ConvertPlain(line: string)
    requires !IsHeading(line) && !Contains(line, "**") && !StartsWith(Strip(line), "- ")
    ensures ConvertLine(line) == line
  {
  }

  function ConvertLines(lines: seq<string>): (r: seq<string>)
    ensures |r| == |lines|
  {
    seq(|lines|, i requires 0 <= i < |lines| => ConvertLine(lines[i]))
  }

  /** Converting one more line appends its conversion. */
  lemma ConvertLinesStep(lines: seq<string>, i: nat)
    requires i < |lines|
    ensures ConvertLines(lines[..i + 1]) == ConvertLines(lines[..i]) + [ConvertLine(lines[i])]
  {
  }

  /** The converted lines hold no line break, so joining and splitting them
      gives them back. */
  lemma ConvertLinesSplit(lines: seq<string>)
    requires |lines| >= 1 && forall k :: 0 <= k < |lines| ==> '\n' !in lines[k]
    ensures Split(Join(ConvertLines(lines), '\n'), '\n') == ConvertLines(lines)
  {
    var result := ConvertLines(lines);
    forall k | 0 <= k < |result| ensures '\n' !in result[k] {
      ConvertLineOneLine(lines[k]);
    }
    SplitJoin(result, '\n');
  }

  /** `_simple_markdown_to_html`: converts line by line. The output has as many
      lines as the input, and its i-th line is the conversion of the i-th. */
  method MarkdownToHtml(text: string) returns (html: string)
    ensures html == Join(ConvertLines(Split(text, '\n')), '\n')
    ensures |Split(html, '\n')| == |Split(text, '\n')|
    ensures forall i :: 0 <= i < |Split(text, '\n')| ==> Split(html, '\n')[i] == ConvertLine(Split(text, '\n')[i])
  {
    var lines := Split(text, '\n');
    var result: seq<string> := [];
    var i := 0;
    while i < |lines|
      invariant 0 <= i <= |lines|
      invariant result == ConvertLines(lines[..i])
    {
      ConvertLinesStep(lines, i);
      result := result + [ConvertLine(lines[i])];
      i := i + 1;
    }
    assert lines[..i] == lines;
    html := Join(result, '\n');
    ConvertLinesSplit(lines);
  }

  /** `<li><strong>{key}:</strong> {value}</li>` for each entry. */
  function MetadataItems(metadata: Metadata): string {
    if metadata == [] then [] else MetadataItems(metadata[..|metadata| - 1]) + MetadataItem(metadata[|metadata| - 1])
  }

  function MetadataItem(entry: (string, string)): string {
    "<li><strong>" + entry.0 + ":</strong> " + entry.1 + "</li>"
  }

  /** The metadata block of the HTML page: present iff there is metadata. */
  function MetadataHtml(metadata: Metadata): (r: string)
    ensures r == [] <==> metadata == []
  {
    if metadata == [] then [] else "<div class='metadata'><h2>Metadata</h2><ul>" + MetadataItems(metadata) + "</ul></div>"
  }

  /** The complete page: the template with title, time, metadata block and body. */
  function HtmlDocument(title: string, display: string, metadataHtml: string, body: string): string {
    HTML_PART_0 + title + HTML_PART_1 + title + HTML_PART_2 + display + HTML_PART_3
    + metadataHtml + HTML_PART_4 + body + HTML_PART_5
  }

  /** The HTML body: newlines rewritten, then converted line by line. */
  function HtmlBody(content: string): string {
    Join(ConvertLines(Split(BreakNewlines(content), '\n')), '\n')
  }

  /** `_export_html`. */
  method ExportHtml(content: string, safeTitle: string, title: string, clock: Clock, metadata: Option<Metadata>)
    returns (filename: string, document: string)
    ensures filename == clock.stamp + "_" + safeTitle + ".html"
    ensures document == HtmlDocument(title, clock.display, MetadataHtml(MetadataOrEmpty(metadata)), HtmlBody(content))
  {
    filename := clock.stamp + "_" + safeTitle + ".html";
    var body := BreakNewlines(content);
    body := MarkdownToHtml(body);
    var metadataHtml := RenderMetadataHtml(MetadataOrEmpty(metadata));
    document := HtmlDocument(title, clock.display, metadataHtml, body);
  }

  /** The metadata block, built item by item. */
  method RenderMetadataHtml(entries: Metadata) returns (html: string)
    ensures html == MetadataHtml(entries)
  {
    html := "";
    if entries != [] {
      html := "<div class='metadata'><h2>Metadata</h2><ul>";
      var i := 0;
      while i < |entries|
        invariant 0 <= i <= |entries|
        invariant html == "<div class='metadata'><h2>Metadata</h2><ul>" + MetadataItems(entries[..i])
      {
        assert entries[..i + 1][..i] == entries[..i];
        html := html + "<li><strong>" + entries[i].0 + ":</strong> " + entries[i].1 + "</li>";
        i := i + 1;
      }
      assert entries[..i] == entries;
      html := html + "</ul></div>";
    }
  }

  // ---------------------------------------------------------------------
  // JSON export and dispatch
  // ---------------------------------------------------------------------

  /** The dict `_export_json` dumps. */
  datatype ReportRecord = ReportRecord(title: string, content: string, timestamp: string, metadata: Metadata)

  /** `_export_json`: the title and content verbatim, the metadata or an empty dict. */
  function JsonReport(content: string, title: string, clock: Clock, metadata: Option<Metadata>): (r: ReportRecord)
    ensures r.title == title && r.content == content && r.timestamp == clock.iso
    ensures metadata.Some? ==> r.metadata == metadata.value
    ensures metadata.None? ==> r.metadata == []
  {
    ReportRecord(title, content, clock.iso, MetadataOrEmpty(metadata))
  }

  /** What an export writes. */
  datatype Document = MarkdownText(text: string) | HtmlText(text: string) | JsonRecord(record: ReportRecord)

  /** `ReportExporter.export`: dispatches on the format. The file name is the
      time stamp, an underscore, the safe title and the format's extension. */
  method Export(content: string, title: string, format: ExportFormat, metadata: Option<Metadata>,
                clock: Clock, isAlnum: char -> bool, titleCase: string -> string)
    returns (filename: string, document: Document)
    ensures filename == ExportFilename(clock.stamp, title, format, isAlnum)
    ensures format == Markdown ==> document == MarkdownText(MarkdownDocument(
      content, SafeTitle(title, isAlnum), clock.display, MetadataOrEmpty(metadata), titleCase))
    ensures format == Html ==> document == HtmlText(HtmlDocument(
      title, clock.display, MetadataHtml(MetadataOrEmpty(metadata)), HtmlBody(content)))
    ensures format == Json ==> document == JsonRecord(JsonReport(content, title, clock, metadata))
  {
    var safeTitle := SafeTitle(title, isAlnum);
    match format
    case Markdown =>
      var text;
      filename, text := ExportMarkdown(content, safeTitle, clock, metadata, titleCase);
      document := MarkdownText(text);
    case Html =>
      var text;
      filename, text := ExportHtml(content, safeTitle, title, clock, metadata);
      document := HtmlText(text);
    case Json =>
      filename := clock.stamp + "_" + SafeTitle(title, isAlnum) + ".json";
      document := JsonRecord(JsonReport(content, title, clock, metadata));
  }

  // The page template of `_export_html`, cut at its five placeholders.
  const HTML_PART_0: string := @"<!DOCTYPE html>
<html lang=""en"">
<head>
    <meta charset=""UTF-8"">
    <meta name=""viewport"" content=""width=device-width, initial-scale=1.0"">
    <title>"

  const HTML_PART_1: string := @"</title>
    <style>
        body {
            font-family: 'Segoe UI', Tahoma, Geneva, Verdana, sans-serif;
            line-height: 1.6;
            max-width: 900px;
            margin: 0 auto;
            padding: 20px;
            background-color: #f5f5f5;
        }
        .container {
            background-color: white;
            padding: 40px;
            border-radius: 8px;
            box-shadow: 0 2px 4px rgba(0,0,0,0.1);
        }
        h1 {
            color: #2c3e50;
            border-bottom: 3px solid #3498db;
            padding-bottom: 10px;
        }
        h2 {
            color: #34495e;
            margin-top: 30px;
        }
        .timestamp {
            color: #7f8c8d;
            font-style: italic;
            margin-bottom: 20px;
        }
        .metadata {
            background-color: #ecf0f1;
            padding: 15px;
            border-radius: 5px;
            margin: 20px 0;
        }
        .metadata ul {
            list-style-type: none;
            padding-left: 0;
        }
        .content {
            margin-top: 30px;
        }
        code {
            background-color: #f8f8f8;
            padding: 2px 6px;
            border-radius: 3px;
            font-family: 'Courier New', monospace;
        }
    </style>
</head>
<body>
    <div class=""container"">
        <h1>"

  const HTML_PART_2: string := @"</h1>
        <div class=""timestamp"">Generated: "

  const HTML_PART_3: string := @"</div>
        "

  const HTML_PART_4: string := @"
        <div class=""content"">
            "

  const HTML_PART_5: string := @"
        </div>
    </div>
</body>
</html>
"
}
