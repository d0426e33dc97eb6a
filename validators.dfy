/**
 * Model of src/lonai/utils/validators.py: the API-key presence check, the
 * research query validator and the filename sanitiser.
 */
module Validators {
  import opened Text

  // ---------------------------------------------------------------------
  // validate_api_keys
  // ---------------------------------------------------------------------

  /** Which of the environment variables the check reads hold a non-empty value. */
  datatype KeyEnvironment = KeyEnvironment(
    tavily: bool, anthropic: bool, openai: bool, google: bool, agent: bool)

  /** `(True, None)` or `(False, message)`. */
  datatype Validation = Valid | Invalid(message: string)

  const MISSING_TAVILY: string := "Missing TAVILY_API_KEY for search functionality."
  const MISSING_AGENT: string :=
    "Missing Agent API config. Please set one of:\n"
    + "  - ANTHROPIC_API_KEY\n"
    + "  - OPENAI_API_KEY\n"
    + "  - GOOGLE_API_KEY\n"
    + "  - AGENT_API_KEY (generic)"

  predicate HasAgentKey(env: KeyEnvironment) {
    env.anthropic || env.openai || env.google || env.agent
  }

  /** The error list the check accumulates, search key first. */
  function ApiKeyErrors(env: KeyEnvironment): seq<string> {
    (if env.tavily then [] else [MISSING_TAVILY])
    + (if HasAgentKey(env) then [] else [MISSING_AGENT])
  }

  /** The check passes iff the search key and at least one agent key are set;
      otherwise the message names each missing part, in order, one per line. */
  function ValidateApiKeys(env: KeyEnvironment): (r: Validation)
    ensures r.Valid? <==> env.tavily && HasAgentKey(env)
    ensures !env.tavily && HasAgentKey(env) ==> r == Invalid(MISSING_TAVILY)
    ensures env.tavily && !HasAgentKey(env) ==> r == Invalid(MISSING_AGENT)
    ensures !env.tavily && !HasAgentKey(env) ==> r == Invalid(MISSING_TAVILY + "\n" + MISSING_AGENT)
  {
    var errors := ApiKeyErrors(env);
    assert Join([MISSING_TAVILY, MISSING_AGENT], '\n') == MISSING_TAVILY + "\n" + MISSING_AGENT;
    if errors == [] then Valid else Invalid(Join(errors, '\n'))
  }

  // ---------------------------------------------------------------------
  // validate_query
  // ---------------------------------------------------------------------

  const DEFAULT_MIN_QUERY_LENGTH: int := 3
  const DEFAULT_MAX_QUERY_LENGTH: int := 500

  datatype QueryError = EmptyQuery | TooShort(minLength: int) | TooLong(maxLength: int)

  datatype QueryVerdict = Accepted | Rejected(error: QueryError)

  /** The message the validator returns with each error. */
  function QueryErrorMessage(e: QueryError): string {
    match e
    case EmptyQuery => "Query cannot be empty"
    case TooShort(n) => "Query too short (minimum " + IntToString(n) + " characters)"
    case TooLong(n) => "Query too long (maximum " + IntToString(n) + " characters)"
  }

  /** A query is accepted iff its whitespace-stripped form is non-empty and its
      length lies within the bounds. Blank input is rejected as empty whatever
      the bounds; otherwise "too short" is judged before "too long", both on
      the stripped query. */
  function ValidateQuery(query: string, minLength: int := DEFAULT_MIN_QUERY_LENGTH,
                         maxLength: int := DEFAULT_MAX_QUERY_LENGTH): (r: QueryVerdict)
    ensures r.Accepted? <==> Strip(query) != [] && minLength <= |Strip(query)| <= maxLength
    ensures r == Rejected(EmptyQuery) <==> forall k :: 0 <= k < |query| ==> IsSpace(query[k])
    ensures r == Rejected(TooShort(minLength)) <==> Strip(query) != [] && |Strip(query)| < minLength
    ensures r == Rejected(TooLong(maxLength))
        <==> Strip(query) != [] && minLength <= |Strip(query)| && maxLength < |Strip(query)|
  {
    StripByEmpty(query, IsSpace);
    if query == [] || Strip(query) == [] then Rejected(EmptyQuery)
    else
      var stripped := Strip(query);
      if |stripped| < minLength then Rejected(TooShort(minLength))
      else if |stripped| > maxLength then Rejected(TooLong(maxLength))
      else Accepted
  }

  // ---------------------------------------------------------------------
  // sanitize_filename
  // ---------------------------------------------------------------------

  /** The characters of the class `[<>:"/\\|?*]`. */
  predicate IsInvalidFilenameChar(c: char) {
    c in "<>:\"/\\|?*"
  }

  predicate IsUnderscore(c: char) {
    c == '_'
  }

  /** No two consecutive underscores. */
  predicate NoDoubleUnderscore(s: string) {
    forall i :: 0 <= i < |s| - 1 ==> s[i] != '_' || s[i + 1] != '_'
  }

  /** `re.sub(r'[<>:"/\\|?*]', '_', s)`. */
  function ReplaceInvalidChars(s: string): (r: string)
    ensures |r| == |s|
    ensures forall i :: 0 <= i < |s| ==> r[i] == if IsInvalidFilenameChar(s[i]) then '_' else s[i]
  {
    if s == [] then []
    else [if IsInvalidFilenameChar(s[0]) then '_' else s[0]] + ReplaceInvalidChars(s[1..])
  }

  /** `re.sub(r'_+', '_', s)`: every run of underscores becomes one. */
  function CollapseUnderscores(s: string): (r: string)
    ensures |r| <= |s|
    ensures s != [] ==> r != [] && r[0] == s[0]
    ensures forall c :: c in r ==> c in s
    ensures NoDoubleUnderscore(r)
  {
    if |s| <= 1 then s
    else if s[0] == '_' && s[1] == '_' then CollapseUnderscores(s[1..])
    else [s[0]] + CollapseUnderscores(s[1..])
  }

  /** Collapsing changes nothing in a string without a double underscore. */
  lemma {:induction false} CollapseIdentity(s: string)
    requires NoDoubleUnderscore(s)
    ensures CollapseUnderscores(s) == s
  {
    if |s| > 1 {
      assert NoDoubleUnderscore(s[1..]);
      CollapseIdentity(s[1..]);
      assert [s[0]] + s[1..] == s;
    }
  }

  /** Two underscores in a row collapse like one: with `CollapseIdentity`,
      this makes every run of underscores a single `_` and keeps every
      other character in place. */
  lemma {:induction false} CollapseDouble(a: string, b: string)
    ensures CollapseUnderscores(a + "__" + b) == CollapseUnderscores(a + "_" + b)
  {
    var s, t := a + "__" + b, a + "_" + b;
    if a == [] {
      assert s[1..] == t;
    } else {
      assert s[0] == t[0] == a[0];
      assert s[1] == t[1];
      assert s[1..] == a[1..] + "__" + b;
      assert t[1..] == a[1..] + "_" + b;
      CollapseDouble(a[1..], b);
    }
  }

  /** The three substitutions: invalid characters and spaces become
      underscores, then runs of underscores collapse. */
  function Substituted(filename: string): string {
    CollapseUnderscores(ReplaceChar(ReplaceInvalidChars(filename), ' ', "_"))
  }

  /** `s[:maxLength]` when `s` is longer than `maxLength`. */
  function TruncateIfLonger(s: string, maxLength: int): (r: string)
    ensures |r| <= |s| && r == s[..|r|]
    ensures maxLength >= 0 ==> |r| == if |s| > maxLength then maxLength else |s|
    ensures maxLength < 0 ==> |r| == if |s| + maxLength < 0 then 0 else |s| + maxLength
  {
    if |s| > maxLength then PyPrefix(s, maxLength) else s
  }

  /** The steps before the final fallback to "unnamed". */
  function SanitizeSteps(filename: string, maxLength: int): string {
    StripBy(TruncateIfLonger(Substituted(filename), maxLength), IsUnderscore)
  }

  /** Python's `sanitize_filename`. */
  function SanitizeFilename(filename: string, maxLength: int := 50): (r: string)
    ensures r != []
  {
    var s := SanitizeSteps(filename, maxLength);
    if s == [] then "unnamed" else s
  }

  /** No invalid character, no space and no double underscore. */
  predicate Clean(s: string) {
    && (forall i :: 0 <= i < |s| ==> !IsInvalidFilenameChar(s[i]) && s[i] != ' ')
    && NoDoubleUnderscore(s)
  }

  /** Every slice of a clean string is clean. */
  lemma CleanSlice(s: string, i: nat, j: nat)
    requires Clean(s) && i <= j <= |s|
    ensures Clean(s[i..j])
  {
    var t := s[i..j];
    forall k | 0 <= k < |t| - 1 ensures t[k] != '_' || t[k + 1] != '_' {
      assert t[k] == s[i + k] && t[k + 1] == s[i + k + 1];
    }
  }

  /** The three substitutions leave a clean string. */
  lemma SubstitutionsClean(filename: string)
    ensures Clean(Substituted(filename))
  {
    var noInvalid := ReplaceInvalidChars(filename);
    var noSpaces := ReplaceChar(noInvalid, ' ', "_");
    assert forall c :: c in noInvalid ==> !IsInvalidFilenameChar(c);
    ReplaceCharKeeps(noInvalid, ' ', "_");
    var collapsed := CollapseUnderscores(noSpaces);
    forall k | 0 <= k < |collapsed| ensures !IsInvalidFilenameChar(collapsed[k]) && collapsed[k] != ' ' {
      assert collapsed[k] in collapsed;
    }
  }

  /** The steps before the fallback leave a clean string. */
  lemma SanitizeStepsClean(filename: string, maxLength: int)
    ensures Clean(SanitizeSteps(filename, maxLength))
  {
    SubstitutionsClean(filename);
    TruncateClean(Substituted(filename), maxLength);
    StripClean(TruncateIfLonger(Substituted(filename), maxLength));
  }

  /** Truncating a clean string leaves it clean. */
  lemma TruncateClean(s: string, maxLength: int)
    requires Clean(s)
    ensures Clean(TruncateIfLonger(s, maxLength))
  {
    var t := TruncateIfLonger(s, maxLength);
    CleanSlice(s, 0, |t|);
    assert s[0..|t|] == t;
  }

  /** Stripping underscores from a clean string leaves it clean. */
  lemma StripClean(s: string)
    requires Clean(s)
    ensures Clean(StripBy(s, IsUnderscore))
  {
    StripBySlice(s, IsUnderscore);
    var i := |s| - |TrimLeft(s, IsUnderscore)|;
    CleanSlice(s, i, i + |StripBy(s, IsUnderscore)|);
  }

  /** The steps before the fallback leave a string that neither starts nor
      ends with an underscore. */
  lemma SanitizeStepsEnds(filename: string, maxLength: int)
    ensures var s := SanitizeSteps(filename, maxLength);
      s == [] || (s[0] != '_' && s[|s| - 1] != '_')
  {
    var t := TruncateIfLonger(Substituted(filename), maxLength);
    StripByBounds(t, IsUnderscore);
    var r := StripBy(t, IsUnderscore);
    assert r == SanitizeSteps(filename, maxLength);
    if r != [] {
      assert !IsUnderscore(r[0]) && !IsUnderscore(r[|r| - 1]);
    }
  }

  /** The fallback name is itself clean. */
  lemma UnnamedClean()
    ensures Clean("unnamed")
  {
  }

  /** The sanitised name is never empty, holds no invalid character and no
      space, has no double underscore and neither starts nor ends with one. */
  lemma SanitizeFilenameClean(filename: string, maxLength: int)
    ensures var r := SanitizeFilename(filename, maxLength);
      && r != [] && Clean(r) && r[0] != '_' && r[|r| - 1] != '_'
  {
    var s := SanitizeSteps(filename, maxLength);
    if s == [] {
      UnnamedClean();
    } else {
      SanitizeStepsClean(filename, maxLength);
      SanitizeStepsEnds(filename, maxLength);
    }
  }

  /** Replacing a character by another string introduces only characters of
      that string. */
  lemma {:induction false} ReplaceCharKeeps(s: string, c: char, rep: string)
    ensures forall x :: x in ReplaceChar(s, c, rep) ==> (x in s && x != c) || x in rep
  {
    if s != [] {
      ReplaceCharKeeps(s[1..], c, rep);
    }
  }

  /** For a non-negative bound the name fits the bound, unless it is the
      fallback "unnamed". */
  lemma SanitizeFilenameLength(filename: string, maxLength: int)
    requires maxLength >= 0
    ensures var r := SanitizeFilename(filename, maxLength);
      |r| <= maxLength || r == "unnamed"
  {
    var trimmed := TruncateIfLonger(Substituted(filename), maxLength);
    StripBySlice(trimmed, IsUnderscore);
  }

  /** The substitutions leave a clean string as it is. */
  lemma SubstitutedClean(s: string)
    requires Clean(s)
    ensures Substituted(s) == s
  {
    assert ReplaceInvalidChars(s) == s;
    assert forall c :: c in s ==> c != ' ' by {
      forall c | c in s ensures c != ' ' {
        var k :| 0 <= k < |s| && s[k] == c;
      }
    }
    assert ReplaceChar(s, ' ', "_") == s;
    CollapseIdentity(s);
  }

  /** A clean name within the bound whose ends are not underscores goes
      through every step unchanged. */
  lemma SanitizeStepsFixed(s: string, maxLength: int)
    requires Clean(s) && |s| <= maxLength
    requires s != [] && s[0] != '_' && s[|s| - 1] != '_'
    ensures SanitizeSteps(s, maxLength) == s
  {
    SubstitutedClean(s);
    assert TruncateIfLonger(s, maxLength) == s;
    StripByKeeps(s, IsUnderscore);
  }

  /** Sanitising a sanitised name changes nothing, once the bound admits the
      fallback "unnamed". */
  lemma SanitizeFilenameIdempotent(filename: string, maxLength: int)
    requires maxLength >= 7
    ensures SanitizeFilename(SanitizeFilename(filename, maxLength), maxLength)
         == SanitizeFilename(filename, maxLength)
  {
    var r := SanitizeFilename(filename, maxLength);
    SanitizeFilenameClean(filename, maxLength);
    SanitizeFilenameLength(filename, maxLength);
    SanitizeStepsFixed(r, maxLength);
  }
}
