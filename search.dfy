/**
 * Model of src/lonai/tools/search.py (`SearchTool`): a web search with a
 * result cache keyed by the call's arguments. The search service is a
 * function parameter from request to outcome.
 */
module Search {
  import opened Text

  datatype Topic = General | News | Finance

  function TopicName(topic: Topic): string {
    match topic
    case General => "general"
    case News => "news"
    case Finance => "finance"
  }

  /** What the tool sends to the search service. */
  datatype Request = Request(query: string, maxResults: int, topic: Topic, includeRawContent: bool)

  /** What the service does with a request: answers, or raises with a message. */
  datatype Outcome<P> = Success(payload: P) | Failure(error: string)

  /** What `search` returns: the service's answer, or the error dict with the
      query, no results and the message. */
  datatype Response<P> = Answer(payload: P) | ErrorResponse(query: string, error: string)

  /** `str(max_results)` for an optional integer. */
  function OptionalIntText(n: Option<int>): string {
    if n.Some? then IntToString(n.value) else "None"
  }

  function BoolText(b: bool): string {
    if b then "True" else "False"
  }

  /** The cache key `f"{query}:{topic}:{max_results}:{include_raw_content}"`. */
  function CacheKey(query: string, maxResults: Option<int>, topic: Topic, includeRawContent: bool): string {
    query + ":" + TopicName(topic) + ":" + OptionalIntText(maxResults) + ":" + BoolText(includeRawContent)
  }

  /** `max_results or self.max_results`: a missing or zero count means the default. */
  function EffectiveMaxResults(maxResults: Option<int>, default: int): (r: int)
    ensures maxResults.Some? && maxResults.value != 0 ==> r == maxResults.value
    ensures maxResults.None? || maxResults.value == 0 ==> r == default
  {
    if maxResults.Some? && maxResults.value != 0 then maxResults.value else default
  }

  /** The part of `s` after its last colon (all of `s` when it has none). */
  function AfterLastColon(s: string): (r: string)
    ensures |r| <= |s| && r == s[|s| - |r|..]
  {
    if s == [] || s[|s| - 1] == ':' then []
    else AfterLastColon(s[..|s| - 1]) + [s[|s| - 1]]
  }

  lemma {:induction false} AfterLastColonOf(a: string, b: string)
    requires ':' !in b
    ensures AfterLastColon(a + ":" + b) == b
    decreases |b|
  {
    if b == [] {
      assert a + ":" + b == a + ":";
    } else {
      var init, last := b[..|b| - 1], b[|b| - 1];
      assert ':' !in init by {
        forall k | 0 <= k < |init| ensures init[k] != ':' {
          assert init[k] == b[k];
        }
      }
      assert a + ":" + b == (a + ":" + init) + [last];
      AfterLastColonSnoc(a + ":" + init, last);
      AfterLastColonOf(a, init);
    }
  }

  /** A character other than a colon extends the part after the last colon. */
  lemma AfterLastColonSnoc(s: string, c: char)
    requires c != ':'
    ensures AfterLastColon(s + [c]) == AfterLastColon(s) + [c]
  {
    assert (s + [c])[..|s|] == s;
  }

  /** A string made of a head, a colon and a colon-free part splits there only. */
  lemma SplitAtLastColon(a: string, b: string, c: string, d: string)
    requires ':' !in b && ':' !in d
    requires a + ":" + b == c + ":" + d
    ensures a == c && b == d
  {
    var s := a + ":" + b;
    AfterLastColonOf(a, b);
    AfterLastColonOf(c, d);
    assert a == s[..|a|];
    assert c == s[..|c|];
  }

  lemma NoColonInParts(maxResults: Option<int>, topic: Topic, includeRawContent: bool)
    ensures ':' !in TopicName(topic)
    ensures ':' !in OptionalIntText(maxResults)
    ensures ':' !in BoolText(includeRawContent)
  {
    if maxResults.Some? {
      var t := IntToString(maxResults.value);
      assert forall k :: 0 <= k < |t| ==> t[k] != ':';
    }
  }

  /** No number is written "None". */
  lemma IntTextNotNone(i: int)
    ensures IntToString(i) != "None"
  {
    var r := IntToString(i);
    assert r[0] == '-' || '0' <= r[0] <= '9';
  }

  lemma OptionalIntTextInjective(m: Option<int>, n: Option<int>)
    requires OptionalIntText(m) == OptionalIntText(n)
    ensures m == n
  {
    if m.Some? {
      IntTextNotNone(m.value);
    }
    if n.Some? {
      IntTextNotNone(n.value);
    }
    if m.Some? && n.Some? {
      IntToStringInjective(m.value, n.value);
    }
  }

  /** Different calls have different cache keys, even when the query itself
      holds colons: the three fields after the query never do. */
  lemma CacheKeyInjective(q1: string, m1: Option<int>, t1: Topic, r1: bool,
                          q2: string, m2: Option<int>, t2: Topic, r2: bool)
    requires CacheKey(q1, m1, t1, r1) == CacheKey(q2, m2, t2, r2)
    ensures q1 == q2 && m1 == m2 && t1 == t2 && r1 == r2
  {
    NoColonInParts(m1, t1, r1);
    NoColonInParts(m2, t2, r2);
    var p1, p2 := q1 + ":" + TopicName(t1), q2 + ":" + TopicName(t2);
    SplitAtLastColon(p1 + ":" + OptionalIntText(m1), BoolText(r1), p2 + ":" + OptionalIntText(m2), BoolText(r2));
    SplitAtLastColon(p1, OptionalIntText(m1), p2, OptionalIntText(m2));
    SplitAtLastColon(q1, TopicName(t1), q2, TopicName(t2));
    OptionalIntTextInjective(m1, m2);
  }

  /** A missing count and a zero count send the same request, under two
      different cache keys. */
  lemma NoneAndZeroShareRequest(query: string, topic: Topic, raw: bool, default: int)
    ensures EffectiveMaxResults(None, default) == EffectiveMaxResults(Some(0), default)
    ensures CacheKey(query, None, topic, raw) != CacheKey(query, Some(0), topic, raw)
  {
    if CacheKey(query, None, topic, raw) == CacheKey(query, Some(0), topic, raw) {
      CacheKeyInjective(query, None, topic, raw, query, Some(0), topic, raw);
    }
  }

  class SearchTool<P> {
    const maxResults: int
    /** Answers already received, by cache key. */
    var cache: map<string, P>

    constructor (maxResults: int := 5)
      ensures this.maxResults == maxResults && cache == map[]
    {
      this.maxResults := maxResults;
      cache := map[];
    }

    /** `search`: answers from the cache when the key is there (and sends
        nothing); otherwise sends one request, caches a successful answer,
        and turns a failure into the error response without caching it. */
    method Search(query: string, maxResults: Option<int>, topic: Topic, includeRawContent: bool,
                  client: Request -> Outcome<P>)
      returns (response: Response<P>, sent: Option<Request>)
      modifies this
      ensures var key := CacheKey(query, maxResults, topic, includeRawContent);
        if key in old(cache) then
          response == Answer(old(cache)[key]) && sent == None && cache == old(cache)
        else
          var request := Request(query, EffectiveMaxResults(maxResults, this.maxResults), topic, includeRawContent);
          && sent == Some(request)
          && match client(request)
             case Success(p) => response == Answer(p) && cache == old(cache)[key := p]
             case Failure(e) => response == ErrorResponse(query, e) && cache == old(cache)
      ensures response.Answer? ==>
        var key := CacheKey(query, maxResults, topic, includeRawContent);
        key in cache && cache[key] == response.payload
    {
      var key := query + ":" + TopicName(topic) + ":" + OptionalIntText(maxResults) + ":" + BoolText(includeRawContent);
      if key in cache {
        return Answer(cache[key]), None;
      }
      var request := Request(query, if maxResults.Some? && maxResults.value != 0 then maxResults.value else this.maxResults,
                             topic, includeRawContent);
      sent := Some(request);
      var outcome := client(request);
      match outcome
      case Success(p) =>
        cache := cache[key := p];
        response := Answer(p);
      case Failure(e) =>
        response := ErrorResponse(query, e);
    }

    /** `clear_cache`. */
    method ClearCache()
      modifies this
      ensures cache == map[]
    {
      cache := map[];
    }
  }

  /** Repeating a call that was answered sends nothing and gives the same
      answer, whatever the service would now say. */
  method RepeatIsCached<P>(tool: SearchTool<P>, query: string, maxResults: Option<int>, topic: Topic,
                           raw: bool, first: Request -> Outcome<P>, second: Request -> Outcome<P>)
    returns (a: Response<P>, b: Response<P>, sentAgain: Option<Request>)
    modifies tool
    ensures a.Answer? ==> b == a && sentAgain == None
  {
    var s;
    a, s := tool.Search(query, maxResults, topic, raw, first);
    b, sentAgain := tool.Search(query, maxResults, topic, raw, second);
  }
}
