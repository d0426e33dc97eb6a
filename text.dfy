/**
 * String helpers shared by the model: Python's `str.strip`, substring search,
 * first-occurrence replacement, `split`/`join` on one separator character,
 * and `str(int)`.
 */
module Text {

  datatype Option<T> = None | Some(value: T)

  /** Python truthiness of an optional string: present and non-empty. */
  predicate Truthy(s: Option<string>) {
    s.Some? && s.value != []
  }

  /** The characters for which Python's `str.isspace()` holds. */
  predicate IsSpace(c: char) {
    || c == ' '
    || '\t' <= c <= '\r'
    || '\U{1C}' <= c <= '\U{1F}'
    || c == '\U{85}' || c == '\U{A0}' || c == '\U{1680}'
    || '\U{2000}' <= c <= '\U{200A}'
    || c == '\U{2028}' || c == '\U{2029}' || c == '\U{202F}' || c == '\U{205F}'
    || c == '\U{3000}'
  }

  /** Drops the leading characters that satisfy `drop`. */
  function TrimLeft(s: string, drop: char -> bool): (r: string)
    ensures |r| <= |s| && r == s[|s| - |r|..]
    ensures r == [] || !drop(r[0])
    decreases |s|
  {
    if s != [] && drop(s[0]) then TrimLeft(s[1..], drop) else s
  }

  /** Drops the trailing characters that satisfy `drop`. */
  function TrimRight(s: string, drop: char -> bool): (r: string)
    ensures |r| <= |s| && r == s[..|r|]
    ensures r == [] || !drop(r[|r| - 1])
    decreases |s|
  {
    if s != [] && drop(s[|s| - 1]) then TrimRight(s[..|s| - 1], drop) else s
  }

  /** Every character `TrimLeft` removes is dropped. */
  lemma {:induction false} TrimLeftDropped(s: string, drop: char -> bool)
    ensures forall i :: 0 <= i < |s| - |TrimLeft(s, drop)| ==> drop(s[i])
    decreases |s|
  {
    if s != [] && drop(s[0]) {
      TrimLeftDropped(s[1..], drop);
      assert forall i :: 0 < i < |s| ==> s[i] == s[1..][i - 1];
    }
  }

  /** Every character `TrimRight` removes is dropped. */
  lemma {:induction false} TrimRightDropped(s: string, drop: char -> bool)
    ensures forall i :: |TrimRight(s, drop)| <= i < |s| ==> drop(s[i])
    decreases |s|
  {
    if s != [] && drop(s[|s| - 1]) {
      TrimRightDropped(s[..|s| - 1], drop);
      assert forall i :: 0 <= i < |s| - 1 ==> s[i] == s[..|s| - 1][i];
    }
  }

  /** Python's `s.strip(chars)` where `drop` tells the stripped characters apart. */
  function StripBy(s: string, drop: char -> bool): string {
    TrimRight(TrimLeft(s, drop), drop)
  }

  /** Python's `s.strip()`: removes leading and trailing whitespace. */
  function Strip(s: string): string {
    StripBy(s, IsSpace)
  }

  /** `StripBy` keeps a contiguous slice of its input, starting after the
      leading dropped characters. */
  lemma StripBySlice(s: string, drop: char -> bool)
    ensures var i := |s| - |TrimLeft(s, drop)|;
      i + |StripBy(s, drop)| <= |s| && StripBy(s, drop) == s[i..i + |StripBy(s, drop)|]
  {
    var l := TrimLeft(s, drop);
    StripByKeepsSlice(s, l, |s| - |l|, TrimRight(l, drop));
  }

  /** The kept slice neither starts nor ends with a dropped character. */
  lemma StripByBounds(s: string, drop: char -> bool)
    ensures var r := StripBy(s, drop); r == [] || (!drop(r[0]) && !drop(r[|r| - 1]))
  {
    StripByEnds(TrimLeft(s, drop), drop);
  }

  /** A prefix of a suffix is a slice. */
  lemma StripByKeepsSlice(s: string, l: string, i: int, r: string)
    requires 0 <= i <= |s| && l == s[i..]
    requires |r| <= |l| && r == l[..|r|]
    ensures i + |r| <= |s| && r == s[i..i + |r|]
  {
    assert forall k :: 0 <= k < |r| ==> r[k] == s[i + k];
  }

  /** Trimming the right of a left-trimmed string keeps both ends undropped. */
  lemma StripByEnds(l: string, drop: char -> bool)
    requires l == [] || !drop(l[0])
    ensures var r := TrimRight(l, drop); r == [] || (!drop(r[0]) && !drop(r[|r| - 1]))
  {
    var r := TrimRight(l, drop);
    if r != [] {
      assert r[0] == l[0];
    }
  }

  /** Stripping yields the empty string exactly when every character is dropped. */
  lemma StripByEmpty(s: string, drop: char -> bool)
    ensures StripBy(s, drop) == [] <==> forall k :: 0 <= k < |s| ==> drop(s[k])
  {
    var l := TrimLeft(s, drop);
    TrimLeftDropped(s, drop);
    TrimRightDropped(l, drop);
  }

  /** Stripping is idempotent. */
  lemma StripByIdempotent(s: string, drop: char -> bool)
    ensures StripBy(StripBy(s, drop), drop) == StripBy(s, drop)
  {
    StripByBounds(s, drop);
    StripByKeeps(StripBy(s, drop), drop);
  }

  /** A string that neither starts nor ends with a dropped character is
      left as it is. */
  lemma StripByKeeps(s: string, drop: char -> bool)
    requires s == [] || (!drop(s[0]) && !drop(s[|s| - 1]))
    ensures StripBy(s, drop) == s
  {
    assert TrimLeft(s, drop) == s;
    assert TrimRight(s, drop) == s;
  }

  /** `pat` occurs in `s` at offset `k`. */
  predicate OccursAt(s: string, pat: string, k: nat) {
    k + |pat| <= |s| && s[k..k + |pat|] == pat
  }

  /** Index of the first occurrence of `pat` in `s` at or after `start`. */
  function FindFrom(s: string, pat: string, start: nat): (r: Option<nat>)
    ensures r.Some? ==> start <= r.value && OccursAt(s, pat, r.value)
    ensures r.Some? ==> forall k :: start <= k < r.value ==> !OccursAt(s, pat, k)
    ensures r.None? ==> forall k: nat :: start <= k ==> !OccursAt(s, pat, k)
    decreases |s| - start
  {
    if start + |pat| > |s| then None
    else if OccursAt(s, pat, start) then Some(start)
    else FindFrom(s, pat, start + 1)
  }

  /** Index of the first occurrence of `pat` in `s` (Python's `s.find(pat)`). */
  function IndexOf(s: string, pat: string): (r: Option<nat>)
    ensures r.Some? ==> OccursAt(s, pat, r.value)
    ensures r.Some? ==> forall k :: 0 <= k < r.value ==> !OccursAt(s, pat, k)
    ensures r.None? ==> forall k: nat :: !OccursAt(s, pat, k)
  {
    FindFrom(s, pat, 0)
  }

  /** The first occurrence is the one the search reports. */
  lemma IndexOfIs(s: string, pat: string, n: nat)
    requires OccursAt(s, pat, n)
    requires forall k :: 0 <= k < n ==> !OccursAt(s, pat, k)
    ensures IndexOf(s, pat) == Some(n)
  {
  }

  /** Without an occurrence the search reports none. */
  lemma IndexOfNone(s: string, pat: string)
    requires forall k: nat :: !OccursAt(s, pat, k)
    ensures IndexOf(s, pat) == None
  {
  }

  /** Python's `pat in s`. */
  predicate Contains(s: string, pat: string) {
    IndexOf(s, pat).Some?
  }

  /** Python's `s.startswith(p)`. */
  predicate StartsWith(s: string, p: string) {
    |p| <= |s| && s[..|p|] == p
  }

  /** Python's slice `s[:n]`: a negative `n` counts from the end. */
  function PyPrefix<T>(s: seq<T>, n: int): (r: seq<T>)
    ensures 0 <= n ==> r == s[..if n < |s| then n else |s|]
    ensures n < 0 ==> r == s[..if |s| + n < 0 then 0 else |s| + n]
  {
    if n >= 0 then (if n < |s| then s[..n] else s)
    else if |s| + n < 0 then [] else s[..|s| + n]
  }

  /** Python's slice `s[n:]` for a negative `n`: the last `-n` elements. */
  function PyTail<T>(s: seq<T>, n: int): (r: seq<T>)
    requires n < 0
    ensures |r| == (if |s| < -n then |s| else -n)
    ensures r == s[|s| - |r|..]
  {
    if |s| + n < 0 then s else s[|s| + n..]
  }

  /** The elements of `s` that satisfy `keep`, in their order. */
  function Filter<T>(s: seq<T>, keep: T -> bool): (r: seq<T>)
    ensures |r| <= |s|
    ensures forall i :: 0 <= i < |r| ==> r[i] in s && keep(r[i])
    ensures forall i :: 0 <= i < |s| && keep(s[i]) ==> s[i] in r
  {
    if s == [] then []
    else
      var init := Filter(s[..|s| - 1], keep);
      assert s == s[..|s| - 1] + [s[|s| - 1]];
      if keep(s[|s| - 1]) then init + [s[|s| - 1]] else init
  }

  /** Filtering one more element keeps it exactly when it passes. */
  lemma FilterStep<T>(s: seq<T>, i: nat, keep: T -> bool)
    requires i < |s|
    ensures Filter(s[..i + 1], keep) == Filter(s[..i], keep) + (if keep(s[i]) then [s[i]] else [])
  {
    assert s[..i + 1][..i] == s[..i];
  }

  /** Filtering keeps order: the kept elements of `a + b` are those of `a`
      followed by those of `b`. */
  lemma {:induction false} FilterAppend<T>(a: seq<T>, b: seq<T>, keep: T -> bool)
    ensures Filter(a + b, keep) == Filter(a, keep) + Filter(b, keep)
    decreases |b|
  {
    if b == [] {
      assert a + b == a;
    } else {
      var init := b[..|b| - 1];
      assert (a + b)[..|a + b| - 1] == a + init;
      assert (a + b)[|a + b| - 1] == b[|b| - 1];
      FilterAppend(a, init, keep);
    }
  }

  /** One element is kept exactly when it passes. */
  lemma FilterSingle<T>(x: T, keep: T -> bool)
    ensures Filter([x], keep) == if keep(x) then [x] else []
  {
    assert [x][..0] == [];
  }

  /** Python's `s.replace(pat, rep, 1)`. */
  function ReplaceFirst(s: string, pat: string, rep: string): string {
    match IndexOf(s, pat)
    case None => s
    case Some(i) => s[..i] + rep + s[i + |pat|..]
  }

  /** Python's `s.replace(c, rep)` for a single character `c`. */
  function ReplaceChar(s: string, c: char, rep: string): (r: string)
    ensures c !in rep ==> c !in r
    ensures c !in s ==> r == s
    ensures |rep| == 1 ==> |r| == |s| && forall i :: 0 <= i < |s| ==> r[i] == (if s[i] == c then rep[0] else s[i])
  {
    if s == [] then []
    else (if s[0] == c then rep else [s[0]]) + ReplaceChar(s[1..], c, rep)
  }

  /** Replacing distributes over concatenation. */
  lemma {:induction false} ReplaceCharAppend(a: string, b: string, c: char, rep: string)
    ensures ReplaceChar(a + b, c, rep) == ReplaceChar(a, c, rep) + ReplaceChar(b, c, rep)
  {
    if a == [] {
      assert a + b == b;
    } else {
      var x, t := a[0], a[1..];
      assert a == [x] + t;
      assert a + b == [x] + (t + b);
      ReplaceCharCons(x, t + b, c, rep);
      ReplaceCharCons(x, t, c, rep);
      ReplaceCharAppend(t, b, c, rep);
      AppendAssoc(if x == c then rep else [x], ReplaceChar(t, c, rep), ReplaceChar(b, c, rep));
    }
  }

  lemma AppendAssoc<T>(x: seq<T>, y: seq<T>, z: seq<T>)
    ensures x + (y + z) == (x + y) + z
  {
  }

  /** Replacing in a string with a known first character. */
  lemma ReplaceCharCons(x: char, t: string, c: char, rep: string)
    ensures ReplaceChar([x] + t, c, rep) == (if x == c then rep else [x]) + ReplaceChar(t, c, rep)
  {
    assert ([x] + t)[1..] == t;
  }

  /** Python's `s.split(sep)` for a single separator character. */
  function Split(s: string, sep: char): (r: seq<string>)
    ensures |r| >= 1
    ensures forall i :: 0 <= i < |r| ==> sep !in r[i]
  {
    if s == [] then [[]]
    else
      var rest := Split(s[1..], sep);
      if s[0] == sep then [[]] + rest
      else [[s[0]] + rest[0]] + rest[1..]
  }

  /** Python's `sep.join(parts)` for a single separator character. */
  function Join(parts: seq<string>, sep: char): string {
    if |parts| == 0 then []
    else if |parts| == 1 then parts[0]
    else parts[0] + [sep] + Join(parts[1..], sep)
  }

  /** Joining the pieces of a split gives back the string. */
  lemma {:induction false} JoinSplit(s: string, sep: char)
    ensures Join(Split(s, sep), sep) == s
  {
    if s != [] {
      var rest := Split(s[1..], sep);
      JoinSplit(s[1..], sep);
      if s[0] == sep {
        assert Split(s, sep) == [[]] + rest;
        assert ([[]] + rest)[1..] == rest;
      } else {
        var r := Split(s, sep);
        assert r == [[s[0]] + rest[0]] + rest[1..];
        if |rest| == 1 {
          assert r == [[s[0]] + rest[0]];
        } else {
          assert r[1..] == rest[1..];
          assert Join(rest, sep) == rest[0] + [sep] + Join(rest[1..], sep);
        }
      }
    }
  }

  /** Splitting a join of separator-free pieces gives back the pieces. */
  lemma {:induction false} SplitJoin(parts: seq<string>, sep: char)
    requires |parts| >= 1
    requires forall i :: 0 <= i < |parts| ==> sep !in parts[i]
    ensures Split(Join(parts, sep), sep) == parts
  {
    if |parts| == 1 {
      SplitNoSep(parts[0], sep);
    } else {
      SplitJoin(parts[1..], sep);
      SplitPrefix(parts[0], Join(parts[1..], sep), sep);
      assert [parts[0]] + parts[1..] == parts;
    }
  }

  /** A string without the separator splits into itself alone. */
  lemma {:induction false} SplitNoSep(s: string, sep: char)
    requires sep !in s
    ensures Split(s, sep) == [s]
  {
    if s != [] {
      SplitNoSep(s[1..], sep);
      assert [s[0]] + s[1..] == s;
    }
  }

  /** Splitting `a + [sep] + b` with `a` separator-free puts `a` first. */
  lemma {:induction false} SplitPrefix(a: string, b: string, sep: char)
    requires sep !in a
    ensures Split(a + [sep] + b, sep) == [a] + Split(b, sep)
    decreases |a|
  {
    var s := a + [sep] + b;
    if a == [] {
      assert s[1..] == b;
    } else {
      assert s[1..] == a[1..] + [sep] + b;
      SplitPrefix(a[1..], b, sep);
      assert [a[0]] + a[1..] == a;
    }
  }

  /** Decimal digits of a natural number, as Python's `str(n)` writes them. */
  function NatToString(n: nat): (r: string)
    ensures |r| >= 1
    ensures forall i :: 0 <= i < |r| ==> '0' <= r[i] <= '9'
    ensures r[0] == '0' ==> n == 0
  {
    if n < 10 then [DigitChar(n)]
    else NatToString(n / 10) + [DigitChar(n % 10)]
  }

  function DigitChar(d: nat): (c: char)
    requires d < 10
    ensures '0' <= c <= '9' && c as int - '0' as int == d
  {
    ('0' as int + d) as char
  }

  /** Python's `str(i)` for an integer. */
  function IntToString(i: int): (r: string)
    ensures r != [] && forall k :: 0 <= k < |r| ==> r[k] == '-' || '0' <= r[k] <= '9'
  {
    if i < 0 then "-" + NatToString(-i) else NatToString(i)
  }

  /** Different numbers have different decimal representations. */
  lemma {:induction false} NatToStringInjective(m: nat, n: nat)
    requires NatToString(m) == NatToString(n)
    ensures m == n
  {
    var sm, sn := NatToString(m), NatToString(n);
    if m < 10 && n < 10 {
      assert sm[0] == DigitChar(m) && sn[0] == DigitChar(n);
    } else if 10 <= m && 10 <= n {
      assert sm[|sm| - 1] == DigitChar(m % 10) && sn[|sn| - 1] == DigitChar(n % 10);
      assert NatToString(m / 10) == sm[..|sm| - 1] == sn[..|sn| - 1] == NatToString(n / 10);
      NatToStringInjective(m / 10, n / 10);
    }
  }

  /** Different integers have different decimal representations. */
  lemma IntToStringInjective(i: int, j: int)
    requires IntToString(i) == IntToString(j)
    ensures i == j
  {
    if i < 0 && j < 0 {
      assert NatToString(-i) == IntToString(i)[1..] == IntToString(j)[1..] == NatToString(-j);
      NatToStringInjective(-i, -j);
    } else if 0 <= i && 0 <= j {
      NatToStringInjective(i, j);
    }
  }
}
