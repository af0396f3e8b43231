/** The JavaScript string operations the core relies on, over `seq<char>`:
    `startsWith`, `endsWith`, `indexOf`/`includes`, `split(sep)[0]` and `[1]`,
    `replace(pattern, '')` with a string pattern, and `toLowerCase`. */
module Text {
  import opened Basics

  predicate StartsWith(s: string, prefix: string) {
    |prefix| <= |s| && s[..|prefix|] == prefix
  }

  predicate EndsWith(s: string, suffix: string) {
    |suffix| <= |s| && s[|s| - |suffix|..] == suffix
  }

  /** `p` occurs in `s` starting at position `k`. */
  predicate OccursAt(s: string, p: string, k: int) {
    0 <= k && k + |p| <= |s| && s[k..k + |p|] == p
  }

  /** `k` is where the first `p` in `s` starts. */
  predicate FirstAt(s: string, p: string, k: int) {
    OccursAt(s, p, k) && forall j :: 0 <= j < k ==> !OccursAt(s, p, j)
  }

  /** `s.indexOf(p)`, with `None` standing for -1. */
  function IndexOf(s: string, p: string): (r: Option<nat>)
    ensures r.Some? ==> OccursAt(s, p, r.value)
    ensures r.Some? ==> forall k :: 0 <= k < r.value ==> !OccursAt(s, p, k)
    ensures r.None? ==> forall k :: !OccursAt(s, p, k)
  {
    if StartsWith(s, p) then
      Some(0)
    else if s == [] then
      None
    else
      assert forall k :: 1 <= k ==> (OccursAt(s, p, k) <==> OccursAt(s[1..], p, k - 1));
      match IndexOf(s[1..], p)
      case None => None
      case Some(i) => Some(i + 1)
  }

  /** `s.includes(p)`. */
  function Contains(s: string, p: string): (b: bool)
    ensures b <==> exists k :: OccursAt(s, p, k)
  {
    IndexOf(s, p).Some?
  }

  /** If the first character of `p` never appears in `a`, the first `p` in `a + p + rest` is right after `a`. */
  lemma FirstOccurrenceAfter(a: string, p: string, rest: string)
    requires |p| > 0 && p[0] !in a
    ensures IndexOf(a + p + rest, p) == Some(|a|)
  {
    var s := a + p + rest;
    assert s[|a|..|a| + |p|] == p;
    assert OccursAt(s, p, |a|);
    forall k | 0 <= k < |a| ensures !OccursAt(s, p, k) {
      assert s[k] == a[k];
    }
  }

  /** A string without the first character of `p` does not contain `p`. */
  lemma AbsentWithoutFirstChar(s: string, p: string)
    requires |p| > 0 && p[0] !in s
    ensures IndexOf(s, p) == None
  {
  }

  /** `s.split(sep)[0]`: the text before the first `sep`, or all of `s` when there is none. */
  function FirstField(s: string, sep: string): (r: string)
    requires sep != []
    ensures StartsWith(s, r)
    ensures r == s <==> !Contains(s, sep)
    ensures r != s ==> OccursAt(s, sep, |r|)
    ensures forall k :: 0 <= k < |r| ==> !OccursAt(s, sep, k)
    ensures !Contains(r, sep)
  {
    match IndexOf(s, sep)
    case None => s
    case Some(i) =>
      forall k | OccursAt(s[..i], sep, k) ensures false {
        OccursInPrefix(s, i, sep, k);
      }
      s[..i]
  }

  /** An occurrence inside a prefix is an occurrence in the whole string. */
  lemma OccursInPrefix(s: string, n: nat, p: string, k: int)
    requires n <= |s| && OccursAt(s[..n], p, k)
    ensures OccursAt(s, p, k)
  {
    assert s[..n][k..k + |p|] == s[k..k + |p|];
  }

  /** The text after the first `sep`. */
  function AfterFirst(s: string, sep: string): (rest: string)
    requires sep != [] && Contains(s, sep)
    ensures |FirstField(s, sep)| + |sep| + |rest| == |s|
    ensures rest == s[|FirstField(s, sep)| + |sep|..]
  {
    var first := FirstField(s, sep);
    assert OccursAt(s, sep, |first|);
    s[|first| + |sep|..]
  }

  /** `s.split(sep)[1]`: the text between the first and the second `sep` (or the end);
      `None` (JavaScript's `undefined`) when `sep` does not occur. */
  function SecondField(s: string, sep: string): (r: Option<string>)
    requires sep != []
    ensures r.None? <==> !Contains(s, sep)
    ensures r.Some? ==>
      var rest := AfterFirst(s, sep);
      && StartsWith(rest, r.value)
      && !Contains(r.value, sep)
      && (|r.value| == |rest| || OccursAt(rest, sep, |r.value|))
      && forall k :: 0 <= k < |r.value| ==> !OccursAt(rest, sep, k)
  {
    if !Contains(s, sep) then None
    else Some(FirstField(AfterFirst(s, sep), sep))
  }

  /** The field after the first `sep` in `a + sep + rest`, when neither `a` nor `rest` holds the
      first character of `sep`, is `rest`. */
  lemma SecondFieldAfter(a: string, sep: string, rest: string)
    requires |sep| > 0 && sep[0] !in a && sep[0] !in rest
    ensures SecondField(a + sep + rest, sep) == Some(rest)
  {
    FirstOccurrenceAfter(a, sep, rest);
    assert (a + sep + rest)[|a| + |sep|..] == rest;
    AbsentWithoutFirstChar(rest, sep);
  }

  /** `s.replace(p, '')` with a string pattern: removes the first occurrence only. */
  function RemoveFirst(s: string, p: string): (r: string)
    ensures !Contains(s, p) ==> r == s
    ensures Contains(s, p) ==> |r| == |s| - |p|
    ensures Contains(s, p) ==> exists k :: OccursAt(s, p, k) && r == s[..k] + s[k + |p|..]
    ensures forall k :: FirstAt(s, p, k) ==> r == s[..k] + s[k + |p|..]
  {
    match IndexOf(s, p)
    case None => s
    case Some(i) => s[..i] + s[i + |p|..]
  }

  predicate IsAsciiUpper(c: char) {
    'A' <= c <= 'Z'
  }

  /** `s.toLowerCase()` on the ASCII letters. */
  function ToLowerAscii(s: string): (r: string)
    ensures |r| == |s|
    ensures forall i :: 0 <= i < |r| ==> !IsAsciiUpper(r[i])
    ensures forall i :: 0 <= i < |s| && !IsAsciiUpper(s[i]) ==> r[i] == s[i]
    ensures forall i :: 0 <= i < |s| && IsAsciiUpper(s[i]) ==> r[i] == (s[i] as int + 32) as char
  {
    seq(|s|, i requires 0 <= i < |s| =>
      if IsAsciiUpper(s[i]) then (s[i] as int + 32) as char else s[i])
  }

  /** Code-point lexicographic order: `a` sorts no later than `b`. */
  predicate LexLe(a: string, b: string) {
    a == [] || (b != [] && (a[0] < b[0] || (a[0] == b[0] && LexLe(a[1..], b[1..]))))
  }

  lemma {:induction false} LexTotal(a: string, b: string)
    ensures LexLe(a, b) || LexLe(b, a)
  {
    if a != [] && b != [] && a[0] == b[0] {
      LexTotal(a[1..], b[1..]);
    }
  }

  lemma {:induction false} LexTransitive(a: string, b: string, c: string)
    requires LexLe(a, b) && LexLe(b, c)
    ensures LexLe(a, c)
  {
    if a != [] && b != [] && c != [] && a[0] == b[0] && b[0] == c[0] {
      LexTransitive(a[1..], b[1..], c[1..]);
    }
  }
}
