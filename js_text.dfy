/** The JavaScript string and array primitives the core relies on, with their
    ECMAScript semantics written out: the `\s` character class, `trim`,
    `indexOf`/`includes`, `replace` of the first match, `substring`, `slice`
    with negative indices, `split`/`join` on one separator character, and
    ASCII case mapping. */
module JsText {
  import opened Basics

  /** ECMAScript WhiteSpace or LineTerminator: what `\s` matches and `trim` removes. */
  predicate IsJsSpace(c: char) {
    c == '\t' || c == '\n' || c == '\U{000B}' || c == '\U{000C}' || c == '\r' || c == ' '
    || c == '\U{00A0}' || c == '\U{1680}' || ('\U{2000}' <= c <= '\U{200A}')
    || c == '\U{2028}' || c == '\U{2029}' || c == '\U{202F}' || c == '\U{205F}'
    || c == '\U{3000}' || c == '\U{FEFF}'
  }

  /** ECMAScript LineTerminator: the characters `.` in a regular expression does not match. */
  predicate IsLineTerminator(c: char) {
    c == '\n' || c == '\r' || c == '\U{2028}' || c == '\U{2029}'
  }

  predicate NoSpaces(s: string) {
    forall i :: 0 <= i < |s| ==> !IsJsSpace(s[i])
  }

  /** `s.replace(/\s+/g, '')`. */
  function RemoveSpaces(s: string): (r: string)
    ensures NoSpaces(r)
    ensures |r| <= |s|
    ensures forall c :: c in r ==> c in s
  {
    if s == [] then []
    else (if IsJsSpace(s[0]) then [] else [s[0]]) + RemoveSpaces(s[1..])
  }

  lemma {:induction false} RemoveSpacesAppend(a: string, b: string)
    ensures RemoveSpaces(a + b) == RemoveSpaces(a) + RemoveSpaces(b)
  {
    if a == [] {
      assert a + b == b;
    } else {
      assert (a + b)[0] == a[0];
      assert (a + b)[1..] == a[1..] + b;
      RemoveSpacesAppend(a[1..], b);
    }
  }

  lemma {:induction false} RemoveSpacesOfNoSpaces(s: string)
    requires NoSpaces(s)
    ensures RemoveSpaces(s) == s
  {
    if s != [] {
      RemoveSpacesOfNoSpaces(s[1..]);
    }
  }

  lemma {:induction false} RemoveSpacesOfSpaces(s: string)
    requires AllSpaces(s)
    ensures RemoveSpaces(s) == []
  {
    if s != [] {
      RemoveSpacesOfSpaces(s[1..]);
    }
  }

  /** Every character of `s` is matched by `\s`. */
  predicate AllSpaces(s: string) {
    forall i :: 0 <= i < |s| ==> IsJsSpace(s[i])
  }

  /** The prefix of `s` dropped by `trimStart`. */
  function LeadingSpaces(s: string): (n: nat)
    ensures n <= |s|
    ensures forall i :: 0 <= i < n ==> IsJsSpace(s[i])
    ensures n < |s| ==> !IsJsSpace(s[n])
  {
    if s == [] || !IsJsSpace(s[0]) then 0 else 1 + LeadingSpaces(s[1..])
  }

  /** The length of `s` once `trimEnd` has dropped its trailing spaces. */
  function TrimmedEnd(s: string): (n: nat)
    ensures n <= |s|
    ensures forall i :: n <= i < |s| ==> IsJsSpace(s[i])
    ensures n > 0 ==> !IsJsSpace(s[n - 1])
  {
    if s == [] || !IsJsSpace(s[|s| - 1]) then |s| else TrimmedEnd(s[..|s| - 1])
  }

  /** `s.trim()`. */
  function Trim(s: string): (r: string)
    ensures r == [] || (!IsJsSpace(r[0]) && !IsJsSpace(r[|r| - 1]))
  {
    var a := LeadingSpaces(s);
    var b := TrimmedEnd(s);
    if b <= a then [] else s[a..b]
  }

  /** Trimming never removes an occurrence of a pattern that begins and ends
      with a non-space character, and never creates one. */
  lemma IncludesTrim(s: string, p: string)
    requires |p| > 0 && !IsJsSpace(p[0]) && !IsJsSpace(p[|p| - 1])
    ensures Includes(Trim(s), p) <==> Includes(s, p)
  {
    if Includes(Trim(s), p) {
      OccursInTrimmed(s, p, IndexOf(Trim(s), p).value);
    }
    if Includes(s, p) {
      OccursInOriginal(s, p, IndexOf(s, p).value);
    }
  }

  lemma OccursInTrimmed(s: string, p: string, k: nat)
    requires |p| > 0 && OccursAt(Trim(s), p, k)
    ensures Includes(s, p)
  {
    var a, b := LeadingSpaces(s), TrimmedEnd(s);
    assert a < b && Trim(s) == s[a..b];
    OccursInSlice(s, a, b, p, k);
    IncludesAt(s, p, a + k);
  }

  lemma OccursInOriginal(s: string, p: string, k: nat)
    requires |p| > 0 && !IsJsSpace(p[0]) && !IsJsSpace(p[|p| - 1])
    requires OccursAt(s, p, k)
    ensures Includes(Trim(s), p)
  {
    var a, b := LeadingSpaces(s), TrimmedEnd(s);
    assert s[k] == p[0] && s[k + |p| - 1] == p[|p| - 1] by {
      assert s[k..k + |p|] == p;
    }
    assert a <= k && k + |p| <= b;
    assert Trim(s) == s[a..b];
    OccursInRange(s, a, b, p, k);
    IncludesAt(Trim(s), p, k - a);
  }

  lemma OccursInSlice(s: string, a: nat, b: nat, p: string, k: nat)
    requires a <= b <= |s| && OccursAt(s[a..b], p, k)
    ensures OccursAt(s, p, a + k)
  {
    var u, w := s[a + k..a + k + |p|], s[a..b][k..k + |p|];
    assert forall j :: 0 <= j < |p| ==> u[j] == w[j];
    assert u == w;
  }

  lemma OccursInRange(s: string, a: nat, b: nat, p: string, k: nat)
    requires a <= k && k + |p| <= b <= |s| && OccursAt(s, p, k)
    ensures OccursAt(s[a..b], p, k - a)
  {
    var u, w := s[a..b][k - a..k - a + |p|], s[k..k + |p|];
    assert forall j :: 0 <= j < |p| ==> u[j] == w[j];
    assert u == w;
  }

  /** `p` occurs in `s` starting at index `k`. */
  predicate OccursAt(s: string, p: string, k: nat) {
    k <= |s| && p <= s[k..]
  }

  function IndexOfFrom(s: string, p: string, from: nat): (r: Option<nat>)
    ensures r.Some? ==> from <= r.value && OccursAt(s, p, r.value)
    decreases |s| - from
  {
    if from + |p| > |s| then None
    else if p <= s[from..] then Some(from)
    else IndexOfFrom(s, p, from + 1)
  }

  /** The search from `from` finds an occurrence at or before any occurrence
      `k` from there on. */
  lemma {:induction false} IndexOfFromFinds(s: string, p: string, from: nat, k: nat)
    requires from <= k && OccursAt(s, p, k)
    ensures IndexOfFrom(s, p, from).Some? && IndexOfFrom(s, p, from).value <= k
    decreases |s| - from
  {
    if from + |p| <= |s| && !(p <= s[from..]) {
      IndexOfFromFinds(s, p, from + 1, k);
    }
  }

  /** `s.indexOf(p)`, with "not found" (-1) as `None`. */
  function IndexOf(s: string, p: string): (r: Option<nat>)
    ensures r.Some? ==> OccursAt(s, p, r.value)
  {
    IndexOfFrom(s, p, 0)
  }

  /** `indexOf` returns the first occurrence: every occurrence is found, at
      that index or after the one returned. */
  lemma IndexOfFinds(s: string, p: string, k: nat)
    requires OccursAt(s, p, k)
    ensures IndexOf(s, p).Some? && IndexOf(s, p).value <= k
  {
    IndexOfFromFinds(s, p, 0, k);
  }

  /** `s.includes(p)`. */
  predicate Includes(s: string, p: string) {
    IndexOf(s, p).Some?
  }

  /** `includes` holds exactly when the pattern occurs at some index. */
  lemma IncludesAt(s: string, p: string, k: nat)
    requires OccursAt(s, p, k)
    ensures Includes(s, p)
  {
    IndexOfFinds(s, p, k);
  }

  /** `s.replace(p, rep)` for a pattern without metacharacters: only the first
      occurrence is replaced, and `s` is returned unchanged when there is none. */
  function ReplaceFirst(s: string, p: string, rep: string): (r: string)
    ensures IndexOf(s, p).None? ==> r == s
    ensures IndexOf(s, p).Some? ==>
      var k := IndexOf(s, p).value; r == s[..k] + rep + s[k + |p|..]
  {
    match IndexOf(s, p)
    case None => s
    case Some(k) => s[..k] + rep + s[k + |p|..]
  }

  /** When `p` starts with a character that the text before position `k` does
      not contain, an occurrence at `k` is the first one. */
  lemma FirstOccurrence(s: string, p: string, k: nat)
    requires |p| > 0 && OccursAt(s, p, k)
    requires forall i :: 0 <= i < k ==> s[i] != p[0]
    ensures IndexOf(s, p) == Some(k)
  {
    IndexOfFinds(s, p, k);
  }

  /** `s.replace(/c/g, d)` for single characters `c` and `d`. */
  function ReplaceAllChar(s: string, c: char, d: char): (r: string)
    ensures |r| == |s|
    ensures forall i :: 0 <= i < |s| ==> r[i] == if s[i] == c then d else s[i]
  {
    if s == [] then [] else [if s[0] == c then d else s[0]] + ReplaceAllChar(s[1..], c, d)
  }

  /** `s.replace(/c+$/, '')`: the run of `c` at the end of `s` is removed. */
  function StripTrailing(s: string, c: char): (r: string)
    ensures |r| <= |s| && r == s[..|r|]
    ensures forall i :: |r| <= i < |s| ==> s[i] == c
    ensures r == [] || r[|r| - 1] != c
  {
    if s != [] && s[|s| - 1] == c then StripTrailing(s[..|s| - 1], c) else s
  }

  /** `s.substring(start, end)`: both ends are clamped to `[0, |s|]` and swapped
      when out of order. */
  function Substring(s: string, start: int, end: int): (r: string)
    ensures var a, b := Clamp(start, |s|), Clamp(end, |s|);
      r == if a <= b then s[a..b] else s[b..a]
  {
    var a, b := Clamp(start, |s|), Clamp(end, |s|);
    if a <= b then s[a..b] else s[b..a]
  }

  function Clamp(i: int, len: nat): (r: nat)
    ensures r <= len
  {
    if i < 0 then 0 else if i > len then len else i
  }

  /** `slice` on strings and array buffers: a negative index counts from the end,
      both ends are clamped to `[0, |xs|]`, and an empty result when they cross. */
  function Slice<T>(xs: seq<T>, start: int, end: int): (r: seq<T>)
    ensures var a, b := RelativeIndex(start, |xs|), RelativeIndex(end, |xs|);
      r == if a <= b then xs[a..b] else []
  {
    var a, b := RelativeIndex(start, |xs|), RelativeIndex(end, |xs|);
    if a <= b then xs[a..b] else []
  }

  function RelativeIndex(i: int, len: nat): (r: nat)
    ensures r <= len
    ensures 0 <= i <= len ==> r == i
    ensures -(len as int) <= i < 0 ==> r == len + i
  {
    if i < 0 then (if len + i < 0 then 0 else len + i) else if i > len then len else i
  }

  /** `s.split(d)` for a one-character separator `d`. */
  function Split(s: string, d: char): (parts: seq<string>)
    ensures |parts| >= 1
    ensures forall i :: 0 <= i < |parts| ==> d !in parts[i]
    decreases |s|
  {
    if d !in s then [s]
    else
      var i := FirstIndexOf(s, d);
      [s[..i]] + Split(s[i + 1..], d)
  }

  function FirstIndexOf(s: string, d: char): (i: nat)
    requires d in s
    ensures i < |s| && s[i] == d && d !in s[..i]
  {
    if s[0] == d then 0 else 1 + FirstIndexOf(s[1..], d)
  }

  /** `parts.join(d)`. */
  function Join(parts: seq<string>, d: char): (s: string)
    requires |parts| >= 1
  {
    if |parts| == 1 then parts[0] else parts[0] + [d] + Join(parts[1..], d)
  }

  /** Splitting at a separator splits the two sides independently. */
  lemma {:induction false} SplitAround(a: string, b: string, d: char)
    requires d !in a
    ensures Split(a + [d] + b, d) == [a] + Split(b, d)
  {
    var s := a + [d] + b;
    assert s[|a|] == d;
    var i := FirstIndexOf(s, d);
    assert s[..|a|] == a;
    assert forall j :: 0 <= j < |a| ==> s[j] == a[j];
    assert s[..i] == a;
    assert s[i + 1..] == b;
  }

  /** The first occurrence of `d` is the only position holding `d` with no `d` before it. */
  lemma FirstIndexOfUnique(s: string, d: char, i: nat)
    requires i < |s| && s[i] == d && d !in s[..i]
    ensures FirstIndexOf(s, d) == i
  {
    var j := FirstIndexOf(s, d);
    assert forall k :: 0 <= k < i ==> s[..i][k] == s[k];
    assert forall k :: 0 <= k < j ==> s[..j][k] == s[k];
  }

  /** Splitting at one occurrence of the separator splits the two sides
      independently, whatever they contain. */
  lemma {:induction false} SplitConcat(a: string, b: string, d: char)
    ensures Split(a + [d] + b, d) == Split(a, d) + Split(b, d)
    decreases |a|
  {
    if d !in a {
      SplitAround(a, b, d);
    } else {
      var i := FirstIndexOf(a, d);
      var head, tail := a[..i], a[i + 1..];
      assert a == head + [d] + tail;
      assert a + [d] + b == head + [d] + (tail + [d] + b);
      calc {
        Split(a + [d] + b, d);
      == { SplitAround(head, tail + [d] + b, d); }
        [head] + Split(tail + [d] + b, d);
      == { SplitConcat(tail, b, d); }
        [head] + (Split(tail, d) + Split(b, d));
      ==
        ([head] + Split(tail, d)) + Split(b, d);
      == { SplitAround(head, tail, d); }
        Split(a, d) + Split(b, d);
      }
    }
  }

  /** `split` undoes `join` when no part contains the separator. */
  lemma {:induction false} SplitJoin(parts: seq<string>, d: char)
    requires |parts| >= 1
    requires forall i :: 0 <= i < |parts| ==> d !in parts[i]
    ensures Split(Join(parts, d), d) == parts
  {
    if |parts| == 1 {
      assert Join(parts, d) == parts[0];
    } else {
      SplitJoin(parts[1..], d);
      SplitAround(parts[0], Join(parts[1..], d), d);
      assert parts == [parts[0]] + parts[1..];
    }
  }

  /** The characters of a joined string are those of its parts and the separator. */
  lemma {:induction false} JoinChars(parts: seq<string>, d: char, c: char)
    requires |parts| >= 1
    requires c in Join(parts, d)
    ensures c == d || exists i :: 0 <= i < |parts| && c in parts[i]
  {
    if |parts| > 1 {
      var rest := Join(parts[1..], d);
      assert Join(parts, d) == parts[0] + [d] + rest;
      if c in parts[0] {
      } else if c != d {
        assert c in rest;
        JoinChars(parts[1..], d, c);
        var i :| 0 <= i < |parts[1..]| && c in parts[1..][i];
        assert c in parts[i + 1];
      }
    }
  }

  predicate StartsWith(s: string, p: string) {
    |p| <= |s| && s[..|p|] == p
  }

  /** `toLowerCase` restricted to ASCII letters. */
  function LowerChar(c: char): char {
    if 'A' <= c <= 'Z' then (c as int + 32) as char else c
  }

  /** `toUpperCase` restricted to ASCII letters. */
  function UpperChar(c: char): char {
    if 'a' <= c <= 'z' then (c as int - 32) as char else c
  }

  function Lower(s: string): (r: string)
    ensures |r| == |s|
    ensures forall i :: 0 <= i < |s| ==> r[i] == LowerChar(s[i])
  {
    if s == [] then [] else [LowerChar(s[0])] + Lower(s[1..])
  }

  predicate IsUpperAscii(c: char) { 'A' <= c <= 'Z' }
}
