/** String operations of JavaScript and Python that the widgets and the server rely on. */
module Strings {
  import opened Wrappers

  /** `s.split(sep)` in JavaScript, for a one-character separator: the pieces between
      the separators, including empty pieces at either end. */
  function Split(s: string, sep: char): (parts: seq<string>)
    ensures |parts| >= 1
    ensures forall i | 0 <= i < |parts| :: sep !in parts[i]
    ensures Join(parts, sep) == s
    decreases |s|
  {
    if s == [] then [""]
    else
      var rest := Split(s[1..], sep);
      if s[0] == sep then
        assert ([""] + rest)[1..] == rest;
        [""] + rest
      else
        JoinCons(s[0], rest, sep);
        [[s[0]] + rest[0]] + rest[1..]
  }

  /** `parts.join(sep)`. */
  function Join(parts: seq<string>, sep: char): string {
    if |parts| == 0 then ""
    else if |parts| == 1 then parts[0]
    else parts[0] + [sep] + Join(parts[1..], sep)
  }

  lemma JoinCons(c: char, parts: seq<string>, sep: char)
    requires |parts| >= 1
    ensures Join([[c] + parts[0]] + parts[1..], sep) == [c] + Join(parts, sep)
  {
    var q := [[c] + parts[0]] + parts[1..];
    assert q[1..] == parts[1..];
  }

  /** Splitting undoes joining whenever no piece contains the separator. */
  lemma {:induction false} SplitJoin(parts: seq<string>, sep: char)
    requires |parts| >= 1
    requires forall i | 0 <= i < |parts| :: sep !in parts[i]
    ensures Split(Join(parts, sep), sep) == parts
    decreases |parts|
  {
    if |parts| == 1 {
      SplitPlain(parts[0], sep);
    } else {
      SplitJoin(parts[1..], sep);
      SplitAfter(parts[0], Join(parts[1..], sep), sep);
      assert [parts[0]] + parts[1..] == parts;
    }
  }

  lemma {:induction false} SplitPlain(p: string, sep: char)
    requires sep !in p
    ensures Split(p, sep) == [p]
    decreases |p|
  {
    if p != [] {
      SplitPlain(p[1..], sep);
      assert [p[0]] + p[1..] == p;
    }
  }

  lemma {:induction false} SplitAfter(p: string, t: string, sep: char)
    requires sep !in p
    ensures Split(p + [sep] + t, sep) == [p] + Split(t, sep)
    decreases |p|
  {
    var s := p + [sep] + t;
    if p == [] {
      assert s[0] == sep && s[1..] == t;
    } else {
      assert s[0] == p[0] && s[1..] == p[1..] + [sep] + t;
      SplitAfter(p[1..], t, sep);
      assert [p[0]] + p[1..] == p;
    }
  }

  predicate StartsWith(s: string, prefix: string) {
    |prefix| <= |s| && s[..|prefix|] == prefix
  }

  predicate EndsWith(s: string, suffix: string) {
    |suffix| <= |s| && s[|s| - |suffix|..] == suffix
  }

  /** `s` holds `sub` starting at index `k`. */
  predicate OccursAt(s: string, sub: string, k: nat) {
    k + |sub| <= |s| && s[k..k + |sub|] == sub
  }

  /** JavaScript's `s.includes(sub)`. */
  predicate Contains(s: string, sub: string) {
    exists k: nat | k + |sub| <= |s| :: OccursAt(s, sub, k)
  }

  lemma ShiftOccurs(s: string, sub: string, j: nat)
    requires s != []
    ensures OccursAt(s, sub, j + 1) <==> OccursAt(s[1..], sub, j)
  {
    if j + 1 + |sub| <= |s| {
      assert s[j + 1..j + 1 + |sub|] == s[1..][j..j + |sub|];
    }
  }

  /** The least index at which `sub` occurs in `s`, as JavaScript's `s.indexOf(sub)`. */
  function FirstOccurrence(s: string, sub: string): (k: Option<nat>)
    ensures k.Some? ==> OccursAt(s, sub, k.value)
    ensures k.Some? ==> forall j: nat | j < k.value :: !OccursAt(s, sub, j)
    ensures k.None? ==> forall j: nat :: !OccursAt(s, sub, j)
    decreases |s|
  {
    if OccursAt(s, sub, 0) then Some(0)
    else if s == [] then None
    else
      var rest := FirstOccurrence(s[1..], sub);
      assert forall j: nat :: OccursAt(s, sub, j + 1) <==> OccursAt(s[1..], sub, j) by {
        forall j: nat { ShiftOccurs(s, sub, j); }
      }
      assert forall j: nat :: j == 0 || OccursAt(s, sub, j) == OccursAt(s[1..], sub, j - 1);
      match rest
      case Some(k) => Some(k + 1)
      case None => None
  }

  /** JavaScript's `s.replace(pattern, replacement)` with a string pattern: only the
      first occurrence is replaced, and nothing changes when there is none. */
  function ReplaceFirst(s: string, pattern: string, replacement: string): (r: string)
    ensures FirstOccurrence(s, pattern).Some? ==>
              var k := FirstOccurrence(s, pattern).value;
              r == s[..k] + replacement + s[k + |pattern|..]
    ensures FirstOccurrence(s, pattern).None? ==> r == s
    decreases |s|
  {
    if OccursAt(s, pattern, 0) then
      assert FirstOccurrence(s, pattern) == Some(0);
      assert s[..0] + replacement == replacement;
      replacement + s[|pattern|..]
    else if s == [] then s
    else
      var rest := ReplaceFirst(s[1..], pattern, replacement);
      match FirstOccurrence(s[1..], pattern)
      case Some(k) =>
        FirstOccurrenceShift(s, pattern);
        SliceShift(s, replacement, k, |pattern|);
        [s[0]] + rest
      case None =>
        FirstOccurrenceShift(s, pattern);
        assert [s[0]] + s[1..] == s;
        [s[0]] + rest
  }

  /** Past a first character where `sub` does not start, the search goes on one place to
      the right. */
  lemma FirstOccurrenceShift(s: string, sub: string)
    requires s != [] && !OccursAt(s, sub, 0)
    ensures FirstOccurrence(s[1..], sub).Some? ==>
              FirstOccurrence(s, sub) == Some(FirstOccurrence(s[1..], sub).value + 1)
    ensures FirstOccurrence(s[1..], sub).None? ==> FirstOccurrence(s, sub).None?
  {
  }

  lemma SliceShift(s: string, middle: string, k: nat, m: nat)
    requires k + 1 + m <= |s|
    ensures s[..k + 1] + middle + s[k + 1 + m..] == [s[0]] + (s[1..][..k] + middle + s[1..][k + m..])
  {
    var t := s[1..];
    assert s[..k + 1] == [s[0]] + t[..k];
    assert s[k + 1 + m..] == t[k + m..];
  }

  /** Python's `s.replace(c, replacement)` for a one-character needle: every occurrence of
      `c` becomes `replacement`, left to right. */
  function ReplaceChar(s: string, c: char, replacement: string): string {
    if s == [] then ""
    else (if s[0] == c then replacement else [s[0]]) + ReplaceChar(s[1..], c, replacement)
  }
}
