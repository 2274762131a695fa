/**
 * Byte strings and the small string operations the plugin relies on:
 * searching for a character, Python's `str.split(sep)` and joining.
 */
module Strings {

  /** A Python 2 `str` holds bytes. */
  type byte = b: int | 0 <= b < 256

  /** A string every character of which fits in one byte. */
  predicate IsByteString(s: string)
  {
    forall i :: 0 <= i < |s| ==> s[i] as int < 256
  }

  /** Index of the first character of `s` that is in `cs`, or `|s|` when there is none. */
  function Find(s: string, cs: set<char>): (i: nat)
    ensures i <= |s|
    ensures forall j :: 0 <= j < i ==> s[j] !in cs
    ensures i < |s| ==> s[i] in cs
    decreases |s|
  {
    if s == [] then 0
    else if s[0] in cs then 0
    else 1 + Find(s[1..], cs)
  }

  /** Index of the last occurrence of `c` in `s`, or -1 when there is none. */
  function RFind(s: string, c: char): (i: int)
    ensures -1 <= i < |s|
    ensures i >= 0 ==> s[i] == c
    ensures forall j :: i < j < |s| ==> s[j] != c
    decreases |s|
  {
    if s == [] then -1
    else if s[|s| - 1] == c then |s| - 1
    else RFind(s[..|s| - 1], c)
  }

  /** The fields joined with `sep` between consecutive ones. */
  function Join(fields: seq<string>, sep: char): string
  {
    if |fields| == 0 then []
    else if |fields| == 1 then fields[0]
    else fields[0] + [sep] + Join(fields[1..], sep)
  }

  lemma JoinCons(f: string, rest: seq<string>, sep: char)
    requires |rest| >= 1
    ensures Join([f] + rest, sep) == f + [sep] + Join(rest, sep)
  {
    assert ([f] + rest)[1..] == rest;
  }

  /** Python's `s.split(sep)` for a one-character separator. */
  function Split(s: string, sep: char): (r: seq<string>)
    ensures |r| >= 1
    ensures r[0] == s[..Find(s, {sep})]
    ensures forall k :: 0 <= k < |r| ==> sep !in r[k]
    ensures Join(r, sep) == s
    decreases |s|
  {
    var i := Find(s, {sep});
    if i == |s| then [s]
    else
      var rest := Split(s[i + 1..], sep);
      var r := [s[..i]] + rest;
      assert r[1..] == rest;
      assert s == s[..i] + [sep] + s[i + 1..];
      r
  }

  lemma FindAbsent(s: string, sep: char)
    requires sep !in s
    ensures Find(s, {sep}) == |s|
  {
  }

  /** The search stops right after a prefix that holds none of `cs`, at a character of `cs`. */
  lemma FindPrefix(p: string, t: string, cs: set<char>)
    requires forall j :: 0 <= j < |p| ==> p[j] !in cs
    requires t == [] || t[0] in cs
    ensures Find(p + t, cs) == |p|
  {
    var s := p + t;
    assert t != [] ==> s[|p|] == t[0];
    assert forall j :: 0 <= j < |p| ==> s[j] == p[j];
  }

  lemma SplitCons(f: string, sep: char, t: string)
    requires sep !in f
    ensures Split(f + [sep] + t, sep) == [f] + Split(t, sep)
  {
    var s := f + [sep] + t;
    FindPrefix(f, [sep] + t, {sep});
    assert f + ([sep] + t) == s;
    assert s[..|f|] == f;
    assert s[|f| + 1..] == t;
  }

  /** Splitting undoes joining when no field contains the separator. */
  lemma {:induction false} SplitJoin(fields: seq<string>, sep: char)
    requires |fields| >= 1
    requires forall k :: 0 <= k < |fields| ==> sep !in fields[k]
    ensures Split(Join(fields, sep), sep) == fields
    decreases |fields|
  {
    if |fields| == 1 {
      FindAbsent(fields[0], sep);
    } else {
      SplitCons(fields[0], sep, Join(fields[1..], sep));
      SplitJoin(fields[1..], sep);
      assert fields == [fields[0]] + fields[1..];
    }
  }

  /** The concatenation of a sequence of chunks. */
  function Concat<T>(chunks: seq<seq<T>>): seq<T>
  {
    if chunks == [] then [] else chunks[0] + Concat(chunks[1..])
  }

  lemma {:induction false} ConcatSnoc<T>(chunks: seq<seq<T>>, x: seq<T>)
    ensures Concat(chunks + [x]) == Concat(chunks) + x
  {
    if chunks == [] {
      assert [] + [x] == [x];
      assert [x][1..] == [];
    } else {
      assert (chunks + [x])[1..] == chunks[1..] + [x];
      ConcatSnoc(chunks[1..], x);
    }
  }
}
