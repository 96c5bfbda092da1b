/**
 * The few Python string and list operations the summarizer relies on:
 * `str.strip`, `str.lower`, slicing `s[:n]`, `str.split(sep)`, `sep.join(parts)`,
 * and the "append if not already present" idiom that removes duplicates.
 */
module Strings {

  /** The characters for which Python's `str.isspace()` holds; `str.strip()` removes exactly these. */
  predicate IsSpace(c: char) {
    || c == ' '
    || ('\t' <= c <= '\r')
    || ('\U{1c}' <= c <= '\U{1f}')
    || c == '\U{85}' || c == '\U{a0}' || c == '\U{1680}'
    || ('\U{2000}' <= c <= '\U{200a}')
    || c == '\U{2028}' || c == '\U{2029}' || c == '\U{202f}' || c == '\U{205f}' || c == '\U{3000}'
  }

  /** Every character of `s` is whitespace (vacuously so for the empty string). */
  predicate AllSpace(s: string) {
    forall i :: 0 <= i < |s| ==> IsSpace(s[i])
  }

  /** `s` neither starts nor ends with whitespace. */
  predicate IsStripped(s: string) {
    s == [] || (!IsSpace(s[0]) && !IsSpace(s[|s| - 1]))
  }

  /** `s.lstrip()`: the longest suffix of `s` that does not start with whitespace. */
  function TrimLeft(s: string): (r: string)
    ensures |r| <= |s| && r == s[|s| - |r|..]
    ensures forall i :: 0 <= i < |s| - |r| ==> IsSpace(s[i])
    ensures r == [] || !IsSpace(r[0])
    decreases |s|
  {
    if s != [] && IsSpace(s[0]) then TrimLeft(s[1..]) else s
  }

  /** `s.rstrip()`: the longest prefix of `s` that does not end with whitespace. */
  function TrimRight(s: string): (r: string)
    ensures |r| <= |s| && r == s[..|r|]
    ensures forall i :: |r| <= i < |s| ==> IsSpace(s[i])
    ensures r == [] || !IsSpace(r[|r| - 1])
    decreases |s|
  {
    if s != [] && IsSpace(s[|s| - 1]) then TrimRight(s[..|s| - 1]) else s
  }

  /** `s.strip()`. */
  function Strip(s: string): (r: string)
    ensures IsStripped(r)
    ensures |r| <= |s|
    ensures r == [] <==> AllSpace(s)
    ensures IsStripped(s) ==> r == s
  {
    var t := TrimLeft(s);
    var r := TrimRight(t);
    assert r != [] ==> r[0] == t[0];
    r
  }

  /** Stripping keeps a middle slice of the text and removes only whitespace around it. */
  lemma StripIsSlice(s: string)
    ensures exists i, j :: 0 <= i <= j <= |s| && Strip(s) == s[i..j] && AllSpace(s[..i]) && AllSpace(s[j..])
  {
    var t := TrimLeft(s);
    var i := |s| - |t|;
    var j := i + |TrimRight(t)|;
    assert Strip(s) == s[i..j] && AllSpace(s[..i]) && AllSpace(s[j..]);
  }

  /** Stripping twice removes nothing more. */
  lemma StripIdempotent(s: string)
    ensures Strip(Strip(s)) == Strip(s)
  {
  }

  /** ASCII case folding (the only case folding the model performs). */
  function LowerChar(c: char): char {
    if 'A' <= c <= 'Z' then (c as int + 32) as char else c
  }

  /** `s.lower()` restricted to ASCII letters. */
  function Lower(s: string): (r: string)
    ensures |r| == |s| && HasNoUpper(r)
  {
    seq(|s|, i requires 0 <= i < |s| => LowerChar(s[i]))
  }

  /** Lower-casing is idempotent: a lower-cased key is its own lower-case form. */
  lemma LowerIdempotent(s: string)
    ensures Lower(Lower(s)) == Lower(s)
  {
  }

  /** `s` has no upper-case ASCII letter. */
  predicate HasNoUpper(s: string) {
    forall i :: 0 <= i < |s| ==> !('A' <= s[i] <= 'Z')
  }

  /** Lower-casing leaves a string without upper-case letters as it is. */
  lemma LowerUnchanged(s: string)
    requires HasNoUpper(s)
    ensures Lower(s) == s
  {
  }

  /** `s[:n]` for a non-negative `n`. */
  function Take(s: string, n: nat): (r: string)
    ensures |r| == if n < |s| then n else |s|
    ensures r == s[..|r|]
  {
    if n < |s| then s[..n] else s
  }

  /** `s.split(sep)` for a one-character separator: the pieces between separators, empty ones included. */
  function Split(s: string, sep: char): (parts: seq<string>)
    ensures |parts| >= 1
    ensures forall i :: 0 <= i < |parts| ==> sep !in parts[i]
    decreases |s|
  {
    if s == [] then [[]]
    else
      var rest := Split(s[1..], sep);
      if s[0] == sep then [[]] + rest
      else [[s[0]] + rest[0]] + rest[1..]
  }

  /** `sep.join(parts)`. */
  function Join(parts: seq<string>, sep: string): string
    decreases |parts|
  {
    if |parts| == 0 then []
    else if |parts| == 1 then parts[0]
    else parts[0] + sep + Join(parts[1..], sep)
  }

  /** A string without the separator is a single piece. */
  lemma {:induction false} SplitWithoutSeparator(s: string, sep: char)
    requires sep !in s
    ensures Split(s, sep) == [s]
    decreases |s|
  {
    if s != [] {
      assert sep !in s[1..] by {
        forall c | c in s[1..] ensures c != sep { }
      }
      SplitWithoutSeparator(s[1..], sep);
      assert [s[0]] + s[1..] == s;
    }
  }

  /** Splitting distributes over a separator: each side is split on its own. */
  lemma {:induction false} SplitAround(a: string, sep: char, b: string)
    ensures Split(a + [sep] + b, sep) == Split(a, sep) + Split(b, sep)
    decreases |a|
  {
    var s := a + [sep] + b;
    if a == [] {
      assert s[1..] == b;
    } else {
      assert s[0] == a[0];
      assert s[1..] == a[1..] + [sep] + b;
      SplitAround(a[1..], sep, b);
      if a[0] != sep {
        assert Split(a, sep) == [[a[0]] + Split(a[1..], sep)[0]] + Split(a[1..], sep)[1..];
      }
    }
  }

  /** Joining the pieces with the separator gives back the original string. */
  lemma {:induction false} JoinSplit(s: string, sep: char)
    ensures Join(Split(s, sep), [sep]) == s
    decreases |s|
  {
    if s != [] {
      var rest := Split(s[1..], sep);
      JoinSplit(s[1..], sep);
      if s[0] == sep {
        assert Split(s, sep) == [[]] + rest;
        assert Join([[]] + rest, [sep]) == [] + [sep] + Join(rest, [sep]);
      } else {
        var parts := Split(s, sep);
        assert parts == [[s[0]] + rest[0]] + rest[1..];
        if |rest| == 1 {
          assert Join(parts, [sep]) == [s[0]] + rest[0];
        } else {
          assert parts[1..] == rest[1..];
          assert Join(rest, [sep]) == rest[0] + [sep] + Join(rest[1..], [sep]);
          assert Join(parts, [sep]) == [s[0]] + rest[0] + [sep] + Join(rest[1..], [sep]);
        }
      }
    }
  }

  /** Splitting a join of separator-free pieces gives back the pieces. */
  lemma {:induction false} SplitJoin(parts: seq<string>, sep: char)
    requires |parts| >= 1
    requires forall i :: 0 <= i < |parts| ==> sep !in parts[i]
    ensures Split(Join(parts, [sep]), sep) == parts
    decreases |parts|
  {
    SplitWithoutSeparator(parts[0], sep);
    if |parts| > 1 {
      SplitJoin(parts[1..], sep);
      SplitAround(parts[0], sep, Join(parts[1..], [sep]));
      assert [parts[0]] + parts[1..] == parts;
    }
  }

  /** Joining non-empty pieces gives the empty string only when there are no pieces. */
  lemma {:induction false} JoinEmpty(parts: seq<string>, sep: string)
    requires forall i :: 0 <= i < |parts| ==> parts[i] != []
    ensures Join(parts, sep) == [] <==> parts == []
    decreases |parts|
  {
    if |parts| > 1 {
      assert |Join(parts, sep)| >= |parts[0]| > 0;
    }
  }

  /** Joining one more piece adds the separator and the piece at the end. */
  lemma {:induction false} JoinAppend(parts: seq<string>, x: string, sep: string)
    requires parts != []
    ensures Join(parts + [x], sep) == Join(parts, sep) + sep + x
    decreases |parts|
  {
    var all := parts + [x];
    assert all[0] == parts[0];
    if |parts| > 1 {
      assert all[1..] == parts[1..] + [x];
      JoinAppend(parts[1..], x, sep);
    } else {
      assert all[1..] == [x];
    }
  }

  /** No element occurs twice. */
  predicate NoDuplicates<T(==)>(s: seq<T>) {
    forall i, j :: 0 <= i < j < |s| ==> s[i] != s[j]
  }

  /** The position at which `x` first occurs in `s`. */
  function IndexOf<T(==)>(s: seq<T>, x: T): (k: nat)
    requires x in s
    ensures k < |s| && s[k] == x
    ensures forall j :: 0 <= j < k ==> s[j] != x
  {
    if s[0] == x then 0 else 1 + IndexOf(s[1..], x)
  }

  /**
   * The elements of `s`, each kept at its first occurrence: the list that
   * `for x in s: if x not in out: out.append(x)` builds.
   */
  function Dedup<T(==,!new)>(s: seq<T>): (r: seq<T>)
    ensures NoDuplicates(r)
    ensures forall x :: x in r <==> x in s
    ensures |r| <= |s|
    decreases |s|
  {
    if s == [] then []
    else
      var d := Dedup(s[..|s| - 1]);
      var x := s[|s| - 1];
      assert s == s[..|s| - 1] + [x];
      if x in d then d else d + [x]
  }

  /** A later occurrence of an element does not move its first index. */
  lemma IndexOfPrefix<T>(p: seq<T>, q: seq<T>, x: T)
    requires x in p
    ensures IndexOf(p + q, x) == IndexOf(p, x)
  {
    var k, k' := IndexOf(p + q, x), IndexOf(p, x);
    assert (p + q)[k'] == x;
    assert forall j :: 0 <= j < k' ==> (p + q)[j] == p[j];
  }

  /** The de-duplicated list keeps the order in which elements are first seen. */
  lemma {:induction false} DedupFirstSeenOrder<T(!new)>(s: seq<T>)
    ensures forall i, j :: 0 <= i < j < |Dedup(s)| ==> IndexOf(s, Dedup(s)[i]) < IndexOf(s, Dedup(s)[j])
    decreases |s|
  {
    if s != [] {
      var p, x := s[..|s| - 1], s[|s| - 1];
      assert s == p + [x];
      DedupFirstSeenOrder(p);
      var d := Dedup(p);
      forall y | y in d ensures IndexOf(s, y) == IndexOf(p, y) {
        IndexOfPrefix(p, [x], y);
      }
      if x !in d {
        assert IndexOf(s, x) == |p|;
      }
    }
  }

  /** The de-duplicated list starts with the first element. */
  lemma {:induction false} DedupHead<T(!new)>(s: seq<T>)
    requires s != []
    ensures Dedup(s) != [] && Dedup(s)[0] == s[0]
    decreases |s|
  {
    if |s| > 1 {
      var p := s[..|s| - 1];
      DedupHead(p);
      assert p[0] == s[0];
    }
  }
}
