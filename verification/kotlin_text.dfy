/** Kotlin's `String.split(delimiter)` for a one-character literal delimiter, and the
    first part of it, `split(".")[0]`. Kotlin keeps empty parts, leading and trailing:
    `"".split(".") == [""]`, `".a".split(".") == ["", "a"]`, `"a.".split(".") == ["a", ""]`. */
module KotlinText {

  /** The parts of `s` between occurrences of `d`, left to right. */
  function Split(s: string, d: char): (parts: seq<string>)
    ensures |parts| >= 1
  {
    if s == [] then [[]]
    else
      var rest := Split(s[1..], d);
      if s[0] == d then [[]] + rest
      else [[s[0]] + rest[0]] + rest[1..]
  }

  /** The parts glued back together with `d` between neighbours (Kotlin's `joinToString`). */
  function Join(parts: seq<string>, d: char): string
    requires |parts| >= 1
    decreases |parts|
  {
    if |parts| == 1 then parts[0] else parts[0] + [d] + Join(parts[1..], d)
  }

  /** `s.split(d)[0]`: the part of `s` before its first `d`, or all of `s`. */
  function BeforeFirst(s: string, d: char): string
  {
    Split(s, d)[0]
  }

  /** Splitting loses nothing and leaves no delimiter inside a part. */
  lemma {:induction false} JoinSplit(s: string, d: char)
    ensures Join(Split(s, d), d) == s
    ensures forall k :: 0 <= k < |Split(s, d)| ==> d !in Split(s, d)[k]
  {
    if s != [] {
      var rest := Split(s[1..], d);
      JoinSplit(s[1..], d);
      if s[0] == d {
        assert Split(s, d)[1..] == rest;
        assert s == [d] + s[1..];
      } else {
        var parts := Split(s, d);
        if |rest| == 1 {
          assert parts == [[s[0]] + rest[0]];
        } else {
          assert parts[1..] == rest[1..];
          assert Join(rest, d) == rest[0] + [d] + Join(rest[1..], d);
        }
        assert s == [s[0]] + s[1..];
        forall k | 0 <= k < |parts| ensures d !in parts[k] {
          if k > 0 { assert parts[k] == rest[k]; }
        }
      }
    }
  }

  /** The converse round trip: parts free of `d`, joined with `d`, split back into themselves. */
  lemma {:induction false} SplitJoin(parts: seq<string>, d: char)
    requires |parts| >= 1
    requires forall k :: 0 <= k < |parts| ==> d !in parts[k]
    ensures Split(Join(parts, d), d) == parts
  {
    if |parts| == 1 {
      NoDelimiterOnePart(parts[0], d);
    } else {
      SplitJoin(parts[1..], d);
      PrefixBeforeDelimiter(parts[0], d, Join(parts[1..], d));
      assert parts == [parts[0]] + parts[1..];
    }
  }

  /** A string without `d` is a single part. */
  lemma {:induction false} NoDelimiterOnePart(s: string, d: char)
    requires d !in s
    ensures Split(s, d) == [s]
  {
    if s != [] {
      NoDelimiterOnePart(s[1..], d);
      assert [s[0]] + s[1..] == s;
    }
  }

  /** Splitting `a + [d] + b`, with no `d` in `a`, gives `a` followed by the parts of `b`. */
  lemma {:induction false} PrefixBeforeDelimiter(a: string, d: char, b: string)
    requires d !in a
    ensures Split(a + [d] + b, d) == [a] + Split(b, d)
  {
    if a == [] {
      assert a + [d] + b == [d] + b;
      assert ([d] + b)[1..] == b;
    } else {
      PrefixBeforeDelimiter(a[1..], d, b);
      assert (a + [d] + b)[1..] == a[1..] + [d] + b;
      assert [a[0]] + a[1..] == a;
    }
  }

  /** `BeforeFirst(s, d)` is the longest prefix of `s` without `d`: it is a prefix, it holds no
      `d`, and it is either all of `s` or followed in `s` by a `d`; so a name that starts
      with `d` has an empty first part. */
  lemma {:induction false} BeforeFirstIsPrefix(s: string, d: char)
    ensures var p := BeforeFirst(s, d);
      |p| <= |s| && p == s[..|p|] && d !in p && (p == s || s[|p|] == d)
      && (|s| > 0 && s[0] == d ==> p == [])
  {
    if s != [] {
      BeforeFirstIsPrefix(s[1..], d);
    }
  }

  /** How the first part of a concatenation depends on where the first `d` is. */
  lemma {:induction false} BeforeFirstAppend(a: string, b: string, d: char)
    ensures d in a ==> BeforeFirst(a + b, d) == BeforeFirst(a, d)
    ensures d !in a ==> BeforeFirst(a + b, d) == a + BeforeFirst(b, d)
  {
    if a != [] {
      BeforeFirstAppend(a[1..], b, d);
      assert (a + b)[1..] == a[1..] + b;
      if d !in a {
        assert (a + b)[0] == a[0] != d;
        assert BeforeFirst(a + b, d) == [a[0]] + BeforeFirst(a[1..] + b, d);
        assert [a[0]] + a[1..] == a;
      }
    } else {
      assert a + b == b;
    }
  }
}
