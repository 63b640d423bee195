/** The few JavaScript values and string operations the crawler, the publisher
    and the tables rely on. Strings are sequences of characters; `undefined`
    and `null` are `None`. */
module Js {

  /** A value that may be `undefined`/`null`. */
  datatype Option<+T> = None | Some(value: T) {
    /** `x || d` for a value whose only falsy form is absence. */
    function GetOr(default: T): T {
      if Some? then value else default
    }
  }

  /** WhiteSpace and LineTerminator code points, the set `String.prototype.trim`
      strips (ECMAScript 2023, sections 12.2 and 12.3). */
  predicate IsWhiteSpace(c: char) {
    || c == '\t' || c == '\n' || c == '\U{000B}' || c == '\U{000C}' || c == '\r'
    || c == ' ' || c == '\U{00A0}' || c == '\U{1680}'
    || ('\U{2000}' <= c <= '\U{200A}')
    || c == '\U{2028}' || c == '\U{2029}' || c == '\U{202F}' || c == '\U{205F}'
    || c == '\U{3000}' || c == '\U{FEFF}'
  }

  /** `s.trimStart()`: a suffix of `s`, everything dropped was white space,
      and what is left does not start with white space. */
  function TrimStart(s: string): (r: string)
    ensures |r| <= |s| && r == s[|s| - |r|..]
    ensures forall i :: 0 <= i < |s| - |r| ==> IsWhiteSpace(s[i])
    ensures r == [] || !IsWhiteSpace(r[0])
  {
    if |s| > 0 && IsWhiteSpace(s[0]) then TrimStart(s[1..]) else s
  }

  /** `s.trimEnd()`: a prefix of `s`, everything dropped was white space,
      and what is left does not end with white space. */
  function TrimEnd(s: string): (r: string)
    ensures |r| <= |s| && r == s[..|r|]
    ensures forall i :: |r| <= i < |s| ==> IsWhiteSpace(s[i])
    ensures r == [] || !IsWhiteSpace(r[|r| - 1])
  {
    if |s| > 0 && IsWhiteSpace(s[|s| - 1]) then TrimEnd(s[..|s| - 1]) else s
  }

  /** `s.trim()`: a contiguous part of `s` with white space on neither end. */
  function Trim(s: string): (r: string)
    ensures |r| <= |s|
    ensures r == [] || (!IsWhiteSpace(r[0]) && !IsWhiteSpace(r[|r| - 1]))
  {
    var t := TrimStart(s);
    var r := TrimEnd(t);
    assert r != [] ==> r[0] == t[0];
    r
  }

  /** Trimming removes a leading blank: `(' ' + s).trim() == s.trim()`. */
  lemma TrimLeadingBlank(s: string)
    ensures Trim([' '] + s) == Trim(s)
  {
    assert ([' '] + s)[1..] == s;
  }

  /** A string with white space on neither end is its own trim. */
  lemma TrimOfTrimmed(s: string)
    requires s == [] || (!IsWhiteSpace(s[0]) && !IsWhiteSpace(s[|s| - 1]))
    ensures Trim(s) == s
  {
  }

  /** `s.slice(start, end)`: negative positions count from the end, both are
      clamped to the string, and an empty range gives the empty string. */
  function Slice(s: string, start: int, end: int): (r: string)
    ensures |r| <= |s|
    ensures 0 <= start && 0 <= end ==>
      r == if start < end && start < |s| then s[start..Min(end, |s|)] else []
  {
    var from := if start < 0 then Max(|s| + start, 0) else Min(start, |s|);
    var to := if end < 0 then Max(|s| + end, 0) else Min(end, |s|);
    if from < to then s[from..to] else []
  }

  function Min(a: int, b: int): int { if a <= b then a else b }

  function Max(a: int, b: int): int { if a <= b then b else a }

  /** Whether `sep` occurs in `s` at some position. */
  predicate Occurs(sep: string, s: string)
    decreases |s|
  {
    |sep| <= |s| && (s[..|sep|] == sep || (|s| > 0 && Occurs(sep, s[1..])))
  }

  /** `s.split(sep).join('')`: scanning left to right, every non-overlapping
      occurrence of a non-empty `sep` is cut out. An empty `sep` splits into
      single characters, which join back to `s`. The removed part is a whole
      number of copies of `sep`. */
  function SplitJoin(s: string, sep: string): (r: string)
    ensures |r| <= |s|
    ensures IsMultiple(|s| - |r|, |sep|)
    decreases |s|
  {
    if |sep| == 0 || |s| < |sep| then s
    else if s[..|sep|] == sep then SplitJoin(s[|sep|..], sep)
    else [s[0]] + SplitJoin(s[1..], sep)
  }

  /** `d` is a whole number of copies of a length `n`. */
  predicate IsMultiple(d: int, n: nat)
    decreases if d < 0 then 0 else d
  {
    d == 0 || (0 < n <= d && IsMultiple(d - n, n))
  }

  /** With no occurrence of `sep`, `s.split(sep).join('')` is `s` itself. */
  lemma {:induction false} SplitJoinWithoutOccurrence(s: string, sep: string)
    requires !Occurs(sep, s)
    ensures SplitJoin(s, sep) == s
    decreases |s|
  {
    if |sep| == 0 || |s| < |sep| {
    } else {
      assert s[..|sep|] != sep;
      SplitJoinWithoutOccurrence(s[1..], sep);
      assert [s[0]] + s[1..] == s;
    }
  }

  /** `sep` occurs in `s` starting at position `k`. */
  predicate StartsAt(sep: string, s: string, k: nat) {
    k + |sep| <= |s| && s[k..k + |sep|] == sep
  }

  /** The scan cuts out an occurrence of `sep` wherever it stands, not only at
      the start: whatever comes before the first occurrence is kept as it is,
      and the scan goes on after it. */
  lemma {:induction false} SplitJoinCutsOccurrence(a: string, sep: string, b: string)
    requires |sep| > 0
    requires forall k: nat :: k < |a| ==> !StartsAt(sep, a + sep + b, k)
    ensures SplitJoin(a + sep + b, sep) == a + SplitJoin(b, sep)
    decreases |a|
  {
    var s := a + sep + b;
    if a == [] {
      assert s[..|sep|] == sep && s[|sep|..] == b;
    } else {
      var t := a[1..] + sep + b;
      assert s == [a[0]] + t;
      forall k: nat | k < |a[1..]|
        ensures !StartsAt(sep, t, k)
      {
        assert !StartsAt(sep, s, k + 1);
        assert t[k..k + |sep|] == s[k + 1..k + 1 + |sep|];
      }
      assert SplitJoin(t, sep) == a[1..] + SplitJoin(b, sep) by {
        SplitJoinCutsOccurrence(a[1..], sep, b);
      }
      assert !StartsAt(sep, s, 0);
      assert s[1..] == t;
      assert SplitJoin(s, sep) == [a[0]] + SplitJoin(t, sep);
      ConcatAssoc([a[0]], a[1..], SplitJoin(b, sep));
      assert [a[0]] + a[1..] == a;
    }
  }

  /** Concatenation is associative. */
  lemma ConcatAssoc<T>(a: seq<T>, b: seq<T>, c: seq<T>)
    ensures a + (b + c) == (a + b) + c
  {
  }
}
