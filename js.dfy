/** JavaScript values and the built-in string operations the auditors rely on:
    `String.prototype.replace` with a string pattern, `trim` and `includes`. */
module Js {

  /** A value that may be `null` or `undefined` (both are `None`). */
  datatype Option<+T> = None | Some(value: T)

  /** The outcome of a call that may throw a TypeError (such as `null.getAttribute(...)`). */
  datatype Outcome<+T> = Returned(value: T) | Threw

  /** Truthiness of a string that may be missing: `null`, `undefined` and `''` are falsy. */
  predicate Truthy(s: Option<string>)
  {
    s.Some? && s.value != ""
  }

  /** Truthiness of an optional boolean prop: only `true` is truthy. */
  predicate TruthyFlag(b: Option<bool>)
  {
    b == Some(true)
  }

  /** ECMAScript WhiteSpace and LineTerminator code points, which `trim` removes. */
  predicate IsWhitespace(c: char)
  {
    || c == '\t' || c == '\n' || c == '\U{B}' || c == '\U{C}' || c == '\r' || c == ' '
    || c == '\U{A0}' || c == '\U{1680}' || ('\U{2000}' <= c <= '\U{200A}')
    || c == '\U{2028}' || c == '\U{2029}' || c == '\U{202F}' || c == '\U{205F}'
    || c == '\U{3000}' || c == '\U{FEFF}'
  }

  /** `s.trimStart()`: `s` without its leading whitespace. */
  function TrimStart(s: string): string
  {
    if s != [] && IsWhitespace(s[0]) then TrimStart(s[1..]) else s
  }

  /** `trimStart` keeps a suffix, drops only whitespace, and stops at the first other character. */
  lemma {:induction false} TrimStartSpec(s: string)
    ensures |TrimStart(s)| <= |s| && TrimStart(s) == s[|s| - |TrimStart(s)|..]
    ensures forall k :: 0 <= k < |s| - |TrimStart(s)| ==> IsWhitespace(s[k])
    ensures TrimStart(s) != [] ==> !IsWhitespace(TrimStart(s)[0])
  {
    if s != [] && IsWhitespace(s[0]) {
      var tail := s[1..];
      TrimStartSpec(tail);
      var r := TrimStart(tail);
      assert TrimStart(s) == r;
      assert tail[|tail| - |r|..] == s[|s| - |r|..];
      forall k | 1 <= k < |s| - |r|
        ensures IsWhitespace(s[k])
      {
        assert s[k] == tail[k - 1];
      }
    }
  }

  /** `s.trimEnd()`: `s` without its trailing whitespace. */
  function TrimEnd(s: string): string
  {
    if s != [] && IsWhitespace(s[|s| - 1]) then TrimEnd(s[..|s| - 1]) else s
  }

  /** `trimEnd` keeps a prefix, drops only whitespace, and stops at the last other character. */
  lemma {:induction false} TrimEndSpec(s: string)
    ensures |TrimEnd(s)| <= |s| && TrimEnd(s) == s[..|TrimEnd(s)|]
    ensures forall k :: |TrimEnd(s)| <= k < |s| ==> IsWhitespace(s[k])
    ensures TrimEnd(s) != [] ==> !IsWhitespace(TrimEnd(s)[|TrimEnd(s)| - 1])
  {
    if s != [] && IsWhitespace(s[|s| - 1]) {
      var init := s[..|s| - 1];
      TrimEndSpec(init);
      var r := TrimEnd(init);
      assert TrimEnd(s) == r;
      assert init[..|r|] == s[..|r|];
      forall k | |r| <= k < |s| - 1
        ensures IsWhitespace(s[k])
      {
        assert s[k] == init[k];
      }
    }
  }

  /** `s` is `r` surrounded by whitespace, with `r` starting at index `i`. */
  predicate PaddedAt(s: string, r: string, i: nat)
  {
    && i + |r| <= |s| && s[i..i + |r|] == r
    && (forall k :: 0 <= k < i ==> IsWhitespace(s[k]))
    && (forall k :: i + |r| <= k < |s| ==> IsWhitespace(s[k]))
  }

  /** `s.trim()`. */
  function Trim(s: string): string
  {
    TrimEnd(TrimStart(s))
  }

  /** `trim` leaves `s` without its surrounding whitespace: what remains neither starts nor ends
      with whitespace, and only whitespace surrounds it in `s`. */
  lemma TrimSpec(s: string)
    ensures Trim(s) != [] ==> !IsWhitespace(Trim(s)[0]) && !IsWhitespace(Trim(s)[|Trim(s)| - 1])
    ensures exists i :: PaddedAt(s, Trim(s), i)
  {
    var t := TrimStart(s);
    TrimStartSpec(s);
    TrimEndSpec(t);
    var r := TrimEnd(t);
    if r != [] {
      assert r[0] == t[0];
    }
    assert PaddedAt(s, r, |s| - |t|);
  }

  /** Trimming a trimmed string changes nothing. */
  lemma TrimIdempotent(s: string)
    ensures Trim(Trim(s)) == Trim(s)
  {
    var r := Trim(s);
    TrimSpec(s);
    assert TrimStart(r) == r;
    assert TrimEnd(r) == r;
  }

  /** `p` occurs in `s` at index `i`. */
  predicate OccursAt(s: string, p: string, i: nat)
  {
    i + |p| <= |s| && s[i..i + |p|] == p
  }

  /** `s.indexOf(p, from)`: the first index at or after `from` where `p` occurs in `s`. */
  function IndexOf(s: string, p: string, from: nat): (r: Option<nat>)
    decreases |s| - from
    ensures r.Some? ==> from <= r.value && r.value + |p| <= |s|
  {
    if from + |p| > |s| then None
    else if OccursAt(s, p, from) then Some(from)
    else IndexOf(s, p, from + 1)
  }

  /** `indexOf` finds an occurrence, and none occurs before it; when it finds nothing, `p` occurs
      nowhere at or after `from`. */
  lemma {:induction false} IndexOfSpec(s: string, p: string, from: nat)
    decreases |s| - from
    ensures IndexOf(s, p, from).Some? ==> OccursAt(s, p, IndexOf(s, p, from).value)
    ensures IndexOf(s, p, from).Some? ==> forall j :: from <= j < IndexOf(s, p, from).value ==> !OccursAt(s, p, j)
    ensures IndexOf(s, p, from).None? ==> forall j :: from <= j ==> !OccursAt(s, p, j)
  {
    if from + |p| <= |s| && !OccursAt(s, p, from) {
      IndexOfSpec(s, p, from + 1);
    }
  }

  /** Conversely, the first occurrence at or after `from` is the one `indexOf` reports. */
  lemma {:induction false} IndexOfFindsFirst(s: string, p: string, from: nat, i: nat)
    requires from <= i && OccursAt(s, p, i)
    requires forall j :: from <= j < i ==> !OccursAt(s, p, j)
    decreases i - from
    ensures IndexOf(s, p, from) == Some(i)
  {
    if from < i {
      IndexOfFindsFirst(s, p, from + 1, i);
    }
  }

  /** `s.includes(p)`. */
  predicate Includes(s: string, p: string)
  {
    IndexOf(s, p, 0).Some?
  }

  /** `s.replace(p, '')` with a string pattern: removes the FIRST occurrence of `p` only. */
  function RemoveFirst(s: string, p: string): string
  {
    match IndexOf(s, p, 0)
    case None => s
    case Some(i) => s[..i] + s[i + |p|..]
  }

  /** Without an occurrence `replace` changes nothing; with one, putting `p` back where the first
      occurrence stood gives `s` again. */
  lemma RemoveFirstSpec(s: string, p: string)
    ensures IndexOf(s, p, 0).None? ==> RemoveFirst(s, p) == s
    ensures IndexOf(s, p, 0).Some? ==>
      var i, r := IndexOf(s, p, 0).value, RemoveFirst(s, p);
      |r| == |s| - |p| && r[..i] + p + r[i..] == s
  {
    if IndexOf(s, p, 0).Some? {
      IndexOfSpec(s, p, 0);
      var i := IndexOf(s, p, 0).value;
      var before, after := s[..i], s[i + |p|..];
      var r := RemoveFirst(s, p);
      assert r == before + after;
      assert |before| == i;
      assert r[..i] == before;
      assert r[i..] == after;
      assert s[i..i + |p|] == p;
      assert s == before + s[i..i + |p|] + after;
    }
  }
}
