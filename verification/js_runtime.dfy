/** The parts of the ECMAScript runtime that the client's text handling relies on:
    values that may be missing, the two exceptions the client can raise,
    `String.prototype.trim`, `toLowerCase` (as far as the exit command needs it)
    and `String.prototype.repeat`. */
module JsRuntime {

  /** A JavaScript value that may be `undefined` or `null`. */
  datatype Option<+T> = None | Some(value: T)

  /** The exceptions the modelled code can throw. */
  datatype Fault =
    | TypeError   // a property read on `undefined` or `null`
    | RangeError  // `repeat` with a count that truncates below zero

  datatype Result<+T> = Ok(value: T) | Err(fault: Fault)

  /** ECMAScript WhiteSpace or LineTerminator: exactly the code points `trim` removes. */
  predicate IsSpace(c: char) {
    || c == '\t' || c == '\n' || c == '\U{B}' || c == '\U{C}' || c == '\r'
    || c == ' ' || c == '\U{A0}' || c == '\U{1680}'
    || ('\U{2000}' <= c <= '\U{200A}')
    || c == '\U{2028}' || c == '\U{2029}' || c == '\U{202F}' || c == '\U{205F}'
    || c == '\U{3000}' || c == '\U{FEFF}'
  }

  ghost predicate AllSpace(s: string) {
    forall i :: 0 <= i < |s| ==> IsSpace(s[i])
  }

  /** Neither end of `t` is a space. */
  ghost predicate Trimmed(t: string) {
    t == [] || (!IsSpace(t[0]) && !IsSpace(t[|t| - 1]))
  }

  /** `t` sits in `s` at offset `i` with only spaces before and after it. */
  ghost predicate SpacedAt(t: string, s: string, i: int) {
    && 0 <= i && i + |t| <= |s|
    && s[i..i + |t|] == t
    && (forall k :: 0 <= k < i ==> IsSpace(s[k]))
    && (forall k :: i + |t| <= k < |s| ==> IsSpace(s[k]))
  }

  /** `t` is what remains of `s` once all leading and trailing spaces are gone. */
  ghost predicate IsTrimOf(t: string, s: string) {
    Trimmed(t) && exists i :: SpacedAt(t, s, i)
  }

  /** The number of spaces `s` starts with. */
  function LeadingSpaces(s: string): (n: nat)
    ensures n <= |s|
    ensures forall k :: 0 <= k < n ==> IsSpace(s[k])
    ensures n < |s| ==> !IsSpace(s[n])
  {
    if |s| > 0 && IsSpace(s[0]) then 1 + LeadingSpaces(s[1..]) else 0
  }

  /** The number of spaces `s` ends with. */
  function TrailingSpaces(s: string): (n: nat)
    ensures n <= |s|
    ensures forall k :: |s| - n <= k < |s| ==> IsSpace(s[k])
    ensures n < |s| ==> !IsSpace(s[|s| - n - 1])
  {
    if |s| > 0 && IsSpace(s[|s| - 1]) then 1 + TrailingSpaces(s[..|s| - 1]) else 0
  }

  /** `s.trim()`. */
  function Trim(s: string): (r: string)
    ensures IsTrimOf(r, s)
  {
    var i := LeadingSpaces(s);
    if i == |s| then
      assert SpacedAt([], s, 0);
      []
    else
      var j := |s| - TrailingSpaces(s);
      assert SpacedAt(s[i..j], s, i);
      s[i..j]
  }

  /** Only one string is the trim of `s`, so `Trim` is fully determined by `IsTrimOf`. */
  lemma TrimUnique(s: string, t: string)
    requires IsTrimOf(t, s)
    ensures t == Trim(s)
  {
    var u := Trim(s);
    var i :| SpacedAt(t, s, i);
    var j :| SpacedAt(u, s, j);
    SamePlace(s, t, i, u, j);
  }

  /** Two trimmed strings placed among spaces in the same `s` are the same. */
  lemma SamePlace(s: string, t: string, i: int, u: string, j: int)
    requires SpacedAt(t, s, i) && Trimmed(t)
    requires SpacedAt(u, s, j) && Trimmed(u)
    ensures t == u
  {
    if t != [] && u != [] {
      TrimmedEnds(t, s, i);
      TrimmedEnds(u, s, j);
      assert i == j;
      assert i + |t| == j + |u|;
      assert t == s[i..i + |t|];
    } else if t != [] {
      TrimmedEnds(t, s, i);
    } else if u != [] {
      TrimmedEnds(u, s, j);
    }
  }

  /** A non-empty trimmed `t` placed in `s` begins and ends on a non-space of `s`. */
  lemma TrimmedEnds(t: string, s: string, i: int)
    requires SpacedAt(t, s, i) && Trimmed(t) && t != []
    ensures !IsSpace(s[i]) && !IsSpace(s[i + |t| - 1])
  {
    assert s[i] == t[0];
    assert s[i + |t| - 1] == t[|t| - 1];
  }

  /** A string trims to nothing exactly when it is all spaces. */
  lemma TrimEmptyIffAllSpace(s: string)
    ensures Trim(s) == [] <==> AllSpace(s)
  {
    if AllSpace(s) {
      assert SpacedAt([], s, 0);
      TrimUnique(s, []);
    } else {
      var k :| 0 <= k < |s| && !IsSpace(s[k]);
      var i :| SpacedAt(Trim(s), s, i);
    }
  }

  /** Trimming twice is trimming once. */
  lemma TrimIdempotent(s: string)
    ensures Trim(Trim(s)) == Trim(s)
  {
    var t := Trim(s);
    assert SpacedAt(t, t, 0);
    TrimUnique(t, t);
  }

  /** `toLowerCase` on one character, for the letters A to Z. */
  function LowerAscii(c: char): char {
    if 'A' <= c <= 'Z' then (c as int + 32) as char else c
  }

  /** `s.toLowerCase()` as far as ASCII letters go. */
  function AsciiLower(s: string): (r: string)
    ensures |r| == |s|
  {
    seq(|s|, i requires 0 <= i < |s| => LowerAscii(s[i]))
  }

  /** ToIntegerOrInfinity on a finite number: truncation toward zero. */
  function ToInteger(x: real): (n: int)
    ensures 0.0 <= x ==> n as real <= x < n as real + 1.0
    ensures x < 0.0 ==> n as real - 1.0 < x <= n as real
  {
    if x >= 0.0 then x.Floor else -((-x).Floor)
  }

  /** `n` copies of `c`. */
  function Fill(c: char, n: nat): (r: string)
    ensures |r| == n
    ensures forall i :: 0 <= i < n ==> r[i] == c
  {
    seq(n, _ => c)
  }

  /** `c.repeat(count)` for a finite `count`: the count is truncated toward zero
      and a RangeError is thrown when the result is negative. */
  function Repeat(c: char, count: real): (r: Result<string>)
    ensures r.Ok? <==> count > -1.0
    ensures r.Ok? ==> |r.value| == ToInteger(count)
    ensures r.Ok? ==> forall i :: 0 <= i < |r.value| ==> r.value[i] == c
  {
    var n := ToInteger(count);
    if n < 0 then Err(RangeError) else Ok(Fill(c, n))
  }
}
