/**
 * JavaScript strings as sequences of UTF-16 code units, the code points their
 * iterator (`for ... of`) yields, and `String.fromCodePoint`.
 */
module Utf16 {

  const MAX_CODE_POINT := 0x10FFFF

  predicate IsCodeUnit(u: int) { 0 <= u < 0x1_0000 }

  /** A JavaScript string: every element is a 16-bit code unit. */
  predicate IsString(s: seq<int>) { forall i :: 0 <= i < |s| ==> IsCodeUnit(s[i]) }

  predicate IsHighSurrogate(u: int) { 0xD800 <= u <= 0xDBFF }

  predicate IsLowSurrogate(u: int) { 0xDC00 <= u <= 0xDFFF }

  predicate IsCodePoint(c: int) { 0 <= c <= MAX_CODE_POINT }

  predicate AllCodePoints(cps: seq<int>) { forall i :: 0 <= i < |cps| ==> IsCodePoint(cps[i]) }

  /** A code point that is not a surrogate (a Unicode scalar value). */
  predicate IsScalar(c: int) { IsCodePoint(c) && !(0xD800 <= c <= 0xDFFF) }

  predicate AllScalars(cps: seq<int>) { forall i :: 0 <= i < |cps| ==> IsScalar(cps[i]) }

  /** The supplementary code point a surrogate pair stands for. */
  function Combine(high: int, low: int): (c: int)
    requires IsHighSurrogate(high) && IsLowSurrogate(low)
    ensures 0x1_0000 <= c <= MAX_CODE_POINT
  {
    0x1_0000 + (high - 0xD800) * 0x400 + (low - 0xDC00)
  }

  /**
   * The code points the string iterator visits: a high surrogate directly
   * followed by a low one is one code point, every other unit (a lone
   * surrogate included) is a code point of its own.
   */
  function CodePoints(s: seq<int>): (cps: seq<int>)
    ensures |cps| <= |s|
    ensures IsString(s) ==> AllCodePoints(cps)
    decreases |s|
  {
    if |s| == 0 then []
    else if |s| >= 2 && IsHighSurrogate(s[0]) && IsLowSurrogate(s[1]) then
      [Combine(s[0], s[1])] + CodePoints(s[2..])
    else
      [s[0]] + CodePoints(s[1..])
  }

  /** `String.fromCodePoint(c)` for a code point in range. */
  function FromCodePoint(c: int): (s: seq<int>)
    requires IsCodePoint(c)
    ensures IsString(s) && 1 <= |s| <= 2
    ensures |s| == 1 <==> c < 0x1_0000
  {
    if c < 0x1_0000 then [c]
    else [0xD800 + (c - 0x1_0000) / 0x400, 0xDC00 + (c - 0x1_0000) % 0x400]
  }

  /** The string built by appending `String.fromCodePoint` of each code point in turn. */
  function FromCodePoints(cps: seq<int>): (s: seq<int>)
    requires AllCodePoints(cps)
    ensures IsString(s) && |cps| <= |s| <= 2 * |cps|
  {
    if cps == [] then [] else FromCodePoint(cps[0]) + FromCodePoints(cps[1..])
  }

  /** Splitting a supplementary code point and recombining its halves gives it back. */
  lemma SplitCombine(c: int)
    requires 0x1_0000 <= c <= MAX_CODE_POINT
    ensures var s := FromCodePoint(c);
      IsHighSurrogate(s[0]) && IsLowSurrogate(s[1]) && Combine(s[0], s[1]) == c
  {
  }

  /** Recombining a surrogate pair and splitting it again gives the pair back. */
  lemma CombineSplit(high: int, low: int)
    requires IsHighSurrogate(high) && IsLowSurrogate(low)
    ensures FromCodePoint(Combine(high, low)) == [high, low]
  {
  }

  /**
   * Iterating a string by code point and rebuilding it with
   * `String.fromCodePoint` gives back the same code units, lone surrogates
   * and embedded zeros included.
   */
  lemma {:induction false} IterateThenRebuild(s: seq<int>)
    requires IsString(s)
    ensures FromCodePoints(CodePoints(s)) == s
    decreases |s|
  {
    if |s| == 0 {
    } else if |s| >= 2 && IsHighSurrogate(s[0]) && IsLowSurrogate(s[1]) {
      var rest := s[2..];
      IterateThenRebuild(rest);
      var cps := CodePoints(s);
      assert cps[1..] == CodePoints(rest);
      CombineSplit(s[0], s[1]);
      assert s == [s[0], s[1]] + rest;
    } else {
      var rest := s[1..];
      IterateThenRebuild(rest);
      var cps := CodePoints(s);
      assert cps[1..] == CodePoints(rest);
      assert s == [s[0]] + rest;
    }
  }

  /**
   * Building a string from Unicode scalar values and iterating it by code
   * point yields exactly those values, zeros included.
   */
  lemma {:induction false} RebuildThenIterate(cps: seq<int>)
    requires AllScalars(cps)
    ensures CodePoints(FromCodePoints(cps)) == cps
    decreases |cps|
  {
    if cps != [] {
      var c, rest := cps[0], cps[1..];
      RebuildThenIterate(rest);
      var tail := FromCodePoints(rest);
      var s := FromCodePoint(c) + tail;
      if c < 0x1_0000 {
        assert s[1..] == tail;
      } else {
        SplitCombine(c);
        assert s[2..] == tail;
      }
    }
  }
}
