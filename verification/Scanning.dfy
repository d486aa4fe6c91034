/** The scanners of utils.c: loops over a byte array, specified by functions on its contents. */
module Scanning {
  import opened Basics

  const SPACE: byte := 32
  const TAB: byte := 9
  const NUL: byte := 0
  const LF: byte := 10
  const CR: byte := 13

  predicate IsBlank(b: byte) { b == SPACE || b == TAB }

  predicate IsLineEnd(b: byte) { b == NUL || b == LF || b == CR }

  predicate IsWordEnd(b: byte) { IsBlank(b) || IsLineEnd(b) }

  predicate IsNul(b: byte) { b == NUL }

  predicate NotBlank(b: byte) { !IsBlank(b) }

  /** The first offset below `limit` whose byte satisfies `stop`, or -1. */
  function Scan(stop: byte -> bool, s: seq<byte>, from: nat, limit: nat): (r: int)
    ensures r == -1 || 0 <= r < limit
    ensures r >= 0 ==> from + r < |s| && stop(s[from + r])
    ensures forall k :: from <= k < |s| && (if r >= 0 then k < from + r else k < from + limit) ==> !stop(s[k])
    decreases limit
  {
    if limit == 0 || from >= |s| then -1
    else if stop(s[from]) then 0
    else
      var r := Scan(stop, s, from + 1, limit - 1);
      if r < 0 then -1 else r + 1
  }

  /** A scan is determined by the first stopping byte. */
  lemma {:induction false} ScanHit(stop: byte -> bool, s: seq<byte>, from: nat, limit: nat, r: nat)
    requires from + r < |s| && r < limit && stop(s[from + r])
    requires forall k :: from <= k < from + r ==> !stop(s[k])
    ensures Scan(stop, s, from, limit) == r
    decreases r
  {
    if r > 0 { ScanHit(stop, s, from + 1, limit - 1, r - 1); }
  }

  lemma {:induction false} ScanMiss(stop: byte -> bool, s: seq<byte>, from: nat, limit: nat)
    requires forall k :: from <= k < |s| && k < from + limit ==> !stop(s[k])
    ensures Scan(stop, s, from, limit) == -1
    decreases limit
  {
    if limit > 0 && from < |s| { ScanMiss(stop, s, from + 1, limit - 1); }
  }

  // The scanners by their names in the source; `len` bounds the offset as it does there.

  function FindBlankChar(s: seq<byte>, from: nat, len: nat): int { Scan(IsWordEnd, s, from, len + 1) }

  function FindNewLine(s: seq<byte>, from: nat, len: nat): int { Scan(IsLineEnd, s, from, len + 1) }

  function SkipBlankChars(s: seq<byte>, from: nat, len: nat): int { Scan(NotBlank, s, from, len) }

  /** findZeroInString: the offset of the first zero, `len` if there is none; None when that is 0. */
  function FindZero(s: seq<byte>, from: nat, len: nat): Option<nat> {
    var r := Scan(IsNul, s, from, len);
    var index := if r < 0 then len else r;
    if index == 0 then None else Some(index)
  }

  /** `string[from..]` may be read up to its first stopping byte, at most `len` bytes ahead. */
  ghost predicate Readable(stop: byte -> bool, s: seq<byte>, from: nat, len: nat) {
    from + len <= |s| || exists k :: from <= k < |s| && stop(s[k])
  }

  method FindBlankCharInString(s: array<byte>, from: nat, len: nat) returns (index: int)
    requires Readable(IsWordEnd, s[..], from, len + 1)
    ensures index == FindBlankChar(s[..], from, len)
  {
    index := 0;
    while index <= len
      invariant 0 <= index <= len + 1
      invariant forall k :: from <= k < from + index ==> k < s.Length && !IsWordEnd(s[..][k])
    {
      if s[from + index] == SPACE || s[from + index] == TAB || s[from + index] == NUL
         || s[from + index] == LF || s[from + index] == CR {
        ScanHit(IsWordEnd, s[..], from, len + 1, index);
        return;
      }
      index := index + 1;
    }
    ScanMiss(IsWordEnd, s[..], from, len + 1);
    index := -1;
  }

  method FindNewLineInString(s: array<byte>, from: nat, len: nat) returns (index: int)
    requires Readable(IsLineEnd, s[..], from, len + 1)
    ensures index == FindNewLine(s[..], from, len)
  {
    index := 0;
    while index <= len
      invariant 0 <= index <= len + 1
      invariant forall k :: from <= k < from + index ==> k < s.Length && !IsLineEnd(s[..][k])
    {
      if s[from + index] == NUL || s[from + index] == LF || s[from + index] == CR {
        ScanHit(IsLineEnd, s[..], from, len + 1, index);
        return;
      }
      index := index + 1;
    }
    ScanMiss(IsLineEnd, s[..], from, len + 1);
    index := -1;
  }

  method SkipBlankCharsInString(s: array<byte>, from: nat, len: nat) returns (index: int)
    requires Readable(NotBlank, s[..], from, len)
    ensures index == SkipBlankChars(s[..], from, len)
  {
    index := 0;
    while index < len
      invariant 0 <= index <= len
      invariant forall k :: from <= k < from + index ==> k < s.Length && !NotBlank(s[..][k])
    {
      if !(s[from + index] == SPACE || s[from + index] == TAB) {
        ScanHit(NotBlank, s[..], from, len, index);
        return;
      }
      index := index + 1;
    }
    ScanMiss(NotBlank, s[..], from, len);
    index := -1;
  }

  /** Returns None where the source calls errHandling, which ends the program. */
  method FindZeroInString(s: array<byte>, from: nat, len: nat) returns (r: Option<nat>)
    requires Readable(IsNul, s[..], from, len)
    ensures r == FindZero(s[..], from, len)
  {
    var index := 0;
    while index < len && s[from + index] != NUL
      invariant 0 <= index <= len
      invariant index < len ==> from + index < s.Length
      invariant forall k :: from <= k < from + index ==> k < s.Length && !IsNul(s[..][k])
    {
      index := index + 1;
    }
    if index < len {
      ScanHit(IsNul, s[..], from, len, index);
    } else {
      ScanMiss(IsNul, s[..], from, len);
    }
    r := if index <= 0 then None else Some(index);
  }

  /** stringReplace: copies `len` bytes of `src` over `dst`, which must have room for them. */
  method StringReplace(dst: array<byte>, at: nat, src: seq<byte>)
    requires at + |src| <= dst.Length
    modifies dst
    ensures dst[..] == old(dst[..at]) + src + old(dst[at + |src|..])
  {
    for i := 0 to |src|
      invariant dst[..at + i] == old(dst[..at]) + src[..i]
      invariant dst[at + i..] == old(dst[at + i..])
    {
      dst[at + i] := src[i];
      assert dst[..at + i + 1] == dst[..at + i] + [src[i]];
      assert src[..i + 1] == src[..i] + [src[i]];
    }
    assert src[..|src|] == src;
    assert dst[..] == dst[..at + |src|] + dst[at + |src|..];
  }
}
