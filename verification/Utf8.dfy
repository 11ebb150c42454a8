/** Go strings as bytes: a string here holds one character below 256 per byte.  truncateUTF8 of
    internal/gcpdata/logs.go, and the length Go's JSON encoder gives a string. */
module Utf8 {

  function B(s: string, i: nat): int
    requires i < |s|
  {
    s[i] as int
  }

  predicate Continues(s: string, i: nat, lo: int, hi: int) {
    i < |s| && lo <= B(s, i) <= hi
  }

  /** The length of the rune s starts with, 0 if s starts with no valid one: the table of RFC 3629,
      section 4. */
  function RuneLen(s: string): (n: nat)
    ensures n <= |s| && n <= 4
  {
    if s == [] then 0
    else
      var b := B(s, 0);
      if b < 0x80 then 1
      else if 0xC2 <= b <= 0xDF then
        if Continues(s, 1, 0x80, 0xBF) then 2 else 0
      else if 0xE0 <= b <= 0xEF then
        if Continues(s, 1, if b == 0xE0 then 0xA0 else 0x80, if b == 0xED then 0x9F else 0xBF) && Continues(s, 2, 0x80, 0xBF)
        then 3 else 0
      else if 0xF0 <= b <= 0xF4 then
        if Continues(s, 1, if b == 0xF0 then 0x90 else 0x80, if b == 0xF4 then 0x8F else 0xBF)
           && Continues(s, 2, 0x80, 0xBF) && Continues(s, 3, 0x80, 0xBF)
        then 4 else 0
      else 0
  }

  predicate Valid(s: string) {
    s == [] || (RuneLen(s) > 0 && Valid(s[RuneLen(s)..]))
  }

  /** utf8.RuneStart: not a continuation byte. */
  predicate RuneStart(c: char) {
    !(0x80 <= c as int <= 0xBF)
  }

  // ---- truncateUTF8 ----

  /** A cut that splits no rune: at the start, or before a byte that can start one. */
  ghost predicate Cut(s: string, k: nat) {
    k <= |s| && (k == 0 || k == |s| || RuneStart(s[k]))
  }

  /** Cut to at most maxBytes at such a place, as late as possible. */
  ghost predicate IsTruncation(r: string, s: string, maxBytes: nat) {
    && r <= s && |r| <= maxBytes && Cut(s, |r|) && (|s| <= maxBytes ==> r == s)
    && forall k: nat | Cut(s, k) && k <= maxBytes :: k <= |r|
  }

  /** The latest cut at k or before. */
  function CutBefore(s: string, k: nat): (cut: nat)
    requires k < |s|
    ensures cut <= k
  {
    if k == 0 || RuneStart(s[k]) then k else CutBefore(s, k - 1)
  }

  function Truncated(s: string, maxBytes: nat): string {
    if |s| <= maxBytes then s else s[..CutBefore(s, maxBytes)]
  }

  lemma {:induction false} CutBeforeIsLatest(s: string, k: nat)
    requires k < |s|
    ensures Cut(s, CutBefore(s, k))
    ensures forall h: nat | Cut(s, h) && h <= k :: h <= CutBefore(s, k)
  {
    if k > 0 && !RuneStart(s[k]) {
      CutBeforeIsLatest(s, k - 1);
    }
  }

  /** Truncated is the one string that meets the definition. */
  lemma TruncatedIff(r: string, s: string, maxBytes: nat)
    ensures IsTruncation(r, s, maxBytes) <==> r == Truncated(s, maxBytes)
  {
    if |s| > maxBytes {
      CutBeforeIsLatest(s, maxBytes);
      if IsTruncation(r, s, maxBytes) {
        assert |r| == CutBefore(s, maxBytes);
      }
    } else {
      assert Cut(s, |s|);
    }
  }

  lemma TruncatedIsPrefix(s: string, maxBytes: nat)
    ensures Truncated(s, maxBytes) <= s
    ensures |s| <= maxBytes ==> Truncated(s, maxBytes) == s
  {
  }

  method TruncateUtf8(s: string, maxBytes: nat) returns (r: string)
    ensures IsTruncation(r, s, maxBytes) && r == Truncated(s, maxBytes)
  {
    TruncatedIff(s, s, maxBytes);
    if |s| <= maxBytes {
      return s;
    }
    var cut: nat := maxBytes;
    while cut > 0 && !RuneStart(s[cut])
      invariant cut <= maxBytes
      invariant forall k: nat | Cut(s, k) && k <= maxBytes :: k <= cut
    {
      cut := cut - 1;
    }
    r := s[..cut];
    TruncatedIff(r, s, maxBytes);
  }

  lemma RuneBytes(s: string, k: nat)
    requires 0 < RuneLen(s) && k < RuneLen(s)
    ensures RuneStart(s[k]) <==> k == 0
  {
  }

  /** A rune cut short is no rune. */
  lemma RuneCutShort(s: string, k: nat)
    requires 0 < k < RuneLen(s)
    ensures RuneLen(s[..k]) == 0
  {
  }

  lemma RuneOfPrefix(s: string, k: nat)
    requires 0 < RuneLen(s) <= k <= |s|
    ensures RuneLen(s[..k]) == RuneLen(s)
  {
  }

  /** In a valid string the places before a starting byte are exactly those that leave a valid
      prefix. */
  lemma {:induction false} CutsAreBoundaries(s: string, k: nat)
    requires Valid(s) && k <= |s|
    ensures Cut(s, k) <==> Valid(s[..k])
    decreases |s|
  {
    if s != [] && k > 0 {
      var n := RuneLen(s);
      if k < n {
        RuneBytes(s, k);
        RuneCutShort(s, k);
      } else {
        RuneOfPrefix(s, k);
        assert s[..k][n..] == s[n..][..k - n];
        CutsAreBoundaries(s[n..], k - n);
        if n < |s| && k == n {
          RuneBytes(s[n..], 0);
          assert s[n..][0] == s[n];
        }
        if n < k < |s| {
          assert s[n..][k - n] == s[k];
        }
      }
    }
  }

  /** For valid UTF-8, the longest valid prefix within the limit. */
  lemma TruncationIsLongest(s: string, maxBytes: nat, r: string)
    requires Valid(s) && IsTruncation(r, s, maxBytes)
    ensures Valid(r)
    ensures forall k | 0 <= k <= |s| && k <= maxBytes && Valid(s[..k]) :: k <= |r|
  {
    assert r == s[..|r|];
    CutsAreBoundaries(s, |r|);
    forall k | 0 <= k <= |s| && k <= maxBytes && Valid(s[..k]) ensures k <= |r| {
      CutsAreBoundaries(s, k);
    }
  }

  // ---- The JSON encoding of a string ----

  function EscapedByte(b: int): (n: nat)
    ensures 1 <= n <= 6
  {
    if b == 0x22 || b == 0x5C || b == 0x08 || b == 0x0C || b == 0x0A || b == 0x0D || b == 0x09 then 2
    else if b < 0x20 || b == 0x3C || b == 0x3E || b == 0x26 then 6
    else 1
  }

  /** Line and paragraph separators, which are escaped although valid. */
  predicate IsSeparator(s: string) {
    |s| >= 3 && B(s, 0) == 0xE2 && B(s, 1) == 0x80 && (B(s, 2) == 0xA8 || B(s, 2) == 0xA9)
  }

  /** How many bytes the string takes when escaped; a byte that starts no rune becomes \\ufffd. */
  function Escaped(s: string): nat {
    if s == [] then 0
    else
      var n := RuneLen(s);
      if n == 0 then 6 + Escaped(s[1..])
      else if n == 1 then EscapedByte(B(s, 0)) + Escaped(s[1..])
      else if IsSeparator(s) then 6 + Escaped(s[n..])
      else n + Escaped(s[n..])
  }

  lemma {:induction false} EscapedBound(s: string)
    ensures |s| == 0 || Escaped(s) >= 1
    ensures Escaped(s) <= 6 * |s|
    decreases |s|
  {
    if s != [] {
      var n := RuneLen(s);
      EscapedBound(s[if n == 0 then 1 else n..]);
    }
  }
}
