/** UTF-8 as `str.encode` prints it and as section 3 of RFC 3629 reads it: the size of a
    provider response is counted in these bytes. */
module Encoding {
  import opened Sequences

  // ----- printing -----

  function Continuation(bits: int): int {
    0x80 + bits % 64
  }

  function EncodedChar(c: char): seq<int> {
    var p := c as int;
    if p < 0x80 then [p]
    else if p < 0x800 then [0xC0 + p / 64, Continuation(p)]
    else if p < 0x1_0000 then [0xE0 + p / 4_096, Continuation(p / 64), Continuation(p)]
    else [0xF0 + p / 262_144, Continuation(p / 4_096), Continuation(p / 64), Continuation(p)]
  }

  function Utf8(text: string): seq<int> {
    if text == "" then [] else EncodedChar(text[0]) + Utf8(text[1..])
  }

  // ----- reading -----

  /** How many bytes a code point takes, from its first byte. */
  function Width(lead: int): nat {
    if lead < 0x80 then 1 else if lead < 0xE0 then 2 else if lead < 0xF0 then 3 else 4
  }

  function Payload(lead: int): int {
    if lead < 0x80 then lead else if lead < 0xE0 then lead - 0xC0 else if lead < 0xF0 then lead - 0xE0 else lead - 0xF0
  }

  /** Six more bits for every continuation byte. */
  function Point(soFar: int, rest: seq<int>): int
    decreases rest
  {
    if rest == [] then soFar else Point(64 * soFar + (rest[0] - 0x80), rest[1..])
  }

  function Points(bytes: seq<int>): seq<int> {
    if bytes == [] then []
    else
      var n := Width(bytes[0]);
      if |bytes| < n then []
      else [Point(Payload(bytes[0]), bytes[1..n])] + Points(bytes[n..])
  }

  /** How many code points so many bytes can tell apart. */
  function Capacity(n: nat): nat {
    if n == 1 then 128 else if n == 2 then 2_048 else if n == 3 then 65_536 else 2_097_152
  }

  predicate IsByte(b: int) {
    0 <= b < 256
  }

  predicate AreBytes(bytes: seq<int>) {
    forall i :: 0 <= i < |bytes| ==> IsByte(bytes[i])
  }

  function CodePoint(c: char): int { c as int }

  lemma Point2(lead: int, a: int)
    ensures Point(lead, [a]) == 64 * lead + (a - 0x80)
  {
    assert [a][1..] == [];
  }

  lemma Point3(lead: int, a: int, b: int)
    ensures Point(lead, [a, b]) == 64 * (64 * lead + (a - 0x80)) + (b - 0x80)
  {
    assert [a, b][1..] == [b];
    Point2(64 * lead + (a - 0x80), b);
  }

  lemma Point4(lead: int, a: int, b: int, c: int)
    ensures Point(lead, [a, b, c]) == 64 * (64 * (64 * lead + (a - 0x80)) + (b - 0x80)) + (c - 0x80)
  {
    assert [a, b, c][1..] == [b, c];
    Point3(64 * lead + (a - 0x80), b, c);
  }

  lemma SplitSix(p: nat)
    ensures p == 64 * (p / 64) + p % 64 && (p / 64) / 64 == p / 4_096 && (p / 4_096) / 64 == p / 262_144
  {
  }

  /** Every character takes as few bytes as can hold its code point, one to four, and from
      these the code point is read back. */
  lemma CharReadsBack(c: char)
    ensures var bytes := EncodedChar(c);
      && 1 <= |bytes| <= 4 && AreBytes(bytes) && Width(bytes[0]) == |bytes|
      && Point(Payload(bytes[0]), bytes[1..]) == CodePoint(c)
      && CodePoint(c) < Capacity(|bytes|) && (|bytes| > 1 ==> CodePoint(c) >= Capacity(|bytes| - 1))
  {
    var p, bytes := c as int, EncodedChar(c);
    SplitSix(p);
    SplitSix(p / 64);
    SplitSix(p / 4_096);
    if p < 0x80 {
      assert bytes[1..] == [];
    } else if p < 0x800 {
      assert bytes[1..] == [bytes[1]];
      Point2(Payload(bytes[0]), bytes[1]);
    } else if p < 0x1_0000 {
      assert bytes[1..] == [bytes[1], bytes[2]];
      Point3(Payload(bytes[0]), bytes[1], bytes[2]);
    } else {
      assert bytes[1..] == [bytes[1], bytes[2], bytes[3]];
      Point4(Payload(bytes[0]), bytes[1], bytes[2], bytes[3]);
    }
  }

  lemma PointsStep(first: seq<int>, rest: seq<int>)
    requires first != [] && Width(first[0]) == |first|
    ensures Points(first + rest) == [Point(Payload(first[0]), first[1..])] + Points(rest)
  {
    hide Width, Payload, Point;
    var bytes := first + rest;
    assert bytes[0] == first[0] && bytes[1..|first|] == first[1..] && bytes[|first|..] == rest;
  }

  /** UTF-8 is bytes and reads back to the text's code points. */
  lemma {:induction false} Utf8ReadsBack(text: string)
    ensures AreBytes(Utf8(text)) && Points(Utf8(text)) == Map(CodePoint, text)
  {
    if text == "" {
    } else {
      var first, rest := EncodedChar(text[0]), Utf8(text[1..]);
      Utf8ReadsBack(text[1..]);
      CharReadsBack(text[0]);
      hide EncodedChar, Width, Payload, Point, Points, Capacity;
      PointsStep(first, rest);
      assert Map(CodePoint, text) == [CodePoint(text[0])] + Map(CodePoint, text[1..]);
    }
  }
}
