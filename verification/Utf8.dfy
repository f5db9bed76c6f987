/** UTF-8, encoded and strictly decoded: section 3 of RFC 3629. */
module Utf8 {
  import opened Prelude

  function EncodeChar(c: char): (b: seq<Byte>)
    ensures 1 <= |b| <= 4
  {
    var p := c as int;
    var q := p / 0x40;
    var r := q / 0x40;
    if p < 0x80 then [p]
    else if p < 0x800 then [0xC0 + q, 0x80 + p % 0x40]
    else if p < 0x1_0000 then [0xE0 + r, 0x80 + q % 0x40, 0x80 + p % 0x40]
    else [0xF0 + r / 0x40, 0x80 + r % 0x40, 0x80 + q % 0x40, 0x80 + p % 0x40]
  }

  function Encode(s: string): seq<Byte> {
    if s == "" then [] else EncodeChar(s[0]) + Encode(s[1..])
  }

  predicate Continues(b: seq<Byte>, n: nat) {
    |b| > n && forall i :: 1 <= i <= n ==> 0x80 <= b[i] < 0xC0
  }

  /** The next six bits. */
  function Shifted(p: int, b: Byte): int {
    p * 0x40 + (b - 0x80)
  }

  /** The first character and how many bytes it takes; overlong forms and surrogates are refused. */
  function DecodeChar(b: seq<Byte>): (r: Option<(char, nat)>)
    requires b != []
    ensures r.Some? ==> 1 <= r.value.1 <= |b|
  {
    var lead: int := b[0];
    if lead < 0x80 then Some((lead as char, 1))
    else if 0xC2 <= lead < 0xE0 && Continues(b, 1) then
      Some((Shifted(lead - 0xC0, b[1]) as char, 2))
    else if 0xE0 <= lead < 0xF0 && Continues(b, 2) then
      var p := Shifted(Shifted(lead - 0xE0, b[1]), b[2]);
      if p < 0x800 || 0xD800 <= p < 0xE000 then None else Some((p as char, 3))
    else if 0xF0 <= lead < 0xF5 && Continues(b, 3) then
      var p := Shifted(Shifted(Shifted(lead - 0xF0, b[1]), b[2]), b[3]);
      if p < 0x1_0000 || p >= 0x11_0000 then None else Some((p as char, 4))
    else None
  }

  function Decode(b: seq<Byte>): Option<string> {
    if b == [] then Some("")
    else
      var first := DecodeChar(b);
      if first.None? then None
      else
        var rest := Decode(b[first.value.1..]);
        if rest.None? then None else Some([first.value.0] + rest.value)
  }

  lemma CharRoundTrip(c: char, rest: seq<Byte>)
    ensures DecodeChar(EncodeChar(c) + rest) == Some((c, |EncodeChar(c)|))
  {
    var b := EncodeChar(c) + rest;
    assert forall i :: 0 <= i < |EncodeChar(c)| ==> b[i] == EncodeChar(c)[i];
  }

  lemma {:induction false} RoundTrip(s: string)
    ensures Decode(Encode(s)) == Some(s)
  {
    if s != "" {
      RoundTrip(s[1..]);
      CharRoundTrip(s[0], Encode(s[1..]));
      assert Encode(s)[|EncodeChar(s[0])|..] == Encode(s[1..]);
      assert [s[0]] + s[1..] == s;
    }
  }

  lemma ShiftedSplits(p: int, b: Byte)
    requires 0x80 <= b < 0xC0
    ensures Shifted(p, b) / 0x40 == p && Shifted(p, b) % 0x40 == b - 0x80
  {
  }

  lemma StrictChar(b: seq<Byte>)
    requires b != [] && DecodeChar(b).Some?
    ensures EncodeChar(DecodeChar(b).value.0) == b[..DecodeChar(b).value.1]
  {
    hide Shifted;
    var lead: int := b[0];
    if lead < 0x80 {
    } else if lead < 0xE0 {
      ShiftedSplits(lead - 0xC0, b[1]);
    } else if lead < 0xF0 {
      var p := Shifted(lead - 0xE0, b[1]);
      ShiftedSplits(lead - 0xE0, b[1]);
      ShiftedSplits(p, b[2]);
    } else {
      var p := Shifted(lead - 0xF0, b[1]);
      ShiftedSplits(lead - 0xF0, b[1]);
      ShiftedSplits(p, b[2]);
      ShiftedSplits(Shifted(p, b[2]), b[3]);
    }
  }

  /** Only one byte sequence decodes to each text. */
  lemma {:induction false} Strict(b: seq<Byte>)
    requires Decode(b).Some?
    ensures Encode(Decode(b).value) == b
  {
    if b != [] {
      StrictChar(b);
      var n := DecodeChar(b).value.1;
      Strict(b[n..]);
      assert b[..n] + b[n..] == b;
    }
  }
}
