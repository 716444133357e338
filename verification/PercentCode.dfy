/**
 * `encodeURIComponent` and `decodeURIComponent` (ECMA-262, section 19.2.6), with UTF-8 (RFC 3629). A `char` is a
 * Unicode scalar value, so a string here is a well-formed one; the original rejects lone surrogates.
 */
module PercentCode {
  import opened Options

  // --------------------------------------------------------------------- UTF-8

  type Octet = n: int | 0 <= n < 256

  function Octets(c: char): (bs: seq<Octet>)
    ensures 1 <= |bs| <= 4
  {
    var n := c as int;
    if n < 0x80 then [n]
    else if n < 0x800 then [0xC0 + n / 64, 0x80 + n % 64]
    else if n < 0x10000 then [0xE0 + n / 4096, 0x80 + n / 64 % 64, 0x80 + n % 64]
    else [0xF0 + n / 262144, 0x80 + n / 4096 % 64, 0x80 + n / 64 % 64, 0x80 + n % 64]
  }

  /** How many octets a first octet announces; 0 for one that cannot come first. */
  function Announced(b: Octet): nat {
    if b < 0x80 then 1
    else if b < 0xC0 then 0
    else if b < 0xE0 then 2
    else if b < 0xF0 then 3
    else if b < 0xF8 then 4
    else 0
  }

  predicate Continues(b: Octet) {
    0x80 <= b < 0xC0
  }

  predicate IsScalar(n: int) {
    0 <= n < 0xD800 || 0xE000 <= n < 0x110000
  }

  function Joined(bs: seq<int>): int
    requires 1 <= |bs| <= 4
  {
    match |bs|
    case 1 => bs[0]
    case 2 => (bs[0] - 0xC0) * 64 + (bs[1] - 0x80)
    case 3 => (bs[0] - 0xE0) * 4096 + (bs[1] - 0x80) * 64 + (bs[2] - 0x80)
    case _ => (bs[0] - 0xF0) * 262144 + (bs[1] - 0x80) * 4096 + (bs[2] - 0x80) * 64 + (bs[3] - 0x80)
  }

  /** The character of one sequence of octets; an overlong or otherwise invalid sequence has none. */
  function CharOf(bs: seq<Octet>): Option<char>
    requires 1 <= |bs| <= 4
  {
    var n := Joined(bs);
    if (forall i | 1 <= i < |bs| :: Continues(bs[i])) && IsScalar(n) && Octets(n as char) == bs then Some(n as char)
    else None
  }

  lemma OctetsRead(c: char)
    ensures Announced(Octets(c)[0]) == |Octets(c)| && CharOf(Octets(c)) == Some(c)
    ensures c as int >= 0x80 ==> Octets(c)[0] >= 0x80
  {
    var n := c as int;
    if 0x800 <= n < 0x10000 {
      assert n / 64 / 64 == n / 4096;
    } else if n >= 0x10000 {
      assert n / 64 / 64 == n / 4096 && n / 4096 / 64 == n / 262144;
    }
    assert Joined(Octets(c)) == n;
  }

  // ------------------------------------------------------------------- escapes

  function HexDigit(n: int): (c: char)
    requires 0 <= n < 16
    ensures HexValue(c) == Some(n)
  {
    if n < 10 then '0' + n as char else 'A' + (n - 10) as char
  }

  function HexValue(c: char): (n: Option<int>)
    ensures n.Some? ==> 0 <= n.value < 16
  {
    if '0' <= c <= '9' then Some(c as int - '0' as int)
    else if 'A' <= c <= 'F' then Some(c as int - 'A' as int + 10)
    else if 'a' <= c <= 'f' then Some(c as int - 'a' as int + 10)
    else None
  }

  function Escape(b: Octet): (s: string)
    ensures |s| == 3
  {
    ['%', HexDigit(b / 16), HexDigit(b % 16)]
  }

  function EscapeAll(bs: seq<Octet>): (s: string)
    ensures |s| == 3 * |bs|
  {
    if bs == [] then "" else Escape(bs[0]) + EscapeAll(bs[1..])
  }

  /** The octets escaped by the first `n` escapes of a text. */
  function Unescape(s: string, n: nat): (r: Option<seq<Octet>>)
    ensures r.Some? ==> |r.value| == n && |s| >= 3 * n
  {
    if n == 0 then Some([])
    else if |s| < 3 || s[0] != '%' || HexValue(s[1]).None? || HexValue(s[2]).None? then None
    else
      var rest := Unescape(s[3..], n - 1);
      if rest.None? then None else Some([16 * HexValue(s[1]).value + HexValue(s[2]).value] + rest.value)
  }

  lemma {:induction false} UnescapeEscaped(bs: seq<Octet>, t: string)
    ensures Unescape(EscapeAll(bs) + t, |bs|) == Some(bs)
  {
    if bs == [] {
    } else {
      var s := EscapeAll(bs) + t;
      assert s == Escape(bs[0]) + (EscapeAll(bs[1..]) + t);
      assert s[0] == '%' && s[1] == HexDigit(bs[0] / 16) && s[2] == HexDigit(bs[0] % 16);
      assert s[3..] == EscapeAll(bs[1..]) + t;
      UnescapeEscaped(bs[1..], t);
      assert [bs[0]] + bs[1..] == bs;
    }
  }

  // ----------------------------------------------------------------- components

  predicate Unreserved(c: char) {
    'A' <= c <= 'Z' || 'a' <= c <= 'z' || '0' <= c <= '9' || c in "-_.!~*'()"
  }

  function EncodeChar(c: char): (s: string)
    ensures |s| >= 1
  {
    if Unreserved(c) then [c] else EscapeAll(Octets(c))
  }

  /** `encodeURIComponent` */
  function Encode(s: string): string {
    if s == "" then "" else EncodeChar(s[0]) + Encode(s[1..])
  }

  function Prepend(c: char, s: Option<string>): Option<string> {
    if s.None? then None else Some([c] + s.value)
  }

  /** `decodeURIComponent` */
  function Decode(s: string): Option<string>
    decreases |s|
  {
    if s == "" then Some("")
    else if s[0] != '%' then Prepend(s[0], Decode(s[1..]))
    else
      var first := Unescape(s, 1);
      if first.None? || Announced(first.value[0]) == 0 then None
      else
        var n := Announced(first.value[0]);
        var octets := Unescape(s, n);
        if octets.None? || CharOf(octets.value).None? then None
        else Prepend(CharOf(octets.value).value, Decode(s[3 * n..]))
  }

  lemma FirstOctet(bs: seq<Octet>, t: string)
    requires bs != []
    ensures Unescape(EscapeAll(bs) + t, 1) == Some([bs[0]])
  {
    UnescapeEscaped([bs[0]], EscapeAll(bs[1..]) + t);
    assert EscapeAll(bs) + t == EscapeAll([bs[0]]) + (EscapeAll(bs[1..]) + t);
  }

  lemma DecodeEscaped(c: char, t: string)
    ensures Decode(EscapeAll(Octets(c)) + t) == Prepend(c, Decode(t))
  {
    var bs := Octets(c);
    var s := EscapeAll(bs) + t;
    OctetsRead(c);
    UnescapeEscaped(bs, t);
    FirstOctet(bs, t);
    assert s[3 * |bs|..] == t;
  }

  /** Decoding undoes encoding. */
  lemma {:induction false} DecodeOfEncode(s: string)
    ensures Decode(Encode(s)) == Some(s)
  {
    if s == "" {
    } else {
      var c, t := s[0], Encode(s[1..]);
      DecodeOfEncode(s[1..]);
      assert [c] + s[1..] == s;
      if Unreserved(c) {
        assert ([c] + t)[1..] == t;
      } else {
        DecodeEscaped(c, t);
      }
    }
  }

  // ------------------------------------------------------------------ the alphabet

  predicate Letter(c: char) {
    'A' <= c <= 'Z' || 'a' <= c <= 'z'
  }

  /** The characters that stand for themselves, one by one. */
  predicate Plain(c: char) {
    || Letter(c) || '0' <= c <= '9' || c == '-' || c == '_' || c == '.' || c == '!' || c == '~' || c == '*'
    || c == '\'' || c == '(' || c == ')'
  }

  lemma UnreservedIsPlain(c: char)
    ensures Unreserved(c) <==> Plain(c)
  {
    var marks := "-_.!~*'()";
    assert marks[0] == '-' && marks[1] == '_' && marks[2] == '.' && marks[3] == '!' && marks[4] == '~';
    assert marks[5] == '*' && marks[6] == '\'' && marks[7] == '(' && marks[8] == ')';
  }

  /** An escape is written in upper case. */
  predicate InEscape(c: char) {
    c == '%' || '0' <= c <= '9' || 'A' <= c <= 'F'
  }

  lemma {:induction false} EscapedAlphabet(bs: seq<Octet>, c: char)
    requires c in EscapeAll(bs)
    ensures InEscape(c)
  {
    if bs == [] {
    } else {
      if c !in Escape(bs[0]) {
        EscapedAlphabet(bs[1..], c);
      }
    }
  }

  /** A character is left as it is exactly if it stands for itself; any other gives nothing but escapes. */
  lemma EncodedCharIff(c: char)
    ensures Encode([c]) == [c] <==> Plain(c)
    ensures !Plain(c) ==> |Encode([c])| >= 3 && Encode([c])[0] == '%' && forall e | e in Encode([c]) :: InEscape(e)
  {
    UnreservedIsPlain(c);
    assert Encode([c]) == EncodeChar(c) + Encode([]);
    if !Plain(c) {
      assert Encode([c]) == EscapeAll(Octets(c));
      forall e | e in Encode([c])
        ensures InEscape(e)
      {
        EscapedAlphabet(Octets(c), e);
      }
    }
  }

  /** An encoded component holds nothing but characters that stand for themselves, and escapes. */
  lemma {:induction false} EncodedAlphabet(s: string, c: char)
    requires c in Encode(s)
    ensures Unreserved(c) || c == '%'
    ensures Plain(c) || c == '%'
  {
    if s == "" {
    } else {
      UnreservedIsPlain(c);
      if c in EncodeChar(s[0]) {
        if !Unreserved(s[0]) {
          EscapedAlphabet(Octets(s[0]), c);
        }
      } else {
        EncodedAlphabet(s[1..], c);
      }
    }
  }
}
