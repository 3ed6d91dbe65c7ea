/** Standard base64 with padding, section 4 of RFC 4648, as Go's `StdEncoding` writes and reads it. */
module Base64 {
  import opened Entities

  type Byte = n: nat | n < 256

  function Digit(n: nat): char
    requires n < 64
  {
    if n < 26 then ('A' as int + n) as char
    else if n < 52 then ('a' as int + n - 26) as char
    else if n < 62 then ('0' as int + n - 52) as char
    else if n == 62 then '+' else '/'
  }

  function Value(c: char): (r: Option<nat>)
    ensures r.Some? ==> r.value < 64
  {
    if 'A' <= c <= 'Z' then Some(c as int - 'A' as int)
    else if 'a' <= c <= 'z' then Some(c as int - 'a' as int + 26)
    else if '0' <= c <= '9' then Some(c as int - '0' as int + 52)
    else if c == '+' then Some(62) else if c == '/' then Some(63) else None
  }

  lemma ValueOfDigit(n: nat)
    requires n < 64
    ensures Value(Digit(n)) == Some(n) && Digit(n) !in "=:\n\r"
  {
  }

  function Encode(b: seq<Byte>): string {
    if b == [] then ""
    else if |b| == 1 then [Digit(b[0] / 4), Digit(b[0] % 4 * 16), '=', '=']
    else if |b| == 2 then [Digit(b[0] / 4), Digit(b[0] % 4 * 16 + b[1] / 16), Digit(b[1] % 16 * 4), '=']
    else [Digit(b[0] / 4), Digit(b[0] % 4 * 16 + b[1] / 16), Digit(b[1] % 16 * 4 + b[2] / 64), Digit(b[2] % 64)]
         + Encode(b[3..])
  }

  /** The reader skips line breaks. */
  function Unbroken(s: string): string {
    if s == "" then "" else (if s[0] == '\n' || s[0] == '\r' then "" else [s[0]]) + Unbroken(s[1..])
  }

  function DecodeQuads(s: string): Option<seq<Byte>> {
    if s == "" then Some([])
    else if |s| < 4 then None
    else
      var v0, v1 := Value(s[0]), Value(s[1]);
      if v0.None? || v1.None? then None
      else
        var b0 := v0.value * 4 + v1.value / 16;
        if s[2] == '=' then if s[3] == '=' && |s| == 4 then Some([b0]) else None
        else
          var v2 := Value(s[2]);
          if v2.None? then None
          else
            var b1 := v1.value % 16 * 16 + v2.value / 4;
            if s[3] == '=' then if |s| == 4 then Some([b0, b1]) else None
            else
              var v3 := Value(s[3]);
              var rest := DecodeQuads(s[4..]);
              if v3.None? || rest.None? then None
              else Some([b0, b1, v2.value % 4 * 64 + v3.value] + rest.value)
  }

  function Decode(s: string): Option<seq<Byte>> {
    DecodeQuads(Unbroken(s))
  }

  predicate Encoded(c: char) {
    Value(c).Some? || c == '='
  }

  lemma DigitsEncoded()
    ensures forall n: nat | n < 64 :: Encoded(Digit(n))
    ensures Encoded('=')
  {
    forall n: nat | n < 64 ensures Encoded(Digit(n)) {
      ValueOfDigit(n);
    }
  }

  lemma {:induction false} EncodeChars(b: seq<Byte>)
    ensures forall c | c in Encode(b) :: Encoded(c)
  {
    hide Digit, Value, Encoded;
    DigitsEncoded();
    if |b| > 2 {
      EncodeChars(b[3..]);
    }
  }

  lemma {:induction false} UnbrokenSame(s: string)
    requires forall c | c in s :: Encoded(c)
    ensures Unbroken(s) == s
  {
    if s != "" {
      assert s[0] in s;
      UnbrokenSame(s[1..]);
      assert s == [s[0]] + s[1..];
    }
  }

  lemma OneByte(x: Byte)
    ensures DecodeQuads(Encode([x])) == Some([x])
  {
    hide Digit, Value;
    ValueOfDigit(x / 4);
    ValueOfDigit(x % 4 * 16);
  }

  lemma TwoBytes(x: Byte, y: Byte)
    ensures DecodeQuads(Encode([x, y])) == Some([x, y])
  {
    hide Digit, Value;
    ValueOfDigit(x / 4);
    ValueOfDigit(x % 4 * 16 + y / 16);
    ValueOfDigit(y % 16 * 4);
  }

  /** Four values and what follows, read. */
  lemma QuadIn(s: string)
    requires |s| >= 4 && (forall i | 0 <= i < 4 :: Value(s[i]).Some?) && DecodeQuads(s[4..]).Some?
    ensures var a, b, c, d := Value(s[0]).value, Value(s[1]).value, Value(s[2]).value, Value(s[3]).value;
            DecodeQuads(s)
            == Some([a * 4 + b / 16, b % 16 * 16 + c / 4, c % 4 * 64 + d] + DecodeQuads(s[4..]).value)
  {
    hide Value;
    PadOnly(s[2]);
    PadOnly(s[3]);
  }

  lemma PadOnly(c: char)
    ensures c == '=' ==> Value(c).None?
  {
  }

  lemma ThreeBytes(x: Byte, y: Byte, z: Byte, rest: string)
    requires DecodeQuads(rest).Some?
    ensures var q := [Digit(x / 4), Digit(x % 4 * 16 + y / 16), Digit(y % 16 * 4 + z / 64), Digit(z % 64)];
            DecodeQuads(q + rest) == Some([x, y, z] + DecodeQuads(rest).value)
  {
    hide Digit, Value, DecodeQuads;
    var a, b, c, d := x / 4, x % 4 * 16 + y / 16, y % 16 * 4 + z / 64, z % 64;
    ValueOfDigit(a);
    ValueOfDigit(b);
    ValueOfDigit(c);
    ValueOfDigit(d);
    Recomposed(x, y, z);
    var q := [Digit(a), Digit(b), Digit(c), Digit(d)];
    assert (q + rest)[4..] == rest;
    QuadIn(q + rest);
  }

  lemma Recomposed(x: Byte, y: Byte, z: Byte)
    ensures var a, b, c, d := x / 4, x % 4 * 16 + y / 16, y % 16 * 4 + z / 64, z % 64;
            && a < 64 && b < 64 && c < 64
            && a * 4 + b / 16 == x && b % 16 * 16 + c / 4 == y && c % 4 * 64 + d == z
  {
  }

  lemma {:induction false} QuadsRoundTrip(b: seq<Byte>)
    ensures DecodeQuads(Encode(b)) == Some(b)
  {
    hide DecodeQuads, Digit;
    if |b| == 0 {
      EmptyText();
    } else if |b| == 1 {
      OneByte(b[0]);
      assert b == [b[0]];
    } else if |b| == 2 {
      TwoBytes(b[0], b[1]);
      assert b == [b[0], b[1]];
    } else {
      QuadsRoundTrip(b[3..]);
      ThreeBytes(b[0], b[1], b[2], Encode(b[3..]));
      assert b == [b[0], b[1], b[2]] + b[3..];
    }
  }

  lemma EmptyText()
    ensures DecodeQuads("") == Some([])
  {
  }

  lemma RoundTrip(b: seq<Byte>)
    ensures Decode(Encode(b)) == Some(b)
  {
    EncodeChars(b);
    UnbrokenSame(Encode(b));
    QuadsRoundTrip(b);
  }

  /** A text with any other character in it is not base64. */
  lemma {:induction false} QuadsRejects(s: string, i: nat)
    requires i < |s| && !Encoded(s[i])
    ensures DecodeQuads(s) == None
  {
    if |s| >= 4 && i >= 4 {
      assert s[4..][i - 4] == s[i];
      QuadsRejects(s[4..], i - 4);
    }
  }

  lemma {:induction false} UnbrokenKeeps(s: string, i: nat) returns (j: nat)
    requires i < |s| && s[i] != '\n' && s[i] != '\r'
    ensures j < |Unbroken(s)| && Unbroken(s)[j] == s[i]
  {
    if i == 0 {
      j := 0;
    } else {
      assert s[1..][i - 1] == s[i];
      j := UnbrokenKeeps(s[1..], i - 1);
      if s[0] != '\n' && s[0] != '\r' {
        j := j + 1;
      }
    }
  }

  lemma Rejects(s: string, i: nat)
    requires i < |s| && !Encoded(s[i]) && s[i] != '\n' && s[i] != '\r'
    ensures Decode(s) == None
  {
    var j := UnbrokenKeeps(s, i);
    QuadsRejects(Unbroken(s), j);
  }

  // The code itself: which characters stand for which bits.

  /** The alphabet is A-Z, a-z, 0-9, '+' and '/', in this order. */
  lemma Alphabet(n: nat)
    requires n < 63
    ensures Digit(0) == 'A' && Digit(25) == 'Z' && Digit(26) == 'a' && Digit(51) == 'z'
    ensures Digit(52) == '0' && Digit(61) == '9' && Digit(62) == '+' && Digit(63) == '/'
    ensures n !in {25, 51, 61, 62} ==> Digit(n + 1) as int == Digit(n) as int + 1
    ensures Value(Digit(n)) == Some(n)
  {
  }

  /** Four characters carry the 24 bits of three bytes, the first byte highest. */
  lemma Group(b: seq<Byte>)
    requires |b| >= 3
    ensures var s := Encode(b);
            && |s| >= 4 && s[4..] == Encode(b[3..]) && (forall i | 0 <= i < 4 :: Value(s[i]).Some?)
            && ((Value(s[0]).value * 64 + Value(s[1]).value) * 64 + Value(s[2]).value) * 64 + Value(s[3]).value
               == (b[0] as int * 256 + b[1]) * 256 + b[2]
  {
    hide Digit, Value;
    ValueOfDigit(b[0] / 4);
    ValueOfDigit(b[0] % 4 * 16 + b[1] / 16);
    ValueOfDigit(b[1] % 16 * 4 + b[2] / 64);
    ValueOfDigit(b[2] % 64);
  }

  /** One or two bytes at the end are padded with zero bits, and to four characters with '='. */
  lemma LastGroup(b: seq<Byte>)
    requires 1 <= |b| <= 2
    ensures var s := Encode(b);
            && |s| == 4 && s[3] == '=' && (forall i | 0 <= i <= |b| :: Value(s[i]).Some?)
            && (|b| == 1 ==> s[2] == '=' && Value(s[0]).value * 64 + Value(s[1]).value == b[0] as int * 16)
            && (|b| == 2 ==> (Value(s[0]).value * 64 + Value(s[1]).value) * 64 + Value(s[2]).value
                             == (b[0] as int * 256 + b[1]) * 4)
  {
    hide Digit, Value;
    ValueOfDigit(b[0] / 4);
    if |b| == 1 {
      ValueOfDigit(b[0] % 4 * 16);
    } else {
      ValueOfDigit(b[0] % 4 * 16 + b[1] / 16);
      ValueOfDigit(b[1] % 16 * 4);
    }
  }

  // Which texts are base64, and of what.

  /** The character at `i` may differ from the encoding's in the bits that padding leaves unused: the low 4
      before "==", the low 2 before a single '='. */
  predicate Slack(s: string, t: string, i: nat)
    requires |s| == |t| && i < |t|
  {
    var n := |t|;
    && Value(s[i]).Some? && Value(t[i]).Some?
    && ((i == n - 3 && t[n - 2] == '=' && Value(s[i]).value / 16 == Value(t[i]).value / 16)
        || (i == n - 2 && t[n - 1] == '=' && Value(s[i]).value / 4 == Value(t[i]).value / 4))
  }

  predicate Spells(s: string, b: seq<Byte>) {
    var t := Encode(b);
    |s| == |t| && forall i | 0 <= i < |s| :: s[i] == t[i] || Slack(s, t, i)
  }

  lemma DigitOfValue(c: char)
    ensures Value(c).Some? ==> Digit(Value(c).value) == c && c != '='
  {
  }

  lemma OneIff(s: string, x: Byte)
    ensures DecodeQuads(s) == Some([x]) <==> Spells(s, [x])
  {
    hide Digit, Value;
    var t := Encode([x]);
    ValueOfDigit(x / 4);
    ValueOfDigit(x % 4 * 16);
    if |s| == 4 {
      DigitOfValue(s[0]);
      DigitOfValue(s[1]);
      PadOnly(s[2]);
      PadOnly(s[3]);
    }
  }

  lemma TwoRead(s: string, x: Byte, y: Byte)
    requires DecodeQuads(s) == Some([x, y])
    ensures |s| == 4 && Value(s[0]).Some? && Value(s[1]).Some? && Value(s[2]).Some? && s[3] == '='
    ensures var a, b, c := Value(s[0]).value, Value(s[1]).value, Value(s[2]).value;
            x == a * 4 + b / 16 && y == b % 16 * 16 + c / 4
  {
    hide Value;
    PadOnly('=');
  }

  lemma TwoWritten(s: string, x: Byte, y: Byte)
    requires |s| == 4 && Value(s[0]).Some? && Value(s[1]).Some? && Value(s[2]).Some? && s[3] == '='
    requires var a, b, c := Value(s[0]).value, Value(s[1]).value, Value(s[2]).value;
             x == a * 4 + b / 16 && y == b % 16 * 16 + c / 4
    ensures DecodeQuads(s) == Some([x, y])
  {
    hide Value;
    PadOnly('=');
    assert s[4..] == "";
  }

  lemma TwoIff(s: string, x: Byte, y: Byte)
    ensures DecodeQuads(s) == Some([x, y]) <==> Spells(s, [x, y])
  {
    if DecodeQuads(s) == Some([x, y]) {
      TwoRead(s, x, y);
      TwoSpells(s, x, y);
    }
    if Spells(s, [x, y]) {
      SpellsTwo(s, x, y);
      TwoWritten(s, x, y);
    }
    hide Spells, DecodeQuads;
  }

  lemma TwoSpells(s: string, x: Byte, y: Byte)
    requires |s| == 4 && Value(s[0]).Some? && Value(s[1]).Some? && Value(s[2]).Some? && s[3] == '='
    requires var a, b, c := Value(s[0]).value, Value(s[1]).value, Value(s[2]).value;
             x == a * 4 + b / 16 && y == b % 16 * 16 + c / 4
    ensures Spells(s, [x, y])
  {
    hide Digit, Value;
    DigitOfValue(s[0]);
    DigitOfValue(s[1]);
    ValueOfDigit(y % 16 * 4);
    var a, b, c := Value(s[0]).value, Value(s[1]).value, Value(s[2]).value;
    assert x / 4 == a && x % 4 * 16 + y / 16 == b && y % 16 == c / 4;
  }

  lemma SpellsTwo(s: string, x: Byte, y: Byte)
    requires Spells(s, [x, y])
    ensures |s| == 4 && Value(s[0]).Some? && Value(s[1]).Some? && Value(s[2]).Some? && s[3] == '='
    ensures var a, b, c := Value(s[0]).value, Value(s[1]).value, Value(s[2]).value;
            x == a * 4 + b / 16 && y == b % 16 * 16 + c / 4
  {
    hide Digit, Value;
    ValueOfDigit(x / 4);
    ValueOfDigit(x % 4 * 16 + y / 16);
    ValueOfDigit(y % 16 * 4);
    PadOnly('=');
  }

  /** Taking three bytes apart undoes putting four values together. */
  lemma Apart(x: nat, y: nat, z: nat, a: nat, b: nat, c: nat, d: nat)
    requires a < 64 && b < 64 && c < 64 && d < 64
    requires x == a * 4 + b / 16 && y == b % 16 * 16 + c / 4 && z == c % 4 * 64 + d
    ensures x / 4 == a && x % 4 * 16 + y / 16 == b && y % 16 * 4 + z / 64 == c && z % 64 == d
  {
  }

  /** A result of three bytes or more starts with a quad of four values. */
  lemma QuadOut(s: string)
    requires DecodeQuads(s).Some? && |DecodeQuads(s).value| >= 3
    ensures |s| >= 4 && (forall i | 0 <= i < 4 :: Value(s[i]).Some?) && DecodeQuads(s[4..]).Some?
    ensures var a, b, c, d := Value(s[0]).value, Value(s[1]).value, Value(s[2]).value, Value(s[3]).value;
            DecodeQuads(s).value
            == [a * 4 + b / 16, b % 16 * 16 + c / 4, c % 4 * 64 + d] + DecodeQuads(s[4..]).value
  {
    hide Value;
  }

  lemma EncodeQuad(b: seq<Byte>)
    requires |b| >= 3
    ensures Encode(b) == [Digit(b[0] / 4), Digit(b[0] % 4 * 16 + b[1] / 16), Digit(b[1] % 16 * 4 + b[2] / 64),
                          Digit(b[2] % 64)] + Encode(b[3..])
  {
    hide Digit;
  }

  lemma QuadFirst(s: string, b: seq<Byte>)
    requires |b| >= 3 && DecodeQuads(s) == Some(b)
    ensures |s| >= 4 && s[..4] == Encode(b)[..4] && DecodeQuads(s[4..]) == Some(b[3..])
  {
    hide Digit, Value, DecodeQuads, Encode;
    QuadOut(s);
    FourDigits(s, b);
    assert DecodeQuads(s).value[3..] == DecodeQuads(s[4..]).value;
  }

  lemma FourDigits(s: string, b: seq<Byte>)
    requires |b| >= 3 && |s| >= 4 && forall i | 0 <= i < 4 :: Value(s[i]).Some?
    requires var v := seq(4, i requires 0 <= i < 4 => Value(s[i]).value);
             b[0] == v[0] * 4 + v[1] / 16 && b[1] == v[1] % 16 * 16 + v[2] / 4 && b[2] == v[2] % 4 * 64 + v[3]
    ensures |Encode(b)| >= 4 && s[..4] == Encode(b)[..4]
  {
    EncodeQuad(b);
    hide Digit, Value, Encode;
    Apart(b[0], b[1], b[2], Value(s[0]).value, Value(s[1]).value, Value(s[2]).value, Value(s[3]).value);
    DigitOfValue(s[0]);
    DigitOfValue(s[1]);
    DigitOfValue(s[2]);
    DigitOfValue(s[3]);
  }

  lemma EncodeHead(b: seq<Byte>)
    requires |b| >= 3
    ensures |Encode(b)| >= 4 && Encode(b)[..4] == [Digit(b[0] / 4), Digit(b[0] % 4 * 16 + b[1] / 16),
                                                   Digit(b[1] % 16 * 4 + b[2] / 64), Digit(b[2] % 64)]
  {
    EncodeQuad(b);
    hide Digit, Encode;
  }

  lemma CutFour(s: string)
    requires |s| >= 4
    ensures s == s[..4] + s[4..]
  {
  }

  lemma CutThree(b: seq<Byte>)
    requires |b| >= 3
    ensures b == [b[0], b[1], b[2]] + b[3..]
  {
  }

  lemma QuadBack(s: string, b: seq<Byte>)
    requires |b| >= 3 && |s| >= 4 && |Encode(b)| >= 4
    requires s[..4] == Encode(b)[..4] && DecodeQuads(s[4..]) == Some(b[3..])
    ensures DecodeQuads(s) == Some(b)
  {
    EncodeHead(b);
    hide *;
    ThreeBytes(b[0], b[1], b[2], s[4..]);
    CutFour(s);
    CutThree(b);
    assert DecodeQuads(s[..4] + s[4..]) == Some([b[0], b[1], b[2]] + b[3..]);
  }

  lemma MoreIff(s: string, b: seq<Byte>)
    requires |b| >= 3
    ensures DecodeQuads(s) == Some(b)
            <==> |s| >= 4 && s[..4] == Encode(b)[..4] && DecodeQuads(s[4..]) == Some(b[3..])
  {
    EncodeQuad(b);
    hide DecodeQuads, Encode;
    if DecodeQuads(s) == Some(b) {
      QuadFirst(s, b);
    }
    if |s| >= 4 && s[..4] == Encode(b)[..4] && DecodeQuads(s[4..]) == Some(b[3..]) {
      QuadBack(s, b);
    }
  }

  lemma {:induction false} EncodeLength(b: seq<Byte>)
    ensures |Encode(b)| % 4 == 0 && (|b| > 0 ==> |Encode(b)| >= 4)
  {
    hide Digit;
    if |b| > 2 {
      EncodeLength(b[3..]);
    }
  }

  /** A text without line breaks decodes to `b` exactly if it is the encoding of `b`, unused bits apart. */
  lemma {:induction false} QuadsIff(s: string, b: seq<Byte>)
    ensures DecodeQuads(s) == Some(b) <==> Spells(s, b)
  {
    hide Digit, Value, Spells, DecodeQuads;
    if |b| == 0 {
      NoneIff(s);
    } else if |b| == 1 {
      OneIff(s, b[0]);
      assert b == [b[0]];
    } else if |b| == 2 {
      TwoIff(s, b[0], b[1]);
      assert b == [b[0], b[1]];
    } else {
      MoreIff(s, b);
      SpellsMore(s, b);
      if |s| >= 4 {
        QuadsIff(s[4..], b[3..]);
      }
    }
  }

  lemma NoneIff(s: string)
    ensures DecodeQuads(s) == Some([]) <==> Spells(s, [])
  {
    hide Digit, Value;
  }

  /** Unused bits are only in the last four characters, behind which comes padding. */
  lemma SlackMore(s: string, b: seq<Byte>, i: nat)
    requires |b| >= 3 && |s| == |Encode(b)| && i < |s|
    ensures i < 4 ==> !Slack(s, Encode(b), i)
    ensures i >= 4 ==> (Slack(s, Encode(b), i) <==> Slack(s[4..], Encode(b[3..]), i - 4))
  {
    hide Digit, Value;
    EncodeLength(b[3..]);
    ValueOfDigit(b[1] % 16 * 4 + b[2] / 64);
    ValueOfDigit(b[2] % 64);
    assert Encode(b)[4..] == Encode(b[3..]);
    PadOnly(Encode(b)[2]);
    PadOnly(Encode(b)[3]);
  }

  lemma SpellsMore(s: string, b: seq<Byte>)
    requires |b| >= 3
    ensures Spells(s, b) <==> |s| >= 4 && s[..4] == Encode(b)[..4] && Spells(s[4..], b[3..])
  {
    hide Slack;
    EncodeQuad(b);
    hide Encode;
    var t, u := Encode(b), Encode(b[3..]);
    if |s| == |t| {
      forall i: nat | i < |s|
        ensures (s[i] == t[i] || Slack(s, t, i))
                <==> if i < 4 then s[i] == t[i] else s[4..][i - 4] == u[i - 4] || Slack(s[4..], u, i - 4)
      {
        SlackMore(s, b, i);
      }
      forall i: nat | i < |s| - 4 && Spells(s, b) ensures s[4..][i] == u[i] || Slack(s[4..], u, i) {
        assert s[i + 4] == t[i + 4] || Slack(s, t, i + 4);
      }
      if s[..4] == t[..4] {
        forall i: nat | i < 4 ensures s[i] == t[i] {
          assert s[..4][i] == t[..4][i];
        }
      }
    }
  }

  // Line breaks

  lemma {:induction false} UnbrokenJoins(s: string, t: string)
    ensures Unbroken(s + t) == Unbroken(s) + Unbroken(t)
  {
    if s == "" {
      assert s + t == t;
    } else {
      assert (s + t)[1..] == s[1..] + t;
      UnbrokenJoins(s[1..], t);
    }
  }

  /** A line break anywhere makes no difference. */
  lemma BreaksSkipped(s: string, t: string, c: char)
    requires c == '\n' || c == '\r'
    ensures Decode(s + [c] + t) == Decode(s + t)
  {
    UnbrokenJoins(s + [c], t);
    UnbrokenJoins(s, [c]);
    UnbrokenJoins(s, t);
    assert [c][1..] == "" && Unbroken(s) + "" == Unbroken(s);
  }

  /** Without line breaks: the exact reading. */
  lemma DecodeIff(s: string, b: seq<Byte>)
    requires '\n' !in s && '\r' !in s
    ensures Decode(s) == Some(b) <==> Spells(s, b)
  {
    UnbrokenWhole(s);
    QuadsIff(s, b);
  }

  lemma {:induction false} UnbrokenWhole(s: string)
    requires '\n' !in s && '\r' !in s
    ensures Unbroken(s) == s
  {
    if s != "" {
      UnbrokenWhole(s[1..]);
      assert s == [s[0]] + s[1..];
    }
  }
}
