/** Percent-encoding as Common/src/common.cc does it: the unreserved characters of section 2.3 of
    RFC 3986 stay, a space becomes '+' as in the application/x-www-form-urlencoded format, every
    other byte becomes '%' and two upper-case hexadecimal digits. Strings are sequences of bytes. */
module UrlCodec {
  import opened Bytes

  const SPACE: byte := 32
  const PERCENT: byte := 37
  const AMPERSAND: byte := 38
  const PLUS: byte := 43
  const EQUALS: byte := 61
  const QUESTION: byte := 63

  /** Character c is the digit of value v: '0' to '9', then 'A' on, or 'a' on. */
  predicate IsUpperDigit(c: byte, v: int) { (0 <= v < 10 && c - 48 == v) || (10 <= v < 36 && c - 65 == v - 10) }

  predicate IsLowerDigit(c: byte, v: int) { (0 <= v < 10 && c - 48 == v) || (10 <= v < 36 && c - 97 == v - 10) }

  predicate IsDigit(x: byte) { 48 <= x <= 57 }

  predicate IsUpper(x: byte) { 65 <= x <= 90 }

  predicate IsLower(x: byte) { 97 <= x <= 122 }

  /** isalnum in the "C" locale. */
  predicate IsAlnum(x: byte) { IsDigit(x) || IsUpper(x) || IsLower(x) }

  predicate IsUnreserved(x: byte) { IsAlnum(x) || x == 45 || x == 95 || x == 46 || x == 126 }

  /** ToHex on a half byte. */
  function ToHex(x: byte): (h: byte)
    requires x < 16
    ensures IsUpperDigit(h, x)
    ensures (IsDigit(h) || IsUpper(h)) && FromHex(h) == x
  {
    if x > 9 then x + 55 else x + 48
  }

  predicate IsHexDigit(x: byte) { IsDigit(x) || 65 <= x <= 70 || 97 <= x <= 102 }

  /** FromHex takes every ASCII letter, also those after F; it aborts on anything else. */
  function FromHex(x: byte): (v: byte)
    requires IsAlnum(x)
    ensures v < 36 && (IsUpperDigit(x, v) || IsLowerDigit(x, v))
    ensures v < 16 <==> IsHexDigit(x)
  {
    if IsUpper(x) then x - 65 + 10 else if IsLower(x) then x - 97 + 10 else x - 48
  }

  function EncodeByte(x: byte): seq<byte> {
    if IsUnreserved(x) then [x]
    else if x == SPACE then [PLUS]
    else [PERCENT, ToHex(x / 16), ToHex(x % 16)]
  }

  function Encoded(s: seq<byte>): seq<byte> {
    if s == [] then [] else EncodeByte(s[0]) + Encoded(s[1..])
  }

  /** The result of UrlDecode: a string, or a failed assertion. */
  datatype Decoded = Abort | Text(s: seq<byte>)

  predicate StartsEscape(t: seq<byte>) {
    |t| >= 3 && t[0] == PERCENT && IsAlnum(t[1]) && IsAlnum(t[2])
  }

  /** The byte of an escape; the sum wraps around in a char. */
  function EscapedByte(high: byte, low: byte): byte
    requires IsAlnum(high) && IsAlnum(low)
  {
    var h: int := FromHex(high);
    (h * 16 + FromHex(low)) % 256
  }

  function Prepend(x: byte, d: Decoded): Decoded {
    if d.Abort? then Abort else Text([x] + d.s)
  }

  function Decode(t: seq<byte>): Decoded {
    if t == [] then Text([])
    else if t[0] == PLUS then Prepend(SPACE, Decode(t[1..]))
    else if t[0] != PERCENT then Prepend(t[0], Decode(t[1..]))
    else if StartsEscape(t) then Prepend(EscapedByte(t[1], t[2]), Decode(t[3..]))
    else Abort
  }

  // ----- the properties -----

  lemma DecodeOneByte(x: byte, rest: seq<byte>)
    ensures Decode(EncodeByte(x) + rest) == Prepend(x, Decode(rest))
  {
    var t := EncodeByte(x) + rest;
    if IsUnreserved(x) || x == SPACE {
      assert t[1..] == rest;
    } else {
      assert t[3..] == rest;
      assert EscapedByte(ToHex(x / 16), ToHex(x % 16)) == x;
    }
  }

  /** Decoding undoes encoding, for all bytes. */
  lemma {:induction false} DecodeInvertsEncode(s: seq<byte>)
    ensures Decode(Encoded(s)) == Text(s)
  {
    if s != [] {
      DecodeInvertsEncode(s[1..]);
      DecodeOneByte(s[0], Encoded(s[1..]));
    }
  }

  lemma EncodingIsInjective(a: seq<byte>, b: seq<byte>)
    requires Encoded(a) == Encoded(b)
    ensures a == b
  {
    DecodeInvertsEncode(a);
    DecodeInvertsEncode(b);
  }

  /** Encoded text holds unreserved characters, '+' and '%' only: no '&', '=' or '?'. */
  lemma {:induction false} EncodedIsClean(s: seq<byte>)
    ensures forall x :: x in Encoded(s) ==> IsUnreserved(x) || x == PLUS || x == PERCENT
    ensures AMPERSAND !in Encoded(s) && EQUALS !in Encoded(s) && QUESTION !in Encoded(s)
  {
    if s != [] {
      EncodedIsClean(s[1..]);
    }
  }

  // ----- which bytes stand for which -----

  /** `done` followed by what a rest decodes to. */
  function Joined(done: seq<byte>, rest: Decoded): Decoded {
    if rest.Abort? then Abort else Text(done + rest.s)
  }

  /** What a single byte is encoded as: letters, digits and "-_.~" as themselves, a space as '+', all others
      as '%' and the two upper-case digits of their value. */
  lemma EncodedByteIs(x: byte)
    ensures var e, plain := Encoded([x]), 48 <= x <= 57 || 65 <= x <= 90 || 97 <= x <= 122 || x in {45, 95, 46, 126};
            && (plain ==> e == [x]) && (x == 32 ==> e == [43])
            && (!plain && x != 32 ==> |e| == 3 && e[0] == 37 && IsUpperDigit(e[1], x / 16) && IsUpperDigit(e[2], x % 16))
  {
    assert Encoded([x]) == EncodeByte(x) + Encoded([]);
  }

  /** The bytes are encoded one by one. */
  lemma {:induction false} EncodedConcat(a: seq<byte>, b: seq<byte>)
    ensures Encoded(a + b) == Encoded(a) + Encoded(b)
  {
    if a == [] {
      assert a + b == b;
    } else {
      assert (a + b)[1..] == a[1..] + b;
      EncodedConcat(a[1..], b);
    }
  }

  /** A text without '%' stands for itself, with spaces for the '+'. */
  function Spaced(t: seq<byte>): seq<byte> {
    seq(|t|, i requires 0 <= i < |t| => if t[i] == 43 then 32 else t[i])
  }

  lemma SpacedOneMore(t: seq<byte>, d: Decoded)
    requires t != []
    ensures Joined(Spaced(t), d) == Prepend(if t[0] == 43 then 32 else t[0], Joined(Spaced(t[1..]), d))
  {
    assert Spaced(t) == [if t[0] == 43 then 32 else t[0]] + Spaced(t[1..]);
    if d.Text? {
      assert Spaced(t) + d.s == [if t[0] == 43 then 32 else t[0]] + (Spaced(t[1..]) + d.s);
    }
  }

  lemma PlainByteThenRest(x: byte, rest: seq<byte>)
    requires x != 37
    ensures Decode([x] + rest) == Prepend(if x == 43 then 32 else x, Decode(rest))
  {
    assert ([x] + rest)[1..] == rest;
  }

  /** A text in front that has no escapes does not change how the rest is decoded. */
  lemma {:induction false} PlainThenRest(t: seq<byte>, rest: seq<byte>)
    requires 37 !in t
    ensures Decode(t + rest) == Joined(Spaced(t), Decode(rest))
  {
    if t == [] {
      assert t + rest == rest && Spaced(t) == [];
      assert Decode(rest).Text? ==> Spaced(t) + Decode(rest).s == Decode(rest).s;
    } else {
      assert t + rest == [t[0]] + (t[1..] + rest);
      PlainByteThenRest(t[0], t[1..] + rest);
      PlainThenRest(t[1..], rest);
      SpacedOneMore(t, Decode(rest));
    }
  }

  /** Each of the two characters of an escape is the digit of its value, in either case; values above 15
      and sums above 255 occur too and wrap around. */
  lemma EscapeThenRest(h: byte, l: byte, hv: nat, lv: nat, rest: seq<byte>)
    requires IsUpperDigit(h, hv) || IsLowerDigit(h, hv)
    requires IsUpperDigit(l, lv) || IsLowerDigit(l, lv)
    ensures Decode([37, h, l] + rest) == Joined([(16 * hv + lv) % 256], Decode(rest))
  {
    var t := [PERCENT, h, l] + rest;
    assert t[3..] == rest;
  }

  /** The '%' at position i is not followed by two letters or digits. */
  predicate BadEscapeAt(t: seq<byte>, i: nat) {
    i < |t| && t[i] == PERCENT && !StartsEscape(t[i..])
  }

  lemma BadEscapeShifts(t: seq<byte>, n: nat, i: nat)
    requires n + i <= |t|
    ensures BadEscapeAt(t[n..], i) == BadEscapeAt(t, n + i)
  {
    assert t[n..][i..] == t[n + i..];
  }

  lemma {:induction false} AbortHasBadEscape(t: seq<byte>) returns (i: nat)
    requires Decode(t) == Abort
    ensures BadEscapeAt(t, i)
  {
    if t[0] == PERCENT && !StartsEscape(t) {
      assert t[0..] == t;
      i := 0;
    } else {
      var n := if StartsEscape(t) then 3 else 1;
      var j := AbortHasBadEscape(t[n..]);
      BadEscapeShifts(t, n, j);
      i := n + j;
    }
  }

  lemma {:induction false} BadEscapeAborts(t: seq<byte>, i: nat)
    requires BadEscapeAt(t, i)
    ensures Decode(t) == Abort
  {
    if StartsEscape(t) {
      assert t[0..] == t && t[i] != t[1] && t[i] != t[2];
      BadEscapeShifts(t, 3, i - 3);
      BadEscapeAborts(t[3..], i - 3);
    } else if t[0] != PERCENT {
      BadEscapeShifts(t, 1, i - 1);
      BadEscapeAborts(t[1..], i - 1);
    }
  }

  /** UrlDecode aborts exactly when some '%' is not followed by two letters or digits. */
  lemma AbortsIff(t: seq<byte>)
    ensures Decode(t) == Abort <==> exists i: nat :: BadEscapeAt(t, i)
  {
    if Decode(t) == Abort {
      var i := AbortHasBadEscape(t);
    } else if i: nat :| BadEscapeAt(t, i) {
      BadEscapeAborts(t, i);
    }
  }

  // ----- the loops -----

  lemma EncodedSnoc(s: seq<byte>, n: nat)
    requires n < |s|
    ensures Encoded(s[..n + 1]) == Encoded(s[..n]) + EncodeByte(s[n])
    decreases n
  {
    if n == 0 {
      assert s[..1] == [s[0]] && s[..0] == [];
      assert Encoded(s[..1]) == EncodeByte(s[0]) + Encoded(s[..1][1..]);
    } else {
      assert s[..n + 1][1..] == s[1..][..n] && s[..n][1..] == s[1..][..n - 1];
      EncodedSnoc(s[1..], n - 1);
    }
  }

  method UrlEncode(str: seq<byte>) returns (strTemp: seq<byte>)
    ensures strTemp == Encoded(str)
  {
    strTemp := [];
    for i := 0 to |str|
      invariant strTemp == Encoded(str[..i])
    {
      EncodedSnoc(str, i);
      if IsAlnum(str[i]) || str[i] == 45 || str[i] == 95 || str[i] == 46 || str[i] == 126 {
        strTemp := strTemp + [str[i]];
      } else if str[i] == SPACE {
        strTemp := strTemp + [PLUS];
      } else {
        strTemp := strTemp + [PERCENT];
        strTemp := strTemp + [ToHex(str[i] / 16)];
        strTemp := strTemp + [ToHex(str[i] % 16)];
      }
    }
    assert str[..|str|] == str;
  }

  /** One turn of the loop: the text t decodes to x and what follows its first n bytes. */
  lemma JoinOne(done: seq<byte>, t: seq<byte>, x: byte, n: nat)
    requires n <= |t| && Decode(t) == Prepend(x, Decode(t[n..]))
    ensures Joined(done, Decode(t)) == Joined(done + [x], Decode(t[n..]))
  {
    if Decode(t[n..]).Text? {
      assert done + ([x] + Decode(t[n..]).s) == done + [x] + Decode(t[n..]).s;
    }
  }

  method UrlDecode(str: seq<byte>) returns (result: Decoded)
    ensures result == Decode(str)
  {
    var strTemp: seq<byte> := [];
    var i := 0;
    while i < |str|
      invariant 0 <= i <= |str|
      invariant Decode(str) == Joined(strTemp, Decode(str[i..]))
    {
      ghost var t, n := str[i..], 1;
      var x: byte;
      if str[i] == PLUS {
        x := SPACE;
      } else if str[i] == PERCENT {
        if i + 2 >= |str| || !IsAlnum(str[i + 1]) || !IsAlnum(str[i + 2]) {
          return Abort;
        }
        var high: int := FromHex(str[i + 1]);
        var low: int := FromHex(str[i + 2]);
        x := (high * 16 + low) % 256;
        i, n := i + 2, 3;
      } else {
        x := str[i];
      }
      JoinOne(strTemp, t, x, n);
      strTemp := strTemp + [x];
      i := i + 1;
      assert t[n..] == str[i..];
    }
    result := Text(strTemp);
  }
}
