/**
 * application/x-www-form-urlencoded decoding of the contact-form text, as
 * java.net.URLDecoder does it: '+' stands for a space, and '%' followed by two
 * hexadecimal digits stands for one octet (the percent-encoding of section 2.1
 * of RFC 3986); a '%' that is not followed by two hexadecimal digits makes the
 * whole decode fail. Decoding undoes Encode on ASCII text; there Encode is
 * what java.net.URLEncoder produces with UTF-8, and this decoder and the
 * JDK's agree.
 */
module FormUrlDecoding {
  import opened Wrappers

  predicate IsHexDigit(c: char)
  {
    '0' <= c <= '9' || 'a' <= c <= 'f' || 'A' <= c <= 'F'
  }

  /** The value of a hexadecimal digit, either case. */
  function HexValue(c: char): (v: nat)
    requires IsHexDigit(c)
    ensures v < 16
  {
    if '0' <= c <= '9' then c as int - '0' as int
    else if 'a' <= c <= 'f' then c as int - 'a' as int + 10
    else c as int - 'A' as int + 10
  }

  /** The upper-case digit for a value below 16; HexValue reads it back. */
  function HexDigit(v: nat): (c: char)
    requires v < 16
    ensures IsHexDigit(c) && HexValue(c) == v
    ensures c != '%' && c != '+'
  {
    if v < 10 then ('0' as int + v) as char else ('A' as int + v - 10) as char
  }

  /** c in front of a successful decode; a failure stays a failure. */
  function Cons(c: char, rest: Option<string>): Option<string>
  {
    match rest
    case None => None
    case Some(t) => Some([c] + t)
  }

  /**
   * Every '%' opens a complete escape: two hexadecimal digits follow it.
   * (A hexadecimal digit is never '%', so no '%' can hide inside an escape.)
   */
  ghost predicate WellFormed(s: string)
  {
    forall i :: 0 <= i < |s| && s[i] == '%' ==> i + 2 < |s| && IsHexDigit(s[i + 1]) && IsHexDigit(s[i + 2])
  }

  /** URLDecoder.decode: None is the IllegalArgumentException for a malformed escape. */
  function Decode(s: string): (r: Option<string>)
    ensures r.Some? ==> |r.value| <= |s|
    decreases |s|
  {
    if s == [] then Some([])
    else if s[0] == '+' then Cons(' ', Decode(s[1..]))
    else if s[0] == '%' then
      if |s| >= 3 && IsHexDigit(s[1]) && IsHexDigit(s[2])
      then Cons((16 * HexValue(s[1]) + HexValue(s[2])) as char, Decode(s[3..]))
      else None
    else Cons(s[0], Decode(s[1..]))
  }

  /** Decoding fails exactly when some '%' does not open a complete escape. */
  lemma {:induction false} DecodeSucceedsIff(s: string)
    ensures Decode(s).Some? <==> WellFormed(s)
    decreases |s|
  {
    if s == [] {
    } else if s[0] == '%' && |s| >= 3 && IsHexDigit(s[1]) && IsHexDigit(s[2]) {
      DecodeSucceedsIff(s[3..]);
      WellFormedAfter(s, 3);
    } else if s[0] == '%' {
      assert !WellFormed(s) by {
        assert s[0] == '%';
      }
    } else {
      DecodeSucceedsIff(s[1..]);
      WellFormedAfter(s, 1);
    }
  }

  /** Dropping a prefix that holds no '%' before position k keeps well-formedness in both directions. */
  lemma WellFormedAfter(s: string, k: nat)
    requires 0 < k <= |s|
    requires forall i :: 0 <= i < k ==> s[i] != '%' || (i == 0 && k == 3 && |s| >= 3 && IsHexDigit(s[1]) && IsHexDigit(s[2]))
    ensures WellFormed(s) <==> WellFormed(s[k..])
  {
    if WellFormed(s) {
      forall i | 0 <= i < |s[k..]| && s[k..][i] == '%'
        ensures i + 2 < |s[k..]| && IsHexDigit(s[k..][i + 1]) && IsHexDigit(s[k..][i + 2])
      {
        assert s[k + i] == '%';
      }
    }
    if WellFormed(s[k..]) {
      forall i | 0 <= i < |s| && s[i] == '%'
        ensures i + 2 < |s| && IsHexDigit(s[i + 1]) && IsHexDigit(s[i + 2])
      {
        if i >= k {
          assert s[k..][i - k] == '%';
        }
      }
    }
  }

  /** Text without '%' and '+' decodes to itself. */
  lemma {:induction false} DecodePlainText(s: string)
    requires forall i :: 0 <= i < |s| ==> s[i] != '%' && s[i] != '+'
    ensures Decode(s) == Some(s)
    decreases |s|
  {
    if s != [] {
      DecodePlainText(s[1..]);
      assert s == [s[0]] + s[1..];
    }
  }

  /** An escape "%XY" in front of more text decodes to the octet XY in front of the rest's decoding. */
  lemma DecodeEscape(hi: char, lo: char, t: string)
    requires IsHexDigit(hi) && IsHexDigit(lo)
    ensures Decode(['%', hi, lo] + t) == Cons((16 * HexValue(hi) + HexValue(lo)) as char, Decode(t))
  {
    assert (['%', hi, lo] + t)[3..] == t;
  }

  /** Text without '%' and '+' in front of more text decodes to itself in front of the rest's decoding. */
  lemma {:induction false} DecodePlainPrefix(a: string, b: string)
    requires forall i :: 0 <= i < |a| ==> a[i] != '%' && a[i] != '+'
    ensures Decode(a + b) == match Decode(b) case None => None case Some(t) => Some(a + t)
    decreases |a|
  {
    if a != [] {
      assert (a + b)[0] == a[0] && (a + b)[1..] == a[1..] + b;
      assert forall i :: 0 <= i < |a[1..]| ==> a[1..][i] == a[i + 1];
      DecodePlainPrefix(a[1..], b);
      match Decode(b)
      case None =>
      case Some(t) =>
        assert a + t == [a[0]] + (a[1..] + t);
    } else {
      assert a + b == b;
      match Decode(b)
      case None =>
      case Some(t) =>
        assert a + t == t;
    }
  }

  /** The characters URLEncoder leaves as they are. */
  predicate IsUnreserved(c: char)
  {
    'a' <= c <= 'z' || 'A' <= c <= 'Z' || '0' <= c <= '9' || c == '.' || c == '-' || c == '*' || c == '_'
  }

  /** ASCII text: every character is below 0x80, so its UTF-8 form is that one octet. */
  predicate Ascii(s: string)
  {
    forall i :: 0 <= i < |s| ==> s[i] as int < 128
  }

  /** One character encoded: '+' for a space, itself when unreserved, '%XY' otherwise. */
  function EncodeChar(c: char): (e: string)
    requires c as int < 128
    ensures 1 <= |e| <= 3
  {
    if c == ' ' then "+"
    else if IsUnreserved(c) then [c]
    else ['%', HexDigit(c as int / 16), HexDigit(c as int % 16)]
  }

  /** URLEncoder.encode of ASCII text. */
  function Encode(s: string): (e: string)
    requires Ascii(s)
    ensures |s| <= |e| <= 3 * |s|
  {
    if s == [] then [] else EncodeChar(s[0]) + Encode(s[1..])
  }

  /** Decoding one encoded character in front of more text yields that character in front of the rest's decoding. */
  lemma DecodeEncodeChar(c: char, t: string)
    requires c as int < 128
    ensures Decode(EncodeChar(c) + t) == Cons(c, Decode(t))
  {
    var e := EncodeChar(c) + t;
    if c == ' ' {
      assert e[1..] == t;
    } else if IsUnreserved(c) {
      assert e[1..] == t;
    } else {
      var hi, lo := HexDigit(c as int / 16), HexDigit(c as int % 16);
      assert e[0] == '%' && e[1] == hi && e[2] == lo && e[3..] == t;
      assert 16 * HexValue(hi) + HexValue(lo) == c as int;
    }
  }

  /** Round trip: decoding what the encoder produced gives back the original text. */
  lemma {:induction false} DecodeEncode(s: string)
    requires Ascii(s)
    ensures Decode(Encode(s)) == Some(s)
  {
    if s != [] {
      assert Ascii(s[1..]) by {
        forall i | 0 <= i < |s[1..]| ensures s[1..][i] as int < 128 {
          assert s[1..][i] == s[i + 1];
        }
      }
      DecodeEncodeChar(s[0], Encode(s[1..]));
      DecodeEncode(s[1..]);
      assert s == [s[0]] + s[1..];
    }
  }

  /** The encoder's output is always accepted by the decoder. */
  lemma EncodeWellFormed(s: string)
    requires Ascii(s)
    ensures WellFormed(Encode(s))
  {
    DecodeEncode(s);
    DecodeSucceedsIff(Encode(s));
  }
}
