/** The hexadecimal codec of Utils.cpp: `hex_str_to_uint8` turns an even-length
    string of hex digits (either case) into bytes, the even position giving the
    high nibble; `uint8_to_hex_string` writes each byte as two zero-padded
    lower-case digits. C strings are modelled as the characters before their
    terminator, and a C NULL string as `None`. */
module Hex {
  import opened Text

  newtype uint8 = x: int | 0 <= x < 256

  /** The digit classification of the decoder loop: decimal digits, then
      upper-case, then lower-case letters A to F; anything else is rejected. */
  function NibbleOf(c: char): (r: Option<nat>)
    ensures r.Some? ==> r.value < 16
  {
    if '0' <= c <= '9' then Some(c as int - '0' as int)
    else if 'A' <= c <= 'F' then Some(10 + (c as int - 'A' as int))
    else if 'a' <= c <= 'f' then Some(10 + (c as int - 'a' as int))
    else None
  }

  predicate IsHexDigit(c: char) {
    NibbleOf(c).Some?
  }

  function Nibble(c: char): nat
    requires IsHexDigit(c)
  {
    NibbleOf(c).value
  }

  /** The digit `std::hex` prints for a value below 16 (lower case). */
  function HexDigit(n: nat): (c: char)
    requires n < 16
    ensures IsHexDigit(c) && Nibble(c) == n
    ensures !('A' <= c <= 'F')
  {
    "0123456789abcdef"[n]
  }

  /** One byte as `std::setw(2)` with fill '0' prints it in hex. */
  function ByteToHex(b: uint8): (r: string)
    ensures |r| == 2 && IsHexDigit(r[0]) && IsHexDigit(r[1])
    ensures 16 * Nibble(r[0]) + Nibble(r[1]) == b as int
  {
    [HexDigit(b as int / 16), HexDigit(b as int % 16)]
  }

  /** The string `uint8_to_hex_string` builds, one byte after the other. */
  function Encode(b: seq<uint8>): (r: string)
    ensures |r| == 2 * |b|
    ensures forall i :: 0 <= i < |b| ==>
      r[2 * i] == HexDigit(b[i] as int / 16) && r[2 * i + 1] == HexDigit(b[i] as int % 16)
  {
    if b == [] then [] else Encode(b[..|b| - 1]) + ByteToHex(b[|b| - 1])
  }

  /** The bytes `hex_str_to_uint8` produces, or None where it returns NULL:
      a string of odd length, or one holding a character that is not a hex digit. */
  function Decode(s: string): (r: Option<seq<uint8>>)
    ensures |s| % 2 == 1 ==> r.None?
    ensures r.Some? ==> 2 * |r.value| == |s|
  {
    if s == [] then Some([])
    else if |s| == 1 then None
    else if !IsHexDigit(s[0]) || !IsHexDigit(s[1]) then None
    else match Decode(s[2..])
      case None => None
      case Some(t) => Some([(16 * Nibble(s[0]) + Nibble(s[1])) as uint8] + t)
  }

  /** The byte at index `k` of a decoded string: high nibble first. */
  function PairValue(s: string, k: nat): (b: uint8)
    requires 2 * k + 1 < |s| && IsHexDigit(s[2 * k]) && IsHexDigit(s[2 * k + 1])
    ensures b as int == 16 * Nibble(s[2 * k]) + Nibble(s[2 * k + 1])
  {
    (16 * Nibble(s[2 * k]) + Nibble(s[2 * k + 1])) as uint8
  }

  predicate AllHexDigits(s: string) {
    forall i :: 0 <= i < |s| ==> IsHexDigit(s[i])
  }

  /** Decoding fails exactly on odd lengths and on non-hex characters; when it
      succeeds the result has half as many bytes as the string has characters,
      and byte k is 16 * value(s[2k]) + value(s[2k+1]). */
  lemma {:induction false} DecodeSpec(s: string)
    ensures Decode(s).Some? <==> |s| % 2 == 0 && AllHexDigits(s)
    ensures Decode(s).Some? ==>
      |Decode(s).value| == |s| / 2 &&
      forall k :: 0 <= k < |s| / 2 ==> Decode(s).value[k] == PairValue(s, k)
    decreases |s|
  {
    if |s| >= 2 {
      DecodeSpec(s[2..]);
      if IsHexDigit(s[0]) && IsHexDigit(s[1]) && Decode(s[2..]).Some? {
        var t := Decode(s[2..]).value;
        forall k | 0 <= k < |s| / 2
          ensures Decode(s).value[k] == PairValue(s, k)
        {
          if k > 0 {
            assert Decode(s).value[k] == t[k - 1] == PairValue(s[2..], k - 1);
            assert s[2..][2 * (k - 1)] == s[2 * k] && s[2..][2 * (k - 1) + 1] == s[2 * k + 1];
          }
        }
      }
      if |s| % 2 == 0 && AllHexDigits(s) {
        assert AllHexDigits(s[2..]) by {
          forall i | 0 <= i < |s| - 2 ensures IsHexDigit(s[2..][i]) { assert s[2..][i] == s[i + 2]; }
        }
      }
      if Decode(s).Some? {
        forall i | 0 <= i < |s| ensures IsHexDigit(s[i]) {
          if i >= 2 { assert s[i] == s[2..][i - 2]; }
        }
      }
    }
  }

  /** Upper- and lower-case letters A to F denote the same nibble. */
  function ToLowerHex(c: char): char {
    if 'A' <= c <= 'F' then (c as int - 'A' as int + 'a' as int) as char else c
  }

  function LowerHex(s: string): (r: string)
    ensures |r| == |s| && forall i :: 0 <= i < |s| ==> r[i] == ToLowerHex(s[i])
  {
    seq(|s|, i requires 0 <= i < |s| => ToLowerHex(s[i]))
  }

  lemma NibbleIgnoresCase(c: char)
    ensures NibbleOf(ToLowerHex(c)) == NibbleOf(c)
  {
  }

  /** The decoder does not distinguish the case of the letters it reads. */
  lemma {:induction false} DecodeIgnoresCase(s: string)
    ensures Decode(LowerHex(s)) == Decode(s)
    decreases |s|
  {
    if |s| >= 2 {
      NibbleIgnoresCase(s[0]);
      NibbleIgnoresCase(s[1]);
      assert LowerHex(s)[2..] == LowerHex(s[2..]);
      DecodeIgnoresCase(s[2..]);
    }
  }

  /** Round trip: decoding the encoder's output gives back the bytes. */
  lemma DecodeEncode(b: seq<uint8>)
    ensures Decode(Encode(b)) == Some(b)
  {
    var s := Encode(b);
    EncodeDigits(b);
    DecodeSpec(s);
    var d := Decode(s).value;
    forall k | 0 <= k < |b| ensures d[k] == b[k] {
      assert d[k] == PairValue(s, k);
      assert s[2 * k] == HexDigit(b[k] as int / 16) && s[2 * k + 1] == HexDigit(b[k] as int % 16);
    }
    assert d == b;
  }

  /** The encoder writes hex digits only. */
  lemma EncodeDigits(b: seq<uint8>)
    ensures AllHexDigits(Encode(b))
  {
    var s := Encode(b);
    forall i | 0 <= i < |s| ensures IsHexDigit(s[i]) {
      var k := i / 2;
      if i == 2 * k {
        assert s[2 * k] == HexDigit(b[k] as int / 16);
      } else {
        assert i == 2 * k + 1;
        assert s[2 * k + 1] == HexDigit(b[k] as int % 16);
      }
    }
  }

  lemma SplitByte(h: nat, l: nat)
    requires h < 16 && l < 16
    ensures (16 * h + l) / 16 == h && (16 * h + l) % 16 == l
  {
  }

  /** The two digits the encoder writes for decoded byte `k`. */
  lemma EncodeDecodeAt(s: string, b: seq<uint8>, k: nat)
    requires |s| % 2 == 0 && AllHexDigits(s) && |b| == |s| / 2 && k < |b|
    requires b[k] == PairValue(s, k)
    ensures HexDigit(b[k] as int / 16) == ToLowerHex(s[2 * k])
    ensures HexDigit(b[k] as int % 16) == ToLowerHex(s[2 * k + 1])
  {
    var hi, lo := s[2 * k], s[2 * k + 1];
    SplitByte(Nibble(hi), Nibble(lo));
    HexDigitOfNibble(hi);
    HexDigitOfNibble(lo);
  }

  /** The other direction: re-encoding decoded bytes yields the input with its
      letters in lower case, the encoder's canonical spelling. */
  lemma EncodeDecode(s: string)
    requires Decode(s).Some?
    ensures Encode(Decode(s).value) == LowerHex(s)
  {
    DecodeSpec(s);
    var b := Decode(s).value;
    var e, l := Encode(b), LowerHex(s);
    forall k | 0 <= k < |s| / 2
      ensures e[2 * k] == l[2 * k] && e[2 * k + 1] == l[2 * k + 1]
    {
      EncodeDecodeAt(s, b, k);
    }
    PairwiseEqual(e, l);
  }

  /** Two strings of even length that agree on every pair of characters. */
  lemma PairwiseEqual(x: string, y: string)
    requires |x| == |y| && |x| % 2 == 0
    requires forall k :: 0 <= k < |x| / 2 ==> x[2 * k] == y[2 * k] && x[2 * k + 1] == y[2 * k + 1]
    ensures x == y
  {
    forall i | 0 <= i < |x| ensures x[i] == y[i] {
      var k := i / 2;
      assert i == 2 * k || i == 2 * k + 1;
    }
  }

  /** The digit printed for a character's value is that character in lower case. */
  lemma HexDigitOfNibble(c: char)
    requires IsHexDigit(c)
    ensures HexDigit(Nibble(c)) == ToLowerHex(c)
  {
  }

  /** `hex_str_to_uint8`: a zeroed array of `len/2` bytes filled character by
      character, adding each nibble shifted into place; NULL for a NULL string,
      an odd length or a character that is not a hex digit. A C string holds
      no NUL before its terminator. */
  method HexStrToUint8(str: Option<string>) returns (r: Option<array<uint8>>)
    ensures str.None? ==> r.None?
    requires str.Some? ==> NUL !in str.value
    ensures str.Some? ==> (r.Some? <==> Decode(str.value).Some?)
    ensures r.Some? ==> r.value[..] == Decode(str.value).value
  {
    if str.None? {
      return None;
    }
    var s := str.value;
    var slength := |s|;
    if slength % 2 != 0 {
      DecodeSpec(s);
      return None;
    }
    var dlength := slength / 2;
    var data := new uint8[dlength](_ => 0);
    var index := 0;
    while index < slength
      invariant 0 <= index <= slength
      invariant forall k :: 0 <= k < index ==> IsHexDigit(s[k])
      invariant forall k :: 0 <= k < index / 2 ==> data[k] == PairValue(s, k)
      invariant index % 2 == 1 ==> data[index / 2] as int == 16 * Nibble(s[index - 1])
      invariant forall k :: (index + 1) / 2 <= k < dlength ==> data[k] == 0
    {
      var c := s[index];
      var value;
      match NibbleOf(c) {
        case None =>
          DecodeSpec(s);
          return None;
        case Some(v) =>
          value := v;
      }
      var shift := ((index + 1) % 2) * 4;
      data[index / 2] := data[index / 2] + (value * (if shift == 4 then 16 else 1)) as uint8;
      index := index + 1;
    }
    DecodeSpec(s);
    return Some(data);
  }

  /** `uint8_to_hex_string`: the first `n` bytes of `v`, each appended as two
      lower-case, zero-padded hex digits. */
  method Uint8ToHexString(v: array<uint8>, n: nat) returns (r: string)
    requires n <= v.Length
    ensures r == Encode(v[..n])
  {
    r := [];
    for i := 0 to n
      invariant r == Encode(v[..i])
    {
      assert v[..i + 1][..i] == v[..i];
      r := r + ByteToHex(v[i]);
    }
  }
}
