/**
 * The UID encoder of the RFID reader (RFIDManager.cpp): a card's UID bytes become a
 * string of zero-padded, upper-case hexadecimal pairs. The reader hardware is reduced to
 * the two answers it gives and the bytes it reads.
 */
module Rfid {
  import opened Common

  /** `PICC_IsNewCardPresent() && PICC_ReadCardSerial()`. */
  predicate CardDetected(present: bool, serialRead: bool) {
    present && serialRead
  }

  predicate IsUpperHex(c: char) {
    '0' <= c <= '9' || 'A' <= c <= 'F'
  }

  /** The upper-case digit for `d`. */
  function HexDigit(d: int): (c: char)
    requires 0 <= d < 16
    ensures IsUpperHex(c)
  {
    if d < 10 then ('0' as int + d) as char else ('A' as int + d - 10) as char
  }

  /** The lower-case digit Arduino's `String(value, HEX)` prints. */
  function LowerHexDigit(d: int): (c: char)
    requires 0 <= d < 16
    ensures '0' <= c <= '9' || 'a' <= c <= 'f'
  {
    if d < 10 then ('0' as int + d) as char else ('a' as int + d - 10) as char
  }

  /** The value a reader assigns to an upper-case digit. */
  function DigitValue(c: char): (d: int)
    requires IsUpperHex(c)
    ensures 0 <= d < 16
  {
    if c <= '9' then c as int - '0' as int else c as int - 'A' as int + 10
  }

  lemma DigitValueOfHexDigit(d: int)
    requires 0 <= d < 16
    ensures DigitValue(HexDigit(d)) == d
  {
  }

  /** The two upper-case digits of a byte, high nibble first. */
  function HexByte(b: Byte): (s: string)
    ensures |s| == 2 && IsUpperHex(s[0]) && IsUpperHex(s[1])
  {
    [HexDigit(b / 16), HexDigit(b % 16)]
  }

  /** The upper-case, fixed-width hex text of a byte sequence, in index order. */
  function Hex(uid: seq<Byte>): (s: string)
    ensures |s| == 2 * |uid|
    ensures forall i :: 0 <= i < |s| ==> IsUpperHex(s[i])
  {
    if uid == [] then [] else HexByte(uid[0]) + Hex(uid[1..])
  }

  predicate AllUpperHex(s: string) {
    forall i :: 0 <= i < |s| ==> IsUpperHex(s[i])
  }

  /** Reads fixed-width pairs of upper-case digits back into bytes. */
  function Unhex(s: string): (bytes: seq<Byte>)
    requires |s| % 2 == 0 && AllUpperHex(s)
    ensures |bytes| == |s| / 2
  {
    if s == [] then []
    else
      assert AllUpperHex(s[2..]) by {
        forall i | 0 <= i < |s[2..]| ensures IsUpperHex(s[2..][i]) {
          assert s[2..][i] == s[i + 2];
        }
      }
      [DigitValue(s[0]) * 16 + DigitValue(s[1])] + Unhex(s[2..])
  }

  /** Reading the text back gives the bytes: the encoding loses nothing. */
  lemma {:induction false} UnhexHex(uid: seq<Byte>)
    ensures Unhex(Hex(uid)) == uid
  {
    if uid != [] {
      var s := Hex(uid);
      assert s == HexByte(uid[0]) + Hex(uid[1..]);
      assert s[2..] == Hex(uid[1..]);
      DigitValueOfHexDigit(uid[0] / 16);
      DigitValueOfHexDigit(uid[0] % 16);
      UnhexHex(uid[1..]);
    }
  }

  /** Different UIDs give different strings. */
  lemma HexInjective(a: seq<Byte>, b: seq<Byte>)
    requires Hex(a) == Hex(b)
    ensures a == b
  {
    UnhexHex(a);
    UnhexHex(b);
  }

  lemma {:induction false} HexAppend(uid: seq<Byte>, b: Byte)
    ensures Hex(uid + [b]) == Hex(uid) + HexByte(b)
  {
    if uid == [] {
      assert uid + [b] == [b];
    } else {
      assert (uid + [b])[1..] == uid[1..] + [b];
      HexAppend(uid[1..], b);
    }
  }

  /** Byte `i` is encoded at positions `2i` and `2i + 1`. */
  lemma {:induction false} HexAt(uid: seq<Byte>, i: int)
    requires 0 <= i < |uid|
    ensures Hex(uid)[2 * i..2 * i + 2] == HexByte(uid[i])
  {
    if i > 0 {
      HexAt(uid[1..], i - 1);
      assert Hex(uid) == HexByte(uid[0]) + Hex(uid[1..]);
    }
  }

  /** `String(b, HEX)`: lower-case digits, no leading zero. */
  function ArduinoHex(b: Byte): (s: string)
    ensures |s| == (if b < 16 then 1 else 2)
  {
    if b < 16 then [LowerHexDigit(b)] else [LowerHexDigit(b / 16), LowerHexDigit(b % 16)]
  }

  function ToUpper(c: char): char {
    if 'a' <= c <= 'z' then (c as int - 32) as char else c
  }

  /** `String::toUpperCase`: every ASCII letter in upper case, all else kept. */
  function UpperCase(s: string): (r: string)
    ensures |r| == |s| && forall i :: 0 <= i < |s| ==> r[i] == ToUpper(s[i])
  {
    seq(|s|, i requires 0 <= i < |s| => ToUpper(s[i]))
  }

  lemma UpperCaseAppend(a: string, b: string)
    ensures UpperCase(a + b) == UpperCase(a) + UpperCase(b)
  {
  }

  /** One loop step, padding included, upper-cases to the byte's two digits. */
  lemma UpperCasePaddedByte(b: Byte)
    ensures UpperCase((if b < 16 then "0" else "") + ArduinoHex(b)) == HexByte(b)
  {
  }

  /**
   * `readUID(uidOut)`: without a card, or when the serial cannot be read, the result is
   * false and `uidOut` keeps its content; otherwise `uidOut` is replaced by the UID's
   * hex text.
   */
  method ReadUid(present: bool, serialRead: bool, uid: seq<Byte>, uidOut: string)
    returns (ok: bool, out: string)
    ensures ok == CardDetected(present, serialRead)
    ensures !ok ==> out == uidOut
    ensures ok ==> out == Hex(uid)
  {
    if !(present && serialRead) {
      return false, uidOut;
    }
    out := "";
    for i := 0 to |uid|
      invariant UpperCase(out) == Hex(uid[..i])
    {
      var before := out;
      if uid[i] < 0x10 {
        out := out + "0";
      }
      out := out + ArduinoHex(uid[i]);
      assert out == before + ((if uid[i] < 16 then "0" else "") + ArduinoHex(uid[i]));
      UpperCaseAppend(before, (if uid[i] < 16 then "0" else "") + ArduinoHex(uid[i]));
      UpperCasePaddedByte(uid[i]);
      assert uid[..i + 1] == uid[..i] + [uid[i]];
      HexAppend(uid[..i], uid[i]);
    }
    assert uid[..|uid|] == uid;
    out := UpperCase(out);
    ok := true;
  }
}
