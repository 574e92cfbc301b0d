/** MongoDB ObjectIDs and their hexadecimal text form.

    `primitive.ObjectID.Hex()` writes the 12 bytes as 24 lower-case hex digits;
    `primitive.ObjectIDFromHex` rejects any text that is not exactly 24 hex
    digits long and otherwise decodes it (encoding/hex accepts both cases).
 */
module ObjectIds {
  import opened Base

  type Byte = b: int | 0 <= b < 256
  type Nibble = n: int | 0 <= n < 16

  type ObjectId = s: seq<Byte> | |s| == 12 witness [0, 0, 0, 0, 0, 0, 0, 0, 0, 0, 0, 0]

  /** The digits `Hex()` writes: 0-9 and a-f. */
  predicate IsLowerHexDigit(c: char)
  {
    '0' <= c <= '9' || 'a' <= c <= 'f'
  }

  function HexDigit(n: Nibble): (c: char)
    ensures IsLowerHexDigit(c)
  {
    if n < 10 then ('0' as int + n) as char else ('a' as int + n - 10) as char
  }

  /** The value of one hex digit, in either case, as encoding/hex reads it. */
  function DigitValue(c: char): Option<Nibble>
  {
    if '0' <= c <= '9' then Some(c as int - '0' as int)
    else if 'a' <= c <= 'f' then Some(c as int - 'a' as int + 10)
    else if 'A' <= c <= 'F' then Some(c as int - 'A' as int + 10)
    else None
  }

  predicate IsHexDigit(c: char)
  {
    DigitValue(c).Some?
  }

  /** Upper-case hex letters folded to lower case; every other character kept. */
  function LowerChar(c: char): char
  {
    if 'A' <= c <= 'F' then (c as int - 'A' as int + 'a' as int) as char else c
  }

  function Lower(s: string): (r: string)
    ensures |r| == |s|
    ensures forall i :: 0 <= i < |s| ==> r[i] == LowerChar(s[i])
  {
    if s == [] then "" else [LowerChar(s[0])] + Lower(s[1..])
  }

  function EncodeBytes(bs: seq<Byte>): (s: string)
    ensures |s| == 2 * |bs|
    ensures forall i :: 0 <= i < |s| ==> IsLowerHexDigit(s[i])
  {
    if bs == [] then "" else [HexDigit(bs[0] / 16), HexDigit(bs[0] % 16)] + EncodeBytes(bs[1..])
  }

  function ByteOf(hi: Nibble, lo: Nibble): Byte
  {
    hi as int * 16 + lo as int
  }

  function DecodeBytes(s: string): (r: Option<seq<Byte>>)
    ensures r.Some? ==> |r.value| * 2 == |s|
    decreases |s|
  {
    if s == [] then Some([])
    else if |s| == 1 then None
    else
      match (DigitValue(s[0]), DigitValue(s[1]), DecodeBytes(s[2..]))
      case (Some(hi), Some(lo), Some(rest)) => Some([ByteOf(hi, lo)] + rest)
      case _ => None
  }

  /** primitive.NilObjectID: the zero id, which a struct carries before an
      id is assigned and which a failed parse hands back. */
  const NilObjectId: ObjectId := [0, 0, 0, 0, 0, 0, 0, 0, 0, 0, 0, 0]

  /** ObjectID.Hex(). */
  function Hex(id: ObjectId): (s: string)
    ensures |s| == 24
    ensures forall i :: 0 <= i < |s| ==> IsLowerHexDigit(s[i])
  {
    EncodeBytes(id)
  }

  /** primitive.ObjectIDFromHex: the length is checked before the digits. */
  function FromHex(s: string): (r: Result<ObjectId>)
    ensures |s| != 24 ==> r == Err(InvalidHex(s))
  {
    if |s| != 24 then Err(InvalidHex(s))
    else match DecodeBytes(s)
      case Some(bs) => Ok(bs)
      case None => Err(InvalidHex(s))
  }

  lemma {:induction false} DecodeEncode(bs: seq<Byte>)
    ensures DecodeBytes(EncodeBytes(bs)) == Some(bs)
  {
    if bs != [] {
      var s := EncodeBytes(bs);
      DecodeEncode(bs[1..]);
      assert s[2..] == EncodeBytes(bs[1..]);
      assert DigitValue(s[0]) == Some(bs[0] / 16);
      assert DigitValue(s[1]) == Some(bs[0] % 16);
      assert [bs[0]] + bs[1..] == bs;
    }
  }

  /** A decoded digit is written back as its lower-case form. */
  lemma DigitRoundTrip(c: char)
    requires DigitValue(c).Some?
    ensures HexDigit(DigitValue(c).value) == LowerChar(c)
  {
  }

  /** A byte built from two nibbles splits back into them. */
  lemma ByteSplit(hi: Nibble, lo: Nibble)
    ensures ByteOf(hi, lo) / 16 == hi && ByteOf(hi, lo) % 16 == lo
  {
  }

  lemma {:induction false} EncodeDecode(s: string, bs: seq<Byte>)
    requires DecodeBytes(s) == Some(bs)
    ensures EncodeBytes(bs) == Lower(s)
    decreases |s|
  {
    if s != [] {
      var hi := DigitValue(s[0]).value;
      var lo := DigitValue(s[1]).value;
      var rest := DecodeBytes(s[2..]).value;
      assert bs == [ByteOf(hi, lo)] + rest;
      EncodeDecode(s[2..], rest);
      DigitRoundTrip(s[0]);
      DigitRoundTrip(s[1]);
      ByteSplit(hi, lo);
      assert bs[1..] == rest;
      assert EncodeBytes(bs) == [HexDigit(hi), HexDigit(lo)] + EncodeBytes(rest);
      assert Lower(s) == [LowerChar(s[0]), LowerChar(s[1])] + Lower(s[2..]);
    }
  }

  lemma {:induction false} DecodeAccepts(s: string)
    requires |s| % 2 == 0
    ensures DecodeBytes(s).Some? <==> forall i :: 0 <= i < |s| ==> IsHexDigit(s[i])
    decreases |s|
  {
    if s != [] {
      DecodeAccepts(s[2..]);
      assert (forall i :: 0 <= i < |s| ==> IsHexDigit(s[i])) <==>
        IsHexDigit(s[0]) && IsHexDigit(s[1]) && forall i :: 0 <= i < |s[2..]| ==> IsHexDigit(s[2..][i]) by {
        forall i | 2 <= i < |s| ensures s[i] == s[2..][i - 2] { }
      }
    }
  }

  /** Hex() always parses back: `ObjectIDFromHex(id.Hex())` returns `id`. */
  lemma HexRoundTrip(id: ObjectId)
    ensures FromHex(Hex(id)) == Ok(id)
  {
    DecodeEncode(id);
  }

  /** Parsing accepts exactly the 24-character hex strings, and the id it
      yields prints back as the input folded to lower case. */
  lemma FromHexExactly(s: string)
    ensures FromHex(s).Ok? <==> |s| == 24 && forall i :: 0 <= i < |s| ==> IsHexDigit(s[i])
    ensures FromHex(s).Ok? ==> Hex(FromHex(s).value) == Lower(s)
  {
    if |s| == 24 {
      DecodeAccepts(s);
      if DecodeBytes(s).Some? {
        EncodeDecode(s, DecodeBytes(s).value);
      }
    }
  }
}
