/**
 `RawData` (v2/pkg/broker/rawdata.go): bytes that travel inside JSON as a base64 string
 marked with the prefix `spike`.  Bytes are characters below 256; the base64 is that of
 section 4 of RFC 4648, with padding.
 */
module RawData {
  import opened Basics

  predicate IsBytes(s: string) {
    forall i | 0 <= i < |s| :: s[i] as int < 256
  }

  type Bytes = s: string | IsBytes(s) witness ""

  type Sextet = v: nat | v < 64

  function Symbol(v: Sextet): char {
    if v < 26 then 'A' + v as char
    else if v < 52 then 'a' + (v - 26) as char
    else if v < 62 then '0' + (v - 52) as char
    else if v == 62 then '+' else '/'
  }

  function SymbolValue(c: char): Option<Sextet> {
    if 'A' <= c <= 'Z' then Some(c as int - 'A' as int)
    else if 'a' <= c <= 'z' then Some(c as int - 'a' as int + 26)
    else if '0' <= c <= '9' then Some(c as int - '0' as int + 52)
    else if c == '+' then Some(62) else if c == '/' then Some(63) else None
  }

  lemma SymbolInverse(v: Sextet)
    ensures SymbolValue(Symbol(v)) == Some(v) && Symbol(v) != '='
  {
  }

  /** The four sextets of three bytes. */
  function Group(a: int, b: int, c: int): (r: seq<Sextet>)
    requires 0 <= a < 256 && 0 <= b < 256 && 0 <= c < 256
    ensures |r| == 4
  {
    [a / 4, a % 4 * 16 + b / 16, b % 16 * 4 + c / 64, c % 64]
  }

  function Encode(b: Bytes): string
    decreases |b|
  {
    if |b| == 0 then ""
    else if |b| == 1 then
      var g := Group(b[0] as int, 0, 0);
      [Symbol(g[0]), Symbol(g[1]), '=', '=']
    else if |b| == 2 then
      var g := Group(b[0] as int, b[1] as int, 0);
      [Symbol(g[0]), Symbol(g[1]), Symbol(g[2]), '=']
    else
      var g := Group(b[0] as int, b[1] as int, b[2] as int);
      [Symbol(g[0]), Symbol(g[1]), Symbol(g[2]), Symbol(g[3])] + Encode(b[3..])
  }

  /** The bytes of four sextets. */
  function Byte0(v0: Sextet, v1: Sextet): char { (v0 * 4 + v1 / 16) as char }
  function Byte1(v1: Sextet, v2: Sextet): char { (v1 % 16 * 16 + v2 / 4) as char }
  function Byte2(v2: Sextet, v3: Sextet): char { (v2 % 4 * 64 + v3) as char }

  /** Go's decoder: groups of four symbols, padding only at the end; spare bits of a padded group are ignored. */
  function Decode(s: string): Option<string>
    decreases |s|
  {
    if s == "" then Some("")
    else if |s| < 4 then None
    else match (SymbolValue(s[0]), SymbolValue(s[1]))
      case (Some(v0), Some(v1)) =>
        if |s| == 4 && s[2] == '=' && s[3] == '=' then Some([Byte0(v0, v1)])
        else (match SymbolValue(s[2])
          case None => None
          case Some(v2) =>
            if |s| == 4 && s[3] == '=' then Some([Byte0(v0, v1), Byte1(v1, v2)])
            else match (SymbolValue(s[3]), Decode(s[4..]))
              case (Some(v3), Some(rest)) => Some([Byte0(v0, v1), Byte1(v1, v2), Byte2(v2, v3)] + rest)
              case _ => None)
      case _ => None
  }

  /** The alphabet of section 4 of RFC 4648. */
  lemma StandardAlphabet(v: Sextet)
    ensures Symbol(0) == 'A' && Symbol(25) == 'Z' && Symbol(26) == 'a' && Symbol(51) == 'z'
    ensures Symbol(52) == '0' && Symbol(61) == '9' && Symbol(62) == '+' && Symbol(63) == '/'
    ensures v < 61 && v != 25 && v != 51 ==> Symbol(v + 1) as int == Symbol(v) as int + 1
  {
  }

  lemma VectorFoo()
    ensures Encode("foo") == "Zm9v"
  {
    var b := "foo";
    assert b[0] as int == 102 && b[1] as int == 111 && b[2] as int == 111;
    assert Group(102, 111, 111) == [25, 38, 61, 47];
    assert Symbol(25) == 'Z' && Symbol(38) == 'm' && Symbol(61) == '9' && Symbol(47) == 'v';
    assert b[3..] == "" && Encode("") == "";
  }

  lemma VectorBar()
    ensures Encode("bar") == "YmFy"
  {
    var b := "bar";
    assert b[0] as int == 98 && b[1] as int == 97 && b[2] as int == 114;
    assert Group(98, 97, 114) == [24, 38, 5, 50];
    assert Symbol(24) == 'Y' && Symbol(38) == 'm' && Symbol(5) == 'F' && Symbol(50) == 'y';
    assert b[3..] == "" && Encode("") == "";
  }

  lemma OneByte(c: char)
    requires c as int < 256
    ensures Encode([c]) == [Symbol(c as int / 4), Symbol(c as int % 4 * 16), '=', '=']
  {
  }

  lemma VectorF()
    ensures Encode("f") == "Zg=="
  {
    OneByte('f');
    hide Encode;
    assert Symbol(25) == 'Z' && Symbol(32) == 'g';
    hide Symbol;
  }

  lemma VectorBa()
    ensures Encode("ba") == "YmE="
  {
    var b := "ba";
    assert b[0] as int == 98 && b[1] as int == 97;
    assert Group(98, 97, 0) == [24, 38, 4, 0];
    assert Symbol(24) == 'Y' && Symbol(38) == 'm' && Symbol(4) == 'E';
  }

  /** Test vectors of its section 10, and the text a reply's data has on the wire. */
  lemma StandardVectors()
    ensures Encode("") == "" && Encode("f") == "Zg==" && Encode("foo") == "Zm9v"
    ensures Encode("fooba") == "Zm9vYmE=" && Encode("foobar") == "Zm9vYmFy"
    ensures MarshalJSON("foobar") == "\"spikeZm9vYmFy\"" && MarshalJSON("") == MarshalJSON("null") == "null"
  {
    VectorF();
    VectorFoo();
    VectorBar();
    VectorBa();
    AfterFoo("ba");
    AfterFoo("bar");
    hide Encode;
    assert "foo" + "ba" == "fooba" && "foo" + "bar" == "foobar";
    assert "Zm9v" + "YmE=" == "Zm9vYmE=" && "Zm9v" + "YmFy" == "Zm9vYmFy";
    assert MARK + ("Zm9vYmFy" + "\"") == "\"spikeZm9vYmFy\"";
  }

  lemma AfterFoo(rest: Bytes)
    ensures Encode("foo" + rest) == "Zm9v" + Encode(rest)
  {
    var b := "foo" + rest;
    VectorFoo();
    assert b[3..] == rest && "foo"[3..] == "" && b[0] == 'f' && b[1] == 'o' && b[2] == 'o';
    assert Encode("foo") == Encode("foo")[..4] + Encode("");
  }

  lemma GroupInverse(a: char, b: char, c: char)
    requires a as int < 256 && b as int < 256 && c as int < 256
    ensures var g := Group(a as int, b as int, c as int);
      Byte0(g[0], g[1]) == a && Byte1(g[1], g[2]) == b && Byte2(g[2], g[3]) == c
  {
    var g := Group(a as int, b as int, c as int);
    assert g[1] / 16 == a as int % 4 && g[1] % 16 == b as int / 16;
    assert g[2] / 4 == b as int % 16 && g[2] % 4 == c as int / 64;
    hide Group;
  }

  lemma DecodeFull(v0: Sextet, v1: Sextet, v2: Sextet, v3: Sextet, text: string, rest: string)
    requires Decode(text) == Some(rest)
    ensures Decode([Symbol(v0), Symbol(v1), Symbol(v2), Symbol(v3)] + text)
         == Some([Byte0(v0, v1), Byte1(v1, v2), Byte2(v2, v3)] + rest)
  {
    SymbolInverse(v0);
    SymbolInverse(v1);
    SymbolInverse(v2);
    SymbolInverse(v3);
    var s := [Symbol(v0), Symbol(v1), Symbol(v2), Symbol(v3)] + text;
    assert s[4..] == text;
  }

  lemma DecodePadded(v0: Sextet, v1: Sextet, v2: Sextet)
    ensures Decode([Symbol(v0), Symbol(v1), '=', '=']) == Some([Byte0(v0, v1)])
    ensures Decode([Symbol(v0), Symbol(v1), Symbol(v2), '=']) == Some([Byte0(v0, v1), Byte1(v1, v2)])
  {
    SymbolInverse(v0);
    SymbolInverse(v1);
    SymbolInverse(v2);
  }

  lemma DecodeOfOne(b: Bytes)
    requires |b| == 1
    ensures Decode(Encode(b)) == Some(b)
  {
    hide Decode, Group, Byte0, Byte1, Byte2, Symbol, SymbolValue;
    var g := Group(b[0] as int, 0, 0);
    GroupInverse(b[0], 0 as char, 0 as char);
    DecodePadded(g[0], g[1], g[2]);
    assert b == [b[0]];
  }

  lemma DecodeOfTwo(b: Bytes)
    requires |b| == 2
    ensures Decode(Encode(b)) == Some(b)
  {
    hide Decode, Group, Byte0, Byte1, Byte2, Symbol, SymbolValue;
    var g := Group(b[0] as int, b[1] as int, 0);
    GroupInverse(b[0], b[1], 0 as char);
    DecodePadded(g[0], g[1], g[2]);
    assert b == [b[0], b[1]];
  }

  lemma DecodeOfMore(b: Bytes, rest: Bytes)
    requires |b| > 2 && rest == b[3..] && Decode(Encode(rest)) == Some(rest)
    ensures Decode(Encode(b)) == Some(b)
  {
    hide Decode, Group, Byte0, Byte1, Byte2, Symbol, SymbolValue;
    var g := Group(b[0] as int, b[1] as int, b[2] as int);
    GroupInverse(b[0], b[1], b[2]);
    DecodeFull(g[0], g[1], g[2], g[3], Encode(rest), rest);
    assert Encode(b) == [Symbol(g[0]), Symbol(g[1]), Symbol(g[2]), Symbol(g[3])] + Encode(rest);
    assert b == [b[0], b[1], b[2]] + rest;
  }

  /** Decoding undoes encoding, for every byte sequence. */
  lemma {:induction false} DecodeOfEncode(b: Bytes)
    ensures Decode(Encode(b)) == Some(b)
    decreases |b|
  {
    if |b| == 0 {
    } else if |b| == 1 {
      DecodeOfOne(b);
    } else if |b| == 2 {
      DecodeOfTwo(b);
    } else {
      DecodeOfEncode(b[3..]);
      DecodeOfMore(b, b[3..]);
    }
  }

  lemma {:induction false} DecodeShrinks(s: string)
    ensures Decode(s).Some? ==> 4 * |Decode(s).value| <= 3 * |s|
    decreases |s|
  {
    if |s| >= 4 {
      DecodeShrinks(s[4..]);
    }
  }

  lemma {:induction false} EncodeHasNoQuote(b: Bytes)
    ensures '\"' !in Encode(b) && '\\' !in Encode(b)
    ensures b != "" ==> Encode(b) != ""
    decreases |b|
  {
    forall v: Sextet ensures Symbol(v) != '\"' && Symbol(v) != '\\' {
    }
    if |b| > 2 {
      EncodeHasNoQuote(b[3..]);
    }
  }

  // ---- the JSON form ----

  const MARK := "\"spike"

  /** The mark is recognised only when something follows it. */
  predicate Marked(data: string) {
    |data| > 6 && MARK <= data
  }

  function MarshalJSON(data: Bytes): string {
    if data == "" || data == "null" then "null"
    else if Marked(data) then data
    else MARK + (Encode(data) + "\"")
  }

  /** A JSON string without escapes, as `json.Unmarshal` reads it into bytes: unquoted, then decoded. */
  function DecodeQuoted(text: string): Option<string> {
    if |text| >= 2 && text[0] == '\"' && text[|text| - 1] == '\"'
       && '\"' !in text[1..|text| - 1] && '\\' !in text[1..|text| - 1]
    then Decode(text[1..|text| - 1]) else None
  }

  function UnmarshalJSON(text: string): Option<string> {
    if Marked(text) then DecodeQuoted("\"" + text[6..]) else Some(text)
  }

  /** The value whose `UnmarshalJSON` overwrites it; an error leaves it as it was. */
  class RawDataValue {
    var bytes: string

    method Unmarshal(text: string) returns (ok: bool)
      modifies this
      ensures ok == UnmarshalJSON(text).Some?
      ensures bytes == if ok then UnmarshalJSON(text).value else old(bytes)
    {
      if |text| > 6 && MARK <= text {
        var decoded := DecodeQuoted("\"" + text[6..]);
        if decoded == None {
          return false;
        }
        bytes := decoded.value;
        return true;
      }
      bytes := text;
      ok := true;
    }
  }

  lemma MarkedText(body: string)
    requires body != ""
    ensures Marked(MARK + (body + "\""))
    ensures '\"' !in body && '\\' !in body ==> UnmarshalJSON(MARK + (body + "\"")) == Decode(body)
  {
    var text := MARK + (body + "\"");
    assert text[6..] == body + "\"";
    var quoted := "\"" + text[6..];
    assert quoted[1..|quoted| - 1] == body;
  }

  lemma MarkedNeverRoundTrips(data: Bytes)
    requires Marked(data)
    ensures UnmarshalJSON(data) != Some(data)
  {
    var quoted := "\"" + data[6..];
    DecodeShrinks(quoted[1..|quoted| - 1]);
  }

  /**
   Unmarshal after marshal is the identity if and only if the bytes are not empty and do not
   already start with the mark; empty becomes `null`.
   */
  lemma RoundTripIff(data: Bytes)
    ensures UnmarshalJSON(MarshalJSON(data)) == Some(data) <==> data != "" && !Marked(data)
    ensures UnmarshalJSON(MarshalJSON("")) == Some("null")
  {
    if Marked(data) {
      MarkedNeverRoundTrips(data);
    } else if data != "" && data != "null" {
      EncodeHasNoQuote(data);
      MarkedText(Encode(data));
      DecodeOfEncode(data);
    }
  }

  lemma {:induction false} EncodeIsBytes(b: Bytes)
    ensures IsBytes(Encode(b))
    decreases |b|
  {
    forall v: Sextet ensures Symbol(v) as int < 256 {
    }
    if |b| > 2 {
      EncodeIsBytes(b[3..]);
    }
  }

  /** Marshalling what was marshalled changes nothing: forwarding never nests encodings. */
  lemma MarshalIdempotent(data: Bytes)
    ensures IsBytes(MarshalJSON(data))
    ensures MarshalJSON(MarshalJSON(data)) == MarshalJSON(data)
  {
    hide Encode;
    EncodeIsBytes(data);
    if data != "" && data != "null" && !Marked(data) {
      EncodeHasNoQuote(data);
      MarkedText(Encode(data));
      hide Marked;
      assert MARK[0] == '\"' && MarshalJSON(data)[0] == '\"';
    }
  }
}
