/** Unpadded base64url (sections 3.2 and 5 of RFC 4648), as base64.RawURLEncoding encodes and decodes it. */
module Base64Url {
  import opened ByteText

  type sextet = x: int | 0 <= x < 64

  /** The URL-safe alphabet: A-Z, a-z, 0-9, '-' and '_'. */
  function Symbol(v: sextet): (c: byte)
    ensures IsSymbol(c)
  {
    if v < 26 then v + 65 else if v < 52 then v + 71 else if v < 62 then v - 4 else if v == 62 then 45 else 95
  }

  predicate IsSymbol(c: byte) {
    65 <= c <= 90 || 97 <= c <= 122 || 48 <= c <= 57 || c == 45 || c == 95
  }

  function SymbolValue(c: byte): (v: sextet)
    requires IsSymbol(c)
    ensures Symbol(v) == c
  {
    if 65 <= c <= 90 then c - 65 else if 97 <= c <= 122 then c - 71 else if 48 <= c <= 57 then c + 4
    else if c == 45 then 62 else 63
  }

  function Sextets(data: Text): (v: seq<sextet>) {
    if data == [] then []
    else if |data| == 1 then [data[0] / 4, data[0] % 4 * 16]
    else if |data| == 2 then [data[0] / 4, data[0] % 4 * 16 + data[1] / 16, data[1] % 16 * 4]
    else
      [data[0] / 4, data[0] % 4 * 16 + data[1] / 16, data[1] % 16 * 4 + data[2] / 64, data[2] % 64]
      + Sextets(data[3..])
  }

  /** A lone trailing symbol is an error; the spare bits of a short final group are ignored. */
  function Octets(v: seq<sextet>): (data: Option<Text>) {
    if v == [] then Some([])
    else if |v| == 1 then None
    else
      var a: int, b: int := v[0], v[1];
      if |v| == 2 then Some([a * 4 + b / 16])
      else
        var c: int := v[2];
        if |v| == 3 then Some([a * 4 + b / 16, b % 16 * 16 + c / 4])
        else
          var d: int := v[3];
          match Octets(v[4..])
          case None => None
          case Some(rest) => Some([a * 4 + b / 16, b % 16 * 16 + c / 4, c % 4 * 64 + d] + rest)
  }

  function Symbols(v: seq<sextet>): (s: Text)
    ensures |s| == |v|
    ensures forall i :: 0 <= i < |s| ==> IsSymbol(s[i])
  {
    if v == [] then [] else [Symbol(v[0])] + Symbols(v[1..])
  }

  /** The values of the symbols, None for anything outside the alphabet; line breaks are skipped wherever they are. */
  function SymbolValues(s: Text): (v: Option<seq<sextet>>) {
    if s == [] then Some([])
    else if s[0] == 10 || s[0] == 13 then SymbolValues(s[1..])
    else if !IsSymbol(s[0]) then None
    else match SymbolValues(s[1..])
      case None => None
      case Some(rest) => Some([SymbolValue(s[0])] + rest)
  }

  function Encode(data: Text): (s: Text) {
    Symbols(Sextets(data))
  }

  function Decode(s: Text): (data: Option<Text>) {
    match SymbolValues(s)
    case None => None
    case Some(v) => Octets(v)
  }

  /** Three bytes survive being cut into four sextets. */
  lemma GroupRoundTrip(x: byte, y: byte, z: byte)
    ensures var a: sextet, b: sextet, c: sextet, d: sextet := x / 4, x % 4 * 16 + y / 16, y % 16 * 4 + z / 64, z % 64;
            a * 4 + b / 16 == x && b % 16 * 16 + c / 4 == y && c % 4 * 64 + d == z
  {
    assert (x % 4 * 16 + y / 16) / 16 == x % 4 && (x % 4 * 16 + y / 16) % 16 == y / 16;
    assert (y % 16 * 4 + z / 64) / 4 == y % 16 && (y % 16 * 4 + z / 64) % 4 == z / 64;
  }

  lemma {:induction false} OctetsUndoSextets(data: Text)
    ensures Octets(Sextets(data)) == Some(data)
  {
    if data != [] {
      GroupRoundTrip(data[0], if |data| > 1 then data[1] else 0, if |data| > 2 then data[2] else 0);
      if |data| >= 3 {
        OctetsUndoSextets(data[3..]);
        assert Sextets(data)[4..] == Sextets(data[3..]);
        assert data == [data[0], data[1], data[2]] + data[3..];
      } else if |data| == 2 {
        assert data == [data[0], data[1]];
      } else {
        assert data == [data[0]];
      }
    }
  }

  lemma {:induction false} ValuesUndoSymbols(v: seq<sextet>)
    ensures SymbolValues(Symbols(v)) == Some(v)
  {
    if v != [] {
      ValuesUndoSymbols(v[1..]);
      assert Symbols(v)[1..] == Symbols(v[1..]);
      assert Symbol(SymbolValue(Symbol(v[0]))) == Symbol(v[0]);
      assert v == [v[0]] + v[1..];
    }
  }

  /** Decoding inverts encoding for byte strings of every length, so encoding is injective. */
  lemma RoundTrip(data: Text)
    ensures Decode(Encode(data)) == Some(data)
  {
    ValuesUndoSymbols(Sextets(data));
    OctetsUndoSextets(data);
  }

  /** An encoding is made of symbols only, and is empty for no data only. */
  lemma EncodingIsSymbols(data: Text)
    ensures forall i :: 0 <= i < |Encode(data)| ==> IsSymbol(Encode(data)[i])
    ensures Encode(data) == [] <==> data == []
  {}
}
