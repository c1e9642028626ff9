/** The string keys of auth/github.go's cache and shared lookups, with HMAC idealised as collision-free. */
module CacheKeys {
  import opened ByteText
  import opened AuthCache
  import Names

  function HexDigit(v: int): (c: byte)
    requires 0 <= v < 16
    ensures c != BAR
  {
    if v < 10 then 48 + v else 87 + v
  }

  /** hex.EncodeToString. */
  function Hex(t: Text): (s: Text)
    ensures |s| == 2 * |t|
  {
    if t == [] then [] else [HexDigit(t[0] / 16), HexDigit(t[0] % 16)] + Hex(t[1..])
  }

  lemma {:induction false} HexIsInjective(a: Text, b: Text)
    ensures Hex(a) == Hex(b) ==> a == b
    ensures BAR !in Hex(a)
  {
    if a != [] {
      HexIsInjective(a[1..], if b == [] then [] else b[1..]);
      if Hex(a) == Hex(b) {
        assert b != [];
        assert Hex(a)[0] == Hex(b)[0] && Hex(a)[1] == Hex(b)[1] && Hex(a)[2..] == Hex(b)[2..];
        assert Hex(a)[2..] == Hex(a[1..]) && Hex(b)[2..] == Hex(b[1..]);
        assert a == [a[0]] + a[1..] && b == [b[0]] + b[1..];
      }
    } else if b != [] {
      assert |Hex(b)| > 0;
    }
  }

  function CacheKey(mac: Text -> Text, k: Key): Text {
    Hex(mac(k.token)) + [BAR] + k.path
  }

  function OperationName(op: Operation): Text {
    if op.Download? then Ascii("download") else Ascii("upload")
  }

  /** A shared probe's key: the cache key, a bar and the operation. */
  function ProbeKey(mac: Text -> Text, k: Key, op: Operation): Text {
    CacheKey(mac, k) + [BAR] + OperationName(op)
  }

  /** Cache keys keep every pair of token and endpoint path apart, whatever the path contains. */
  lemma CacheKeyIsInjective(mac: Text -> Text, k: Key, k': Key)
    requires mac(k.token) == mac(k'.token) ==> k.token == k'.token
    ensures CacheKey(mac, k) == CacheKey(mac, k') <==> k == k'
  {
    HexIsInjective(mac(k.token), mac(k'.token));
    HexIsInjective(mac(k'.token), mac(k.token));
    if CacheKey(mac, k) == CacheKey(mac, k') {
      CutFirst(Hex(mac(k.token)), k.path, Hex(mac(k'.token)), k'.path, BAR);
    }
  }

  /**
   * For endpoint paths without a bar, which every accepted configuration has, a probe's key is never a lookup's key
   * and belongs to one token, endpoint and operation.
   */
  lemma FlightKeysAreApart(mac: Text -> Text, k: Key, op: Operation, k': Key, op': Operation)
    requires mac(k.token) == mac(k'.token) ==> k.token == k'.token
    requires BAR !in k.path && BAR !in k'.path
    ensures ProbeKey(mac, k, op) != CacheKey(mac, k')
    ensures ProbeKey(mac, k, op) == ProbeKey(mac, k', op') <==> k == k' && op == op'
  {
    HexIsInjective(mac(k.token), mac(k'.token));
    HexIsInjective(mac(k'.token), mac(k.token));
    var hex, hex', name, name' := Hex(mac(k.token)), Hex(mac(k'.token)), OperationName(op), OperationName(op');
    var tail, tail' := k.path + [BAR] + name, k'.path + [BAR] + name';
    assert ProbeKey(mac, k, op) == hex + [BAR] + tail && ProbeKey(mac, k', op') == hex' + [BAR] + tail';
    assert tail[|k.path|] == BAR;
    if ProbeKey(mac, k, op) == CacheKey(mac, k') {
      CutFirst(hex, tail, hex', k'.path, BAR);
    }
    if ProbeKey(mac, k, op) == ProbeKey(mac, k', op') {
      CutFirst(hex, tail, hex', tail', BAR);
      CutFirst(k.path, name, k'.path, name', BAR);
      assert |Ascii("download")| != |Ascii("upload")|;
    }
  }

  /** The key of an endpoint path as configured. */
  function KeyFor(token: Text, path: string): Key
    requires forall i :: 0 <= i < |path| ==> path[i] as int < 256
  {
    Key(token, Ascii(path))
  }

  /** Accepted endpoint paths are byte strings without a bar, and different paths are different byte strings. */
  lemma AcceptedPathIsPlain(path: string)
    requires Names.PathOk(path)
    ensures forall i :: 0 <= i < |path| ==> path[i] as int < 256
    ensures BAR !in Ascii(path)
  {
    Names.AcceptedPathHasNoBar(path);
    forall i | 0 <= i < |path| ensures path[i] as int < 256 && path[i] as int != BAR {
      assert path[i] in path;
    }
  }

  /** So flights of accepted endpoints are never confused: one token, endpoint and operation each. */
  lemma AcceptedFlightsAreApart(mac: Text -> Text, token: Text, path: string, op: Operation, token': Text,
                                path': string, op': Operation)
    requires mac(token) == mac(token') ==> token == token'
    requires Names.PathOk(path) && Names.PathOk(path')
    ensures forall i :: 0 <= i < |path| ==> path[i] as int < 256
    ensures forall i :: 0 <= i < |path'| ==> path'[i] as int < 256
    ensures var k, k' := KeyFor(token, path), KeyFor(token', path');
            && ProbeKey(mac, k, op) != CacheKey(mac, k')
            && (CacheKey(mac, k) == CacheKey(mac, k') <==> token == token' && path == path')
            && (ProbeKey(mac, k, op) == ProbeKey(mac, k', op') <==> token == token' && path == path' && op == op')
  {
    AcceptedPathIsPlain(path);
    AcceptedPathIsPlain(path');
    var k, k' := KeyFor(token, path), KeyFor(token', path');
    if Ascii(path) == Ascii(path') {
      assert forall i :: 0 <= i < |path| ==> path[i] as int == Ascii(path)[i] && path'[i] as int == Ascii(path')[i];
      assert path == path';
    }
    FlightKeysAreApart(mac, k, op, k', op');
    CacheKeyIsInjective(mac, k, k');
  }
}
