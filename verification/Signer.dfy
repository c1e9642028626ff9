/** Signed URLs of lfs/signer.go, down to decimal numbers, percent escapes and query strings. */
module Signer {
  import opened ByteText
  import opened Numbers
  import Base64Url
  import Names

  // ---- decimal numbers: strconv.FormatInt and ParseInt in base 10 ----

  predicate IsDigit(c: byte) {
    48 <= c <= 57
  }

  function FormatNat(n: nat): (s: Text)
    ensures s != [] && forall i :: 0 <= i < |s| ==> IsDigit(s[i])
  {
    if n < 10 then [48 + n] else FormatNat(n / 10) + [48 + n % 10]
  }

  function FormatInt(x: int): (s: Text)
    ensures s != []
  {
    if x < 0 then [45] + FormatNat(-x) else FormatNat(x)
  }

  function DigitsValue(s: Text): (n: int) {
    if s == [] then 0 else DigitsValue(s[..|s| - 1]) * 10 + s[|s| - 1] - 48
  }

  predicate AllDigits(s: Text) {
    forall i :: 0 <= i < |s| ==> IsDigit(s[i])
  }

  predicate IsSigned(s: Text) {
    s != [] && (s[0] == 43 || s[0] == 45)
  }

  function Unsigned(s: Text): Text {
    if IsSigned(s) then s[1..] else s
  }

  function ParseInt(s: Text): (x: Option<int>) {
    if Unsigned(s) == [] || !AllDigits(Unsigned(s)) then None
    else
      var value := if IsSigned(s) && s[0] == 45 then -DigitsValue(Unsigned(s)) else DigitsValue(Unsigned(s));
      if MIN_INT64 <= value <= MAX_INT64 then Some(value) else None
  }

  lemma {:induction false} DigitsRoundTrip(n: nat)
    ensures DigitsValue(FormatNat(n)) == n
  {
    if n >= 10 {
      DigitsRoundTrip(n / 10);
      assert FormatNat(n)[..|FormatNat(n)| - 1] == FormatNat(n / 10);
    }
  }

  lemma FormatIsUnsigned(n: nat)
    ensures AllDigits(FormatNat(n)) && !IsSigned(FormatNat(n)) && Unsigned([45] + FormatNat(n)) == FormatNat(n)
  {
    assert IsDigit(FormatNat(n)[0]);
  }

  /** Formatting writes no needless zero. */
  lemma {:induction false} FormatIsShortest(n: nat)
    ensures FormatNat(n)[0] == 48 ==> FormatNat(n) == [48] && n == 0
  {
    if n >= 10 {
      FormatIsShortest(n / 10);
    }
  }

  /** Parsing a formatted number gives it back exactly when it fits 64 bits. */
  lemma DecimalRoundTrip(x: int)
    ensures ParseInt(FormatInt(x)) == if MIN_INT64 <= x <= MAX_INT64 then Some(x) else None
  {
    var n := if x < 0 then -x else x;
    DigitsRoundTrip(n);
    FormatIsUnsigned(n);
  }

  // ---- URLs: net/url's unescaping and query parsing ----

  function HexValue(c: byte): (v: Option<nat>)
    ensures v.Some? ==> v.value < 16
  {
    if 48 <= c <= 57 then Some(c - 48)
    else if 97 <= c <= 102 then Some(c - 87)
    else if 65 <= c <= 70 then Some(c - 55)
    else None
  }

  /** Percent decoding; in a query '+' also stands for a space. None for a malformed escape. */
  function Unescape(s: Text, inQuery: bool): (r: Option<Text>) {
    if s == [] then Some([])
    else if s[0] == 37 then
      if |s| < 3 || HexValue(s[1]).None? || HexValue(s[2]).None? then None
      else match Unescape(s[3..], inQuery)
        case None => None
        case Some(rest) => Some([HexValue(s[1]).value * 16 + HexValue(s[2]).value] + rest)
    else match Unescape(s[1..], inQuery)
      case None => None
      case Some(rest) => Some([if inQuery && s[0] == 43 then 32 else s[0]] + rest)
  }

  lemma {:induction false} UnescapePlain(s: Text, inQuery: bool)
    requires 37 !in s && (inQuery ==> 43 !in s)
    ensures Unescape(s, inQuery) == Some(s)
  {
    if s != [] {
      assert s[0] in s;
      UnescapePlain(s[1..], inQuery);
      assert s == [s[0]] + s[1..];
    }
  }

  function HexDigit(v: int): byte
    requires 0 <= v < 16
  {
    if v < 10 then 48 + v else 55 + v
  }

  /** Every byte as a percent escape. */
  function Escaped(s: Text): Text {
    if s == [] then [] else [37, HexDigit(s[0] / 16), HexDigit(s[0] % 16)] + Escaped(s[1..])
  }

  /** Unescaping undoes percent escapes, in paths and in queries. */
  lemma {:induction false} UnescapeUndoesEscapes(s: Text, inQuery: bool)
    ensures Unescape(Escaped(s), inQuery) == Some(s)
  {
    if s != [] {
      UnescapeUndoesEscapes(s[1..], inQuery);
      var hi, lo, e := s[0] / 16, s[0] % 16, Escaped(s);
      assert e[0] == 37 && e[1] == HexDigit(hi) && e[2] == HexDigit(lo) && e[3..] == Escaped(s[1..]);
      assert HexValue(HexDigit(hi)) == Some(hi) && HexValue(HexDigit(lo)) == Some(lo);
      assert s == [hi * 16 + lo] + s[1..];
    }
  }

  /** A plus is a space in a query and itself in a path. */
  lemma PlusMeans(s: Text, inQuery: bool)
    requires Unescape(s, inQuery).Some?
    ensures Unescape([43] + s, inQuery) == Some([if inQuery then 32 else 43] + Unescape(s, inQuery).value)
  {
    assert ([43] + s)[1..] == s;
  }

  datatype Url = Url(path: Text, query: Text)

  predicate IsControl(c: byte) {
    c < 32 || c == 127
  }

  /** url.ParseRequestURI of a path with an optional query; None for what it rejects. */
  function ParseRequestURI(uri: Text): (u: Option<Url>) {
    if uri == [] || uri[0] != 47 || exists i :: 0 <= i < |uri| && IsControl(uri[i]) then None
    else
      var q := IndexOf(uri, 63);
      match Unescape(uri[..q], false)
      case None => None
      case Some(path) => Some(Url(path, if q < |uri| then uri[q + 1..] else []))
  }

  type Values = map<Text, seq<Text>>

  function Add(m: Values, key: Text, value: Text): Values {
    m[key := (if key in m then m[key] else []) + [value]]
  }

  /** One "key=value" pair added to the values so far; empty pairs are skipped, semicolons refused. */
  function AddPair(m: Values, pair: Text): (r: Option<Values>) {
    if 59 in pair then None
    else if pair == [] then Some(m)
    else
      var e := IndexOf(pair, 61);
      match (Unescape(pair[..e], true), Unescape(if e < |pair| then pair[e + 1..] else [], true))
      case (Some(key), Some(value)) => Some(Add(m, key, value))
      case _ => None
  }

  function ParsePairs(m: Values, raw: Text): (r: Option<Values>)
    decreases |raw|
  {
    if raw == [] then Some(m)
    else
      var a := IndexOf(raw, 38);
      match AddPair(m, raw[..a])
      case None => None
      case Some(m') => if a < |raw| then ParsePairs(m', raw[a + 1..]) else Some(m')
  }

  /** url.ParseQuery: every pair in order, or None when any of them is malformed. */
  function ParseQuery(raw: Text): (r: Option<Values>) {
    ParsePairs(map[], raw)
  }

  // ---- signing ----

  const EXP: Text := [101, 120, 112]
  const SIG: Text := [115, 105, 103]
  const VERSION: Text := [118, 49]
  const NEWLINE: byte := 10

  function Message(op: Text, target: Text, exp: Text): Text {
    VERSION + [NEWLINE] + op + [NEWLINE] + target + [NEWLINE] + exp
  }

  /** The query Sign appends: "exp=" the expiry "&sig=" the encoded tag. */
  function SignedQuery(exp: Text, tag: Text): Text {
    EXP + [61] + exp + [38] + SIG + [61] + Base64Url.Encode(tag)
  }

  /** Sign: the URL for base + path that expires at Unix second `expires`. */
  function Sign(mac: Text -> Text, op: Text, base: Text, path: Text, expires: int): (href: Text) {
    base + path + [63] + SignedQuery(FormatInt(expires), mac(Message(op, base + path, FormatInt(expires))))
  }

  /** The signed message, letter by letter. */
  lemma MessageText(op: Text, target: Text, exp: Text)
    ensures Message(op, target, exp) == Ascii("v1\n") + op + Ascii("\n") + target + Ascii("\n") + exp
  {
    assert Ascii("v1\n") == VERSION + [NEWLINE] && Ascii("\n") == [NEWLINE];
  }

  lemma QueryText(exp: Text, sig: Text)
    ensures [63] + (EXP + [61] + exp + [38] + SIG + [61] + sig) == Ascii("?exp=") + exp + Ascii("&sig=") + sig
  {
    var start, middle := [63] + EXP + [61], [38] + SIG + [61];
    assert Ascii("?exp=") == start && Ascii("&sig=") == middle;
    assert [63] + (EXP + [61] + exp + [38] + SIG + [61] + sig) == start + exp + middle + sig;
  }

  /** The issued URL, letter by letter. */
  lemma SignedText(mac: Text -> Text, op: Text, base: Text, path: Text, expires: int)
    ensures var exp, target := FormatInt(expires), base + path;
            Sign(mac, op, base, path, expires)
            == target + (Ascii("?exp=") + exp + Ascii("&sig=") + Base64Url.Encode(mac(Message(op, target, exp))))
  {
    var exp, target := FormatInt(expires), base + path;
    var tag := mac(Message(op, target, exp));
    QueryText(exp, Base64Url.Encode(tag));
    assert target + [63] + SignedQuery(exp, tag) == target + ([63] + SignedQuery(exp, tag));
  }

  datatype Verdict = Accepted | MalformedURL | MalformedQuery | MissingParameters | UnexpectedParameters
                   | InvalidExpiration | Expired | InvalidEncoding | InvalidSignature

  /** q.Get: the first value of a key, or nothing. */
  function Get(q: Values, key: Text): Text {
    if key in q && q[key] != [] then q[key][0] else []
  }

  function Verify(mac: Text -> Text, op: Text, base: Text, uri: Text, now: int): (v: Verdict) {
    match ParseRequestURI(uri)
    case None => MalformedURL
    case Some(u) =>
      match ParseQuery(u.query)
      case None => MalformedQuery
      case Some(q) =>
        if Get(q, SIG) == [] || Get(q, EXP) == [] then MissingParameters
        else if |q| != 2 || SIG !in q || |q[SIG]| != 1 || EXP !in q || |q[EXP]| != 1 then UnexpectedParameters
        else
          match ParseInt(Get(q, EXP))
          case None => InvalidExpiration
          case Some(expires) =>
            if now > expires then Expired
            else
              match Base64Url.Decode(Get(q, SIG))
              case None => InvalidEncoding
              case Some(tag) =>
                if mac(Message(op, base + u.path, Get(q, EXP))) == tag then Accepted else InvalidSignature
  }

  /** A byte that means nothing in a query: no separator, escape or control. */
  predicate IsPlain(c: byte) {
    !IsControl(c) && c !in {37, 38, 43, 59, 61, 63}
  }

  lemma PairRoundTrip(m: Values, key: Text, value: Text)
    requires key != [] && (forall i :: 0 <= i < |key| ==> IsPlain(key[i]))
    requires forall i :: 0 <= i < |value| ==> IsPlain(value[i])
    ensures AddPair(m, key + [61] + value) == Some(Add(m, key, value))
  {
    var pair := key + [61] + value;
    CutJoin(key, 61, value);
    assert pair[..|key|] == key && pair[|key| + 1..] == value;
    UnescapePlain(key, true);
    UnescapePlain(value, true);
  }

  lemma PairsInOrder(m: Values, first: Text, second: Text)
    requires 38 !in first && 38 !in second && second != [] && AddPair(m, first).Some?
    ensures ParsePairs(m, first + [38] + second) == AddPair(AddPair(m, first).value, second)
  {
    var raw := first + [38] + second;
    CutJoin(first, 38, second);
    assert raw[..|first|] == first && raw[|first| + 1..] == second;
    assert IndexOf(second, 38) == |second| && second[..|second|] == second;
  }

  lemma PlainPairHasNoAmpersand(key: Text, value: Text)
    requires (forall i :: 0 <= i < |key| ==> IsPlain(key[i])) && forall i :: 0 <= i < |value| ==> IsPlain(value[i])
    ensures 38 !in key + [61] + value
  {}

  /** Parsing a signed query gives back exactly the two parameters. */
  lemma QueryRoundTrip(exp: Text, sig: Text)
    requires (forall i :: 0 <= i < |exp| ==> IsPlain(exp[i])) && forall i :: 0 <= i < |sig| ==> IsPlain(sig[i])
    ensures ParseQuery(EXP + [61] + exp + [38] + SIG + [61] + sig) == Some(map[EXP := [exp], SIG := [sig]])
  {
    var first, second := EXP + [61] + exp, SIG + [61] + sig;
    assert first + [38] + second == EXP + [61] + exp + [38] + SIG + [61] + sig;
    PairRoundTrip(map[], EXP, exp);
    PairRoundTrip(Add(map[], EXP, exp), SIG, sig);
    PlainPairHasNoAmpersand(EXP, exp);
    PlainPairHasNoAmpersand(SIG, sig);
    PairsInOrder(map[], first, second);
    assert EXP[0] != SIG[0];
    assert [] + [exp] == [exp] && [] + [sig] == [sig];
  }

  /** The parts of a signed query are plain. */
  lemma FormatIsPlain(x: int)
    ensures forall i :: 0 <= i < |FormatInt(x)| ==> IsPlain(FormatInt(x)[i])
  {
    var s := FormatInt(x);
    forall i | 0 <= i < |s| ensures IsPlain(s[i]) {
      assert x < 0 && i > 0 ==> s[i] == FormatNat(-x)[i - 1];
    }
  }

  lemma EncodingIsPlain(tag: Text)
    ensures forall i :: 0 <= i < |Base64Url.Encode(tag)| ==> IsPlain(Base64Url.Encode(tag)[i])
  {
    Base64Url.EncodingIsSymbols(tag);
    forall i | 0 <= i < |Base64Url.Encode(tag)| ensures IsPlain(Base64Url.Encode(tag)[i]) {
      assert Base64Url.IsSymbol(Base64Url.Encode(tag)[i]);
    }
  }

  /** `wire` is a form in which `path` may be sent in a request line: it starts with a slash and unescapes to path. */
  ghost predicate SentAs(path: Text, wire: Text) {
    && wire != [] && wire[0] == 47 && 63 !in wire && (forall i :: 0 <= i < |wire| ==> !IsControl(wire[i]))
    && Unescape(wire, false) == Some(path)
  }

  lemma SignedQueryHasNoControls(exp: Text, tag: Text)
    requires forall i :: 0 <= i < |exp| ==> IsPlain(exp[i])
    ensures forall i :: 0 <= i < |SignedQuery(exp, tag)| ==> !IsControl(SignedQuery(exp, tag)[i])
  {
    EncodingIsPlain(tag);
    var q, sig := SignedQuery(exp, tag), Base64Url.Encode(tag);
    assert q == (EXP + [61]) + exp + ([38] + SIG + [61]) + sig;
    forall i | 0 <= i < |q| ensures !IsControl(q[i]) {
      if 4 <= i < 4 + |exp| {
        assert q[i] == exp[i - 4];
      } else if i >= 9 + |exp| {
        assert q[i] == sig[i - 9 - |exp|];
      }
    }
  }

  lemma RequestRoundTrip(path: Text, wire: Text, exp: Text, tag: Text)
    requires SentAs(path, wire) && forall i :: 0 <= i < |exp| ==> IsPlain(exp[i])
    ensures ParseRequestURI(wire + [63] + SignedQuery(exp, tag)) == Some(Url(path, SignedQuery(exp, tag)))
  {
    var q := SignedQuery(exp, tag);
    var uri := wire + [63] + q;
    CutJoin(wire, 63, q);
    assert uri[..|wire|] == wire && uri[|wire| + 1..] == q;
    SignedQueryHasNoControls(exp, tag);
    forall i | 0 <= i < |uri| ensures !IsControl(uri[i]) {
      assert uri[i] == if i < |wire| then wire[i] else if i == |wire| then 63 else q[i - |wire| - 1];
    }
  }

  /**
   * Verify accepts what Sign issued for the same operation and base, however the path was escaped on the way, until
   * and including the expiry second, and calls it expired ever after.
   */
  lemma SignedIsVerified(mac: Text -> Text, op: Text, base: Text, path: Text, wire: Text, expires: int, now: int)
    requires MIN_INT64 <= expires <= MAX_INT64 && SentAs(path, wire)
    requires mac(Message(op, base + path, FormatInt(expires))) != []
    ensures var exp := FormatInt(expires);
            Verify(mac, op, base, wire + [63] + SignedQuery(exp, mac(Message(op, base + path, exp))), now)
            == if now <= expires then Accepted else Expired
  {
    var exp := FormatInt(expires);
    var tag := mac(Message(op, base + path, exp));
    var sig := Base64Url.Encode(tag);
    FormatIsPlain(expires);
    EncodingIsPlain(tag);
    RequestRoundTrip(path, wire, exp, tag);
    QueryRoundTrip(exp, sig);
    DecimalRoundTrip(expires);
    Base64Url.RoundTrip(tag);
    Base64Url.EncodingIsSymbols(tag);
    VerifyParsed(mac, op, base, wire + [63] + SignedQuery(exp, tag), now, path, SignedQuery(exp, tag), exp, sig);
  }

  /** A path that its request line carries unchanged: no escapes, query or control bytes. */
  predicate SentPlain(path: Text) {
    path != [] && path[0] == 47 && 63 !in path && 37 !in path && forall i :: 0 <= i < |path| ==> !IsControl(path[i])
  }

  lemma {:induction false} UnescapeShrinks(s: Text)
    requires Unescape(s, false).Some?
    ensures |Unescape(s, false).value| <= |s|
    ensures |Unescape(s, false).value| == |s| ==> 37 !in s
  {
    if s != [] {
      UnescapeShrinks(if s[0] == 37 then s[3..] else s[1..]);
      assert s == [s[0]] + s[1..];
    }
  }

  /** Whatever comes before it, the last pair of a query that parses is added last. */
  lemma {:induction false} LastPairIsAdded(m: Values, front: Text, pair: Text)
    requires pair != [] && 38 !in pair
    ensures var q := ParsePairs(m, front + [38] + pair);
            q.Some? ==> exists m' :: q == AddPair(m', pair)
    decreases |front|
  {
    var raw := front + [38] + pair;
    CutJoin(front, 38, pair);
    var a := IndexOf(raw, 38);
    if AddPair(m, raw[..a]).Some? {
      var m' := AddPair(m, raw[..a]).value;
      if a < |front| {
        assert raw[a + 1..] == front[a + 1..] + [38] + pair;
        LastPairIsAdded(m', front[a + 1..], pair);
      } else {
        assert raw[a + 1..] == pair;
        OnePair(m', pair);
      }
    }
  }

  lemma OnePair(m: Values, pair: Text)
    requires pair != [] && 38 !in pair
    ensures ParsePairs(m, pair) == AddPair(m, pair)
  {
    assert IndexOf(pair, 38) == |pair| && pair[..|pair|] == pair;
  }

  lemma LastPairCounts(front: Text, key: Text, value: Text)
    requires key != [] && (forall i :: 0 <= i < |key| ==> IsPlain(key[i]))
    requires forall i :: 0 <= i < |value| ==> IsPlain(value[i])
    ensures var q := ParseQuery(front + [38] + (key + [61] + value));
            q.Some? && key in q.value && |q.value[key]| == 1 ==> q.value[key] == [value]
  {
    var pair := key + [61] + value;
    PlainPairHasNoAmpersand(key, value);
    LastPairIsAdded(map[], front, pair);
    var q := ParseQuery(front + [38] + pair);
    if q.Some? {
      var m :| q == AddPair(m, pair);
      PairRoundTrip(m, key, value);
    }
  }

  /** The query of a signed URL whose path may itself hold a question mark still ends in the signature. */
  lemma SignatureIsLast(path: Text, exp: Text, tag: Text) returns (front: Text)
    ensures var u := ParseRequestURI(path + [63] + SignedQuery(exp, tag));
            u.Some? ==> u.value.query == front + [38] + (SIG + [61] + Base64Url.Encode(tag))
  {
    var query, last := SignedQuery(exp, tag), SIG + [61] + Base64Url.Encode(tag);
    var uri, before := path + [63] + query, path + [63] + EXP + [61] + exp;
    CutJoin(path, 63, query);
    assert uri == before + [38] + last;
    front := before[IndexOf(uri, 63) + 1..];
  }

  /** So whatever the path holds, a request that carries one signature carries the issued one. */
  lemma IssuedTagIsCarried(path: Text, exp: Text, tag: Text, path': Text, exp': Text, tag': Text)
    requires Carries(path + [63] + SignedQuery(exp, tag), path', exp', tag')
    ensures tag' == tag
  {
    var front := SignatureIsLast(path, exp, tag);
    EncodingIsPlain(tag);
    LastPairCounts(front, SIG, Base64Url.Encode(tag));
    Base64Url.RoundTrip(tag);
  }

  /** A request URI whose path parses to the very text before the query. */
  lemma UnchangedIsSentPlain(path: Text, query: Text)
    requires ParseRequestURI(path + [63] + query).Some? && ParseRequestURI(path + [63] + query).value.path == path
    ensures SentPlain(path)
  {
    var uri := path + [63] + query;
    var cut := IndexOf(uri, 63);
    CutJoin(path, 63, query);
    UnescapeShrinks(uri[..cut]);
    assert cut == |path| && uri[..cut] == path;
    forall i | 0 <= i < |path| ensures !IsControl(path[i]) {
      assert path[i] == uri[i];
    }
  }

  /** What acceptance of a URL sent as it was issued says about its path. */
  lemma AcceptedIsSentPlain(mac: Text -> Text, op: Text, base: Text, path: Text, exp: Text, now: int)
    requires CollisionFree(mac) && NEWLINE !in op && NEWLINE !in exp
    requires Verify(mac, op, base, path + [63] + SignedQuery(exp, mac(Message(op, base + path, exp))), now) == Accepted
    ensures SentPlain(path)
  {
    var tag := mac(Message(op, base + path, exp));
    var uri := path + [63] + SignedQuery(exp, tag);
    var path', exp', tag' := AcceptedIsWhatWasSigned(mac, op, base, uri, now);
    IssuedTagIsCarried(path, exp, tag, path', exp', tag');
    assert base + path == base + path';
    assert (base + path')[|base|..] == path' && (base + path)[|base|..] == path;
    UnchangedIsSentPlain(path, SignedQuery(exp, tag));
  }

  ghost predicate CollisionFree(mac: Text -> Text) {
    forall m, m' :: mac(m) == mac(m') ==> m == m'
  }

  /**
   * The issued URL itself, sent as it is: what follows the base is accepted until its expiry and expired after when
   * the path is one that a request line carries unchanged, and, with a collision-free mac, only then.
   */
  lemma SignThenVerify(mac: Text -> Text, op: Text, base: Text, path: Text, expires: int, now: int)
    requires MIN_INT64 <= expires <= MAX_INT64
    requires mac(Message(op, base + path, FormatInt(expires))) != []
    ensures base <= Sign(mac, op, base, path, expires)
    ensures var verdict := Verify(mac, op, base, Sign(mac, op, base, path, expires)[|base|..], now);
            && (SentPlain(path) ==> verdict == if now <= expires then Accepted else Expired)
            && (CollisionFree(mac) && NEWLINE !in op ==> (verdict == Accepted <==> now <= expires && SentPlain(path)))
  {
    var exp := FormatInt(expires);
    var sent := path + [63] + SignedQuery(exp, mac(Message(op, base + path, exp)));
    assert Sign(mac, op, base, path, expires) == base + sent;
    assert (base + sent)[|base|..] == sent;
    if SentPlain(path) {
      UnescapePlain(path, false);
      SignedIsVerified(mac, op, base, path, path, expires, now);
    } else if CollisionFree(mac) && NEWLINE !in op && Verify(mac, op, base, sent, now) == Accepted {
      DecimalRoundTrip(expires);
      ParsedHasNoNewline(exp);
      AcceptedIsSentPlain(mac, op, base, path, exp, now);
    }
  }

  /** The paths the server signs: below an endpoint's, an object's ID or the verify action. */
  function LinkPath(endpoint: string, name: string): string {
    endpoint + "/objects/" + name
  }

  predicate IsLinkChar(c: char) {
    Names.IsEdge(c) || c == '.' || Names.IsSeparator(c)
  }

  lemma LinkChars(endpoint: string, name: string)
    requires Names.PathOk(endpoint) && forall c :: c in name ==> Names.IsEdge(c)
    ensures forall i :: 0 <= i < |LinkPath(endpoint, name)| ==> IsLinkChar(LinkPath(endpoint, name)[i])
    ensures |endpoint| > 0 && LinkPath(endpoint, name)[0] == '/'
  {
    Names.AcceptedPathHasNoBar(endpoint);
    var s, middle := LinkPath(endpoint, name), "/objects/";
    assert forall i :: 0 <= i < |middle| ==> IsLinkChar(middle[i]);
    forall i | 0 <= i < |s| ensures IsLinkChar(s[i]) {
      if i < |endpoint| {
        assert s[i] == endpoint[i] && endpoint[i] in endpoint;
      } else if i < |endpoint| + |middle| {
        assert s[i] == middle[i - |endpoint|];
      } else {
        assert s[i] in name;
      }
    }
  }

  lemma LinkIsSentPlain(s: string)
    requires s != "" && s[0] == '/' && forall i :: 0 <= i < |s| ==> IsLinkChar(s[i])
    ensures forall i :: 0 <= i < |s| ==> s[i] as int < 256
    ensures SentPlain(Ascii(s))
  {
    forall i | 0 <= i < |s| ensures s[i] as int < 256 {
      assert IsLinkChar(s[i]);
    }
    var t := Ascii(s);
    forall i | 0 <= i < |t| ensures !IsControl(t[i]) && t[i] != 63 && t[i] != 37 {
      assert IsLinkChar(s[i]);
    }
  }

  /** Every link the server hands out for an accepted endpoint works until it expires. */
  lemma LinksWork(mac: Text -> Text, op: Text, base: Text, endpoint: string, name: string, expires: int, now: int)
    requires Names.PathOk(endpoint) && (Names.IsValidOID(name) || name == "verify")
    requires MIN_INT64 <= expires <= MAX_INT64 && forall m :: mac(m) != []
    ensures forall i :: 0 <= i < |LinkPath(endpoint, name)| ==> LinkPath(endpoint, name)[i] as int < 256
    ensures var href := Sign(mac, op, base, Ascii(LinkPath(endpoint, name)), expires);
            && base <= href
            && Verify(mac, op, base, href[|base|..], now) == if now <= expires then Accepted else Expired
  {
    forall c | c in name ensures Names.IsEdge(c) {
      if Names.IsValidOID(name) {
        var i :| 0 <= i < |name| && name[i] == c;
        assert Names.IsHex(name[i]);
      }
    }
    LinkChars(endpoint, name);
    LinkIsSentPlain(LinkPath(endpoint, name));
    SignThenVerify(mac, op, base, Ascii(LinkPath(endpoint, name)), expires, now);
  }

  /** Verify once the request is taken apart into its path and its two parameters. */
  lemma VerifyParsed(mac: Text -> Text, op: Text, base: Text, uri: Text, now: int, path: Text, query: Text, exp: Text,
                     sig: Text)
    requires ParseRequestURI(uri) == Some(Url(path, query))
    requires ParseQuery(query) == Some(map[EXP := [exp], SIG := [sig]])
    requires exp != [] && sig != [] && ParseInt(exp).Some? && Base64Url.Decode(sig).Some?
    ensures Verify(mac, op, base, uri, now)
            == if now > ParseInt(exp).value then Expired
               else if mac(Message(op, base + path, exp)) == Base64Url.Decode(sig).value then Accepted
               else InvalidSignature
  {
    assert EXP[0] != SIG[0];
    var q := map[EXP := [exp], SIG := [sig]];
    assert q.Keys == {EXP, SIG};
    assert Get(q, EXP) == exp && Get(q, SIG) == sig;
  }

  // ---- what a signature stands for ----

  lemma CutLast(a: Text, b: Text, a': Text, b': Text, sep: byte)
    requires a + [sep] + b == a' + [sep] + b' && sep !in b && sep !in b'
    ensures a == a' && b == b'
  {
    var s, s' := a + [sep] + b, a' + [sep] + b';
    assert |a| + |b| == |a'| + |b'|;
    assert s[|a|] == sep && s'[|a'|] == sep;
    forall k | |a| < k < |s| ensures s[k] != sep {
      assert s[k] == b[k - |a| - 1];
    }
    forall k | |a'| < k < |s'| ensures s'[k] != sep {
      assert s'[k] == b'[k - |a'| - 1];
    }
    assert |a| == |a'|;
    assert s[..|a|] == a && s'[..|a'|] == a' && s[|a| + 1..] == b && s'[|a'| + 1..] == b';
  }

  /** The signed message tells its three parts apart even when the target contains line breaks. */
  lemma MessageIsInjective(op: Text, target: Text, exp: Text, op': Text, target': Text, exp': Text)
    requires NEWLINE !in op && NEWLINE !in exp && NEWLINE !in op' && NEWLINE !in exp'
    requires Message(op, target, exp) == Message(op', target', exp')
    ensures op == op' && target == target' && exp == exp'
  {
    var rest, rest' := target + [NEWLINE] + exp, target' + [NEWLINE] + exp';
    var body, body' := op + [NEWLINE] + rest, op' + [NEWLINE] + rest';
    assert Message(op, target, exp) == VERSION + [NEWLINE] + body;
    assert Message(op', target', exp') == VERSION + [NEWLINE] + body';
    CutFirst(VERSION, body, VERSION, body', NEWLINE);
    CutFirst(op, rest, op', rest', NEWLINE);
    CutLast(target, exp, target', exp', NEWLINE);
  }

  lemma ParsedHasNoNewline(s: Text)
    requires ParseInt(s).Some?
    ensures NEWLINE !in s
  {
    forall i | 0 <= i < |s| ensures s[i] != NEWLINE {
      if !IsSigned(s) {
        assert IsDigit(Unsigned(s)[i]);
      } else if i > 0 {
        assert IsDigit(Unsigned(s)[i - 1]);
      }
    }
  }

  /** What an accepted request carried: a path, and just one expiry and one signature. */
  ghost predicate Carries(uri: Text, path: Text, exp: Text, tag: Text) {
    && ParseRequestURI(uri).Some? && ParseRequestURI(uri).value.path == path
    && ParseQuery(ParseRequestURI(uri).value.query).Some?
    && var q := ParseQuery(ParseRequestURI(uri).value.query).value;
       && q.Keys == {EXP, SIG} && q[EXP] == [exp] && |q[SIG]| == 1
       && Base64Url.Decode(q[SIG][0]) == Some(tag)
  }

  /**
   * An accepted request carries no parameter besides its expiry and signature and is not past its expiry; and with
   * a collision-free mac, if its tag was issued for some operation, target and expiry, then it is a request for that
   * very operation and target with that very expiry.
   */
  lemma AcceptedIsWhatWasSigned(mac: Text -> Text, op: Text, base: Text, uri: Text, now: int)
    returns (path: Text, exp: Text, tag: Text)
    requires Verify(mac, op, base, uri, now) == Accepted && NEWLINE !in op && CollisionFree(mac)
    ensures Carries(uri, path, exp, tag)
    ensures ParseInt(exp).Some? && now <= ParseInt(exp).value
    ensures forall op', target', exp' ::
              NEWLINE !in op' && NEWLINE !in exp' && mac(Message(op', target', exp')) == tag ==>
                op' == op && target' == base + path && exp' == exp
  {
    var u := ParseRequestURI(uri).value;
    var q := ParseQuery(u.query).value;
    path, exp, tag := u.path, Get(q, EXP), Base64Url.Decode(Get(q, SIG)).value;
    TwoKeys(q);
    ParsedHasNoNewline(exp);
    forall op', target', exp' | NEWLINE !in op' && NEWLINE !in exp' && mac(Message(op', target', exp')) == tag
      ensures op' == op && target' == base + path && exp' == exp
    {
      MessageIsInjective(op', target', exp', op, base + path, exp);
    }
  }

  lemma TwoKeys(q: Values)
    requires |q| == 2 && EXP in q && SIG in q
    ensures q.Keys == {EXP, SIG}
  {
    assert EXP[0] != SIG[0];
    assert |q.Keys - {EXP} - {SIG}| == 0;
  }
}
