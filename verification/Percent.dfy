/** Percent-encoding (RFC 3986, sections 2.1 and 2.3) and the consent URL built with it
    (the authorization request of RFC 6749, section 4.1.1). */
module Percent {
  import opened Wrappers
  import opened Seqs
  import opened Text

  type Byte = b: int | 0 <= b < 256
  type Bytes = seq<Byte>

  const AUTH_ENDPOINT := "https://accounts.google.com/o/oauth2/v2/auth"

  /** Letters, digits, '-', '_', '.' and '~'. */
  predicate Unreserved(b: Byte) {
    || 'A' as int <= b <= 'Z' as int || 'a' as int <= b <= 'z' as int || '0' as int <= b <= '9' as int
    || b == '-' as int || b == '_' as int || b == '.' as int || b == '~' as int
  }

  /** The letters, the digits and the four marks, by their codes. */
  lemma UnreservedCodes(b: Byte)
    ensures Unreserved(b) <==>
              65 <= b <= 90 || 97 <= b <= 122 || 48 <= b <= 57 || b == 45 || b == 46 || b == 95 || b == 126
  {
  }

  /** Upper-case hexadecimal digit. */
  function Hex(n: nat): (c: char)
    requires n < 16
  {
    if n < 10 then ('0' as int + n) as char else ('A' as int + n - 10) as char
  }

  function EncodeByte(b: Byte): string {
    if Unreserved(b) then [b as char] else ['%', Hex(b / 16), Hex(b % 16)]
  }

  function Encode(bytes: Bytes): string {
    if bytes == [] then "" else Encode(bytes[..|bytes| - 1]) + EncodeByte(bytes[|bytes| - 1])
  }

  method UrlEncode(s: Bytes) returns (out: string)
    ensures out == Encode(s)
  {
    out := "";
    for i := 0 to |s|
      invariant out == Encode(s[..i])
    {
      assert s[..i + 1][..i] == s[..i];
      if Unreserved(s[i]) {
        out := out + [s[i] as char];
      } else {
        out := out + ['%', Hex(s[i] / 16), Hex(s[i] % 16)];
      }
    }
    assert s[..|s|] == s;
  }

  function HexValue(c: char): Option<nat> {
    if '0' <= c <= '9' then Some(c as int - '0' as int)
    else if 'A' <= c <= 'F' then Some(c as int - 'A' as int + 10)
    else if 'a' <= c <= 'f' then Some(c as int - 'a' as int + 10)
    else None
  }

  /** Percent-decoding; a malformed triplet or a character that is no byte has no decoding. */
  function Decode(s: string): Option<Bytes>
    decreases |s|
  {
    if s == "" then Some([])
    else if s[0] == '%' then
      if |s| < 3 || HexValue(s[1]).None? || HexValue(s[2]).None? then None
      else match Decode(s[3..])
           case None => None
           case Some(rest) => Some([HexValue(s[1]).value * 16 + HexValue(s[2]).value] + rest)
    else if s[0] as int >= 256 then None
    else match Decode(s[1..])
         case None => None
         case Some(rest) => Some([s[0] as int] + rest)
  }

  lemma HexRoundTrip(b: Byte)
    ensures HexValue(Hex(b / 16)) == Some(b / 16) && HexValue(Hex(b % 16)) == Some(b % 16)
  {
  }

  lemma DecodeOne(b: Byte, rest: string)
    ensures Decode(EncodeByte(b) + rest) ==
            match Decode(rest) case None => None case Some(bs) => Some([b] + bs)
  {
    HexRoundTrip(b);
    var s := EncodeByte(b) + rest;
    assert s[|EncodeByte(b)|..] == rest;
    assert b / 16 * 16 + b % 16 == b;
  }

  lemma {:induction false} EncodeFront(b: Byte, bytes: Bytes)
    ensures Encode([b] + bytes) == EncodeByte(b) + Encode(bytes)
    decreases |bytes|
  {
    var all := [b] + bytes;
    if bytes == [] {
      assert all[..0] == [];
      assert "" + EncodeByte(b) == EncodeByte(b) + "";
    } else {
      var n := |bytes| - 1;
      EncodeFront(b, bytes[..n]);
      assert all[..n + 1] == [b] + bytes[..n];
      AppendAssociates(EncodeByte(b), Encode(bytes[..n]), EncodeByte(bytes[n]));
    }
  }

  /** Decoding inverts encoding on every byte string. */
  lemma {:induction false} DecodeInvertsEncode(bytes: Bytes)
    ensures Decode(Encode(bytes)) == Some(bytes)
    decreases |bytes|
  {
    if bytes != [] {
      DecodeInvertsEncode(bytes[1..]);
      EncodeFront(bytes[0], bytes[1..]);
      DecodeOne(bytes[0], Encode(bytes[1..]));
      assert [bytes[0]] + bytes[1..] == bytes;
    }
  }

  predicate UpperHex(c: char) {
    '0' <= c <= '9' || 'A' <= c <= 'F'
  }

  /** A percent sign and two upper-case digits, naming a byte that is not unreserved. */
  predicate Triplet(s: string) {
    && |s| == 3 && s[0] == '%' && UpperHex(s[1]) && UpperHex(s[2])
    && !Unreserved(HexValue(s[1]).value * 16 + HexValue(s[2]).value)
  }

  /** Unreserved characters and triplets, one after the other. */
  predicate WellEncoded(s: string) {
    || s == ""
    || (s[0] as int < 256 && Unreserved(s[0] as int) && WellEncoded(s[1..]))
    || (|s| >= 3 && Triplet(s[..3]) && WellEncoded(s[3..]))
  }

  lemma ByteIsWellEncoded(b: Byte)
    ensures !Unreserved(b) ==> Triplet(EncodeByte(b))
  {
    HexRoundTrip(b);
    assert b / 16 * 16 + b % 16 == b;
  }

  lemma OneMore(b: Byte, rest: string)
    requires WellEncoded(rest)
    ensures WellEncoded(EncodeByte(b) + rest)
  {
    ByteIsWellEncoded(b);
    var s := EncodeByte(b) + rest;
    assert s[|EncodeByte(b)|..] == rest && s[..|EncodeByte(b)|] == EncodeByte(b);
  }

  lemma {:induction false} EncodedIsWellEncoded(bytes: Bytes)
    ensures WellEncoded(Encode(bytes))
    decreases |bytes|
  {
    if bytes != [] {
      EncodedIsWellEncoded(bytes[1..]);
      EncodeFront(bytes[0], bytes[1..]);
      OneMore(bytes[0], Encode(bytes[1..]));
      assert [bytes[0]] + bytes[1..] == bytes;
    }
  }

  lemma TripletEncodes(s: string)
    requires Triplet(s)
    ensures EncodeByte(HexValue(s[1]).value * 16 + HexValue(s[2]).value) == s
  {
  }

  lemma {:induction false} WellEncodedIsEncoded(s: string) returns (bytes: Bytes)
    requires WellEncoded(s)
    ensures Encode(bytes) == s
    decreases |s|
  {
    if s == "" {
      bytes := [];
    } else if s[0] as int < 256 && Unreserved(s[0] as int) {
      var rest := WellEncodedIsEncoded(s[1..]);
      var b: Byte := s[0] as int;
      EncodeFront(b, rest);
      bytes := [b] + rest;
      assert EncodeByte(b) == s[..1];
    } else {
      var b: Byte := HexValue(s[1]).value * 16 + HexValue(s[2]).value;
      TripletEncodes(s[..3]);
      var rest := WellEncodedIsEncoded(s[3..]);
      EncodeFront(b, rest);
      bytes := [b] + rest;
      assert s[..3] + s[3..] == s;
    }
  }

  /** The texts encoding emits are exactly the sequences of unreserved characters and of triplets
      with upper-case digits, these for the other bytes only. */
  lemma EncodedAlphabet(s: string)
    ensures (exists bytes: Bytes :: Encode(bytes) == s) <==> WellEncoded(s)
  {
    if bytes: Bytes :| Encode(bytes) == s {
      EncodedIsWellEncoded(bytes);
    }
    if WellEncoded(s) {
      var bytes := WellEncodedIsEncoded(s);
    }
  }

  lemma {:induction false} WellEncodedHasNoSeparators(s: string)
    requires WellEncoded(s)
    ensures '&' !in s && '=' !in s
    decreases |s|
  {
    if s == "" {
    } else if s[0] as int < 256 && Unreserved(s[0] as int) {
      WellEncodedHasNoSeparators(s[1..]);
    } else {
      WellEncodedHasNoSeparators(s[3..]);
    }
  }

  // ---------- query strings ----------

  datatype Param = Param(key: string, value: Bytes)

  function Pair(p: Param): string {
    p.key + "=" + Encode(p.value)
  }

  function Pairs(params: seq<Param>): (r: seq<string>)
    ensures |r| == |params| && forall i | 0 <= i < |params| :: r[i] == Pair(params[i])
  {
    if params == [] then [] else [Pair(params[0])] + Pairs(params[1..])
  }

  function Query(params: seq<Param>): string {
    Join(Pairs(params), "&")
  }

  /** One `key=value` piece, split at its first '='. */
  function ParsePair(s: string): Option<Param> {
    var parts := Split(s, '=');
    if |parts| != 2 then None
    else match Decode(parts[1])
         case None => None
         case Some(v) => Some(Param(parts[0], v))
  }

  function ParsePairs(parts: seq<string>): Option<seq<Param>> {
    if parts == [] then Some([])
    else match (ParsePair(parts[0]), ParsePairs(parts[1..]))
         case (Some(p), Some(rest)) => Some([p] + rest)
         case _ => None
  }

  function ParseQuery(q: string): Option<seq<Param>> {
    ParsePairs(Split(q, '&'))
  }

  /** A key that needs no encoding of its own. */
  predicate PlainKey(k: string) {
    '&' !in k && '=' !in k
  }

  lemma PairParses(p: Param)
    requires PlainKey(p.key)
    ensures ParsePair(Pair(p)) == Some(p) && '&' !in Pair(p)
  {
    var v := Encode(p.value);
    NoSeparators(p.value);
    AppendAssociates(p.key, ['='], v);
    SplitFirst(p.key, '=', v);
    SplitWhole(v, '=');
    DecodeInvertsEncode(p.value);
  }

  lemma NoSeparators(bytes: Bytes)
    ensures '&' !in Encode(bytes) && '=' !in Encode(bytes)
  {
    EncodedIsWellEncoded(bytes);
    WellEncodedHasNoSeparators(Encode(bytes));
  }

  lemma {:induction false} PairsParse(params: seq<Param>)
    requires forall i | 0 <= i < |params| :: PlainKey(params[i].key)
    ensures ParsePairs(Pairs(params)) == Some(params)
    ensures forall s | s in Pairs(params) :: '&' !in s
  {
    if params != [] {
      PairParses(params[0]);
      PairsParse(params[1..]);
      assert Pairs(params)[1..] == Pairs(params[1..]);
      assert [params[0]] + params[1..] == params;
    }
  }

  /** Splitting a query on '&' and '=' and decoding recovers exactly the parameter list. */
  lemma QueryRoundTrip(params: seq<Param>)
    requires params != [] && forall i | 0 <= i < |params| :: PlainKey(params[i].key)
    ensures ParseQuery(Query(params)) == Some(params)
  {
    PairsParse(params);
    SplitJoin(Pairs(params), '&');
  }

  /** ASCII text as bytes. */
  function Ascii(s: string): Bytes
    requires forall i | 0 <= i < |s| :: s[i] as int < 128
  {
    if s == "" then [] else
    var b: Byte := s[0] as int;
    [b] + Ascii(s[1..])
  }

  /** The seven parameters, in order; `access_type` and `prompt` make the provider issue a
      refresh token every time. */
  function ConsentParams(clientId: Bytes, redirectUri: Bytes, scope: Bytes, state: Bytes): seq<Param> {
    [ Param("client_id", clientId),
      Param("redirect_uri", redirectUri),
      Param("response_type", Ascii("code")),
      Param("scope", scope),
      Param("access_type", Ascii("offline")),
      Param("prompt", Ascii("consent")),
      Param("state", state) ]
  }

  lemma LiteralKeysArePlain()
    ensures PlainKey("client_id") && PlainKey("redirect_uri") && PlainKey("response_type") && PlainKey("scope")
    ensures PlainKey("access_type") && PlainKey("prompt") && PlainKey("state")
  {
  }

  lemma ConsentKeysArePlain(clientId: Bytes, redirectUri: Bytes, scope: Bytes, state: Bytes)
    ensures var params := ConsentParams(clientId, redirectUri, scope, state);
            forall i | 0 <= i < |params| :: PlainKey(params[i].key)
  {
    LiteralKeysArePlain();
  }

  function ConsentUrl(clientId: Bytes, redirectUri: Bytes, scope: Bytes, state: Bytes): string {
    AUTH_ENDPOINT + "?" + Query(ConsentParams(clientId, redirectUri, scope, state))
  }

  /** Whatever the four inputs hold, the part of the URL after the endpoint and its '?' parses
      back to exactly these parameters. */
  lemma ConsentUrlRoundTrip(clientId: Bytes, redirectUri: Bytes, scope: Bytes, state: Bytes)
    ensures var url := ConsentUrl(clientId, redirectUri, scope, state);
            && StartsWith(url, AUTH_ENDPOINT + "?")
            && ParseQuery(url[|AUTH_ENDPOINT| + 1..]) == Some(ConsentParams(clientId, redirectUri, scope, state))
  {
    var params := ConsentParams(clientId, redirectUri, scope, state);
    ConsentKeysArePlain(clientId, redirectUri, scope, state);
    QueryRoundTrip(params);
    AfterPrefix(AUTH_ENDPOINT + "?", Query(params));
  }

  /** The text of bytes that are characters. */
  function AsText(bytes: Bytes): string {
    Map((b: Byte) => b as char, bytes)
  }

  lemma {:induction false} AsciiReadsBack(s: string)
    requires forall i | 0 <= i < |s| :: s[i] as int < 128
    ensures AsText(Ascii(s)) == s
  {
    if s != "" {
      AsciiReadsBack(s[1..]);
      var b: Byte := s[0] as int;
      MapHead((b: Byte) => b as char, Ascii(s));
      assert Ascii(s)[1..] == Ascii(s[1..]);
    }
  }

  /** Seven parameters, in this order: four of them the inputs and three fixed. */
  predicate AsksForConsent(read: seq<Param>, clientId: Bytes, redirectUri: Bytes, scope: Bytes, state: Bytes) {
    && |read| == 7
    && read[0] == Param("client_id", clientId) && read[1] == Param("redirect_uri", redirectUri)
    && read[2].key == "response_type" && AsText(read[2].value) == "code"
    && read[3] == Param("scope", scope)
    && read[4].key == "access_type" && AsText(read[4].value) == "offline"
    && read[5].key == "prompt" && AsText(read[5].value) == "consent"
    && read[6] == Param("state", state)
  }

  lemma FixedValuesRead()
    ensures AsText(Ascii("code")) == "code" && AsText(Ascii("offline")) == "offline"
    ensures AsText(Ascii("consent")) == "consent"
  {
    AsciiReadsBack("code");
    AsciiReadsBack("offline");
    AsciiReadsBack("consent");
  }

  lemma ConsentIsAskedFor(clientId: Bytes, redirectUri: Bytes, scope: Bytes, state: Bytes)
    ensures AsksForConsent(ConsentParams(clientId, redirectUri, scope, state), clientId, redirectUri, scope, state)
  {
    FixedValuesRead();
  }

  /** What the provider reads out of the URL is a request for consent. */
  lemma ConsentUrlSays(clientId: Bytes, redirectUri: Bytes, scope: Bytes, state: Bytes)
    ensures var url := ConsentUrl(clientId, redirectUri, scope, state);
            var read := ParseQuery(url[|AUTH_ENDPOINT| + 1..]);
            read.Some? && AsksForConsent(read.value, clientId, redirectUri, scope, state)
    ensures AUTH_ENDPOINT == "https://accounts.google.com/o/oauth2/v2/auth"
  {
    ConsentUrlRoundTrip(clientId, redirectUri, scope, state);
    ConsentIsAskedFor(clientId, redirectUri, scope, state);
  }

  lemma AfterPrefix(p: string, q: string)
    ensures StartsWith(p + q, p) && (p + q)[|p|..] == q
  {
  }
}
