/** The unverified claims reader (`decodeJWT`): the payload of a compact JWS (section 7.1 of
    RFC 7515), turned from base64url (section 5 of RFC 4648) into standard base 64 (section 4),
    decoded and parsed as a JSON object. */
module Claims {
  import opened Wrappers
  import opened Strings
  import opened Json
  import opened Base64

  /** `JSONSerialization.jsonObject(with:)`: the parsed value, nothing when it throws. */
  type JsonParser = seq<Byte> -> Option<Json>

  /** The base64url alphabet mapped to the standard one: `-` to `+`, `_` to `/`. */
  function ToStandardAlphabet(segment: string): string
  {
    ReplaceChar(ReplaceChar(segment, '-', '+'), '_', '/')
  }

  /** How many `=` bring a length up to a multiple of four. */
  function PadCount(n: nat): (k: nat)
    ensures k <= 3 && (n + k) % 4 == 0
  {
    (4 - n % 4) % 4
  }

  /** The payload segment as it is handed to the base 64 decoder. */
  function Normalised(segment: string): (r: string)
    ensures |r| % 4 == 0
    ensures |segment| <= |r| <= |segment| + 3
    ensures r[..|segment|] == ToStandardAlphabet(segment)
    ensures forall i :: |segment| <= i < |r| ==> r[i] == '='
  {
    ToStandardAlphabet(segment) + Padding(PadCount(|segment|))
  }

  /** What `decodeJWT` returns: the payload's claims, or the empty map when the token has fewer
      than two non-empty `.`-separated segments, the payload is not base 64, or it is not a JSON object. */
  function ClaimsOf(token: string, parse: JsonParser): map<string, Json>
  {
    var segments := SplitNonEmpty(token, '.');
    if |segments| < 2 then map[]
    else
      match Decode(Normalised(segments[1]))
      case None => map[]
      case Some(bytes) => AsObject(parse(bytes)).GetOr(map[])
  }

  /** The alphabet mapping, then `=` appended until the length is a multiple of four. */
  method NormalisePayload(segment: string) returns (s: string)
    ensures s == Normalised(segment)
  {
    s := ReplaceChar(segment, '-', '+');
    s := ReplaceChar(s, '_', '/');
    while |s| % 4 != 0
      invariant |segment| <= |s| <= |segment| + PadCount(|segment|)
      invariant s == ToStandardAlphabet(segment) + Padding(|s| - |segment|)
      decreases PadCount(|segment|) - (|s| - |segment|)
    {
      assert Padding(|s| - |segment|) + "=" == Padding(|s| - |segment| + 1);
      s := s + "=";
    }
  }

  method DecodeJWT(token: string, parse: JsonParser) returns (claims: map<string, Json>)
    ensures claims == ClaimsOf(token, parse)
  {
    var segments := SplitNonEmpty(token, '.');
    if |segments| <= 1 {
      return map[];
    }
    var payload := NormalisePayload(segments[1]);
    var data := Decode(payload);
    if data.None? {
      return map[];
    }
    var json := AsObject(parse(data.value));
    if json.None? {
      return map[];
    }
    claims := json.value;
  }

  // ---------------------------------------------------------------------------
  // Lemmas

  /** A token with no `.` at all has no claims. */
  lemma NoSeparatorNoClaims(token: string, parse: JsonParser)
    requires '.' !in token
    ensures ClaimsOf(token, parse) == map[]
  {
    SplitNoSeparator(token, '.');
    assert |NonEmpty([token])| <= 1;
  }

  /** Fewer than two non-empty `.`-separated segments give no claims. */
  lemma FewSegmentsNoClaims(token: string, parse: JsonParser)
    requires |SplitNonEmpty(token, '.')| < 2
    ensures ClaimsOf(token, parse) == map[]
  {
  }

  /** A trailing `.` adds no segment: `abc.` has one non-empty segment and no claims. */
  lemma TrailingSeparatorNoClaims(h: string, parse: JsonParser)
    requires h != "" && '.' !in h
    ensures SplitNonEmpty(h + ".", '.') == [h]
    ensures ClaimsOf(h + ".", parse) == map[]
  {
    assert h + "." == h + ['.'] + "";
    SplitAfterPiece(h, '.', "");
    assert Split(h + ".", '.') == [h] + [""];
    NonEmptyAppend([h], [""]);
    assert NonEmpty([""]) == [];
    assert NonEmpty([h]) == [h] + NonEmpty([]);
  }

  /** A payload that is not base 64 or not a JSON object gives no claims. */
  lemma BadPayloadNoClaims(token: string, parse: JsonParser)
    requires |SplitNonEmpty(token, '.')| >= 2
    requires var p := Decode(Normalised(SplitNonEmpty(token, '.')[1]));
      p.None? || AsObject(parse(p.value)).None?
    ensures ClaimsOf(token, parse) == map[]
  {
  }

  /** A payload segment one longer than a multiple of four is padded with `===` and never decodes. */
  lemma ShortPayloadNoClaims(token: string, parse: JsonParser)
    requires |SplitNonEmpty(token, '.')| >= 2 && |SplitNonEmpty(token, '.')[1]| % 4 == 1
    ensures ClaimsOf(token, parse) == map[]
  {
    var segment := SplitNonEmpty(token, '.')[1];
    var standard := ToStandardAlphabet(segment);
    assert Normalised(segment) == standard + "===";
    TriplePaddingRejected(standard);
  }

  /** Base64url without padding, as a JWS serialises its parts (section 2 of RFC 7515). */
  function UrlEncode(b: seq<Byte>): string
  {
    ReplaceChar(ReplaceChar(EncodeUnpadded(b), '+', '-'), '/', '_')
  }

  lemma UrlEncodeBack(b: seq<Byte>)
    ensures ToStandardAlphabet(UrlEncode(b)) == EncodeUnpadded(b)
    ensures '.' !in UrlEncode(b)
  {
    var e := EncodeUnpadded(b);
    EncodedInAlphabet(b);
    OutsideAlphabet();
    assert forall i :: 0 <= i < |e| ==> e[i] != '-' && e[i] != '_' && e[i] != '.';
  }

  lemma UrlEncodePadding(b: seq<Byte>)
    ensures PadCount(|UrlEncode(b)|) == PadLength(|b|)
    ensures |b| > 0 ==> UrlEncode(b) != ""
  {
    var u, k := |EncodeUnpadded(b)|, PadLength(|b|);
    EncodedQuanta(b);
    assert |Encode(b)| == u + k;
    PadCountCompletes(u, k);
  }

  /** Padding that completes a quantum is exactly what `PadCount` adds. */
  lemma PadCountCompletes(n: nat, k: nat)
    requires k <= 3 && (n + k) % 4 == 0
    ensures PadCount(n) == k
  {
  }

  /** The payload round trip: the claims of a compact JWS whose payload segment is the
      base64url encoding of `payload` are the fields of `payload` parsed as a JSON object. */
  lemma CompactJwsClaims(header: string, payload: seq<Byte>, rest: string, parse: JsonParser)
    requires header != "" && '.' !in header && payload != []
    ensures ClaimsOf(header + "." + UrlEncode(payload) + "." + rest, parse) == AsObject(parse(payload)).GetOr(map[])
  {
    var p := UrlEncode(payload);
    UrlEncodeBack(payload);
    UrlEncodePadding(payload);
    SplitNonEmptyTwoPieces(header, p, '.', rest);
    assert Normalised(p) == Encode(payload);
    DecodeEncode(payload);
  }
}
