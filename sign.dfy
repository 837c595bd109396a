/**
 * Request signing (sign.go): an HMAC-SHA256 of the current timestamp under the secret key,
 * Base64-encoded, written with the timestamp and the session token into three headers.
 * The clock, UTF-8 conversion, HMAC-SHA256 and Base64 are foreign and enter as parameters.
 */
module Sign {
  import opened Wrappers
  import opened Types
  import opened Http
  import Strings

  /**
   * `[]byte(s)`, HMAC-SHA256 (RFC 2104 over the SHA-256 of FIPS 180-4, key first) and
   * standard Base64 (section 4 of RFC 4648).
   */
  datatype Crypto = Crypto(
    utf8: string -> seq<byte>,
    hmacSha256: (seq<byte>, seq<byte>) -> seq<byte>,
    base64: seq<byte> -> string)

  const DateKey: string := "X-Amz-Date"
  const AuthorizationKey: string := "X-Amzn-Authorization"
  const TokenKey: string := "X-Amz-Security-Token"

  const AuthorizationPrefix: string := "AWS3-HTTPS AWSAccessKeyId="
  const AlgorithmPart: string := "Algorithm=HmacSHA256,Signature="

  /** The signature covers the secret key and the timestamp only. */
  function Signature(crypto: Crypto, secretKey: string, now: string): string {
    crypto.base64(crypto.hmacSha256(crypto.utf8(secretKey), crypto.utf8(now)))
  }

  /** The value of the authorization header, built in two `Sprintf` steps as the source does. */
  function AuthorizationValue(accessKey: string, signature: string): string {
    var header := AuthorizationPrefix + accessKey + ",";
    header + AlgorithmPart + signature
  }

  /** Reads an authorization value back into its access key and signature. */
  function ParseAuthorization(h: string): Option<(string, string)> {
    if |h| < |AuthorizationPrefix| || h[..|AuthorizationPrefix|] != AuthorizationPrefix then None
    else
      var rest := h[|AuthorizationPrefix|..];
      var comma := Strings.IndexOf(rest, ",");
      if comma < 0 then None
      else
        var tail := rest[comma + 1..];
        if |tail| < |AlgorithmPart| || tail[..|AlgorithmPart|] != AlgorithmPart then None
        else Some((rest[..comma], tail[|AlgorithmPart|..]))
  }

  /** The header writes of one signing, as a map from key to the value list `Header.Set` stores. */
  function SigningWrites(auth: Credential, now: string, crypto: Crypto): Header {
    map[DateKey := [now],
        AuthorizationKey := [AuthorizationValue(auth.accessKey, Signature(crypto, auth.secretKey, now))],
        TokenKey := [auth.token]]
  }

  /**
   * Signs `hreq` for the timestamp `now` (already formatted as RFC 1123): three `Header.Set`
   * calls, each replacing whatever the key held. All three keys are in canonical MIME form,
   * so `Set` stores them as written. Nothing but the header map changes.
   */
  method Sign(auth: Credential, now: string, crypto: Crypto, hreq: HttpRequest)
    modifies hreq`header
    ensures hreq.header == old(hreq.header) + SigningWrites(auth, now, crypto)
  {
    var signature := Signature(crypto, auth.secretKey, now);
    var value := AuthorizationValue(auth.accessKey, signature);
    hreq.header := hreq.header[DateKey := [now]];
    hreq.header := hreq.header[AuthorizationKey := [value]];
    hreq.header := hreq.header[TokenKey := [auth.token]];
  }

  /** The first comma of `key + "," + tail` is the one after the key, when the key holds none. */
  lemma FirstCommaAfterKey(key: string, tail: string)
    requires ',' !in key
    ensures Strings.IndexOf(key + "," + tail, ",") == |key|
  {
    var rest := key + "," + tail;
    var comma := Strings.IndexOf(rest, ",");
    Strings.IndexOfFindsFirst(rest, ",");
    assert rest[|key|..|key| + 1] == ",";
    assert Strings.OccursAt(rest, ",", |key|);
    assert rest[comma..comma + 1] == [rest[comma]];
    forall i | 0 <= i < |key| ensures rest[i] != ',' {
      assert rest[i] == key[i];
    }
  }

  /** The authorization value gives back the access key and signature when the key holds no comma. */
  lemma AuthorizationRoundTrip(accessKey: string, signature: string)
    requires ',' !in accessKey
    ensures ParseAuthorization(AuthorizationValue(accessKey, signature)) == Some((accessKey, signature))
  {
    var h := AuthorizationValue(accessKey, signature);
    var rest := accessKey + "," + (AlgorithmPart + signature);
    assert h == AuthorizationPrefix + rest;
    assert h[..|AuthorizationPrefix|] == AuthorizationPrefix;
    assert h[|AuthorizationPrefix|..] == rest;
    FirstCommaAfterKey(accessKey, AlgorithmPart + signature);
    assert rest[..|accessKey|] == accessKey;
    var tail := rest[|accessKey| + 1..];
    assert tail == AlgorithmPart + signature;
    assert tail[..|AlgorithmPart|] == AlgorithmPart;
    assert tail[|AlgorithmPart|..] == signature;
  }

  /**
   * The written headers tie together: the date header holds the very timestamp whose
   * signature the authorization header carries, for the credential's own access key.
   */
  lemma SignedTimestampIsDated(auth: Credential, now: string, crypto: Crypto)
    requires ',' !in auth.accessKey
    ensures var w := SigningWrites(auth, now, crypto);
      && w.Keys == {DateKey, AuthorizationKey, TokenKey}
      && |w[DateKey]| == 1 && |w[AuthorizationKey]| == 1
      && ParseAuthorization(w[AuthorizationKey][0])
         == Some((auth.accessKey, Signature(crypto, auth.secretKey, w[DateKey][0])))
      && w[TokenKey] == [auth.token]
  {
    AuthorizationRoundTrip(auth.accessKey, Signature(crypto, auth.secretKey, now));
  }

  /** Moving the part between two separators from the key side to the signature side keeps the text. */
  lemma {:induction false} Regroup(prefix: string, key: string, sep: string, middle: string, signature: string)
    ensures prefix + (key + sep + middle) + sep + signature == prefix + key + sep + (middle + sep + signature)
  {
  }

  /**
   * The access key is written unescaped, so with a comma in it the layout is ambiguous:
   * a different key and signature give the same header value.
   */
  lemma {:induction false} CommaInAccessKeyIsAmbiguous(key: string, middle: string, signature: string)
    ensures AuthorizationValue(key + "," + AlgorithmPart + middle, signature)
         == AuthorizationValue(key, middle + "," + AlgorithmPart + signature)
  {
    Regroup(AuthorizationPrefix, key, "," + AlgorithmPart, middle, signature);
    assert key + "," + AlgorithmPart + middle == key + ("," + AlgorithmPart) + middle;
    assert AuthorizationPrefix + key + "," + AlgorithmPart == AuthorizationPrefix + key + ("," + AlgorithmPart);
    assert middle + "," + AlgorithmPart + signature == middle + ("," + AlgorithmPart) + signature;
  }
}
