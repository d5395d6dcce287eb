/** The string handling inside `decodeJwt` (App.tsx): take the second
    dot-separated segment of a compact JWT (section 3 of RFC 7519) and turn
    the base64url alphabet of section 5 of RFC 4648 into the base64 alphabet
    of its section 4. The `atob` and `JSON.parse` calls that follow are not
    part of this model; no signature is checked. */
module Jwt {
  import opened Types
  import opened JsString

  /** `.replace(/-/g, '+').replace(/_/g, '/')`. */
  function Base64UrlToBase64(s: string): (r: string)
    ensures |r| == |s|
  {
    ReplaceAll(ReplaceAll(s, '-', '+'), '_', '/')
  }

  /** The character each base64url character becomes. */
  function Base64Char(c: char): (r: char) {
    if c == '-' then '+' else if c == '_' then '/' else c
  }

  /** The two passes act as one character-by-character translation: every
      '-' becomes '+', every '_' becomes '/', everything else stays put. */
  lemma Base64UrlToBase64At(s: string, k: nat)
    requires k < |s|
    ensures Base64UrlToBase64(s)[k] == Base64Char(s[k])
  {
    ReplaceAllAt(s, '-', '+', k);
    ReplaceAllAt(ReplaceAll(s, '-', '+'), '_', '/', k);
  }

  /** The base64 text `decodeJwt` hands to `atob`, or `None` where
      `token.split('.')[1]` is undefined and the `.replace` call throws into
      the `catch` that returns null. */
  function PayloadBase64(token: string): (r: Option<string>)
    ensures r.None? <==> '.' !in token
  {
    var parts := Split(token, '.');
    if |parts| < 2 then None else Some(Base64UrlToBase64(parts[1]))
  }

  /** For a token `header.payload.signature` the text handed to `atob` is the
      payload segment, translated, whatever the signature holds. */
  lemma PayloadOfCompactToken(header: string, payload: string, signature: string)
    requires '.' !in header && '.' !in payload
    ensures PayloadBase64(header + "." + payload + "." + signature) == Some(Base64UrlToBase64(payload))
  {
    SplitAfterPiece(payload, '.', signature);
    assert header + "." + payload + "." + signature == header + ['.'] + (payload + ['.'] + signature);
    SplitAfterPiece(header, '.', payload + ['.'] + signature);
  }

  /** A token without a dot yields null, and a token with one yields a
      segment of the same length in which only '-' and '_' were rewritten. */
  lemma PayloadTranslation(token: string)
    ensures '.' !in token ==> PayloadBase64(token) == None
    ensures '.' in token ==>
      var seg := Split(token, '.')[1];
      PayloadBase64(token).Some? &&
      |PayloadBase64(token).value| == |seg| &&
      forall k :: 0 <= k < |seg| ==> PayloadBase64(token).value[k] == Base64Char(seg[k])
  {
    if '.' in token {
      var seg := Split(token, '.')[1];
      forall k | 0 <= k < |seg| ensures Base64UrlToBase64(seg)[k] == Base64Char(seg[k]) {
        Base64UrlToBase64At(seg, k);
      }
    }
  }
}
