/**
 * Amazon S3's legacy REST authentication (signature version 2) as `s3sign` computes it
 * for a GET request without a body: the bucket from the host, the canonical resource,
 * the string to sign, the `Date` header and the `Authorization` header.
 */
module Signer {

  import opened Wrappers
  import opened Strings
  import opened Base64
  import opened HttpDate
  import opened Urllib

  /** The 20 bytes of an HMAC-SHA1 digest. */
  type Digest = s: seq<byte> | |s| == 20 witness seq(20, _ => 0)

  /**
   * HMAC-SHA1 (RFC 2104 over SHA-1) keyed by its first argument over its second. Its
   * internals are not modelled: every operation takes it as a parameter.
   */
  type Mac = (string, string) -> Digest

  /** `host.split('.')[0]`: the first label of a virtual-hosted S3 host. */
  function Bucket(host: string): (b: string)
    ensures b <= host
    ensures '.' !in b
    ensures |b| < |host| ==> host[|b|] == '.'
  {
    Split(host, '.')[0]
  }

  /** The canonical resource covered by the signature. */
  function Resource(bucket: string, selector: string): string
  {
    "/" + bucket + selector
  }

  /**
   * The five newline-separated fields: method, Content-MD5 and Content-Type (both empty
   * for a GET without a body), date and canonical resource.
   */
  function StringToSign(verb: string, date: string, resource: string): string
  {
    Join([verb, "", "", date, resource], '\n')
  }

  /** The string to sign is exactly `verb + "\n\n\n" + date + "\n" + resource`. */
  lemma StringToSignLiteral(verb: string, date: string, resource: string)
    ensures StringToSign(verb, date, resource) == verb + "\n\n\n" + date + "\n" + resource
  {
    JoinCons(date, [resource], '\n');
    JoinCons("", [date, resource], '\n');
    JoinCons("", ["", date, resource], '\n');
    JoinCons(verb, ["", "", date, resource], '\n');
    assert [verb, "", "", date, resource] == [verb] + ["", "", date, resource];
  }

  /** When no field holds a newline, the five fields can be read back from the string to sign. */
  lemma StringToSignFields(verb: string, date: string, resource: string)
    requires '\n' !in verb && '\n' !in date && '\n' !in resource
    ensures Split(StringToSign(verb, date, resource), '\n') == [verb, "", "", date, resource]
  {
    SplitJoin([verb, "", "", date, resource], '\n');
  }

  /** `"AWS " + key_id + ":" + base64(digest)` */
  function AuthorizationValue(keyId: string, digest: seq<byte>): string
  {
    "AWS " + keyId + ":" + Encode(digest)
  }

  /** The key id and the digest an `Authorization` value carries; the key id runs up to the last `:`. */
  function ParseAuthorization(v: string): Option<(string, seq<byte>)>
  {
    if |v| < 4 || v[..4] != "AWS " then None
    else
      var rest := v[4..];
      var colon := RFind(rest, ':');
      if colon < 0 then None
      else
        match Decode(rest[colon + 1..])
        case None => None
        case Some(digest) => Some((rest[..colon], digest))
  }

  /** The `Authorization` value gives back the key id and the digest it was built from. */
  lemma ParseAuthorizationValue(keyId: string, digest: seq<byte>)
    ensures ParseAuthorization(AuthorizationValue(keyId, digest)) == Some((keyId, digest))
  {
    var e := Encode(digest);
    var v := AuthorizationValue(keyId, digest);
    var rest := keyId + ":" + e;
    assert v[..4] == "AWS " && v[4..] == rest;
    assert rest[|keyId|] == ':';
    assert forall j :: |keyId| < j < |rest| ==> rest[j] == e[j - |keyId| - 1];
    EncodeAlphabet(digest);
    assert ':' !in e;
    assert RFind(rest, ':') == |keyId|;
    assert rest[..|keyId|] == keyId && rest[|keyId| + 1..] == e;
    DecodeEncode(digest);
  }

  lemma CapitalizedNames()
    ensures Capitalize("Date") == "Date"
    ensures Capitalize("Authorization") == "Authorization"
  {
  }

  /**
   * The request after `s3sign`: the `Date` header is set to the formatted time, then the
   * string to sign is built from the request's method, that header and the canonical
   * resource, and the `Authorization` header is set from its digest. `None` where
   * the time is outside the ranges the model accepts, before any header is touched.
   */
  function Signed(v: RequestView, secretKey: string, keyId: string, t: TimeTuple, mac: Mac): (r: Option<RequestView>)
    ensures r.Some? <==> InRange(t)
  {
    match FormatDate(t)
    case None => None
    case Some(date) =>
      CapitalizedNames();
      var withDate := v.headers[Capitalize("Date") := date];
      var resource := Resource(Bucket(v.host), v.selector);
      var digest := mac(secretKey, StringToSign(v.httpMethod, withDate["Date"], resource));
      Some(v.(headers := withDate[Capitalize("Authorization") := AuthorizationValue(keyId, digest)]))
  }

  /** Signing sets or overwrites `Date` and `Authorization` and leaves everything else as it was. */
  lemma SignedChangesOnlyTwoHeaders(v: RequestView, secretKey: string, keyId: string, t: TimeTuple, mac: Mac)
    requires InRange(t)
    ensures var r := Signed(v, secretKey, keyId, t, mac).value;
      && r.httpMethod == v.httpMethod && r.host == v.host && r.selector == v.selector
      && r.headers.Keys == v.headers.Keys + {"Date", "Authorization"}
      && forall k :: k in v.headers && k != "Date" && k != "Authorization" ==> r.headers[k] == v.headers[k]
  {
    CapitalizedNames();
  }

  /**
   * The `Date` header shows the time, and the signature in the `Authorization` header
   * covers that header's literal value.
   */
  lemma SignatureCoversDateHeader(v: RequestView, secretKey: string, keyId: string, t: TimeTuple, mac: Mac)
    requires InRange(t)
    ensures var r := Signed(v, secretKey, keyId, t, mac).value;
      && "Date" in r.headers && "Authorization" in r.headers
      && r.headers["Date"] == FormatDate(t).value
      && ParseDate(r.headers["Date"]) == Some(t)
      && r.headers["Authorization"]
         == AuthorizationValue(keyId, mac(secretKey, StringToSign(v.httpMethod, r.headers["Date"], Resource(Bucket(v.host), v.selector))))
  {
    CapitalizedNames();
    ParseFormatDate(t);
  }

  /**
   * The check the S3 service makes: the key id named in `Authorization` has a secret,
   * and the digest carried equals the HMAC of the string to sign rebuilt from the request.
   * Gives the key id accepted.
   */
  function Authenticate(v: RequestView, secrets: map<string, string>, mac: Mac): Option<string>
  {
    if "Date" !in v.headers || "Authorization" !in v.headers then None
    else
      match ParseAuthorization(v.headers["Authorization"])
      case None => None
      case Some((keyId, digest)) =>
        if keyId in secrets
           && digest == mac(secrets[keyId], StringToSign(v.httpMethod, v.headers["Date"], Resource(Bucket(v.host), v.selector)))
        then Some(keyId)
        else None
  }

  /** A request signed with the secret the service holds for the key id is accepted as that key id. */
  lemma SignedRequestAuthenticates(v: RequestView, secrets: map<string, string>, keyId: string, t: TimeTuple, mac: Mac)
    requires InRange(t)
    requires keyId in secrets
    ensures Authenticate(Signed(v, secrets[keyId], keyId, t, mac).value, secrets, mac) == Some(keyId)
  {
    var r := Signed(v, secrets[keyId], keyId, t, mac).value;
    SignatureCoversDateHeader(v, secrets[keyId], keyId, t, mac);
    var digest := mac(secrets[keyId], StringToSign(v.httpMethod, r.headers["Date"], Resource(Bucket(v.host), v.selector)));
    ParseAuthorizationValue(keyId, digest);
  }
}
