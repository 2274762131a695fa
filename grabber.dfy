/**
 * `UrllibGrabber`: the fetcher yum calls to download a file from a private S3 bucket.
 * It builds the URL from the base URL and the quoted path, signs the request, derives
 * a file name when none is given and copies the response body to the file in chunks.
 */
module Grabber {

  import opened Wrappers
  import opened Strings
  import opened Percent
  import opened HttpDate
  import opened Urllib
  import opened Signer

  /** What the repository configuration passes as `baseurl`: a string, a list of mirror URLs, or `None`. */
  datatype BaseUrl = Text(s: string) | Mirrors(urls: seq<string>) | Absent

  /**
   * `try: baseurl = baseurl[0] except: pass`: the first element when indexing succeeds;
   * an empty string, an empty list and `None` are kept as they are.
   */
  function Normalise(b: BaseUrl): (r: BaseUrl)
    ensures r.Mirrors? ==> r.urls == []
    ensures b.Mirrors? && b.urls != [] ==> r == Text(b.urls[0])
    ensures b.Text? ==> r.Text? && r.s <= b.s && |r.s| == if b.s == [] then 0 else 1
    ensures b == Absent || b == Mirrors([]) ==> r == b
  {
    match b
    case Text(s) => if s == [] then b else Text([s[0]])
    case Mirrors(urls) => if urls == [] then b else Text(urls[0])
    case Absent => b
  }

  /** A list of mirrors is reduced to its first URL, whatever follows it. */
  lemma NormaliseMirrorList(u: string, rest: seq<string>)
    ensures Normalise(Mirrors([u] + rest)) == Text(u)
  {
    assert ([u] + rest)[0] == u;
  }

  /** A bare string is kept only when it has at most one character; otherwise it is cut to its first. */
  lemma NormaliseBareString(s: string)
    ensures Normalise(Text(s)) == Text(s) <==> |s| <= 1
  {
    if |s| == 1 {
      assert [s[0]] == s;
    }
  }

  /** `"%s" % baseurl` for a normalised value. */
  function Render(b: BaseUrl): string
    requires b.Mirrors? ==> b.urls == []
  {
    match b
    case Text(s) => s
    case Mirrors(_) => "[]"
    case Absent => "None"
  }

  /** `"%s%s" % (self.baseurl, quote(url))`: no separator is inserted and the base is not quoted. */
  function RequestUrl(baseurl: BaseUrl, path: string): (url: string)
    requires baseurl.Mirrors? ==> baseurl.urls == []
    requires IsByteString(path)
    ensures Render(baseurl) <= url
    ensures Unquote(url[|Render(baseurl)|..]) == path
  {
    UnquoteQuote(path);
    var url := Render(baseurl) + Quote(path);
    assert url[|Render(baseurl)|..] == Quote(path);
    url
  }

  /** The request `_request` sends for `path`, signed with the credentials at time `now`. */
  function PreparedRequest(baseurl: BaseUrl, accessKey: string, secretKey: string, path: string, now: TimeTuple, mac: Mac)
    : (r: Option<RequestView>)
    requires baseurl.Mirrors? ==> baseurl.urls == []
    requires IsByteString(path)
    requires InRange(now)
    ensures r.Some? <==> ParseUrl(RequestUrl(baseurl, path)).Some?
  {
    match ParseUrl(RequestUrl(baseurl, path))
    case None => None
    case Some((host, selector)) => Signed(RequestView("GET", host, selector, map[]), secretKey, accessKey, now, mac)
  }

  lemma PreparedIsSigned(baseurl: BaseUrl, accessKey: string, secretKey: string, path: string, now: TimeTuple, mac: Mac,
                         host: string, selector: string)
    requires baseurl.Mirrors? ==> baseurl.urls == []
    requires IsByteString(path) && InRange(now)
    requires ParseUrl(RequestUrl(baseurl, path)) == Some((host, selector))
    ensures PreparedRequest(baseurl, accessKey, secretKey, path, now, mac)
            == Signed(RequestView("GET", host, selector, map[]), secretKey, accessKey, now, mac)
  {
  }

  lemma SelectorStartsWithSlash(prefix: string, path: string)
    requires prefix != [] ==> prefix[0] == '/'
    requires prefix == [] && path != [] ==> path[0] == '/'
    requires IsByteString(path)
    ensures prefix + Quote(path) == [] || (prefix + Quote(path))[0] == '/'
  {
    if prefix == [] && path != [] {
      QuoteLeadingSlash(path);
    }
  }

  lemma UrlConcat(base: string, prefix: string, path: string)
    requires IsByteString(path)
    ensures RequestUrl(Text(base + prefix), path) == base + (prefix + Quote(path))
  {
  }

  lemma VirtualHostedSplit(scheme: string, host: string, prefix: string, path: string)
    requires scheme != [] && ':' !in scheme && '/' !in scheme
    requires '/' !in host && '?' !in host
    requires prefix != [] ==> prefix[0] == '/'
    requires prefix == [] && path != [] ==> path[0] == '/'
    requires IsByteString(path)
    ensures ParseUrl(RequestUrl(Text(scheme + "://" + host + prefix), path)) == Some((host, prefix + Quote(path)))
  {
    var selector := prefix + Quote(path);
    var url := RequestUrl(Text(scheme + "://" + host + prefix), path);
    UrlConcat(scheme + "://" + host, prefix, path);
    SelectorStartsWithSlash(prefix, path);
    ParseUrlOf(scheme, host, selector);
    assert Rooted(selector) == selector;
  }

  /**
   * With a virtual-hosted base URL `scheme://host` followed by an optional path prefix,
   * the request goes to that host and its selector, which the signature covers after
   * `"/" + bucket`, is the prefix followed by the quoted path.
   */
  lemma VirtualHostedRequest(scheme: string, host: string, prefix: string, accessKey: string, secretKey: string,
                             path: string, now: TimeTuple, mac: Mac)
    requires scheme != [] && ':' !in scheme && '/' !in scheme
    requires '/' !in host && '?' !in host
    requires prefix != [] ==> prefix[0] == '/'
    requires prefix == [] && path != [] ==> path[0] == '/'
    requires IsByteString(path)
    requires InRange(now)
    ensures PreparedRequest(Text(scheme + "://" + host + prefix), accessKey, secretKey, path, now, mac)
            == Signed(RequestView("GET", host, prefix + Quote(path), map[]), secretKey, accessKey, now, mac)
  {
    VirtualHostedSplit(scheme, host, prefix, path);
    PreparedIsSigned(Text(scheme + "://" + host + prefix), accessKey, secretKey, path, now, mac, host, prefix + Quote(path));
  }

  /**
   * `if not filename: filename = selector; if filename[0] == '/': filename = filename[1:]`.
   * `None` where indexing the empty selector raises `IndexError`.
   */
  function DefaultFilename(filename: Option<string>, selector: string): (r: Option<string>)
    ensures filename.Some? && filename.value != [] ==> r == filename
    ensures (filename.None? || filename.value == []) ==> (r.None? <==> selector == [])
    ensures (filename.None? || filename.value == []) && r.Some? ==>
      (if selector[0] == '/' then "/" + r.value else r.value) == selector
  {
    if filename.Some? && filename.value != [] then filename
    else if selector == [] then None
    else if selector[0] == '/' then Some(selector[1..])
    else Some(selector)
  }

  /** The size of every `read` in the copy loop. */
  const CHUNK_SIZE := 8192

  /** What `urllib2.urlopen` does with a request: a body, an HTTP error status, or a socket-level failure. */
  datatype Reply = Delivered(body: seq<byte>) | HttpError(code: int) | SocketError

  datatype GrabError =
    | UnknownUrlType    // the URL has no `scheme://host` part, so `urllib2` cannot give a host
    | EmptySelector     // no file name was given and the selector is empty
    | RepoError(code: int)  // an HTTP error, reported as `yum.Errors.RepoError`
    | Reraised          // any other failure of `urlopen` or `read`, raised again

  datatype GrabResult = Grabbed(filename: string) | Failed(error: GrabError)

  /** Writing the buffer moves it from what is pending into what has been copied. */
  lemma ConcatStep(copied: seq<seq<byte>>, buff: seq<byte>, rest: seq<byte>, body: seq<byte>)
    requires Concat(copied) + buff + rest == body
    ensures Concat(copied + [buff]) + rest == body
  {
    ConcatSnoc(copied, buff);
  }

  class UrllibGrabber {
    const baseurl: BaseUrl
    const awsAccessKey: string
    const awsSecretKey: string

    ghost predicate Valid()
    {
      baseurl.Mirrors? ==> baseurl.urls == []
    }

    constructor (awsAccessKey: string, awsSecretKey: string, baseurl: BaseUrl)
      ensures Valid()
      ensures this.baseurl == Normalise(baseurl)
      ensures this.awsAccessKey == awsAccessKey && this.awsSecretKey == awsSecretKey
    {
      this.baseurl := Normalise(baseurl);
      this.awsAccessKey := awsAccessKey;
      this.awsSecretKey := awsSecretKey;
    }

    /**
     * Sets the `Date` header from `date`, or from the clock's `now` when no date is given,
     * and then the `Authorization` header. `ok` is false where the time is outside the ranges the model accepts;
     * the request is then untouched.
     */
    method S3Sign(request: Request, secretKey: string, keyId: string, date: Option<TimeTuple>, now: TimeTuple, mac: Mac)
      returns (ok: bool)
      modifies request
      ensures ok <==> InRange(EffectiveTime(date, now))
      ensures Signed(old(request.View()), secretKey, keyId, EffectiveTime(date, now), mac)
              == if ok then Some(request.View()) else None
      ensures !ok ==> request.headers == old(request.headers)
    {
      var formatted := FormatDate(EffectiveTime(date, now));
      if formatted.None? {
        return false;
      }
      var host := request.host;
      var bucket := Bucket(host);
      request.AddHeader("Date", formatted.value);
      CapitalizedNames();
      var resource := Resource(bucket, request.selector);
      var sigstring := StringToSign(request.httpMethod, request.headers["Date"], resource);
      var digest := mac(secretKey, sigstring);
      request.AddHeader("Authorization", AuthorizationValue(keyId, digest));
      ok := true;
    }

    /** `_request`: the request for the quoted path, signed with the grabber's credentials at time `now`. */
    method BuildRequest(path: string, now: TimeTuple, mac: Mac) returns (req: Request?)
      requires Valid() && IsByteString(path) && InRange(now)
      ensures req == null <==> ParseUrl(RequestUrl(baseurl, path)).None?
      ensures req != null ==> fresh(req) && PreparedRequest(baseurl, awsAccessKey, awsSecretKey, path, now, mac) == Some(req.View())
    {
      var url := RequestUrl(baseurl, path);
      if ParseUrl(url).None? {
        return null;
      }
      req := new Request(url);
      var ok := S3Sign(req, awsSecretKey, awsAccessKey, None, now, mac);
    }

    /**
     * `buff = resp.read(8192); while buff: out.write(buff); buff = resp.read(8192)`:
     * what is written is the rest of the body, in non-empty writes of at most 8192 bytes.
     */
    method CopyBody(resp: Response, out: OutFile)
      requires resp.Valid()
      modifies resp, out
      ensures resp.Valid() && resp.Remaining() == []
      ensures |old(out.written)| <= |out.written| && out.written[..|old(out.written)|] == old(out.written)
      ensures Concat(out.written[|old(out.written)|..]) == old(resp.Remaining())
      ensures forall k :: |old(out.written)| <= k < |out.written| ==> 0 < |out.written[k]| <= CHUNK_SIZE
    {
      ghost var start := |out.written|;
      ghost var body := resp.Remaining();
      ghost var copied: seq<seq<byte>> := [];
      var buff := resp.Read(CHUNK_SIZE);
      while buff != []
        invariant resp.Valid()
        invariant out.written == old(out.written) + copied
        invariant Concat(copied) + buff + resp.Remaining() == body
        invariant |buff| <= CHUNK_SIZE
        invariant forall k :: 0 <= k < |copied| ==> 0 < |copied[k]| <= CHUNK_SIZE
        invariant |buff| < CHUNK_SIZE ==> resp.Remaining() == []
        decreases |resp.Remaining()| + |buff|
      {
        out.Write(buff);
        ghost var rest := resp.Remaining();
        ConcatStep(copied, buff, rest, body);
        copied := copied + [buff];
        buff := resp.Read(CHUNK_SIZE);
      }
      assert out.written[start..] == copied;
    }

    /**
     * `urlgrab`: builds and signs the request, settles the file name, opens (truncates) the
     * file and, when the server delivers a body, copies it into the file. `server` stands for
     * the network and S3: what `urlopen` does with the signed request.
     */
    method UrlGrab(path: string, filename: Option<string>, now: TimeTuple, mac: Mac, server: RequestView -> Reply)
      returns (r: GrabResult, out: OutFile?)
      requires Valid() && IsByteString(path) && InRange(now)
      ensures var prepared := PreparedRequest(baseurl, awsAccessKey, awsSecretKey, path, now, mac);
        match prepared
        case None => r == Failed(UnknownUrlType) && out == null
        case Some(v) =>
          match DefaultFilename(filename, v.selector)
          case None => r == Failed(EmptySelector) && out == null
          case Some(name) =>
            && out != null && fresh(out) && out.name == name
            && match server(v)
               case HttpError(code) => r == Failed(RepoError(code)) && out.written == []
               case SocketError => r == Failed(Reraised) && out.written == []
               case Delivered(body) =>
                 && r == Grabbed(name)
                 && out.Contents() == body
                 && forall k :: 0 <= k < |out.written| ==> 0 < |out.written[k]| <= CHUNK_SIZE
    {
      var req := BuildRequest(path, now, mac);
      if req == null {
        return Failed(UnknownUrlType), null;
      }
      var name := DefaultFilename(filename, req.selector);
      if name.None? {
        return Failed(EmptySelector), null;
      }
      out := new OutFile(name.value);
      var reply := server(req.View());
      match reply {
        case HttpError(code) =>
          r := Failed(RepoError(code));
        case SocketError =>
          r := Failed(Reraised);
        case Delivered(body) =>
          var resp := new Response(body);
          CopyBody(resp, out);
          assert out.written[0..] == out.written;
          r := Grabbed(name.value);
      }
    }
  }
}
