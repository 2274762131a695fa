/**
 * The parts of Python 2's `urllib2` that the grabber drives: a request object whose
 * header map `add_header` updates, the split of a URL into host and selector, a
 * response read in chunks and the file the body is written to.
 */
module Urllib {

  import opened Wrappers
  import opened Strings

  function Upper(c: char): char
  {
    if 'a' <= c <= 'z' then (c as int - 32) as char else c
  }

  function Lower(c: char): char
  {
    if 'A' <= c <= 'Z' then (c as int + 32) as char else c
  }

  /** `str.capitalize`, which `add_header` applies to every header name. */
  function Capitalize(s: string): (r: string)
    ensures |r| == |s|
    ensures |s| > 0 ==> r[0] == Upper(s[0])
    ensures forall i :: 0 < i < |s| ==> r[i] == Lower(s[i])
  {
    if s == [] then [] else [Upper(s[0])] + seq(|s| - 1, i requires 0 <= i < |s| - 1 => Lower(s[i + 1]))
  }

  /** `splithost` puts a `/` in front of a non-empty path that does not start with one. */
  function Rooted(path: string): (r: string)
    ensures r == [] <==> path == []
    ensures r != [] ==> r[0] == '/'
    ensures path != [] && path[0] == '/' ==> r == path
    ensures path != [] && path[0] != '/' ==> r[1..] == path
  {
    if path != [] && path[0] != '/' then "/" + path else path
  }

  /**
   * The host and the selector of `scheme://host/selector`: the scheme runs up to the
   * first `:` and holds no `/`, the host runs from `//` up to the first `/` or `?`, and the
   * selector is the rest, with a `/` put in front when it starts with `?`. `None` where
   * `urllib2` raises instead.
   */
  function ParseUrl(url: string): (r: Option<(string, string)>)
    ensures r.Some? ==> '/' !in r.value.0 && '?' !in r.value.0
    ensures r.Some? ==> r.value.1 == [] || r.value.1[0] == '/'
  {
    var i := Find(url, {':'});
    if i == 0 || i == |url| || '/' in url[..i] then None
    else
      var rest := url[i + 1..];
      if |rest| < 2 || rest[..2] != "//" then None
      else
        var authority := rest[2..];
        var end := Find(authority, {'/', '?'});
        assert forall j :: 0 <= j < end ==> authority[..end][j] == authority[j];
        Some((authority[..end], Rooted(authority[end..])))
  }

  /**
   * A URL built from a scheme, a host and a selector splits back into that host and that
   * selector, with a `/` in front of a selector that starts with `?`.
   */
  lemma ParseUrlOf(scheme: string, host: string, selector: string)
    requires scheme != [] && ':' !in scheme && '/' !in scheme
    requires '/' !in host && '?' !in host
    requires selector == [] || selector[0] == '/' || selector[0] == '?'
    ensures ParseUrl(scheme + "://" + host + selector) == Some((host, Rooted(selector)))
  {
    var url := scheme + "://" + host + selector;
    assert url == scheme + ("://" + host + selector);
    FindPrefix(scheme, "://" + host + selector, {':'});
    assert url[..|scheme|] == scheme;
    var rest := url[|scheme| + 1..];
    assert rest == "//" + host + selector;
    assert rest[..2] == "//";
    var authority := rest[2..];
    assert authority == host + selector;
    FindPrefix(host, selector, {'/', '?'});
  }

  /** What a request holds when it is sent. */
  datatype RequestView = RequestView(httpMethod: string, host: string, selector: string, headers: map<string, string>)

  /** `urllib2.Request` for a URL without a body, so its method is `GET`. */
  class Request {
    const httpMethod: string
    const host: string
    const selector: string
    var headers: map<string, string>

    constructor (url: string)
      requires ParseUrl(url).Some?
      ensures httpMethod == "GET"
      ensures (host, selector) == ParseUrl(url).value
      ensures headers == map[]
    {
      httpMethod := "GET";
      host := ParseUrl(url).value.0;
      selector := ParseUrl(url).value.1;
      headers := map[];
    }

    function View(): RequestView
      reads this
    {
      RequestView(httpMethod, host, selector, headers)
    }

    /** Sets the header, or overwrites it when it is already there. */
    method AddHeader(key: string, val: string)
      modifies this
      ensures headers == old(headers)[Capitalize(key) := val]
    {
      headers := headers[Capitalize(key) := val];
    }
  }

  /** The response to a request: its body, read from the front. */
  class Response {
    const body: seq<byte>
    var pos: nat

    ghost predicate Valid()
      reads this
    {
      pos <= |body|
    }

    /** The part of the body not yet read. */
    function Remaining(): seq<byte>
      reads this
      requires Valid()
    {
      body[pos..]
    }

    constructor (body: seq<byte>)
      ensures Valid() && this.body == body && Remaining() == body
    {
      this.body := body;
      pos := 0;
    }

    /** `read(n)`: the next `n` bytes, or all that are left when fewer remain; empty only at the end. */
    method Read(n: nat) returns (chunk: seq<byte>)
      requires Valid()
      modifies this
      ensures Valid()
      ensures |chunk| <= n && chunk <= old(Remaining())
      ensures Remaining() == old(Remaining())[|chunk|..]
      ensures |chunk| == n || Remaining() == []
    {
      var k := if n <= |body| - pos then n else |body| - pos;
      chunk := body[pos..pos + k];
      pos := pos + k;
    }
  }

  /** A file opened for writing; `written` records every buffer passed to `write`, in order. */
  class OutFile {
    const name: string
    var written: seq<seq<byte>>

    /** `open(name, 'w+')` truncates the file. */
    constructor (name: string)
      ensures this.name == name && written == []
    {
      this.name := name;
      written := [];
    }

    /** The bytes in the file. */
    function Contents(): seq<byte>
      reads this
    {
      Concat(written)
    }

    method Write(buff: seq<byte>)
      modifies this
      ensures written == old(written) + [buff]
    {
      written := written + [buff];
    }
  }
}
