# yum S3 plugin: the signing fetcher, in Dafny

This project models `UrllibGrabber` from the yum plugin `s3.py`. yum uses this fetcher to download packages from a private Amazon S3 bucket.

- The constructor normalises the configured `baseurl`.
- `_request` builds the URL from `baseurl` and the percent-encoded path.
- `s3sign` signs the request with Amazon S3's legacy REST authentication (signature version 2). It sets a `Date` header and an `Authorization` header of the form `AWS <key id>:<base64 HMAC-SHA1 of the string to sign>`.
- `urlgrab` picks a file name when none is given, then copies the response body into the file in chunks of 8192 bytes.

Modules, one per concern:

- `Strings` (`strings.dfy`): byte strings, first and last character search, Python's `str.split` and a join, and chunk concatenation.
- `Base64` (`base64.dfy`): the encoding of section 4 of RFC 4648 as `base64.b64encode` writes it, and a decoder.
- `Percent` (`percent.dfy`): Python 2 `urllib.quote` with its default `safe='/'`. This is the percent-encoding of section 2.1 of RFC 3986. The module also has `urllib.unquote`.
- `HttpDate` (`http_date.dfy`): `time.strftime("%a, %d %b %Y %H:%M:%S +0000", t)` with English names, and a parser for the result.
- `Urllib` (`urllib.dfy`): the parts of `urllib2` the plugin drives. These are a request whose header map `add_header` sets or overwrites, the split of a URL into host and selector, a response read in pieces, and the output file.
- `Signer` (`signer.dfy`): the bucket, the canonical resource, the string to sign, the `Authorization` value, the signed request and the check S3 makes on it.
- `Grabber` (`grabber.dfy`): `baseurl` normalisation, URL construction, the default file name and the `UrllibGrabber` class.

Parameters stand in for things outside the model:

- HMAC-SHA1 is a function parameter `mac` that returns a 20-byte `Digest`.
- The clock (`time.gmtime()`) is a parameter `now`.
- The network and S3 (`urllib2.urlopen`) are a parameter `server`. It maps the signed request to a body, an HTTP error status or a socket-level failure.

Signing is a function of its inputs, so identical inputs, including the date, always give the identical `Authorization` header.

Behaviour of `s3.py` worth knowing:

- `baseurl[0]` is applied to whatever is passed. A one-element list gives its URL, and a bare string is cut to its first character (`NormaliseBareString`).
- The constructor raises no error for a missing base URL or missing credentials.
- The default file name is the whole selector with one leading `/` removed.
- An empty selector with no file name given raises `IndexError`. The model treats this as an error result.

## Model

| member | source | states |
|---|---|---|
| `Signer.Bucket` | s3.py:98-99 | The bucket is the prefix of the host up to the first `.` and not including it. It is the whole host when the host has no `.`. |
| `Strings.Split` | s3.py:99 | `split` yields at least one field. Its first field runs up to the first separator, no field contains the separator, and joining the fields gives back the string. |
| `Signer.StringToSignLiteral` | s3.py:101-108 | The string to sign is exactly `method + "\n\n\n" + date + "\n" + resource`. Content-MD5 and Content-Type are empty. |
| `Signer.StringToSignFields` | s3.py:102-108 | When no field holds a newline, splitting the string to sign on `\n` gives back exactly the five fields `[method, "", "", date, resource]`. |
| `HttpDate.FormatDate` | s3.py:97 | A date string exists exactly when every field of the time tuple is in the ranges the model accepts (`InRange`). Otherwise there is no date, which stands for `strftime` raising. |
| `HttpDate.ParseFormatDate` | s3.py:97 | Parsing the formatted `Date` value gives back the time tuple. Distinct times therefore give distinct `Date` headers. |
| `HttpDate.DateLength` | s3.py:97 | For a four-digit year the `Date` value is 31 characters: `Ddd, DD Mon YYYY HH:MM:SS +0000`. |
| `HttpDate.Decimal` | s3.py:97 | `%Y` is a non-empty string of decimal digits. |
| `Base64.Encode` | s3.py:115 | The encoding is `4 * ceil(n / 3)` characters long. |
| `Base64.EncodeAlphabet` | s3.py:115 | The encoding uses only the base 64 alphabet and `=`. |
| `Base64.DecodeEncode` | s3.py:115 | Decoding the encoded digest gives back its bytes. |
| `Signer.ParseAuthorizationValue` | s3.py:115-116 | The `Authorization` value `"AWS " + key_id + ":" + base64(digest)` gives back the key id and the digest, even when the key id contains `:`. |
| `Signer.Signed` | s3.py:95-116 | Signing succeeds exactly when the effective time is in the ranges the model accepts. Otherwise signing fails before any header is set, as when `strftime` raises. |
| `Signer.SignedChangesOnlyTwoHeaders` | s3.py:100-116 | After signing, method, host and selector are unchanged. The header names are the old ones plus `Date` and `Authorization`, and every other header keeps its value. |
| `Signer.SignatureCoversDateHeader` | s3.py:97-116 | The `Date` header equals the formatted time and parses back to it. The `Authorization` header is `AWS key_id:base64(HMAC(secret, StringToSign(method, <that Date header>, "/" + bucket + selector)))`. |
| `Signer.SignedRequestAuthenticates` | s3.py:95-116 | When S3 rebuilds the string to sign from the request, a signed request passes with the secret S3 holds for the key id. |
| `Urllib.Request.AddHeader` | s3.py:100 | `add_header` sets or overwrites the header named by the capitalised key and leaves the others alone. |
| `Urllib.ParseUrlOf` | s3.py:98 | A URL `scheme://host` followed by a selector that is empty or starts with `/` or `?` splits back into that host and that selector. As `splithost` does, a `/` is put in front of a selector that starts with `?`, so `scheme://host?x` gives the selector `/?x`. |
| `Grabber.Normalise` | s3.py:87-91 | A non-empty list of mirrors becomes its first URL. A non-empty string becomes its first character. An empty string, an empty list and `None` are kept. |
| `Grabber.NormaliseMirrorList` | s3.py:87-91 | A list of mirrors is reduced to its first URL. |
| `Grabber.NormaliseBareString` | s3.py:87-91 | A bare string is kept if and only if it has at most one character. |
| `Grabber.UrllibGrabber.constructor` | s3.py:85-93 | The grabber stores the normalised `baseurl` and the two credentials as given. |
| `Percent.UnquoteQuote` | s3.py:119-121 | Unquoting the quoted path gives back the path. |
| `Percent.QuoteIdentity` | s3.py:121 | Quoting leaves the path unchanged exactly when every character is a letter, a digit or one of `_.-/`. |
| `Percent.QuoteIsSafe` | s3.py:121 | The quoted path holds only letters, digits, `_.-/`, `%` and hexadecimal digits. |
| `Grabber.RequestUrl` | s3.py:121 | The URL starts with the printed `baseurl`, with no separator added. The rest of the URL unquotes to the path. |
| `Grabber.PreparedRequest` | s3.py:118-123 | A request exists exactly when the URL splits into a host and a selector. |
| `Grabber.VirtualHostedRequest` | s3.py:118-123 | With a base URL `scheme://host[/prefix]`, the request that is sent is the signed GET for that host. Its selector is the prefix followed by the quoted path. |
| `Grabber.UrllibGrabber.S3Sign` | s3.py:95-116 | The method succeeds exactly when the supplied date, or the clock's time when none is given, is in range. It then leaves the request equal to `Signed` of the old request. On failure no header changes. |
| `Grabber.UrllibGrabber.BuildRequest` | s3.py:118-123 | The method returns a fresh request equal to `PreparedRequest`, or null when the URL has no host part. |
| `Grabber.DefaultFilename` | s3.py:129-132 | A given non-empty file name is kept. Otherwise there is no name exactly when the selector is empty, and the name is the selector with one leading `/` removed. |
| `Grabber.UrllibGrabber.CopyBody` | s3.py:135-139 | The writes concatenate to the rest of the body. Each write is non-empty and at most 8192 bytes. The loop ends with the body fully read. |
| `Grabber.UrllibGrabber.UrlGrab` | s3.py:125-158 | Errors come in source order: no host part, then empty selector, then the file is opened and truncated. On an HTTP error the result is `RepoError` with the file left empty. Other failures are raised again. A delivered body ends up in the file, in chunks of at most 8192 bytes, and the file name is returned. |

## Left out

- `config_hook` and `init_hook`: plugin registration and copying repository fields, dictated by yum's plugin API.
- `AmazonS3Repo`: a `YumRepository` subclass that creates the grabber lazily.
- `urlopen` and `urlread`: one-line wrappers around `urllib2.urlopen`. The `limit` argument of `urlread` is never used.
- Logging calls.
- HMAC-SHA1 internals and the `hashlib` to `sha` import fallback. HMAC-SHA1 is the `mac` parameter. Because of this, no known-answer signature vector can be stated.
- `time.gmtime` and locale-dependent names. The clock is the `now` parameter, and day and month names are the English abbreviations.
- `HttpDate.FormatDate`: out-of-range fields are errors, and the model accepts only the ranges of `InRange`. Several CPython behaviours are not modelled: month 0 and day 0 read as 1; the weekday taken modulo 7; years 0-99 mapped to 2000-2068 and 1969-1999 while `time.accept2dyear` is on, which is the default; the C `int` bound on the year; and the checks on `tm_yday` and `tm_isdst`. The core always passes `time.gmtime()`, whose fields are in range.
- `Urllib.ParseUrl`: a plain `scheme://host` split, with `splithost`'s leading `/` added to a selector that lacks one. `urllib2`'s `unwrap`, fragment removal, unquoting of the host and port handling are not modelled. A URL without a host part is an error at once, whereas `urllib2` fails only when `s3sign` asks for the host.
- `Percent.Quote`: paths are Python 2 byte strings, so every character is below 256. Unicode paths are not modelled.
- `Grabber.UrllibGrabber.UrlGrab`: `urlopen`'s outcome is all or nothing. A failure in the middle of the copy, which leaves a partial file, is not modelled.
- `Grabber.UrllibGrabber.UrlGrab`: the `except socket.*` clauses name a module that is never imported, so any non-HTTP failure surfaces as some exception. The model keeps only that it is raised again (`Reraised`).
- `Grabber.UrllibGrabber.UrlGrab`: a file that cannot be opened is not modelled. Real file I/O is an in-memory `OutFile` that records each write.
