/**
 * `download_image`: turns an input descriptor into the bytes of an image. A
 * descriptor starting with "http" is fetched; otherwise one holding a comma gives
 * the UTF-8 bytes of its second comma-separated field (taken as text, not
 * base64-decoded); anything else is refused. The HTTP GET is an oracle `get`
 * from URL to reply, and the resolution records which URLs it fetched.
 */
module ImageResolver {
  import opened JsonValue
  import opened PyStr
  import opened Utf8

  /** What the GET gave: the server's answer (status, body bytes and body text),
      or a failure of the transport itself, which the client raises. */
  datatype FetchReply = FetchReply(status: int, content: seq<byte>, text: string) | TransportFailure

  /** The bytes (or the ValueError raised) and the URLs fetched on the way. */
  datatype Resolution = Resolution(bytes: Result<seq<byte>>, fetched: seq<string>)

  const InvalidDescriptor: string := "Invalid image URL"

  function DownloadFailed(url: string, text: string): string {
    "Failed to download image from URL " + url + ": " + text
  }

  predicate IsHttp(descriptor: string) {
    StartsWith(descriptor, "http")
  }

  /** The test `download_image` applies first: the descriptor begins with the four
      letters "http", so both "http://" and "https://" URLs pass, and so does any
      other text beginning with those letters; a "data:" URI does not. */
  lemma HttpDescriptors(rest: string)
    ensures IsHttp(rest) <==> |rest| >= 4 && rest == "http" + rest[4..]
    ensures IsHttp("http://" + rest) && IsHttp("https://" + rest) && IsHttp("http" + rest)
    ensures !IsHttp("data:" + rest)
  {
    StartsWithPrefix(rest, "http");
    StartsWithPrefix("://" + rest, "http");
    assert "http://" + rest == "http" + ("://" + rest);
    StartsWithPrefix("s://" + rest, "http");
    assert "https://" + rest == "http" + ("s://" + rest);
    StartsWithPrefix(rest, "http");
    StartsWithPrefix("http" + rest, "http");
    assert ("data:" + rest)[0] == 'd';
  }

  /** `download_image(descriptor)`: at most one fetch, of the descriptor itself; it
      yields bytes only for an "http" or a comma-holding descriptor, and raises
      only a ValueError or the client's own exception. */
  function Resolve(descriptor: string, get: string -> FetchReply): (r: Resolution)
    ensures |r.fetched| <= 1 && (r.fetched != [] ==> r.fetched == [descriptor])
    ensures r.bytes.Ok? ==> IsHttp(descriptor) || ',' in descriptor
    ensures r.bytes.Err? ==> r.bytes.error.ValueError? || r.bytes.error == HttpxError
  {
    if IsHttp(descriptor) then
      match get(descriptor)
      case TransportFailure => Resolution(Err(HttpxError), [descriptor])
      case FetchReply(status, content, text) =>
        if status == 200 then Resolution(Ok(content), [descriptor])
        else Resolution(Err(ValueError(DownloadFailed(descriptor, text))), [descriptor])
    else if ',' in descriptor then
      Resolution(Ok(Encode(SplitOn(descriptor, ',')[1])), [])
    else
      Resolution(Err(ValueError(InvalidDescriptor)), [])
  }

  /** The text between the first comma of `s` and the next one (or the end):
      it holds no comma, starts right after the first comma, and is followed by a
      comma or by the end of `s`. */
  function InlineField(s: string): (f: string)
    requires ',' in s
    ensures ',' !in f
    ensures var start := IndexOf(s, ',') + 1;
            start + |f| <= |s| && f == s[start..start + |f|] &&
            (start + |f| == |s| || s[start + |f|] == ',')
  {
    var t := s[IndexOf(s, ',') + 1..];
    var k := IndexOf(t, ',');
    assert t[..k] == s[IndexOf(s, ',') + 1..IndexOf(s, ',') + 1 + k];
    assert forall m :: 0 <= m < k ==> t[..k][m] == t[m];
    t[..k]
  }

  /** An "http..." descriptor is fetched exactly once, even when it holds a comma,
      and resolves to the body exactly when the server answers with status 200;
      a transport failure escapes as the client's exception. */
  lemma ResolveHttp(descriptor: string, get: string -> FetchReply)
    requires IsHttp(descriptor)
    ensures Resolve(descriptor, get).fetched == [descriptor]
    ensures Resolve(descriptor, get).bytes.Ok? <==> get(descriptor).FetchReply? && get(descriptor).status == 200
    ensures get(descriptor).TransportFailure? ==> Resolve(descriptor, get).bytes == Err(HttpxError)
    ensures get(descriptor).FetchReply? && get(descriptor).status == 200 ==>
      Resolve(descriptor, get).bytes == Ok(get(descriptor).content)
    ensures get(descriptor).FetchReply? && get(descriptor).status != 200 ==>
      Resolve(descriptor, get).bytes == Err(ValueError(DownloadFailed(descriptor, get(descriptor).text)))
  {
  }

  /** Any other descriptor with a comma is resolved without a fetch, to the UTF-8
      bytes of the field between its first and second comma; those bytes decode
      back to that field. */
  lemma ResolveInline(descriptor: string, get: string -> FetchReply)
    requires !IsHttp(descriptor) && ',' in descriptor
    ensures Resolve(descriptor, get).fetched == []
    ensures Resolve(descriptor, get).bytes == Ok(Encode(InlineField(descriptor)))
    ensures Decode(Resolve(descriptor, get).bytes.value) == Some(InlineField(descriptor))
  {
    SecondField(descriptor, ',');
    DecodeEncode(InlineField(descriptor));
  }

  /** A descriptor with neither an "http" prefix nor a comma is refused, without a fetch. */
  lemma ResolveInvalid(descriptor: string, get: string -> FetchReply)
    requires !IsHttp(descriptor) && ',' !in descriptor
    ensures Resolve(descriptor, get) == Resolution(Err(ValueError(InvalidDescriptor)), [])
  {
  }

  /** At most one URL is fetched, and only the descriptor itself. */
  lemma ResolveFetchesAtMostDescriptor(descriptor: string, get: string -> FetchReply)
    ensures Resolve(descriptor, get).fetched == (if IsHttp(descriptor) then [descriptor] else [])
  {
  }

  /** A descriptor `p,t` whose `p` holds no comma and does not start with "http"
      (it may be empty or shorter than "http") resolves to the bytes of `t` when `t` holds no comma either. */
  lemma ResolveDataUri(p: string, t: string, get: string -> FetchReply)
    requires !IsHttp(p) && ',' !in p && ',' !in t
    ensures Resolve(p + [','] + t, get) == Resolution(Ok(Encode(t)), [])
  {
    var d := p + [','] + t;
    assert !IsHttp(d) by {
      if |p| >= 4 {
        assert d[..4] == p[..4];
      } else if |d| >= 4 {
        assert d[..4][|p|] == ',';
      }
    }
    assert ',' in d by { assert d[|p|] == ','; }
    IndexOfAfter(p, ',', t);
    ResolveInline(d, get);
    var f := InlineField(d);
    assert d[|p| + 1..] == t;
    assert f == t;
  }

  /** A descriptor that only looks like a URL is still fetched: "httpfoo,QUJD"
      goes to the GET, and a transport failure there escapes as the client's
      exception rather than as a ValueError. */
  lemma HttpPrefixIsFetched(get: string -> FetchReply)
    ensures Resolve("httpfoo,QUJD", get).fetched == ["httpfoo,QUJD"]
    ensures get("httpfoo,QUJD").TransportFailure? ==> Resolve("httpfoo,QUJD", get).bytes == Err(HttpxError)
  {
    assert IsHttp("httpfoo,QUJD") by { assert "httpfoo,QUJD"[..4] == "http"; }
  }

  /** The worked example of an inline data URI: "data:image/png;base64,QUJD" gives
      the four bytes of the text "QUJD", not the base64-decoded "ABC". */
  lemma InlineDataUri(get: string -> FetchReply)
    ensures Resolve("data:image/png;base64,QUJD", get) == Resolution(Ok([81, 85, 74, 68]), [])
  {
    var p, t := "data:image/png;base64", "QUJD";
    assert !IsHttp(p) by { assert p[..4][0] == 'd'; }
    assert ',' !in p;
    assert ',' !in t;
    ResolveDataUri(p, t, get);
    EncodeAscii(t);
    var bytes := Encode(t);
    assert bytes[0] == 81 && bytes[1] == 85 && bytes[2] == 74 && bytes[3] == 68;
    assert bytes == [81, 85, 74, 68];
    assert p + [','] + t == "data:image/png;base64,QUJD";
  }
}
