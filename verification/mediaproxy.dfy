/** `proxify_image_url` (app.py:48-54): a media URL rewritten as a download URL of the
    media proxy host, with the original URL's UTF-8 bytes base64url-encoded in the path. */
module MediaProxy {
  import opened Wrappers
  import opened PyStrings
  import Utf8
  import Base64Url

  /** The proxy host used when none is configured. */
  const DefaultHost: PyString := Lit("assets.mtux.nl")

  /** `MEDIA_PROXY_URL_BASE` for a given `MEDIA_PROXY_HOST`. */
  function UrlBase(host: PyString): PyString {
    Lit("https://") + host + Lit("/_matrix/media/r0/download/") + host
  }

  /** What every rewritten URL starts with; the encoded segment follows it. */
  function Prefix(host: PyString): (p: PyString)
    ensures |p| > 0
  {
    UrlBase(host) + Lit("/url_")
  }

  /** The prefix is `https://`, the host, the download path, the host again and `/url_`. */
  lemma PrefixShape(host: PyString)
    ensures var p := Prefix(host);
      && |p| == 40 + 2 * |host|
      && p[..8] == Lit("https://") && p[8..8 + |host|] == host
      && p[8 + |host|..35 + |host|] == Lit("/_matrix/media/r0/download/")
      && p[35 + |host|..35 + 2 * |host|] == host
      && p[35 + 2 * |host|..] == Lit("/url_")
  {
  }

  /** The prefix names its host: different hosts give different prefixes. */
  lemma PrefixInjective(h1: PyString, h2: PyString)
    requires Prefix(h1) == Prefix(h2)
    ensures h1 == h2
  {
    PrefixShape(h1);
    PrefixShape(h2);
  }

  /** `proxify_image_url`: empty for an absent or empty URL; the original URL when it
      cannot be UTF-8 encoded; otherwise the proxy prefix and the unpadded encoding. */
  function Proxify(host: PyString, url: Option<PyString>): (r: PyString)
    ensures r == [] <==> !Truthy(url)
    ensures Truthy(url) && Utf8.HasSurrogate(url.value) ==> r == url.value
    ensures Truthy(url) && !Utf8.HasSurrogate(url.value) ==> Prefix(host) <= r
  {
    if !Truthy(url) then []
    else
      match Utf8.Encode(url.value)
      case None => url.value
      case Some(bytes) => Prefix(host) + Base64Url.Unpadded(bytes)
  }

  /** For an encodable URL, the part after the prefix is `[A-Za-z0-9-_]` only, of the
      unpadded length for its byte count, and re-padding and decoding it (base64url,
      then UTF-8) gives back exactly the URL. */
  lemma ProxifyRoundTrip(host: PyString, url: PyString)
    requires url != [] && !Utf8.HasSurrogate(url)
    ensures var r := Proxify(host, Some(url));
      var segment := r[|Prefix(host)|..];
      var bytes := Utf8.Encode(url).value;
      && Prefix(host) <= r
      && (forall i :: 0 <= i < |segment| ==> Base64Url.IsSymbol(segment[i]))
      && |segment| == Base64Url.UnpaddedLength(|bytes|)
      && Base64Url.Decode(Base64Url.Repad(segment)) == Some(bytes)
      && Utf8.Decode(bytes) == Some(url)
  {
    var bytes := Utf8.Encode(url).value;
    var r := Proxify(host, Some(url));
    assert r == Prefix(host) + Base64Url.Unpadded(bytes);
    assert r[|Prefix(host)|..] == Base64Url.Unpadded(bytes);
    Base64Url.UnpaddedRoundTrip(bytes);
    Utf8.DecodeEncode(url);
  }

  /** Encodable URLs are never confused: the rewrite is injective on them. */
  lemma ProxifyInjective(host: PyString, u: PyString, v: PyString)
    requires u != [] && !Utf8.HasSurrogate(u)
    requires v != [] && !Utf8.HasSurrogate(v)
    requires Proxify(host, Some(u)) == Proxify(host, Some(v))
    ensures u == v
  {
    ProxifyRoundTrip(host, u);
    ProxifyRoundTrip(host, v);
  }
}
