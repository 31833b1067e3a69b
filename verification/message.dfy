/** `format_discord_to_matrix` (app.py:56-157): a whole Discord-style webhook payload
    becomes one Hookshot message, with the message content first and then one text block
    and one HTML card per embed. `Translate` says declaratively what comes out;
    `FormatDiscordToMatrix` builds it the way the source does and is proved to agree. */
module MessageFormat {
  import opened Wrappers
  import opened PyStrings
  import opened Payloads
  import EmbedFormat
  import MediaProxy
  import Markdown
  import Utf8

  const EmptyText: PyString := Lit("Empty message")
  const EmptyHtml: PyString := Lit("<i>Empty message</i>")
  const DefaultUsername: PyString := Lit("Arr Bot")

  /** `data.get('content', '')`. */
  function ContentOf(data: InboundPayload): PyString {
    data.content.GetOr([])
  }

  /** `data.get('embeds', [])`. */
  function EmbedsOf(data: InboundPayload): seq<Embed> {
    data.embeds.GetOr([])
  }

  /** `render` applied to each embed, in order. */
  function Rendered(es: seq<Embed>, render: Embed -> PyString): (r: seq<PyString>)
    ensures |r| == |es|
  {
    seq(|es|, i requires 0 <= i < |es| => render(es[i]))
  }

  /** Rendering one more embed appends its rendering. */
  lemma RenderedSnoc(es: seq<Embed>, render: Embed -> PyString)
    requires |es| > 0
    ensures Rendered(es, render) == Rendered(es[..|es| - 1], render) + [render(es[|es| - 1])]
  {
  }

  /** A single embed renders to a single part. */
  lemma RenderedOne(e: Embed, render: Embed -> PyString)
    ensures Rendered([e], render) == [render(e)]
  {
  }

  /** Each embed's text, in order. */
  function EmbedTexts(cfg: Config, es: seq<Embed>): seq<PyString> {
    Rendered(es, e => EmbedFormat.EmbedText(cfg, e))
  }

  /** Each embed's card, in order. */
  function EmbedHtmls(cfg: Config, es: seq<Embed>): seq<PyString> {
    Rendered(es, e => EmbedFormat.EmbedHtml(cfg, e))
  }

  /** The text parts: the content when it is non-empty, then each embed's text. */
  function TextParts(cfg: Config, data: InboundPayload): seq<PyString> {
    (if ContentOf(data) != [] then [ContentOf(data)] else []) + EmbedTexts(cfg, EmbedsOf(data))
  }

  /** The HTML parts: the rendered content when the content is non-empty, then each
      embed's card. */
  function HtmlParts(cfg: Config, data: InboundPayload): seq<PyString> {
    (if ContentOf(data) != [] then [Markdown.ToHtml(cfg.markdown, ContentOf(data))] else [])
    + EmbedHtmls(cfg, EmbedsOf(data))
  }

  /** What the translation produces: the parts joined, each with its own fallback, the
      username defaulted and the avatar proxied. Thanks to the fallbacks, neither body of
      the outgoing message is ever empty. */
  function Translate(cfg: Config, data: InboundPayload): (r: OutboundPayload)
    ensures r.text != [] && r.html != []
  {
    var text := Join(EmbedFormat.NL, TextParts(cfg, data));
    var html := Concat(HtmlParts(cfg, data));
    OutboundPayload(
      data.username.GetOr(DefaultUsername),
      MediaProxy.Proxify(cfg.mediaProxyHost, data.avatarUrl),
      if text == [] then EmptyText else text,
      if html == [] then EmptyHtml else html)
  }

  lemma EmbedsSnoc(cfg: Config, es: seq<Embed>, i: nat)
    requires i < |es|
    ensures EmbedTexts(cfg, es[..i + 1]) == EmbedTexts(cfg, es[..i]) + [EmbedFormat.EmbedText(cfg, es[i])]
    ensures EmbedHtmls(cfg, es[..i + 1]) == EmbedHtmls(cfg, es[..i]) + [EmbedFormat.EmbedHtml(cfg, es[i])]
  {
    assert es[..i + 1][..i] == es[..i];
    RenderedSnoc(es[..i + 1], e => EmbedFormat.EmbedText(cfg, e));
    RenderedSnoc(es[..i + 1], e => EmbedFormat.EmbedHtml(cfg, e));
  }

  /** One round of the loop over the embeds (app.py:68-145): render the next embed and
      append its two parts. */
  method AppendEmbed(cfg: Config, embeds: seq<Embed>, i: nat, texts0: seq<PyString>, htmls0: seq<PyString>)
    returns (texts: seq<PyString>, htmls: seq<PyString>)
    requires i < |embeds|
    requires texts0 == EmbedTexts(cfg, embeds[..i]) && htmls0 == EmbedHtmls(cfg, embeds[..i])
    ensures texts == EmbedTexts(cfg, embeds[..i + 1]) && htmls == EmbedHtmls(cfg, embeds[..i + 1])
  {
    var embedHtml, embedText := EmbedFormat.FormatEmbed(cfg, embeds[i]);
    EmbedsSnoc(cfg, embeds, i);
    htmls := htmls0 + [embedHtml];
    texts := texts0 + [embedText];
  }

  /** The loop over the embeds (app.py:67-145): one text part and one HTML part each. */
  method RenderEmbeds(cfg: Config, embeds: seq<Embed>) returns (texts: seq<PyString>, htmls: seq<PyString>)
    ensures texts == EmbedTexts(cfg, embeds)
    ensures htmls == EmbedHtmls(cfg, embeds)
  {
    texts, htmls := [], [];
    var i := 0;
    while i < |embeds|
      invariant 0 <= i <= |embeds|
      invariant texts == EmbedTexts(cfg, embeds[..i])
      invariant htmls == EmbedHtmls(cfg, embeds[..i])
    {
      texts, htmls := AppendEmbed(cfg, embeds, i, texts, htmls);
      i := i + 1;
    }
    assert embeds[..i] == embeds;
  }

  /** The first half of the translation (app.py:58-145): the content, when non-empty,
      then one text part and one HTML part per embed. */
  method CollectParts(cfg: Config, data: InboundPayload) returns (partsText: seq<PyString>, partsHtml: seq<PyString>)
    ensures partsText == TextParts(cfg, data)
    ensures partsHtml == HtmlParts(cfg, data)
  {
    partsHtml, partsText := [], [];
    var content := data.content.GetOr([]);
    if content != [] {
      partsText := partsText + [content];
      partsHtml := partsHtml + [Markdown.ToHtml(cfg.markdown, content)];
    }
    var embedTexts, embedHtmls := RenderEmbeds(cfg, data.embeds.GetOr([]));
    partsText := partsText + embedTexts;
    partsHtml := partsHtml + embedHtmls;
  }

  /** The translation as the source performs it: collect the parts, then join them and
      apply the fallbacks. */
  method FormatDiscordToMatrix(cfg: Config, data: InboundPayload) returns (out: OutboundPayload)
    ensures out == Translate(cfg, data)
  {
    var partsText, partsHtml := CollectParts(cfg, data);
    var finalHtml := Concat(partsHtml);
    var finalText := Join(EmbedFormat.NL, partsText);
    if finalText == [] {
      finalText := EmptyText;
    }
    if finalHtml == [] {
      finalHtml := EmptyHtml;
    }
    out := OutboundPayload(
      data.username.GetOr(DefaultUsername),
      MediaProxy.Proxify(cfg.mediaProxyHost, data.avatarUrl),
      finalText,
      finalHtml);
  }

  // ---- What the translation promises ----

  /** Neither rendering of an embed is ever empty. */
  lemma EmbedPartsNonEmpty(cfg: Config, e: Embed)
    ensures EmbedFormat.EmbedText(cfg, e) != []
    ensures EmbedFormat.EmbedHtml(cfg, e) != []
  {
    EmbedFormat.Framing(cfg, e);
  }

  /** The username defaults to "Arr Bot" only when the key is missing (an empty one is
      kept), and the avatar URL goes through the media proxy: empty when it is missing or
      empty, and otherwise a proxy URL, or the URL itself when it cannot be encoded. */
  lemma UsernameAndAvatar(cfg: Config, data: InboundPayload)
    ensures var out := Translate(cfg, data);
      && (data.username.None? ==> out.username == DefaultUsername)
      && (data.username.Some? ==> out.username == data.username.value)
      && (out.avatarUrl == [] <==> !Truthy(data.avatarUrl))
      && (Truthy(data.avatarUrl) && !Utf8.HasSurrogate(data.avatarUrl.value) ==>
            MediaProxy.Prefix(cfg.mediaProxyHost) <= out.avatarUrl)
      && (Truthy(data.avatarUrl) && Utf8.HasSurrogate(data.avatarUrl.value) ==>
            out.avatarUrl == data.avatarUrl.value)
  {
  }

  /** The text falls back to "Empty message" exactly when there is neither content nor
      an embed; otherwise it is the parts joined by newlines. */
  lemma TextFallback(cfg: Config, data: InboundPayload)
    ensures var text := Join(EmbedFormat.NL, TextParts(cfg, data));
      && (text == [] <==> ContentOf(data) == [] && EmbedsOf(data) == [])
      && Translate(cfg, data).text == (if text == [] then EmptyText else text)
  {
    var parts := TextParts(cfg, data);
    if ContentOf(data) == [] && EmbedsOf(data) != [] {
      EmbedPartsNonEmpty(cfg, EmbedsOf(data)[0]);
      assert parts[0] == EmbedFormat.EmbedText(cfg, EmbedsOf(data)[0]);
    }
  }

  /** The HTML falls back to "<i>Empty message</i>" exactly when there is no embed and
      the content renders to nothing, which an empty content always does. */
  lemma HtmlFallback(cfg: Config, data: InboundPayload)
    ensures var html := Concat(HtmlParts(cfg, data));
      && (html == [] <==> EmbedsOf(data) == [] && Markdown.ToHtml(cfg.markdown, ContentOf(data)) == [])
      && Translate(cfg, data).html == (if html == [] then EmptyHtml else html)
  {
    var parts := HtmlParts(cfg, data);
    var es := EmbedsOf(data);
    ConcatEmptyIff(parts);
    if es != [] {
      EmbedPartsNonEmpty(cfg, es[0]);
      assert parts[|parts| - |es|] == EmbedFormat.EmbedHtml(cfg, es[0]);
    } else if ContentOf(data) != [] {
      assert parts == [Markdown.ToHtml(cfg.markdown, ContentOf(data))];
    }
  }

  /** The two fallbacks are independent: content whose markdown renders to nothing keeps
      its text but leaves the HTML at the fallback. */
  lemma FallbacksIndependent(cfg: Config, data: InboundPayload)
    requires EmbedsOf(data) == [] && ContentOf(data) != []
    requires cfg.markdown(ContentOf(data)) == []
    ensures Translate(cfg, data).text == ContentOf(data)
    ensures Translate(cfg, data).html == EmptyHtml
  {
    TextFallback(cfg, data);
    HtmlFallback(cfg, data);
    assert TextParts(cfg, data) == [ContentOf(data)];
  }

  /** Non-empty content comes first, as text and as rendered markdown. */
  lemma ContentLeads(cfg: Config, data: InboundPayload)
    requires ContentOf(data) != []
    ensures ContentOf(data) <= Translate(cfg, data).text
    ensures Markdown.ToHtml(cfg.markdown, ContentOf(data)) <= Translate(cfg, data).html
  {
    TextFallback(cfg, data);
    HtmlFallback(cfg, data);
    assert TextParts(cfg, data)[0] == ContentOf(data);
    assert HtmlParts(cfg, data)[0] == Markdown.ToHtml(cfg.markdown, ContentOf(data));
  }

  /** A payload that is a single embed translates to exactly that embed's two renderings. */
  lemma SingleEmbed(cfg: Config, data: InboundPayload, e: Embed)
    requires ContentOf(data) == [] && EmbedsOf(data) == [e]
    ensures Translate(cfg, data).text == EmbedFormat.EmbedText(cfg, e)
    ensures Translate(cfg, data).html == EmbedFormat.EmbedHtml(cfg, e)
  {
    var t, h := EmbedFormat.EmbedText(cfg, e), EmbedFormat.EmbedHtml(cfg, e);
    EmbedPartsNonEmpty(cfg, e);
    RenderedOne(e, e => EmbedFormat.EmbedText(cfg, e));
    RenderedOne(e, e => EmbedFormat.EmbedHtml(cfg, e));
    assert TextParts(cfg, data) == [t];
    assert HtmlParts(cfg, data) == [h];
    ConcatAppend([], h);
  }
}
