# Discord-to-Matrix webhook translation, modelled in Dafny

The proxy receives Discord-style webhook payloads and forwards them to a Matrix
Hookshot webhook. Its core is the pure translation in `app.py`:

- `discord_color_to_hex` turns an embed's integer accent colour into a CSS colour.
- `proxify_image_url` rewrites every media URL into a download URL on the media proxy
  host. The original URL goes into the path as unpadded base64url of its UTF-8 bytes. If
  the URL cannot be encoded, the original is returned unchanged.
- `format_discord_to_matrix` turns the message content and each embed into two parallel
  renderings, a plain-text body and an HTML body. It also defaults the username and
  proxies the avatar.

The model is split into these modules:

- `PyStrings`: Python strings as sequences of code points, lone surrogates included, so
  that the failing `encode('utf-8')` can happen. Also `"".join`, `sep.join` and `rstrip`.
- `Utf8`: the strict UTF-8 codec.
- `Base64Url`: the URL-safe alphabet, padding, stripping, re-padding and decoding.
- `Colour`: colour formatting.
- `MediaProxy`: the URL rewrite.
- `Markdown`: the empty-text short cut of `markdown_to_html`. The markdown library
  itself is a function value in the configuration.
- `Payloads`: the inbound and outbound payloads and the configuration.
- `EmbedFormat`: one embed. It is described declaratively as an ordered list of facts
  (author, title, description, fields, thumbnail, image, footer). The text rendering and
  the HTML rendering are both read off that list. The methods that grow the two strings
  step by step, as the source does, are proved to produce exactly those renderings.
- `MessageFormat`: the whole message. `Translate` is the declarative result.
  `FormatDiscordToMatrix` is the loop over the embeds, proved equal to it.

Discord colours are 24-bit, but `{:06x}` formats the whole integer without masking it,
so a colour of 2^24 or more gets more than six digits. The model keeps that behaviour.
`Colour.SixDigits` states exactly when six digits come out, and `Colour.ColorToHexWidth`
states how many come out otherwise.

## Model

| member | source | states |
|---|---|---|
| Colour.ToHex | app.py:46 | `format(n, 'x')` gives at least one lower-case hex digit, with no leading zero unless `n` is 0, and "0" for 0. |
| Colour.ColorToHex | app.py:44-46 | An absent or zero colour gives `#f0ad4e`. Any other colour gives `#` followed by lower-case hex digits, at least six of them. Those digits read back as the colour. |
| Colour.ColorToHexWidth | app.py:46 | A non-zero colour gets exactly max(6, its own digit count) digits, so zeros are added only up to six. A result longer than six digits has no leading zero. |
| Colour.SixDigits | app.py:46 | A non-zero colour gets exactly six digits if and only if it is below 2^24. Nothing masks it. |
| Colour.ToHexRoundTrip | app.py:46 | The hex digits of a number read back as that number. |
| Colour.ToHexLength | app.py:46 | A number has at most k hex digits exactly when it is below 16^k. This is the padding condition of `{:06x}`. |
| Colour.ZeroPad | app.py:46 | Padding adds only leading '0's, up to the width, and keeps the digits as the tail. |
| PyStrings.RStrip | app.py:51 | `rstrip(c)` returns a prefix that is empty or does not end in `c`, and everything removed was `c`. |
| PyStrings.RStripAfter | app.py:51 | If a string is free of `c` up to position k and is all `c` after it, `rstrip(c)` cuts it at k. |
| PyStrings.Concat | app.py:147 | `"".join(parts)` begins with the first part. |
| PyStrings.ConcatAppend | app.py:147 | Joining one more part with `""` appends that part's text. |
| PyStrings.ConcatEmptyIff | app.py:147-150 | `"".join(parts)` is empty exactly when every part is empty. |
| PyStrings.Join | app.py:148 | The first part begins the joined text. |
| PyStrings.JoinSnoc | app.py:148 | One part joins to itself, and joining one more part appends the separator and then that part. Together these fix the whole joined text. |
| PyStrings.JoinLength | app.py:148 | The joined text is as long as all parts together plus one separator between each neighbouring pair. |
| Utf8.Encode | app.py:51 | `encode('utf-8')` fails exactly when the string holds a lone surrogate. |
| Utf8.DecodeEncode | app.py:51 | Strict UTF-8 decoding of the encoding of any surrogate-free string gives the string back. |
| Base64Url.Encode | app.py:51 | `urlsafe_b64encode` output has length 4·⌈n/3⌉. One or two trailing bytes end it in `==` or `=`. |
| Base64Url.EncodeLayout | app.py:51 | The encoding is alphabet symbols up to the unpadded length, and `=` after it. |
| Base64Url.Unpadded | app.py:51 | After `rstrip('=')`, the segment has length 4·⌊n/3⌋ plus 0, 2 or 3. It uses only `[A-Za-z0-9-_]` and is the encoding up to that length. |
| Base64Url.RepadUnpadded | app.py:51 | Restoring `=` up to a multiple of four rebuilds the padded encoding exactly. |
| Base64Url.DecodeEncode | app.py:51 | Decoding the padded encoding of any bytes gives the bytes back. |
| Base64Url.UnpaddedRoundTrip | app.py:51 | Re-padding and decoding the stripped segment gives the bytes back. |
| MediaProxy.PrefixShape | app.py:52 | The proxy prefix is `https://`, the host, `/_matrix/media/r0/download/`, the host again, then `/url_`. |
| MediaProxy.PrefixInjective | app.py:19-21 | Different proxy hosts give different prefixes. |
| MediaProxy.Proxify | app.py:48-54 | An absent or empty URL gives "" (and only those do). An unencodable URL fails open to itself. Any other URL gives the proxy prefix `https://{host}/_matrix/media/r0/download/{host}/url_` followed by the segment. |
| MediaProxy.ProxifyRoundTrip | app.py:48-52 | For an encodable URL, the part after the prefix is `[A-Za-z0-9-_]` only, of the unpadded length for its UTF-8 byte count. Re-padding and decoding it (base64url, then UTF-8) yields exactly the URL. |
| MediaProxy.ProxifyInjective | app.py:48-52 | Two different encodable URLs never get the same proxy URL. |
| EmbedFormat.FactsOrderAndPresence | app.py:86-140 | Facts appear in the order author, title, description, fields, thumbnail, image, footer, with these counts: author and footer once when their text is non-empty; title and description once whenever their key is present, even empty; one per field; thumbnail and image once exactly when their URL is truthy. The title links exactly when `url` is truthy. |
| EmbedFormat.FieldsInOrder | app.py:108-113 | The fields appear in input order, right after the author, title and description facts that are present. |
| EmbedFormat.AddAuthor | app.py:87-91 | The author block adds the author's text line and left-cell HTML, and nothing for a missing or empty name. |
| EmbedFormat.AddTitle | app.py:94-99 | The title block adds the title's line and its link or bold HTML. |
| EmbedFormat.AddDescription | app.py:102-105 | The description block adds the description's line and its rendered markdown. |
| EmbedFormat.AddFields | app.py:108-113 | The field loop adds one `name: value` line and one HTML row per field, in order. |
| EmbedFormat.LeftColumn | app.py:84-113 | The left column is the header plus the text of the left-cell facts, and the left-cell HTML of those facts. |
| EmbedFormat.AddThumbnail | app.py:123-126 | The thumbnail adds the right cell's HTML exactly when the proxied URL is non-empty. |
| EmbedFormat.AddImage | app.py:131-133 | The image adds an `[Image: …]` line and the backdrop HTML, using the proxied URL. |
| EmbedFormat.AddFooter | app.py:136-140 | The footer adds a `Footer: …` line and small grey HTML, only for non-empty text. |
| EmbedFormat.FormatEmbed | app.py:68-142 | The strings built step by step are exactly the text rendering and the HTML rendering of the embed's fact list. |
| EmbedFormat.Framing | app.py:71-142 | The embed's text starts with `\n--- Embed ---\n`. Its HTML starts with the blockquote in the embed's colour and ends with `</blockquote>`. |
| EmbedFormat.ThumbnailNotInText | app.py:123-126 | The thumbnail shows only in the HTML: the text is the same with or without it. |
| EmbedFormat.ThumbnailHtml | app.py:122-125 | The card's right cell is the poster `<td>` exactly when the thumbnail URL is truthy, and it shows the proxied thumbnail URL. |
| EmbedFormat.BelowHtml | app.py:129-139 | Below the table comes the backdrop `<div>` of the proxied image exactly when the image URL is truthy, then the grey `<small>` footer exactly when the footer text is non-empty. |
| EmbedFormat.Blocks | app.py:116-140 | The text is the left-column text, then the image and footer lines. The left cell holds only left facts, and the right cell only the thumbnail. Below the table come the image, then the footer. |
| Markdown.ToHtml | app.py:40-42 | Empty text renders as "" without calling the markdown library. Any other text renders as whatever the library returns. |
| MessageFormat.RenderEmbeds | app.py:67-145 | The loop gives one text part and one HTML part per embed, in input order. Each is that embed's text or HTML rendering. |
| MessageFormat.CollectParts | app.py:57-145 | The text parts are the content when it is non-empty, then each embed's text. The HTML parts are the rendered content under the same condition, then each embed's card. |
| MessageFormat.Translate | app.py:147-157 | Because of the fallbacks, neither the outgoing text nor the outgoing HTML is ever empty. |
| MessageFormat.FormatDiscordToMatrix | app.py:56-157 | The loop over the embeds produces the declarative translation. |
| MessageFormat.UsernameAndAvatar | app.py:153-154 | The username is "Arr Bot" when the key is missing, and otherwise the given value, even an empty one. The avatar is "" exactly when it is absent or empty, is a proxy URL when it is encodable, and is itself otherwise. |
| MessageFormat.TextFallback | app.py:148 | The fallback "Empty message" replaces the joined text exactly when there is neither content nor an embed. Otherwise the text is the parts joined with newlines. |
| MessageFormat.HtmlFallback | app.py:147-150 | The fallback "<i>Empty message</i>" replaces the concatenated HTML exactly when there is no embed and the content renders to nothing. Otherwise the HTML is the parts concatenated. |
| MessageFormat.FallbacksIndependent | app.py:147-150 | With no embeds, content whose markdown is empty keeps its text but leaves the HTML fallback. |
| MessageFormat.ContentLeads | app.py:61-64 | Non-empty content begins the text, and its rendered markdown begins the HTML. |
| MessageFormat.SingleEmbed | app.py:66-150 | A payload with no content and one embed translates to exactly that embed's two renderings. |
| MessageFormat.EmbedPartsNonEmpty | app.py:71-145 | No embed's text or HTML is ever empty. |

## Left out

- The Flask routes, request parsing and status codes (app.py:168-179) are HTTP plumbing with no translation logic.
- The in-memory webhook store (app.py:26, 176) is a timestamp map used only for a listing page.
- `send_to_hookshot` (app.py:159-166) is outbound I/O.
- Environment and `.env` loading, logging and the waitress server (app.py:12-24, 181-184) are process configuration. The model takes the media proxy host as a parameter instead.
- `markdown.markdown` (app.py:42) is a foreign library. It is the function `Config.markdown`, and nothing is assumed of it beyond being a function. The model states only what line 41 guarantees: empty text renders to "".
- The model adds no HTML escaping, because the source interpolates names, titles, URLs and footers verbatim.
- Negative colours are not modelled, because Discord colours are non-negative. `Colour.ColorToHex` takes a `nat`.
- Sub-objects or values that are present but JSON `null` are not modelled (for example `"author": null` or `"title": null`), where the source raises or prints `None`. Every optional key is either absent or holds a value of its type.
- Fields that are not JSON objects, and other ill-typed payloads, are not modelled.
- MediaProxy.ProxifyRoundTrip: not proved: that the proxy URL hides the original host. Only the segment's `[A-Za-z0-9-_]` alphabet is proved, so a dotted host name cannot appear in it.
