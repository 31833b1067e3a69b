/** The inbound Discord-style webhook payload, the outbound Hookshot payload, and the
    process configuration the translator reads. Every JSON key that may be absent is an
    `Option`. */
module Payloads {
  import opened Wrappers
  import opened PyStrings

  /** `MEDIA_PROXY_HOST`, and the `markdown` library's renderer, which is foreign code
      and so is given as a function value. */
  datatype Config = Config(mediaProxyHost: PyString, markdown: PyString -> PyString)

  datatype Author = Author(name: Option<PyString>)

  datatype Field = Field(name: Option<PyString>, value: Option<PyString>)

  /** A `thumbnail` or `image` object. */
  datatype Media = Media(url: Option<PyString>)

  datatype Footer = Footer(text: Option<PyString>)

  datatype Embed = Embed(
    color: Option<nat>,
    author: Option<Author>,
    title: Option<PyString>,
    url: Option<PyString>,
    description: Option<PyString>,
    fields: Option<seq<Field>>,
    thumbnail: Option<Media>,
    image: Option<Media>,
    footer: Option<Footer>)

  datatype InboundPayload = InboundPayload(
    content: Option<PyString>,
    embeds: Option<seq<Embed>>,
    username: Option<PyString>,
    avatarUrl: Option<PyString>)

  datatype OutboundPayload = OutboundPayload(
    username: PyString,
    avatarUrl: PyString,
    text: PyString,
    html: PyString)
}
