/** `markdown_to_html` (app.py:40-42): the markdown library is called only on non-empty
    text. */
module Markdown {
  import opened PyStrings

  /** Empty text renders as empty HTML without consulting `render`; other text is
      whatever `render` makes of it. */
  function ToHtml(render: PyString -> PyString, text: PyString): (r: PyString)
    ensures text == [] ==> r == []
    ensures text != [] ==> r == render(text)
  {
    if text == [] then [] else render(text)
  }
}
