/** One embed rendered twice, as plain text and as Matrix HTML (app.py:67-145).
    `Facts` lists what the embed says in the fixed order author, title, description,
    fields, thumbnail, image, footer; both renderings are read off that one list, and
    `FormatEmbed`, which builds the two strings step by step as the source does, is proved
    to produce exactly those renderings. */
module EmbedFormat {
  import opened Wrappers
  import opened PyStrings
  import opened Payloads
  import Colour
  import MediaProxy
  import Markdown

  /** One thing an embed says. */
  datatype Fact =
    | AuthorFact(name: PyString)
    | TitleFact(title: PyString, link: Option<PyString>)
    | DescriptionFact(description: PyString)
    | FieldFact(name: PyString, value: PyString)
    | ThumbnailFact(src: PyString)
    | ImageFact(src: PyString)
    | FooterFact(text: PyString)

  /** Position in the fixed order. */
  function Rank(f: Fact): nat {
    match f
    case AuthorFact(_) => 0
    case TitleFact(_, _) => 1
    case DescriptionFact(_) => 2
    case FieldFact(_, _) => 3
    case ThumbnailFact(_) => 4
    case ImageFact(_) => 5
    case FooterFact(_) => 6
  }

  const FieldRank: nat := 3

  // ---- Reading the embed, with the defaults of the source's `.get` calls ----

  function AuthorName(e: Embed): PyString {
    if e.author.Some? then e.author.value.name.GetOr([]) else []
  }

  function FooterText(e: Embed): PyString {
    if e.footer.Some? then e.footer.value.text.GetOr([]) else []
  }

  function FieldsOf(e: Embed): seq<Field> {
    e.fields.GetOr([])
  }

  function ThumbnailUrl(e: Embed): Option<PyString> {
    if e.thumbnail.Some? then e.thumbnail.value.url else None
  }

  function ImageUrl(e: Embed): Option<PyString> {
    if e.image.Some? then e.image.value.url else None
  }

  /** The title links to `url` only when `url` is truthy. */
  function TitleLink(e: Embed): Option<PyString> {
    if Truthy(e.url) then e.url else None
  }

  function FieldFactOf(f: Field): Fact {
    FieldFact(f.name.GetOr([]), f.value.GetOr([]))
  }

  function FieldFacts(fields: seq<Field>): (fs: seq<Fact>)
    ensures |fs| == |fields|
    ensures forall i :: 0 <= i < |fields| ==> fs[i] == FieldFactOf(fields[i])
  {
    seq(|fields|, i requires 0 <= i < |fields| => FieldFactOf(fields[i]))
  }

  function Optional(present: bool, f: Fact): (fs: seq<Fact>)
    ensures |fs| == if present then 1 else 0
    ensures forall i :: 0 <= i < |fs| ==> fs[i] == f
  {
    if present then [f] else []
  }

  // ---- Counting and ordering facts ----

  /** How many facts of rank `r` the list holds. */
  function CountRank(fs: seq<Fact>, r: nat): nat {
    if fs == [] then 0 else CountRank(fs[..|fs| - 1], r) + (if Rank(fs[|fs| - 1]) == r then 1 else 0)
  }

  /** Ranks do not decrease along the list, and stay within `lo .. hi`. */
  predicate Ranked(fs: seq<Fact>, lo: nat, hi: nat) {
    && (forall i :: 0 <= i < |fs| ==> lo <= Rank(fs[i]) <= hi)
    && (forall i, j :: 0 <= i < j < |fs| ==> Rank(fs[i]) <= Rank(fs[j]))
  }

  lemma {:induction false} CountRankAppend(a: seq<Fact>, b: seq<Fact>, r: nat)
    ensures CountRank(a + b, r) == CountRank(a, r) + CountRank(b, r)
    decreases |b|
  {
    if b != [] {
      assert (a + b)[..|a + b| - 1] == a + b[..|b| - 1];
      CountRankAppend(a, b[..|b| - 1], r);
    } else {
      assert a + b == a;
    }
  }

  lemma {:induction false} CountRankUniform(fs: seq<Fact>, k: nat, r: nat)
    requires forall i :: 0 <= i < |fs| ==> Rank(fs[i]) == k
    ensures CountRank(fs, r) == if r == k then |fs| else 0
    decreases |fs|
  {
    if fs != [] {
      CountRankUniform(fs[..|fs| - 1], k, r);
    }
  }

  lemma RankedAppend(a: seq<Fact>, b: seq<Fact>, lo: nat, mid: nat, hi: nat)
    requires lo <= mid <= hi
    requires Ranked(a, lo, mid) && Ranked(b, mid, hi)
    ensures Ranked(a + b, lo, hi)
  {
    forall i | 0 <= i < |a + b|
      ensures lo <= Rank((a + b)[i]) <= hi
    {
      if i < |a| {
        assert (a + b)[i] == a[i];
      } else {
        assert (a + b)[i] == b[i - |a|];
      }
    }
    forall i, j | 0 <= i < j < |a + b|
      ensures Rank((a + b)[i]) <= Rank((a + b)[j])
    {
      if j < |a| {
        assert Rank(a[i]) <= Rank(a[j]);
      } else if i >= |a| {
        assert Rank(b[i - |a|]) <= Rank(b[j - |a|]);
      } else {
        assert Rank(a[i]) <= mid <= Rank(b[j - |a|]);
      }
    }
  }

  // ---- The facts of one embed, group by group ----

  /** Author: only when its name is non-empty. */
  function AuthorFacts(e: Embed): (fs: seq<Fact>)
    ensures |fs| == if AuthorName(e) != [] then 1 else 0
    ensures forall i :: 0 <= i < |fs| ==> Rank(fs[i]) == 0
  {
    Optional(AuthorName(e) != [], AuthorFact(AuthorName(e)))
  }

  /** Title: whenever the key is present, even if empty; linked only to a truthy `url`. */
  function TitleFacts(e: Embed): (fs: seq<Fact>)
    ensures |fs| == if e.title.Some? then 1 else 0
    ensures forall i :: 0 <= i < |fs| ==> Rank(fs[i]) == 1 && fs[i].link == TitleLink(e)
  {
    Optional(e.title.Some?, TitleFact(e.title.GetOr([]), TitleLink(e)))
  }

  /** Description: whenever the key is present, even if empty. */
  function DescriptionFacts(e: Embed): (fs: seq<Fact>)
    ensures |fs| == if e.description.Some? then 1 else 0
    ensures forall i :: 0 <= i < |fs| ==> Rank(fs[i]) == 2
  {
    Optional(e.description.Some?, DescriptionFact(e.description.GetOr([])))
  }

  /** Thumbnail: only when the proxied URL is non-empty. */
  function ThumbnailFacts(cfg: Config, e: Embed): (fs: seq<Fact>)
    ensures |fs| == if Truthy(ThumbnailUrl(e)) then 1 else 0
    ensures forall i :: 0 <= i < |fs| ==> Rank(fs[i]) == 4
  {
    var src := MediaProxy.Proxify(cfg.mediaProxyHost, ThumbnailUrl(e));
    Optional(src != [], ThumbnailFact(src))
  }

  /** Large image: only when the proxied URL is non-empty. */
  function ImageFacts(cfg: Config, e: Embed): (fs: seq<Fact>)
    ensures |fs| == if Truthy(ImageUrl(e)) then 1 else 0
    ensures forall i :: 0 <= i < |fs| ==> Rank(fs[i]) == 5
  {
    var src := MediaProxy.Proxify(cfg.mediaProxyHost, ImageUrl(e));
    Optional(src != [], ImageFact(src))
  }

  /** Footer: only when its text is non-empty. */
  function FooterFacts(e: Embed): (fs: seq<Fact>)
    ensures |fs| == if FooterText(e) != [] then 1 else 0
    ensures forall i :: 0 <= i < |fs| ==> Rank(fs[i]) == 6
  {
    Optional(FooterText(e) != [], FooterFact(FooterText(e)))
  }

  /** The facts of `e` in presentation order (app.py:86-140). */
  function Facts(cfg: Config, e: Embed): seq<Fact> {
    AuthorFacts(e) + TitleFacts(e) + DescriptionFacts(e) + FieldFacts(FieldsOf(e))
    + ThumbnailFacts(cfg, e) + ImageFacts(cfg, e) + FooterFacts(e)
  }

  /** Order and presence of the facts: ranks never decrease; author and footer appear
      once when their text is non-empty and not otherwise; title and description once
      whenever their key is present, even if empty; one fact per field; thumbnail and image once exactly when their
      URL is present and non-empty; the title carries a link exactly when `url` is truthy. */
  lemma FactsOrderAndPresence(cfg: Config, e: Embed)
    ensures var fs := Facts(cfg, e);
      && Ranked(fs, 0, 6)
      && CountRank(fs, 0) == (if AuthorName(e) != [] then 1 else 0)
      && CountRank(fs, 1) == (if e.title.Some? then 1 else 0)
      && CountRank(fs, 2) == (if e.description.Some? then 1 else 0)
      && CountRank(fs, FieldRank) == |FieldsOf(e)|
      && CountRank(fs, 4) == (if Truthy(ThumbnailUrl(e)) then 1 else 0)
      && CountRank(fs, 5) == (if Truthy(ImageUrl(e)) then 1 else 0)
      && CountRank(fs, 6) == (if FooterText(e) != [] then 1 else 0)
      && (forall x :: x in fs && x.TitleFact? ==> (x.link.Some? <==> Truthy(e.url)))
  {
    var a, t, d, f := AuthorFacts(e), TitleFacts(e), DescriptionFacts(e), FieldFacts(FieldsOf(e));
    var th, im, ft := ThumbnailFacts(cfg, e), ImageFacts(cfg, e), FooterFacts(e);
    FactsShape(a, t, d, f, th, im, ft);
    TitleLinks(a, t, d, f, th, im, ft, e);
  }

  /** The field facts are the fields, in input order, right after the author, title and
      description facts that are present. */
  lemma FieldsInOrder(cfg: Config, e: Embed)
    ensures var fs := Facts(cfg, e);
      var k := (if AuthorName(e) != [] then 1 else 0) + (if e.title.Some? then 1 else 0)
        + (if e.description.Some? then 1 else 0);
      && k + |FieldsOf(e)| <= |fs|
      && forall i :: 0 <= i < |FieldsOf(e)| ==> fs[k + i] == FieldFactOf(FieldsOf(e)[i])
  {
    var a, t, d, f := AuthorFacts(e), TitleFacts(e), DescriptionFacts(e), FieldFacts(FieldsOf(e));
    var th, im, ft := ThumbnailFacts(cfg, e), ImageFacts(cfg, e), FooterFacts(e);
    var fs := a + t + d + f + th + im + ft;
    assert fs == (a + t + d) + f + (th + im + ft);
    var k := |a| + |t| + |d|;
    forall i | 0 <= i < |f|
      ensures fs[k + i] == f[i]
    {
    }
  }

  lemma TitleLinks(a: seq<Fact>, t: seq<Fact>, d: seq<Fact>, f: seq<Fact>,
                   th: seq<Fact>, im: seq<Fact>, ft: seq<Fact>, e: Embed)
    requires Groups(a, t, d, f, th, im, ft)
    requires forall i :: 0 <= i < |t| ==> t[i].link == TitleLink(e)
    ensures forall x :: x in a + t + d + f + th + im + ft && x.TitleFact? ==> (x.link.Some? <==> Truthy(e.url))
  {
  }

  /** Rank bounds of seven groups, each of one rank. */
  predicate Groups(a: seq<Fact>, t: seq<Fact>, d: seq<Fact>, f: seq<Fact>,
                   th: seq<Fact>, im: seq<Fact>, ft: seq<Fact>)
  {
    && (forall i :: 0 <= i < |a| ==> Rank(a[i]) == 0)
    && (forall i :: 0 <= i < |t| ==> Rank(t[i]) == 1)
    && (forall i :: 0 <= i < |d| ==> Rank(d[i]) == 2)
    && (forall i :: 0 <= i < |f| ==> Rank(f[i]) == 3)
    && (forall i :: 0 <= i < |th| ==> Rank(th[i]) == 4)
    && (forall i :: 0 <= i < |im| ==> Rank(im[i]) == 5)
    && (forall i :: 0 <= i < |ft| ==> Rank(ft[i]) == 6)
  }

  lemma UniformRanked(fs: seq<Fact>, k: nat)
    requires forall i :: 0 <= i < |fs| ==> Rank(fs[i]) == k
    ensures Ranked(fs, k, k)
  {
  }

  lemma GroupsRanked(a: seq<Fact>, t: seq<Fact>, d: seq<Fact>, f: seq<Fact>,
                     th: seq<Fact>, im: seq<Fact>, ft: seq<Fact>)
    requires Groups(a, t, d, f, th, im, ft)
    ensures Ranked(a + t + d + f + th + im + ft, 0, 6)
  {
    UniformRanked(a, 0);
    UniformRanked(t, 1);
    UniformRanked(d, 2);
    UniformRanked(f, 3);
    UniformRanked(th, 4);
    UniformRanked(im, 5);
    UniformRanked(ft, 6);
    RankedAppend(a, t, 0, 0, 1);
    RankedAppend(a + t, d, 0, 1, 2);
    RankedAppend(a + t + d, f, 0, 2, 3);
    RankedAppend(a + t + d + f, th, 0, 3, 4);
    RankedAppend(a + t + d + f + th, im, 0, 4, 5);
    RankedAppend(a + t + d + f + th + im, ft, 0, 5, 6);
  }

  lemma GroupsCount(a: seq<Fact>, t: seq<Fact>, d: seq<Fact>, f: seq<Fact>,
                    th: seq<Fact>, im: seq<Fact>, ft: seq<Fact>, r: nat)
    requires Groups(a, t, d, f, th, im, ft)
    ensures CountRank(a + t + d + f + th + im + ft, r) ==
      (if r == 0 then |a| else 0) + (if r == 1 then |t| else 0) + (if r == 2 then |d| else 0)
      + (if r == 3 then |f| else 0) + (if r == 4 then |th| else 0)
      + (if r == 5 then |im| else 0) + (if r == 6 then |ft| else 0)
  {
    CountRankAppend(a, t, r);
    CountRankAppend(a + t, d, r);
    CountRankAppend(a + t + d, f, r);
    CountRankAppend(a + t + d + f, th, r);
    CountRankAppend(a + t + d + f + th, im, r);
    CountRankAppend(a + t + d + f + th + im, ft, r);
    CountRankUniform(a, 0, r);
    CountRankUniform(t, 1, r);
    CountRankUniform(d, 2, r);
    CountRankUniform(f, 3, r);
    CountRankUniform(th, 4, r);
    CountRankUniform(im, 5, r);
    CountRankUniform(ft, 6, r);
  }

  /** The counting and ordering facts about seven groups laid end to end. */
  lemma FactsShape(a: seq<Fact>, t: seq<Fact>, d: seq<Fact>, f: seq<Fact>,
                   th: seq<Fact>, im: seq<Fact>, ft: seq<Fact>)
    requires Groups(a, t, d, f, th, im, ft)
    ensures var fs := a + t + d + f + th + im + ft;
      && Ranked(fs, 0, 6)
      && CountRank(fs, 0) == |a| && CountRank(fs, 1) == |t| && CountRank(fs, 2) == |d|
      && CountRank(fs, 3) == |f| && CountRank(fs, 4) == |th| && CountRank(fs, 5) == |im|
      && CountRank(fs, 6) == |ft|
  {
    var fs := a + t + d + f + th + im + ft;
    GroupsRanked(a, t, d, f, th, im, ft);
    GroupsCount(a, t, d, f, th, im, ft, 0);
    GroupsCount(a, t, d, f, th, im, ft, 1);
    GroupsCount(a, t, d, f, th, im, ft, 2);
    GroupsCount(a, t, d, f, th, im, ft, 3);
    GroupsCount(a, t, d, f, th, im, ft, 4);
    GroupsCount(a, t, d, f, th, im, ft, 5);
    GroupsCount(a, t, d, f, th, im, ft, 6);
  }

  // ---- The two renderings ----

  const NL: PyString := Lit("\n")

  /** Every embed's text starts with this header. */
  const Header: PyString := Lit("\n--- Embed ---\n")

  /** The plain-text line of one fact; the thumbnail has none. */
  function FactText(f: Fact): PyString {
    match f
    case AuthorFact(name) => name + NL
    case TitleFact(title, _) => title + NL
    case DescriptionFact(desc) => desc + NL
    case FieldFact(name, value) => name + Lit(": ") + value + NL
    case ThumbnailFact(_) => []
    case ImageFact(src) => Lit("[Image: ") + src + Lit("]") + NL
    case FooterFact(text) => Lit("Footer: ") + text + NL
  }

  function FactsText(fs: seq<Fact>): PyString {
    if fs == [] then [] else FactsText(fs[..|fs| - 1]) + FactText(fs[|fs| - 1])
  }

  lemma {:induction false} FactsTextAppend(a: seq<Fact>, b: seq<Fact>)
    ensures FactsText(a + b) == FactsText(a) + FactsText(b)
    decreases |b|
  {
    if b == [] {
      assert a + b == a;
    } else {
      var init, last := b[..|b| - 1], b[|b| - 1];
      assert (a + b)[..|a + b| - 1] == a + init;
      assert (a + b)[|a + b| - 1] == last;
      FactsTextAppend(a, init);
      AppendAssoc(FactsText(a), FactsText(init), FactText(last));
    }
  }

  /** Where a fact goes in the HTML card: the left table cell, the right table cell,
      or below the table. */
  datatype Place = LeftCell | RightCell | BelowTable

  function PlaceOf(f: Fact): Place {
    match f
    case ThumbnailFact(_) => RightCell
    case ImageFact(_) => BelowTable
    case FooterFact(_) => BelowTable
    case _ => LeftCell
  }

  const LinkStyle: PyString :=
    Lit("' style='color:#00b0f4; text-decoration:none; font-size:1.1em; font-weight:bold;'>")
  const DescriptionOpen: PyString := Lit("<div style='color:#dcddde; margin-top:4px; margin-bottom:8px;'>")
  const FieldNameOpen: PyString :=
    Lit("<div style='margin-bottom:2px;'><span style='color:#ffffff; font-weight:bold;'>")
  const FieldValueOpen: PyString := Lit("</span>: <span style='color:#dcddde;'>")
  const ThumbnailCellOpen: PyString :=
    Lit("<td valign=\"top\" width=\"120\" style=\"border:none; background-color:#2f3136;\">")
  const ThumbnailImgClose: PyString := Lit("\" width=\"120\" style=\"border-radius:4px;\" alt=\"Poster\">")
  const ImageOpen: PyString := Lit("<div style=\"margin-top:12px;\"><img src=\"")
  const ImageClose: PyString := Lit("\" width=\"100%\" style=\"border-radius:4px;\" alt=\"Backdrop\"></div>")
  const FooterOpen: PyString := Lit("<br><small style='color:#72767d;'>")
  const TableOpen: PyString :=
    Lit("<table width=\"100%\" border=\"0\" cellspacing=\"0\" cellpadding=\"0\" style=\"background-color:#2f3136; border:none; border-collapse:collapse;\">")
    + Lit("<tr style=\"background-color:#2f3136; border:none;\">")
  const LeftCellOpen: PyString :=
    Lit("<td valign=\"top\" style=\"padding-right: 15px; border:none; background-color:#2f3136; color:#dcddde;\">")
  const CellClose: PyString := Lit("</td>")
  const TableClose: PyString := Lit("</tr></table>")
  const CardClose: PyString := Lit("</blockquote>")

  /** The opening of the card, its left border in the accent colour. */
  function CardOpen(colorHex: PyString): PyString {
    Lit("<blockquote style=\"border-left: 4px solid ") + colorHex
    + Lit("; background-color: #2f3136; padding: 10px; margin: 5px 0; border-radius: 0 4px 4px 0;\">")
  }

  /** The HTML of one fact; values are interpolated without escaping, and description
      and field values go through the markdown renderer. */
  function FactHtml(cfg: Config, f: Fact): PyString {
    match f
    case AuthorFact(name) => Lit("<strong>") + name + Lit("</strong><br>")
    case TitleFact(title, link) =>
      (if link.Some? then Lit("<a href='") + link.value + LinkStyle + title + Lit("</a>")
       else Lit("<strong>") + title + Lit("</strong>"))
      + Lit("<br>")
    case DescriptionFact(desc) => DescriptionOpen + Markdown.ToHtml(cfg.markdown, desc) + Lit("</div>")
    case FieldFact(name, value) =>
      FieldNameOpen + name + FieldValueOpen + Markdown.ToHtml(cfg.markdown, value) + Lit("</span></div>")
    case ThumbnailFact(src) => ThumbnailCellOpen + Lit("<img src=\"") + src + ThumbnailImgClose + CellClose
    case ImageFact(src) => ImageOpen + src + ImageClose
    case FooterFact(text) => FooterOpen + text + Lit("</small>")
  }

  /** The HTML of the facts that go to `place`, in list order. */
  function PlaceHtml(cfg: Config, place: Place, fs: seq<Fact>): PyString {
    if fs == [] then []
    else
      var last := fs[|fs| - 1];
      PlaceHtml(cfg, place, fs[..|fs| - 1]) + (if PlaceOf(last) == place then FactHtml(cfg, last) else [])
  }

  lemma {:induction false} PlaceHtmlAppend(cfg: Config, place: Place, a: seq<Fact>, b: seq<Fact>)
    ensures PlaceHtml(cfg, place, a + b) == PlaceHtml(cfg, place, a) + PlaceHtml(cfg, place, b)
    decreases |b|
  {
    if b == [] {
      assert a + b == a;
    } else {
      assert (a + b)[..|a + b| - 1] == a + b[..|b| - 1];
      PlaceHtmlAppend(cfg, place, a, b[..|b| - 1]);
    }
  }

  /** The plain-text rendering: the header, then one line per fact. */
  function EmbedText(cfg: Config, e: Embed): PyString {
    Header + FactsText(Facts(cfg, e))
  }

  /** The HTML card: a blockquote bordered in the accent colour holding a one-row table,
      the left cell and then the right cell's content, followed by what goes below it. */
  function Card(colorHex: PyString, left: PyString, right: PyString, below: PyString): PyString {
    CardOpen(colorHex) + TableOpen + LeftCellOpen + left + CellClose + right + TableClose + below + CardClose
  }

  /** The HTML rendering: each place of the card holds the HTML of its facts. */
  function EmbedHtml(cfg: Config, e: Embed): PyString {
    var fs := Facts(cfg, e);
    Card(Colour.ColorToHex(e.color), PlaceHtml(cfg, LeftCell, fs), PlaceHtml(cfg, RightCell, fs),
      PlaceHtml(cfg, BelowTable, fs))
  }

  // ---- The translation as the source performs it ----

  /** The renderings of a one-fact list. */
  lemma Single(cfg: Config, f: Fact)
    ensures FactsText([f]) == FactText(f)
    ensures forall place :: PlaceHtml(cfg, place, [f]) == if PlaceOf(f) == place then FactHtml(cfg, f) else []
  {
    assert [f][..0] == [];
  }

  /** Appending facts appends their renderings, place by place. */
  lemma Emit(cfg: Config, done: seq<Fact>, more: seq<Fact>)
    ensures FactsText(done + more) == FactsText(done) + FactsText(more)
    ensures forall place :: PlaceHtml(cfg, place, done + more) == PlaceHtml(cfg, place, done) + PlaceHtml(cfg, place, more)
  {
    FactsTextAppend(done, more);
    forall place {
      PlaceHtmlAppend(cfg, place, done, more);
    }
  }

  /** Facts none of which goes to `place` contribute nothing there. */
  lemma {:induction false} PlaceHtmlElsewhere(cfg: Config, place: Place, fs: seq<Fact>)
    requires forall i :: 0 <= i < |fs| ==> PlaceOf(fs[i]) != place
    ensures PlaceHtml(cfg, place, fs) == []
    decreases |fs|
  {
    if fs != [] {
      PlaceHtmlElsewhere(cfg, place, fs[..|fs| - 1]);
    }
  }

  /** The facts that go to the left table cell: author, title, description, fields. */
  function LeftFacts(e: Embed): seq<Fact> {
    AuthorFacts(e) + TitleFacts(e) + DescriptionFacts(e) + FieldFacts(FieldsOf(e))
  }

  lemma LeftFactsStayLeft(cfg: Config, e: Embed)
    ensures PlaceHtml(cfg, RightCell, LeftFacts(e)) == []
    ensures PlaceHtml(cfg, BelowTable, LeftFacts(e)) == []
  {
    var fs := LeftFacts(e);
    forall i | 0 <= i < |fs|
      ensures PlaceOf(fs[i]) == LeftCell
    {
      assert Rank(fs[i]) <= 3;
    }
    PlaceHtmlElsewhere(cfg, RightCell, fs);
    PlaceHtmlElsewhere(cfg, BelowTable, fs);
  }

  lemma FieldFactsSnoc(fields: seq<Field>, i: nat)
    requires i < |fields|
    ensures FieldFacts(fields[..i + 1]) == FieldFacts(fields[..i]) + [FieldFactOf(fields[i])]
  {
    var a, b := FieldFacts(fields[..i + 1]), FieldFacts(fields[..i]) + [FieldFactOf(fields[i])];
    assert |a| == |b|;
    forall k | 0 <= k < |a|
      ensures a[k] == b[k]
    {
      assert fields[..i + 1][k] == fields[k];
    }
  }

  /** The loop over the fields (app.py:108-113): one text line and one HTML row each. */
  method AddFields(cfg: Config, fields: seq<Field>, text0: PyString, html0: PyString)
    returns (text: PyString, html: PyString)
    ensures text == text0 + FactsText(FieldFacts(fields))
    ensures html == html0 + PlaceHtml(cfg, LeftCell, FieldFacts(fields))
  {
    text, html := text0, html0;
    var i := 0;
    while i < |fields|
      invariant 0 <= i <= |fields|
      invariant text == text0 + FactsText(FieldFacts(fields[..i]))
      invariant html == html0 + PlaceHtml(cfg, LeftCell, FieldFacts(fields[..i]))
    {
      var name := fields[i].name.GetOr([]);
      var value := fields[i].value.GetOr([]);
      text := text + (name + Lit(": ") + value + NL);
      html := html + (FieldNameOpen + name + FieldValueOpen + Markdown.ToHtml(cfg.markdown, value) + Lit("</span></div>"));
      ghost var prev := FieldFacts(fields[..i]);
      ghost var f := FieldFactOf(fields[i]);
      Single(cfg, f);
      Emit(cfg, prev, [f]);
      AppendAssoc(text0, FactsText(prev), FactText(f));
      AppendAssoc(html0, PlaceHtml(cfg, LeftCell, prev), FactHtml(cfg, f));
      FieldFactsSnoc(fields, i);
      i := i + 1;
    }
    assert fields[..i] == fields;
  }

  /** The author block (app.py:87-91): a line and a bold name, only for a non-empty name. */
  method AddAuthor(cfg: Config, e: Embed, text0: PyString, html0: PyString)
    returns (text: PyString, html: PyString)
    ensures text == text0 + FactsText(AuthorFacts(e))
    ensures html == html0 + PlaceHtml(cfg, LeftCell, AuthorFacts(e))
  {
    text, html := text0, html0;
    if e.author.Some? {
      var name := e.author.value.name.GetOr([]);
      if name != [] {
        text := text + (name + NL);
        html := html + (Lit("<strong>") + name + Lit("</strong><br>"));
        Single(cfg, AuthorFact(name));
      }
    }
  }

  /** The title block (app.py:94-99): a line, and a link when `url` is truthy, bold text
      otherwise. */
  method AddTitle(cfg: Config, e: Embed, text0: PyString, html0: PyString)
    returns (text: PyString, html: PyString)
    ensures text == text0 + FactsText(TitleFacts(e))
    ensures html == html0 + PlaceHtml(cfg, LeftCell, TitleFacts(e))
  {
    text, html := text0, html0;
    if e.title.Some? {
      var title := e.title.value;
      text := text + (title + NL);
      var link := if Truthy(e.url) then Lit("<a href='") + e.url.value + LinkStyle + title + Lit("</a>")
                  else Lit("<strong>") + title + Lit("</strong>");
      html := html + (link + Lit("<br>"));
      Single(cfg, TitleFact(title, TitleLink(e)));
    }
  }

  /** The description block (app.py:102-105): a line, and the rendered markdown. */
  method AddDescription(cfg: Config, e: Embed, text0: PyString, html0: PyString)
    returns (text: PyString, html: PyString)
    ensures text == text0 + FactsText(DescriptionFacts(e))
    ensures html == html0 + PlaceHtml(cfg, LeftCell, DescriptionFacts(e))
  {
    text, html := text0, html0;
    if e.description.Some? {
      var desc := e.description.value;
      text := text + (desc + NL);
      html := html + (DescriptionOpen + Markdown.ToHtml(cfg.markdown, desc) + Lit("</div>"));
      Single(cfg, DescriptionFact(desc));
    }
  }

  /** The whole left column (app.py:84-113), block after block. */
  method LeftColumn(cfg: Config, e: Embed) returns (leftHtml: PyString, text: PyString)
    ensures text == Header + FactsText(LeftFacts(e))
    ensures leftHtml == PlaceHtml(cfg, LeftCell, LeftFacts(e))
  {
    text, leftHtml := AddAuthor(cfg, e, Header, []);
    text, leftHtml := AddTitle(cfg, e, text, leftHtml);
    text, leftHtml := AddDescription(cfg, e, text, leftHtml);
    if e.fields.Some? {
      text, leftHtml := AddFields(cfg, e.fields.value, text, leftHtml);
    } else {
      NothingAdded(cfg, LeftCell, text, leftHtml);
    }
    Grown(cfg, Header, [], AuthorFacts(e), TitleFacts(e), DescriptionFacts(e), FieldFacts(FieldsOf(e)));
  }

  /** An embed without a `fields` key adds no field line and no field row. */
  lemma NothingAdded(cfg: Config, place: Place, text: PyString, html: PyString)
    ensures text + FactsText(FieldFacts([])) == text
    ensures html + PlaceHtml(cfg, place, FieldFacts([])) == html
  {
  }

  /** Four groups appended one after the other render as their concatenation. */
  lemma Grown(cfg: Config, t0: PyString, h0: PyString, a: seq<Fact>, b: seq<Fact>, c: seq<Fact>, d: seq<Fact>)
    ensures t0 + FactsText(a) + FactsText(b) + FactsText(c) + FactsText(d) == t0 + FactsText(a + b + c + d)
    ensures h0 + PlaceHtml(cfg, LeftCell, a) + PlaceHtml(cfg, LeftCell, b) + PlaceHtml(cfg, LeftCell, c)
      + PlaceHtml(cfg, LeftCell, d) == h0 + PlaceHtml(cfg, LeftCell, a + b + c + d)
  {
    Emit(cfg, a, b);
    Emit(cfg, a + b, c);
    Emit(cfg, a + b + c, d);
  }

  /** The thumbnail cell (app.py:123-126), present when the proxied URL is non-empty. */
  method AddThumbnail(cfg: Config, e: Embed, html0: PyString) returns (html: PyString)
    ensures html == html0 + PlaceHtml(cfg, RightCell, ThumbnailFacts(cfg, e))
  {
    html := html0;
    var thumbUrl := MediaProxy.Proxify(cfg.mediaProxyHost, ThumbnailUrl(e));
    if thumbUrl != [] {
      html := html + (ThumbnailCellOpen + Lit("<img src=\"") + thumbUrl + ThumbnailImgClose + CellClose);
      Single(cfg, ThumbnailFact(thumbUrl));
    }
  }

  /** The backdrop image (app.py:131-133), present when the proxied URL is non-empty. */
  method AddImage(cfg: Config, e: Embed, text0: PyString, html0: PyString)
    returns (text: PyString, html: PyString)
    ensures text == text0 + FactsText(ImageFacts(cfg, e))
    ensures html == html0 + PlaceHtml(cfg, BelowTable, ImageFacts(cfg, e))
  {
    text, html := text0, html0;
    var imageUrl := MediaProxy.Proxify(cfg.mediaProxyHost, ImageUrl(e));
    if imageUrl != [] {
      text := text + (Lit("[Image: ") + imageUrl + Lit("]") + NL);
      html := html + (ImageOpen + imageUrl + ImageClose);
      Single(cfg, ImageFact(imageUrl));
    }
  }

  /** The footer (app.py:136-140): a line and small grey text, only for non-empty text. */
  method AddFooter(cfg: Config, e: Embed, text0: PyString, html0: PyString)
    returns (text: PyString, html: PyString)
    ensures text == text0 + FactsText(FooterFacts(e))
    ensures html == html0 + PlaceHtml(cfg, BelowTable, FooterFacts(e))
  {
    text, html := text0, html0;
    if e.footer.Some? {
      var ft := e.footer.value.text.GetOr([]);
      if ft != [] {
        text := text + (Lit("Footer: ") + ft + NL);
        html := html + (FooterOpen + ft + Lit("</small>"));
        Single(cfg, FooterFact(ft));
      }
    }
  }

  /** How the renderings of the whole fact list split into the blocks' contributions. */
  lemma Blocks(cfg: Config, e: Embed)
    ensures FactsText(Facts(cfg, e))
      == FactsText(LeftFacts(e)) + FactsText(ImageFacts(cfg, e)) + FactsText(FooterFacts(e))
    ensures PlaceHtml(cfg, LeftCell, Facts(cfg, e)) == PlaceHtml(cfg, LeftCell, LeftFacts(e))
    ensures PlaceHtml(cfg, RightCell, Facts(cfg, e)) == PlaceHtml(cfg, RightCell, ThumbnailFacts(cfg, e))
    ensures PlaceHtml(cfg, BelowTable, Facts(cfg, e))
      == PlaceHtml(cfg, BelowTable, ImageFacts(cfg, e)) + PlaceHtml(cfg, BelowTable, FooterFacts(e))
  {
    LeftFactsStayLeft(cfg, e);
    BlocksOf(cfg, LeftFacts(e), ThumbnailFacts(cfg, e), ImageFacts(cfg, e), FooterFacts(e));
  }

  /** The right cell is the thumbnail's `<td>` exactly when the thumbnail URL is truthy,
      and it shows the proxied URL. */
  lemma ThumbnailHtml(cfg: Config, e: Embed)
    ensures PlaceHtml(cfg, RightCell, Facts(cfg, e))
      == if Truthy(ThumbnailUrl(e))
         then ThumbnailCellOpen + Lit("<img src=\"") + MediaProxy.Proxify(cfg.mediaProxyHost, ThumbnailUrl(e))
              + ThumbnailImgClose + CellClose
         else []
  {
    Blocks(cfg, e);
    var src := MediaProxy.Proxify(cfg.mediaProxyHost, ThumbnailUrl(e));
    OptionalHtml(cfg, RightCell, Truthy(ThumbnailUrl(e)), ThumbnailFact(src));
  }

  /** Below the table comes the backdrop `<div>` of the proxied image exactly when the
      image URL is truthy, then the grey `<small>` footer exactly when its text is non-empty. */
  lemma BelowHtml(cfg: Config, e: Embed)
    ensures PlaceHtml(cfg, BelowTable, Facts(cfg, e))
      == (if Truthy(ImageUrl(e)) then ImageOpen + MediaProxy.Proxify(cfg.mediaProxyHost, ImageUrl(e)) + ImageClose
          else [])
         + (if FooterText(e) != [] then FooterOpen + FooterText(e) + Lit("</small>") else [])
  {
    Blocks(cfg, e);
    var src := MediaProxy.Proxify(cfg.mediaProxyHost, ImageUrl(e));
    OptionalHtml(cfg, BelowTable, Truthy(ImageUrl(e)), ImageFact(src));
    OptionalHtml(cfg, BelowTable, FooterText(e) != [], FooterFact(FooterText(e)));
  }

  /** A fact that is present at most once renders only when present. */
  lemma OptionalHtml(cfg: Config, place: Place, present: bool, f: Fact)
    requires PlaceOf(f) == place
    ensures PlaceHtml(cfg, place, Optional(present, f)) == if present then FactHtml(cfg, f) else []
  {
    if present {
      assert Optional(present, f) == [f];
      Single(cfg, f);
    } else {
      assert Optional(present, f) == [];
    }
  }

  lemma BlocksOf(cfg: Config, l: seq<Fact>, th: seq<Fact>, im: seq<Fact>, ft: seq<Fact>)
    requires PlaceHtml(cfg, RightCell, l) == [] && PlaceHtml(cfg, BelowTable, l) == []
    requires forall i :: 0 <= i < |th| ==> Rank(th[i]) == 4
    requires forall i :: 0 <= i < |im| ==> Rank(im[i]) == 5
    requires forall i :: 0 <= i < |ft| ==> Rank(ft[i]) == 6
    ensures FactsText(l + th + im + ft) == FactsText(l) + FactsText(im) + FactsText(ft)
    ensures PlaceHtml(cfg, LeftCell, l + th + im + ft) == PlaceHtml(cfg, LeftCell, l)
    ensures PlaceHtml(cfg, RightCell, l + th + im + ft) == PlaceHtml(cfg, RightCell, th)
    ensures PlaceHtml(cfg, BelowTable, l + th + im + ft) == PlaceHtml(cfg, BelowTable, im) + PlaceHtml(cfg, BelowTable, ft)
  {
    TextBlocks(l, th, im, ft);
    LeftBlocks(cfg, l, th, im, ft);
    RightBlocks(cfg, l, th, im, ft);
    BelowBlocks(cfg, l, th, im, ft);
  }

  lemma LeftBlocks(cfg: Config, l: seq<Fact>, th: seq<Fact>, im: seq<Fact>, ft: seq<Fact>)
    requires forall i :: 0 <= i < |th| ==> Rank(th[i]) == 4
    requires forall i :: 0 <= i < |im| ==> Rank(im[i]) == 5
    requires forall i :: 0 <= i < |ft| ==> Rank(ft[i]) == 6
    ensures PlaceHtml(cfg, LeftCell, l + th + im + ft) == PlaceHtml(cfg, LeftCell, l)
  {
    PlaceBlocks(cfg, LeftCell, l, th, im, ft);
    ElsewhereByRank(cfg, LeftCell, th, 4);
    ElsewhereByRank(cfg, LeftCell, im, 5);
    ElsewhereByRank(cfg, LeftCell, ft, 6);
    Drop3(PlaceHtml(cfg, LeftCell, l), [], [], []);
  }

  lemma RightBlocks(cfg: Config, l: seq<Fact>, th: seq<Fact>, im: seq<Fact>, ft: seq<Fact>)
    requires PlaceHtml(cfg, RightCell, l) == []
    requires forall i :: 0 <= i < |im| ==> Rank(im[i]) == 5
    requires forall i :: 0 <= i < |ft| ==> Rank(ft[i]) == 6
    ensures PlaceHtml(cfg, RightCell, l + th + im + ft) == PlaceHtml(cfg, RightCell, th)
  {
    PlaceBlocks(cfg, RightCell, l, th, im, ft);
    ElsewhereByRank(cfg, RightCell, im, 5);
    ElsewhereByRank(cfg, RightCell, ft, 6);
    Drop3([], PlaceHtml(cfg, RightCell, th), [], []);
  }

  lemma BelowBlocks(cfg: Config, l: seq<Fact>, th: seq<Fact>, im: seq<Fact>, ft: seq<Fact>)
    requires PlaceHtml(cfg, BelowTable, l) == []
    requires forall i :: 0 <= i < |th| ==> Rank(th[i]) == 4
    ensures PlaceHtml(cfg, BelowTable, l + th + im + ft) == PlaceHtml(cfg, BelowTable, im) + PlaceHtml(cfg, BelowTable, ft)
  {
    PlaceBlocks(cfg, BelowTable, l, th, im, ft);
    ElsewhereByRank(cfg, BelowTable, th, 4);
    Drop3([], [], PlaceHtml(cfg, BelowTable, im), PlaceHtml(cfg, BelowTable, ft));
  }

  /** The place every fact of rank `k` goes to. */
  function PlaceOfRank(k: nat): Place {
    if k == 4 then RightCell else if k >= 5 then BelowTable else LeftCell
  }

  /** Facts of one rank contribute nothing to any other place. */
  lemma ElsewhereByRank(cfg: Config, place: Place, fs: seq<Fact>, k: nat)
    requires forall i :: 0 <= i < |fs| ==> Rank(fs[i]) == k
    requires PlaceOfRank(k) != place
    ensures PlaceHtml(cfg, place, fs) == []
  {
    forall i | 0 <= i < |fs|
      ensures PlaceOf(fs[i]) != place
    {
      RankPlace(fs[i]);
    }
    PlaceHtmlElsewhere(cfg, place, fs);
  }

  lemma RankPlace(f: Fact)
    ensures PlaceOf(f) == PlaceOfRank(Rank(f))
  {
  }

  lemma Drop3(a: PyString, b: PyString, c: PyString, d: PyString)
    ensures a == [] && b == [] ==> a + b + c + d == c + d
    ensures a == [] && c == [] && d == [] ==> a + b + c + d == b
    ensures b == [] && c == [] && d == [] ==> a + b + c + d == a
    ensures b == [] ==> a + b + c + d == a + c + d
  {
  }

  lemma TextBlocks(l: seq<Fact>, th: seq<Fact>, im: seq<Fact>, ft: seq<Fact>)
    requires forall i :: 0 <= i < |th| ==> Rank(th[i]) == 4
    ensures FactsText(l + th + im + ft) == FactsText(l) + FactsText(im) + FactsText(ft)
  {
    FactsTextAppend(l, th);
    FactsTextAppend(l + th, im);
    FactsTextAppend(l + th + im, ft);
    ThumbnailsHaveNoText(th);
    Drop3(FactsText(l), [], FactsText(im), FactsText(ft));
  }

  /** Thumbnails have no text line. */
  lemma {:induction false} ThumbnailsHaveNoText(th: seq<Fact>)
    requires forall i :: 0 <= i < |th| ==> Rank(th[i]) == 4
    ensures FactsText(th) == []
    decreases |th|
  {
    if th != [] {
      ThumbnailsHaveNoText(th[..|th| - 1]);
      assert th[|th| - 1].ThumbnailFact?;
    }
  }

  lemma PlaceBlocks(cfg: Config, place: Place, l: seq<Fact>, th: seq<Fact>, im: seq<Fact>, ft: seq<Fact>)
    ensures PlaceHtml(cfg, place, l + th + im + ft)
      == PlaceHtml(cfg, place, l) + PlaceHtml(cfg, place, th) + PlaceHtml(cfg, place, im) + PlaceHtml(cfg, place, ft)
  {
    PlaceHtmlAppend(cfg, place, l, th);
    PlaceHtmlAppend(cfg, place, l + th, im);
    PlaceHtmlAppend(cfg, place, l + th + im, ft);
  }

  /** The per-embed body of `format_discord_to_matrix` (app.py:68-145): the text and the
      HTML grown side by side. Both come out as the renderings of the same fact list, so
      they state the same facts in the same order. */
  method FormatEmbed(cfg: Config, e: Embed) returns (html: PyString, text: PyString)
    ensures text == EmbedText(cfg, e)
    ensures html == EmbedHtml(cfg, e)
  {
    var colorHex := Colour.ColorToHex(e.color);
    html := CardOpen(colorHex);
    var leftHtml;
    leftHtml, text := LeftColumn(cfg, e);
    html := html + TableOpen;
    html := html + LeftCellOpen + leftHtml + CellClose;
    html := AddThumbnail(cfg, e, html);
    html := html + TableClose;
    ghost var table := html;
    ghost var leftText := text;
    text, html := AddImage(cfg, e, text, html);
    text, html := AddFooter(cfg, e, text, html);
    html := html + CardClose;
    Blocks(cfg, e);
    AppendAssoc(table, PlaceHtml(cfg, BelowTable, ImageFacts(cfg, e)), PlaceHtml(cfg, BelowTable, FooterFacts(e)));
    AppendAssoc(Header, FactsText(LeftFacts(e)), FactsText(ImageFacts(cfg, e)));
    AppendAssoc(Header, FactsText(LeftFacts(e)) + FactsText(ImageFacts(cfg, e)), FactsText(FooterFacts(e)));
  }

  /** Every embed's text starts with the header, and its HTML is one card: it opens with
      the blockquote in the embed's colour and closes it at the very end. */
  lemma Framing(cfg: Config, e: Embed)
    ensures Header <= EmbedText(cfg, e)
    ensures CardOpen(Colour.ColorToHex(e.color)) <= EmbedHtml(cfg, e)
    ensures var h := EmbedHtml(cfg, e);
      |CardClose| <= |h| && h[|h| - |CardClose|..] == CardClose
  {
    var fs := Facts(cfg, e);
    CardFraming(Colour.ColorToHex(e.color), PlaceHtml(cfg, LeftCell, fs), PlaceHtml(cfg, RightCell, fs),
      PlaceHtml(cfg, BelowTable, fs));
  }

  lemma CardFraming(colorHex: PyString, left: PyString, right: PyString, below: PyString)
    ensures var h := Card(colorHex, left, right, below);
      && CardOpen(colorHex) <= h
      && |CardClose| <= |h| && h[|h| - |CardClose|..] == CardClose
  {
    var h0 := CardOpen(colorHex);
    var h1 := h0 + TableOpen;
    var h2 := h1 + LeftCellOpen;
    var h3 := h2 + left;
    var h4 := h3 + CellClose;
    var h5 := h4 + right;
    var h6 := h5 + TableClose;
    var h7 := h6 + below;
    PrefixGrows(h0, h0, TableOpen);
    PrefixGrows(h0, h1, LeftCellOpen);
    PrefixGrows(h0, h2, left);
    PrefixGrows(h0, h3, CellClose);
    PrefixGrows(h0, h4, right);
    PrefixGrows(h0, h5, TableClose);
    PrefixGrows(h0, h6, below);
    PrefixGrows(h0, h7, CardClose);
    Ends(h7, CardClose);
  }

  lemma PrefixGrows(a: PyString, h: PyString, b: PyString)
    requires a <= h
    ensures a <= h + b
  {
    assert (h + b)[..|a|] == h[..|a|];
  }

  lemma Ends(a: PyString, c: PyString)
    ensures (a + c)[|a + c| - |c|..] == c
  {
  }

  /** The thumbnail shows only in the HTML: the text is the same with or without it. */
  lemma ThumbnailNotInText(cfg: Config, e: Embed)
    ensures EmbedText(cfg, e) == EmbedText(cfg, e.(thumbnail := None))
  {
    var e' := e.(thumbnail := None);
    Blocks(cfg, e);
    Blocks(cfg, e');
    assert AuthorName(e) == AuthorName(e') && FieldsOf(e) == FieldsOf(e') && TitleLink(e) == TitleLink(e');
    assert LeftFacts(e) == LeftFacts(e');
    assert ImageFacts(cfg, e) == ImageFacts(cfg, e');
    assert FooterFacts(e) == FooterFacts(e');
  }
}
