/** The content extractor: the content-type gate and the long-paragraph
    heuristic applied to a fetched page. HTML parsing itself is not modelled:
    the parser's findings arrive as paragraph texts and an optional body text. */
module ContentExtractor {
  import opened Wrappers
  import opened Seqs
  import opened Text

  /** A `<p>` element as the parser reports it: `get_text()` and `get_text(strip=True)`. */
  datatype Paragraph = Paragraph(text: string, strippedText: string)

  /** The page request: it failed (transport or HTTP error, timeout, parse error),
      or it returned a `Content-Type` header (if any), the page's paragraphs,
      and the body's visible text (`None` when the document has no body). */
  datatype PageResponse =
    | PageFailed
    | PageFetched(contentType: Option<string>, paragraphs: seq<Paragraph>, body: Option<string>)

  /** Paragraphs are kept when their stripped text is longer than this. */
  const MinParagraphLength: nat := 100

  const HtmlType: string := "text/html"

  predicate IsLong(p: Paragraph) {
    |p.strippedText| > MinParagraphLength
  }

  /** Stripping the pieces of a paragraph never makes its text longer. */
  predicate WellFormed(p: Paragraph) {
    |p.strippedText| <= |p.text|
  }

  /** `texts` are the `get_text()` of exactly the long paragraphs of `ps`, in order. */
  ghost predicate LongTextsOf(ps: seq<Paragraph>, texts: seq<string>) {
    && |texts| == |Filter(ps, IsLong)|
    && (forall k :: 0 <= k < |texts| ==> texts[k] == Filter(ps, IsLong)[k].text)
    && (texts == [] <==> forall k :: 0 <= k < |ps| ==> !IsLong(ps[k]))
    && ((forall k :: 0 <= k < |ps| ==> WellFormed(ps[k])) ==>
        forall k :: 0 <= k < |texts| ==> |texts[k]| > MinParagraphLength)
  }

  /** `[p.get_text() for p in paragraphs if len(p.get_text(strip=True)) > 100]`. */
  function LongParagraphTexts(ps: seq<Paragraph>): (texts: seq<string>)
    ensures LongTextsOf(ps, texts)
  {
    if ps == [] then []
    else
      var init := LongParagraphTexts(ps[..|ps| - 1]);
      var p := ps[|ps| - 1];
      var texts := if IsLong(p) then init + [p.text] else init;
      LongTextsStep(ps, init, texts);
      texts
  }

  /** One more paragraph extends the long texts exactly when it is long. */
  lemma LongTextsStep(ps: seq<Paragraph>, init: seq<string>, texts: seq<string>)
    requires ps != []
    requires LongTextsOf(ps[..|ps| - 1], init)
    requires texts == if IsLong(ps[|ps| - 1]) then init + [ps[|ps| - 1].text] else init
    ensures LongTextsOf(ps, texts)
  {
    var p := ps[|ps| - 1];
    var front := ps[..|ps| - 1];
    var kept := Filter(front, IsLong);
    assert Filter(ps, IsLong) == if IsLong(p) then kept + [p] else kept;
    assert forall k :: 0 <= k < |front| ==> front[k] == ps[k];
    if IsLong(p) {
      assert texts != [];
      assert Filter(ps, IsLong)[|init|] == p;
    } else {
      assert texts == init && Filter(ps, IsLong) == kept;
      assert (forall k :: 0 <= k < |ps| ==> !IsLong(ps[k])) <==> (forall k :: 0 <= k < |front| ==> !IsLong(front[k]));
    }
  }

  /** The response passes the gate: it was fetched and its `Content-Type`
      (empty when absent) contains `text/html`. */
  predicate IsHtml(resp: PageResponse) {
    resp.PageFetched? && Contains(resp.contentType.GetOr(""), HtmlType)
  }

  /** `scrape_article_content`: nothing unless the page is HTML; then the long
      paragraphs joined by newlines, or the body text when that join is empty. */
  function ScrapeArticle(resp: PageResponse): (r: Option<string>)
    ensures r.Some? <==> IsHtml(resp)
    ensures r.Some? && Join(LongParagraphTexts(resp.paragraphs), "\n") != "" ==>
      r.value == Join(LongParagraphTexts(resp.paragraphs), "\n")
    ensures r.Some? && Join(LongParagraphTexts(resp.paragraphs), "\n") == "" ==>
      r.value == resp.body.GetOr("")
  {
    if !IsHtml(resp) then None
    else
      var content := Join(LongParagraphTexts(resp.paragraphs), "\n");
      if content == "" && resp.body.Some? then Some(resp.body.value)
      else Some(content)
  }

  /** The body text replaces the paragraphs exactly when no paragraph is long. */
  lemma BodyFallbackIff(resp: PageResponse)
    requires IsHtml(resp)
    requires forall k :: 0 <= k < |resp.paragraphs| ==> WellFormed(resp.paragraphs[k])
    ensures (forall k :: 0 <= k < |resp.paragraphs| ==> !IsLong(resp.paragraphs[k])) ==>
      ScrapeArticle(resp) == Some(resp.body.GetOr(""))
    ensures (exists k :: 0 <= k < |resp.paragraphs| && IsLong(resp.paragraphs[k])) ==>
      ScrapeArticle(resp) == Some(Join(LongParagraphTexts(resp.paragraphs), "\n"))
  {
    var texts := LongParagraphTexts(resp.paragraphs);
    JoinEmpty(texts, "\n");
    if texts != [] {
      assert |texts[0]| > MinParagraphLength;
    }
  }

  /** A response without a `Content-Type` header counts as `''`, which is not HTML. */
  lemma MissingContentTypeYieldsNothing(ps: seq<Paragraph>, body: Option<string>)
    ensures ScrapeArticle(PageFetched(None, ps, body)) == None
  {
  }
}
