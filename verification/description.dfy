/**
 * The detail side of internal/pipeline/scraper.go: parseHTMLContent, which
 * turns the description markup into text with light Markdown, the criteria
 * map of parseJobDescription, and ScrapeJobDescriptionWithContext.
 *
 * goquery's document is replaced by what its selectors return: a node tree
 * for the description markup and the raw texts of the criteria items. The
 * text of an element (goquery's Text) is the concatenation of the text nodes
 * below it.
 */
module PipelineDescription {
  import opened Models
  import opened GoStrings
  import PipelineScraper

  // ----- the node tree -----------------------------------------------------------

  /** An HTML node: a text node, or an element with its tag name and child nodes. */
  datatype Node = Text(text: string) | Element(tag: string, children: seq<Node>)

  /** goquery's Text(): every text node below `n`, in document order. */
  function InnerText(n: Node): string
    decreases n, 1
  {
    match n
    case Text(t) => t
    case Element(_, kids) => InnerTextSeq(kids)
  }

  function InnerTextSeq(ns: seq<Node>): string
    decreases ns, 0
  {
    if ns == [] then [] else InnerText(ns[0]) + InnerTextSeq(ns[1..])
  }

  /** Children().Length() > 0: some child is an element. */
  predicate HasElementChild(ns: seq<Node>) {
    exists i :: 0 <= i < |ns| && ns[i].Element?
  }

  /** Find("li") below `n`: the `li` elements among its descendants, in document order. */
  function ListItemsBelow(n: Node): seq<Node>
    decreases n, 1
  {
    match n
    case Text(_) => []
    case Element(_, kids) => ListItemsIn(kids)
  }

  /** The `li` elements among `ns` and their descendants, in document order. */
  function ListItemsIn(ns: seq<Node>): seq<Node>
    decreases ns, 0
  {
    if ns == [] then []
    else
      var n := ns[0];
      (if n.Element? && n.tag == "li" then [n] else []) + ListItemsBelow(n) + ListItemsIn(ns[1..])
  }

  /** One bullet line per list item with non-blank text. */
  function Bullets(items: seq<Node>): string {
    if items == [] then []
    else
      var t := TrimSpace(InnerText(items[0]));
      (if t != "" then "• " + t + "\n" else "") + Bullets(items[1..])
  }

  predicate IsHeading(tag: string) {
    tag in {"h1", "h2", "h3", "h4", "h5", "h6"}
  }

  /** The Each callback of parseHTMLContent on one child node. */
  function RenderNode(n: Node): string
    decreases n, 1
  {
    match n
    case Text(t) => TrimSpace(t)
    case Element(tag, kids) =>
      var t := TrimSpace(InnerTextSeq(kids));
      if t == "" then ""
      else if tag == "p" || IsHeading(tag) then t + "\n\n"
      else if tag == "strong" || tag == "b" then "**" + t + "**"
      else if tag == "em" || tag == "i" then "*" + t + "*"
      else if tag == "li" then "• " + t + "\n"
      else if tag == "ul" || tag == "ol" then Bullets(ListItemsIn(kids)) + "\n"
      else if tag == "br" then "\n"
      else if (tag == "div" || tag == "span") && HasElementChild(kids) then RenderSeq(kids)
      else t + " "
  }

  /** parseHTMLContent: the rendering of every child node, concatenated in order. */
  function RenderSeq(ns: seq<Node>): string
    decreases ns, 0
  {
    if ns == [] then [] else RenderNode(ns[0]) + RenderSeq(ns[1..])
  }

  // ----- properties of the renderer ------------------------------------------------

  lemma {:induction false} InnerTextSeqConcat(a: seq<Node>, b: seq<Node>)
    ensures InnerTextSeq(a + b) == InnerTextSeq(a) + InnerTextSeq(b)
    decreases |a|
  {
    if a == [] {
      assert a + b == b;
    } else {
      assert (a + b)[0] == a[0];
      assert (a + b)[1..] == a[1..] + b;
      InnerTextSeqConcat(a[1..], b);
    }
  }

  /** Rendering a content list is rendering its parts one after the other. */
  lemma {:induction false} RenderSeqConcat(a: seq<Node>, b: seq<Node>)
    ensures RenderSeq(a + b) == RenderSeq(a) + RenderSeq(b)
    decreases |a|
  {
    if a == [] {
      assert a + b == b;
    } else {
      assert (a + b)[0] == a[0];
      assert (a + b)[1..] == a[1..] + b;
      RenderSeqConcat(a[1..], b);
    }
  }

  /**
   * A node renders to nothing exactly when its text is blank: blank elements
   * are skipped whatever their tag, and every other node writes something.
   */
  lemma {:induction false} RenderNodeEmptyIff(n: Node)
    ensures RenderNode(n) == "" <==> AllSpace(InnerText(n))
    decreases n, 1
  {
    match n
    case Text(t) =>
    case Element(tag, kids) =>
      if !AllSpace(InnerTextSeq(kids)) && (tag == "div" || tag == "span") && HasElementChild(kids)
         && !(tag == "p" || IsHeading(tag)) {
        RenderSeqEmptyIff(kids);
      }
  }

  lemma {:induction false} RenderSeqEmptyIff(ns: seq<Node>)
    ensures RenderSeq(ns) == "" <==> AllSpace(InnerTextSeq(ns))
    decreases ns, 0
  {
    if ns != [] {
      RenderNodeEmptyIff(ns[0]);
      RenderSeqEmptyIff(ns[1..]);
      AllSpaceConcat(InnerText(ns[0]), InnerTextSeq(ns[1..]));
    }
  }

  /** A `br` has no text, so the renderer writes no line break for it. */
  lemma BrWritesNothing(kids: seq<Node>)
    requires AllSpace(InnerTextSeq(kids))
    ensures RenderNode(Element("br", kids)) == ""
  {
  }

  lemma BareBrWritesNothing()
    ensures RenderNode(Element("br", [])) == ""
  {
    BrWritesNothing([]);
  }

  /** A tag parseHTMLContent has no case of its own for. */
  predicate IsOtherTag(tag: string) {
    && tag !in {"p", "strong", "b", "em", "i", "li", "ul", "ol", "br", "div", "span"}
    && !IsHeading(tag)
  }

  /**
   * A non-blank paragraph or heading writes its trimmed text and a blank
   * line, strong/b and em/i wrap it in Markdown emphasis, li writes a bullet
   * line, and a tag without a case writes the text and a space. A blank
   * element writes nothing.
   */
  lemma RenderNodeOfLeaf(tag: string, kids: seq<Node>)
    ensures var t := TrimSpace(InnerTextSeq(kids));
      var written := RenderNode(Element(tag, kids));
      && (t == "" ==> written == "")
      && (t != "" && (tag == "p" || IsHeading(tag)) ==> written == t + "\n\n")
      && (t != "" && (tag == "strong" || tag == "b") ==> written == "**" + t + "**")
      && (t != "" && (tag == "em" || tag == "i") ==> written == "*" + t + "*")
      && (t != "" && tag == "li" ==> written == "• " + t + "\n")
      && (t != "" && IsOtherTag(tag) ==> written == t + " ")
  {
  }

  /** A div or span without element children writes its trimmed text and a space. */
  lemma RenderNodeOfTextContainer(tag: string, kids: seq<Node>)
    requires tag == "div" || tag == "span"
    requires !HasElementChild(kids)
    ensures var t := TrimSpace(InnerTextSeq(kids));
      RenderNode(Element(tag, kids)) == if t == "" then "" else t + " "
  {
  }

  /** A div or span with element children is rendered as its own content list. */
  lemma RenderNodeOfNestedContainer(tag: string, kids: seq<Node>)
    requires tag == "div" || tag == "span"
    requires HasElementChild(kids)
    ensures RenderNode(Element(tag, kids)) == RenderSeq(kids)
  {
    RenderSeqEmptyIff(kids);
    if AllSpace(InnerTextSeq(kids)) {
      assert TrimSpace(InnerTextSeq(kids)) == "";
    }
  }

  /** A non-blank list writes one bullet per non-blank item below it, then a blank line. */
  lemma RenderNodeOfList(tag: string, kids: seq<Node>)
    requires tag == "ul" || tag == "ol"
    requires !AllSpace(InnerTextSeq(kids))
    ensures RenderNode(Element(tag, kids)) == Bullets(ListItemsIn(kids)) + "\n"
  {
  }

  // ----- parseHTMLContent as the source writes it ------------------------------------

  /** The Each callback over `contents`, writing to a strings.Builder. */
  method ParseHtmlContent(contents: seq<Node>) returns (result: string)
    ensures result == RenderSeq(contents)
    decreases contents, 0
  {
    result := "";
    var i := 0;
    while i < |contents|
      invariant 0 <= i <= |contents|
      invariant result + RenderSeq(contents[i..]) == RenderSeq(contents)
    {
      var written := RenderContentNode(contents[i]);
      assert contents[i..][1..] == contents[i + 1..];
      result := result + written;
      i := i + 1;
    }
  }

  /** One child node: a text node, or an element by tag. */
  method RenderContentNode(n: Node) returns (written: string)
    ensures written == RenderNode(n)
    decreases n, 1
  {
    if n.Text? {
      return TrimSpace(n.text);
    }
    var text := TrimSpace(InnerText(n));
    if text == "" {
      return "";
    }
    var tag := n.tag;
    if tag == "p" || IsHeading(tag) {
      written := text + "\n\n";
    } else if tag == "strong" || tag == "b" {
      written := "**" + text + "**";
    } else if tag == "em" || tag == "i" {
      written := "*" + text + "*";
    } else if tag == "li" {
      written := "• " + text + "\n";
    } else if tag == "ul" || tag == "ol" {
      written := WriteBullets(ListItemsIn(n.children));
      written := written + "\n";
    } else if tag == "br" {
      written := "\n";
    } else if (tag == "div" || tag == "span") && HasElementChild(n.children) {
      written := ParseHtmlContent(n.children);
    } else {
      written := text + " ";
    }
  }

  /** The inner Each over the list items of a `ul` or `ol`. */
  method WriteBullets(items: seq<Node>) returns (written: string)
    ensures written == Bullets(items)
  {
    written := "";
    var j := 0;
    while j < |items|
      invariant 0 <= j <= |items|
      invariant written + Bullets(items[j..]) == Bullets(items)
    {
      var liText := TrimSpace(InnerText(items[j]));
      var line := "";
      if liText != "" {
        line := "• " + liText + "\n";
      }
      assert items[j..][1..] == items[j + 1..];
      assert Bullets(items[j..]) == line + Bullets(items[j + 1..]);
      assert written + (line + Bullets(items[j + 1..])) == (written + line) + Bullets(items[j + 1..]);
      written := written + line;
      j := j + 1;
    }
  }

  // ----- the criteria of parseJobDescription ------------------------------------------

  /** The raw Text() of one criteria item's subheader and value. */
  datatype RawCriterion = RawCriterion(header: string, value: string)

  predicate Kept(c: RawCriterion) {
    TrimSpace(c.header) != "" && TrimSpace(c.value) != ""
  }

  /** The criteria map after the items, in order: each kept item sets its trimmed header to its trimmed value. */
  function CriteriaOf(items: seq<RawCriterion>): Criteria
    decreases |items|
  {
    if items == [] then map[]
    else
      var m := CriteriaOf(items[..|items| - 1]);
      var c := items[|items| - 1];
      if Kept(c) then m[TrimSpace(c.header) := TrimSpace(c.value)] else m
  }

  /** A header is in the map exactly when some kept item has it. */
  lemma {:induction false} CriteriaOfKeys(items: seq<RawCriterion>, h: string)
    ensures h in CriteriaOf(items) <==> exists i :: 0 <= i < |items| && Kept(items[i]) && TrimSpace(items[i].header) == h
    decreases |items|
  {
    if items != [] {
      var init := items[..|items| - 1];
      CriteriaOfKeys(init, h);
      if exists i :: 0 <= i < |items| && Kept(items[i]) && TrimSpace(items[i].header) == h {
        var i :| 0 <= i < |items| && Kept(items[i]) && TrimSpace(items[i].header) == h;
        if i < |items| - 1 {
          assert init[i] == items[i];
        }
      }
      if exists i :: 0 <= i < |init| && Kept(init[i]) && TrimSpace(init[i].header) == h {
        var i :| 0 <= i < |init| && Kept(init[i]) && TrimSpace(init[i].header) == h;
        assert items[i] == init[i];
      }
    }
  }

  /** A repeated header keeps the value of its last kept item. */
  lemma {:induction false} CriteriaOfLastWins(items: seq<RawCriterion>, i: nat)
    requires i < |items| && Kept(items[i])
    requires forall j :: i < j < |items| && Kept(items[j]) ==> TrimSpace(items[j].header) != TrimSpace(items[i].header)
    ensures TrimSpace(items[i].header) in CriteriaOf(items)
    ensures CriteriaOf(items)[TrimSpace(items[i].header)] == TrimSpace(items[i].value)
    decreases |items|
  {
    var init := items[..|items| - 1];
    if i < |items| - 1 {
      assert init[i] == items[i];
      forall j | i < j < |init| && Kept(init[j])
        ensures TrimSpace(init[j].header) != TrimSpace(init[i].header)
      {
        assert init[j] == items[j];
      }
      CriteriaOfLastWins(init, i);
    }
  }

  /** No criterion has a blank name or value. */
  lemma {:induction false} CriteriaOfNonBlank(items: seq<RawCriterion>)
    ensures forall h :: h in CriteriaOf(items) ==> h != "" && CriteriaOf(items)[h] != ""
    decreases |items|
  {
    if items != [] {
      CriteriaOfNonBlank(items[..|items| - 1]);
    }
  }

  /** The Each over the criteria items, filling jobCriteria. */
  method FillCriteria(items: seq<RawCriterion>) returns (criteria: Criteria)
    ensures criteria == CriteriaOf(items)
  {
    criteria := map[];
    var i := 0;
    while i < |items|
      invariant 0 <= i <= |items|
      invariant criteria == CriteriaOf(items[..i])
    {
      var header := TrimSpace(items[i].header);
      var value := TrimSpace(items[i].value);
      if header != "" && value != "" {
        criteria := criteria[header := value];
      }
      assert items[..i + 1][..i] == items[..i];
      i := i + 1;
    }
    assert items[..i] == items;
  }

  // ----- parseJobDescription --------------------------------------------------------

  /**
   * One element matched by a description-section selector: the child nodes of
   * each `show-more-less-html__markup` element inside it, and the criteria
   * items inside its criteria lists.
   */
  datatype Section = Section(markups: seq<seq<Node>>, criteria: seq<RawCriterion>)

  /**
   * A detail page as the two selectors see it: the sections matched by
   * `section.core-section-container.description …` and by the fallback
   * `section.description …`.
   */
  datatype DetailDoc = DetailDoc(primary: seq<Section>, fallback: seq<Section>)

  const DescriptionNotFound: string := "job description not found"

  /** What parseJobDescription returns: description, criteria, and the error if any. */
  datatype Parsed = Parsed(description: string, criteria: Criteria, error: Option<string>)

  /** The fallback selector is used only when the first one matches nothing. */
  function Sections(doc: DetailDoc): seq<Section> {
    if |doc.primary| == 0 then doc.fallback else doc.primary
  }

  /** The markup elements of the sections, in order. */
  function Markups(sections: seq<Section>): seq<seq<Node>> {
    if sections == [] then [] else sections[0].markups + Markups(sections[1..])
  }

  /** Contents() of a selection of several elements: their child lists, one after the other. */
  function Contents(markups: seq<seq<Node>>): seq<Node> {
    if markups == [] then [] else markups[0] + Contents(markups[1..])
  }

  /** The criteria items of the sections, in order. */
  function CriteriaItems(sections: seq<Section>): seq<RawCriterion> {
    if sections == [] then [] else sections[0].criteria + CriteriaItems(sections[1..])
  }

  /** parseJobDescription over the selected sections. */
  function ParseDetail(doc: DetailDoc): Parsed {
    var sections := Sections(doc);
    var markups := Markups(sections);
    var text := if |markups| > 0 then RenderSeq(Contents(markups)) else "";
    var criteria := CriteriaOf(CriteriaItems(sections));
    var description := TrimSpace(text);
    if description == "" then Parsed("", criteria, Some(DescriptionNotFound))
    else Parsed(description, criteria, None)
  }

  /**
   * Markup with blank text gives "job description not found"; a found
   * description is the trimmed rendering of the markup. The criteria are
   * returned in both cases.
   */
  lemma ParseDetailFound(doc: DetailDoc)
    ensures var p := ParseDetail(doc);
      var contents := Contents(Markups(Sections(doc)));
      && (AllSpace(InnerTextSeq(contents)) ==> p.error.Some?)
      && (p.error.None? <==> TrimSpace(RenderSeq(contents)) != "")
      && (p.error.None? ==> p.description == TrimSpace(RenderSeq(contents)) && p.description != "")
      && (p.error.Some? ==> p.error == Some(DescriptionNotFound) && p.description == "")
      && p.criteria == CriteriaOf(CriteriaItems(Sections(doc)))
  {
    var contents := Contents(Markups(Sections(doc)));
    RenderSeqEmptyIff(contents);
    if |Markups(Sections(doc))| == 0 {
      assert contents == [];
    }
  }

  /**
   * A list with text but no non-blank item writes only its closing newline,
   * which trims away.
   */
  lemma ListWithoutItemsWritesNewline(tag: string, kids: seq<Node>)
    requires tag == "ul" || tag == "ol"
    requires !AllSpace(InnerTextSeq(kids)) && ListItemsIn(kids) == []
    ensures RenderNode(Element(tag, kids)) == "\n"
    ensures TrimSpace(RenderNode(Element(tag, kids))) == ""
  {
  }

  /** The page-level method, as the source writes it. */
  method ParseJobDescription(doc: DetailDoc) returns (p: Parsed)
    ensures p == ParseDetail(doc)
  {
    var sections := doc.primary;
    if |sections| == 0 {
      sections := doc.fallback;
    }
    var jobDescription := "";
    var markups := Markups(sections);
    if |markups| > 0 {
      var rendered := ParseHtmlContent(Contents(markups));
      jobDescription := jobDescription + rendered;
      assert jobDescription == rendered;
    }
    var criteria := FillCriteria(CriteriaItems(sections));
    jobDescription := TrimSpace(jobDescription);
    if jobDescription == "" {
      return Parsed("", criteria, Some(DescriptionNotFound));
    }
    return Parsed(jobDescription, criteria, None);
  }

  // ----- ScrapeJobDescriptionWithContext --------------------------------------------

  /**
   * The outcome of fetching a detail page (after the retries of
   * RetryableHTTPRequest) and building its goquery document.
   */
  datatype DetailResponse = FetchFailed(message: string) | BodyUnreadable(message: string) | DetailPage(doc: DetailDoc)

  type DetailSite = string -> DetailResponse

  /**
   * The description, criteria and error of one listing's detail page, fetched
   * from the link moved to the main host.
   */
  function DescriptionOf(site: DetailSite, job: Job): Parsed {
    match site(PipelineScraper.DescriptionUrl(job.jobLink))
    case FetchFailed(message) => Parsed("", map[], Some(message))
    case BodyUnreadable(message) => Parsed("", map[], Some(message))
    case DetailPage(doc) =>
      var p := ParseDetail(doc);
      if p.error.Some? then Parsed("", map[], p.error) else Parsed(TrimSpace(p.description), p.criteria, None)
  }

  /**
   * Any failure gives an empty description and an empty criteria map with the
   * error; a success gives the parsed, non-blank description and its criteria.
   */
  lemma DescriptionOfOutcome(site: DetailSite, job: Job)
    ensures var r := DescriptionOf(site, job);
      var response := site(PipelineScraper.DescriptionUrl(job.jobLink));
      && (r.error.Some? ==> r.description == "" && r.criteria == map[])
      && (response.FetchFailed? ==> r.error == Some(response.message))
      && (response.BodyUnreadable? ==> r.error == Some(response.message))
      && (r.error.None? <==> response.DetailPage? && ParseDetail(response.doc).error.None?)
      && (response.DetailPage? && ParseDetail(response.doc).error.Some? ==> r.error == ParseDetail(response.doc).error)
      && (r.error.None? ==> r.description == ParseDetail(response.doc).description && r.description != ""
                            && r.criteria == ParseDetail(response.doc).criteria)
  {
    var response := site(PipelineScraper.DescriptionUrl(job.jobLink));
    if response.DetailPage? {
      var p := ParseDetail(response.doc);
      ParseDetailFound(response.doc);
      if p.error.None? {
        TrimSpaceIdempotent(TrimSpace(RenderSeq(Contents(Markups(Sections(response.doc))))));
      }
    }
  }

  /** ScrapeJobDescriptionWithContext: fetch, build the document, parse, trim. */
  method ScrapeJobDescriptionWithContext(site: DetailSite, job: Job)
    returns (description: string, criteria: Criteria, error: Option<string>)
    ensures Parsed(description, criteria, error) == DescriptionOf(site, job)
  {
    var url := PipelineScraper.DescriptionUrl(job.jobLink);
    var response := site(url);
    if response.FetchFailed? || response.BodyUnreadable? {
      return "", map[], Some(response.message);
    }
    var p := ParseJobDescription(response.doc);
    if p.error.Some? {
      return "", map[], p.error;
    }
    return TrimSpace(p.description), p.criteria, None;
  }
}
