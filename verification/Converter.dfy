/** One web page to one PDF (`convertWebpageToPdf` in converter.js): the URL
    normalisation, the option override, the check for `#docs-content` and
    the fixed header/text-content extraction rule.

    The browser is a parameter. The content below `#docs-content` is given
    as its elements in document order, each with its nesting depth, so that
    `querySelector` is a first-index search and an element's subtree is the
    run of deeper elements that follows it. */
module Converter {
  import opened Wrappers
  import opened Files
  import opened Text

  // ---------------------------------------------------------------------
  // URL normalisation

  predicate HasHttpScheme(url: string)
  {
    StartsWith(url, "http://") || StartsWith(url, "https://")
  }

  /** `https://` is prepended to a URL that starts with neither `http://` nor `https://`. */
  function NormalizeUrl(url: string): (r: string)
    ensures HasHttpScheme(r)
    ensures HasHttpScheme(url) ==> r == url
    ensures !HasHttpScheme(url) ==> r == "https://" + url
  {
    if !HasHttpScheme(url) then "https://" + url else url
  }

  lemma NormalizeIsIdempotent(url: string)
    ensures NormalizeUrl(NormalizeUrl(url)) == NormalizeUrl(url)
  {
  }

  // ---------------------------------------------------------------------
  // PDF options

  /** The values a PDF option takes in the configuration. */
  datatype PdfValue =
    | Str(s: string)
    | Flag(b: bool)
    | Number(x: real)
    | Margin(top: string, right: string, bottom: string, left: string)

  type PdfOptions = map<string, PdfValue>

  /** The rendering defaults of config.js. */
  const DefaultPdfOptions: PdfOptions := map[
    "format" := Str("A4"),
    "landscape" := Flag(false),
    "scale" := Number(0.7),
    "margin" := Margin("1cm", "1cm", "1cm", "1cm"),
    "printBackground" := Flag(true)]

  /** `{ ...defaultOptions, ...options }`: a shallow override, key by key. */
  function PdfOptionsFor(options: PdfOptions): (r: PdfOptions)
    ensures r.Keys == DefaultPdfOptions.Keys + options.Keys
    ensures forall k :: k in options ==> r[k] == options[k]
    ensures forall k :: k in DefaultPdfOptions && k !in options ==> r[k] == DefaultPdfOptions[k]
  {
    DefaultPdfOptions + options
  }

  // ---------------------------------------------------------------------
  // The document below #docs-content

  /** An element below `#docs-content`: its tag name, its classes and how deep it is nested. */
  datatype Node = Node(tag: string, classes: set<string>, depth: nat)

  /** The two fixed selectors: `header, h1, .header` and `.text.content`. */
  datatype Selector = HeaderLike | TextContent

  const ParentSelector := "#docs-content"

  predicate Matches(sel: Selector, n: Node)
  {
    match sel
    case HeaderLike => n.tag == "header" || n.tag == "h1" || "header" in n.classes
    case TextContent => "text" in n.classes && "content" in n.classes
  }

  /** Element `i` is the first match of `sel` in document order. */
  predicate IsFirstMatch(nodes: seq<Node>, sel: Selector, i: nat)
  {
    i < |nodes| && Matches(sel, nodes[i]) && forall j :: 0 <= j < i ==> !Matches(sel, nodes[j])
  }

  predicate NoMatch(nodes: seq<Node>, sel: Selector)
  {
    forall j :: 0 <= j < |nodes| ==> !Matches(sel, nodes[j])
  }

  /** `querySelector`: the position of the first match, or `None` (null). */
  function QuerySelector(nodes: seq<Node>, sel: Selector): (r: Option<nat>)
    ensures r.Some? ==> IsFirstMatch(nodes, sel, r.value)
    ensures r.None? ==> NoMatch(nodes, sel)
  {
    if nodes == [] then None
    else if Matches(sel, nodes[0]) then Some(0)
    else
      match QuerySelector(nodes[1..], sel)
      case None => None
      case Some(k) => Some(k + 1)
  }

  function DescendantsEnd(nodes: seq<Node>, depth: nat, j: nat): (e: nat)
    requires j <= |nodes|
    ensures j <= e <= |nodes|
    ensures forall k :: j <= k < e ==> nodes[k].depth > depth
    ensures e < |nodes| ==> nodes[e].depth <= depth
    decreases |nodes| - j
  {
    if j < |nodes| && nodes[j].depth > depth then DescendantsEnd(nodes, depth, j + 1) else j
  }

  /** Where the subtree of element `i` ends: every element in between is nested deeper than `i`. */
  function SubtreeEnd(nodes: seq<Node>, i: nat): (e: nat)
    requires i < |nodes|
    ensures i < e <= |nodes|
    ensures forall k :: i < k < e ==> nodes[k].depth > nodes[i].depth
    ensures e < |nodes| ==> nodes[e].depth <= nodes[i].depth
  {
    DescendantsEnd(nodes, nodes[i].depth, i + 1)
  }

  /** `cloneNode(true)` of element `i`: the element and its descendants. */
  function Subtree(nodes: seq<Node>, i: nat): (r: seq<Node>)
    requires i < |nodes|
    ensures 1 <= |r| <= |nodes| - i && r[0] == nodes[i]
    ensures forall k :: 0 <= k < |r| ==> r[k] == nodes[i + k]
    ensures forall k :: 1 <= k < |r| ==> r[k].depth > nodes[i].depth
    ensures i + |r| < |nodes| ==> nodes[i + |r|].depth <= nodes[i].depth
  {
    nodes[i..SubtreeEnd(nodes, i)]
  }

  /** `remove()` of element `i`: it goes, and its descendants with it. */
  function RemoveSubtree(nodes: seq<Node>, i: nat): (r: seq<Node>)
    requires i < |nodes|
    ensures |r| == |nodes| - |Subtree(nodes, i)| && i <= |r|
    ensures forall k :: 0 <= k < i ==> r[k] == nodes[k]
    ensures forall k :: i <= k < |r| ==> r[k] == nodes[k + |Subtree(nodes, i)|]
    ensures i < |r| ==> r[i].depth <= nodes[i].depth
  {
    nodes[..i] + nodes[SubtreeEnd(nodes, i)..]
  }

  /** What the container built for printing holds. */
  datatype Fragment =
    | Clone(element: seq<Node>)          // a deep clone of one element below #docs-content
    | ParentClone(content: seq<Node>)    // a deep clone of #docs-content itself, with this content

  datatype ConvertError = NavigationFailed(url: string) | SelectorNotFound(selector: string)

  /** The extraction rule: the first header-like element, if any, then the
      first `.text.content` element, or failing that the whole parent without
      the header already taken. Fails when `#docs-content` is absent. */
  function ExtractContent(parent: Option<seq<Node>>): (r: Result<seq<Fragment>, ConvertError>)
    ensures parent.None? ==> r == Failure(SelectorNotFound("#docs-content"))
    ensures parent.Some? ==> r.Success? && 1 <= |r.value| <= 2
    ensures parent.Some? ==> forall h :: IsFirstMatch(parent.value, HeaderLike, h) ==>
              |r.value| == 2 && r.value[0] == Clone(Subtree(parent.value, h))
    ensures parent.Some? && NoMatch(parent.value, HeaderLike) ==> |r.value| == 1
    ensures parent.Some? ==> forall c :: IsFirstMatch(parent.value, TextContent, c) ==>
              r.value[|r.value| - 1] == Clone(Subtree(parent.value, c))
    ensures parent.Some? && NoMatch(parent.value, TextContent) ==>
              && (forall h :: IsFirstMatch(parent.value, HeaderLike, h) ==>
                    r.value[1] == ParentClone(RemoveSubtree(parent.value, h)))
              && (NoMatch(parent.value, HeaderLike) ==> r.value[0] == ParentClone(parent.value))
  {
    match parent
    case None => Failure(SelectorNotFound(ParentSelector))
    case Some(nodes) =>
      var header := QuerySelector(nodes, HeaderLike);
      var child := QuerySelector(nodes, TextContent);
      var headerPart := if header.Some? then [Clone(Subtree(nodes, header.value))] else [];
      var textPart :=
        if child.Some? then Clone(Subtree(nodes, child.value))
        else if header.Some? then ParentClone(RemoveSubtree(nodes, header.value))
        else ParentClone(nodes);
      FirstMatchIsUnique(nodes, HeaderLike);
      FirstMatchIsUnique(nodes, TextContent);
      Success(headerPart + [textPart])
  }

  lemma FirstMatchIsUnique(nodes: seq<Node>, sel: Selector)
    ensures forall i, j :: IsFirstMatch(nodes, sel, i) && IsFirstMatch(nodes, sel, j) ==> i == j
    ensures forall i :: IsFirstMatch(nodes, sel, i) ==> !NoMatch(nodes, sel)
  {
  }

  /** `querySelector` returns the first match whenever there is one. */
  lemma QuerySelectorFindsFirst(nodes: seq<Node>, sel: Selector, i: nat)
    requires IsFirstMatch(nodes, sel, i)
    ensures QuerySelector(nodes, sel) == Some(i)
  {
    FirstMatchIsUnique(nodes, sel);
  }

  /** A query over `pre + after`, when nothing in `pre` matches, finds the
      first match of `after`, shifted past `pre`. */
  lemma {:induction false} QueryPastNonMatching(pre: seq<Node>, after: seq<Node>, sel: Selector)
    requires NoMatch(pre, sel)
    ensures QuerySelector(pre + after, sel)
      == match QuerySelector(after, sel)
         case None => None
         case Some(k) => Some(|pre| + k)
  {
    var all := pre + after;
    match QuerySelector(after, sel)
    case None =>
      forall j | 0 <= j < |all|
        ensures !Matches(sel, all[j])
      {
        if j >= |pre| {
          assert all[j] == after[j - |pre|];
        }
      }
      FirstMatchIsUnique(all, sel);
    case Some(k) =>
      forall j | 0 <= j < |pre| + k
        ensures !Matches(sel, all[j])
      {
        if j >= |pre| {
          assert all[j] == after[j - |pre|];
        }
      }
      assert all[|pre| + k] == after[k];
      QuerySelectorFindsFirst(all, sel, |pre| + k);
  }

  /** After the header's subtree is removed from the parent clone, a header
      query on the clone finds the next header-like element AFTER that
      subtree, never the removed one: the header is printed once. */
  lemma HeaderNotRepeated(nodes: seq<Node>, h: nat)
    requires IsFirstMatch(nodes, HeaderLike, h)
    ensures var after := nodes[SubtreeEnd(nodes, h)..];
      QuerySelector(RemoveSubtree(nodes, h), HeaderLike)
      == match QuerySelector(after, HeaderLike)
         case None => None
         case Some(k) => Some(h + k)
  {
    var pre, after := nodes[..h], nodes[SubtreeEnd(nodes, h)..];
    assert RemoveSubtree(nodes, h) == pre + after;
    assert NoMatch(pre, HeaderLike);
    QueryPastNonMatching(pre, after, HeaderLike);
  }

  // ---------------------------------------------------------------------
  // The whole conversion

  /** A page once loaded: the content below `#docs-content`, or `None` when no element has that id. */
  datatype LoadedPage = LoadedPage(docsContent: Option<seq<Node>>)

  /** The headless browser: navigation (either approach; `None` when both fail)
      and printing of the extracted container with the given options. */
  datatype Browser = Browser(
    navigate: string -> Option<LoadedPage>,
    printPdf: (seq<Fragment>, PdfOptions) -> Bytes)

  /** `convertWebpageToPdf(url, options)`. */
  function ConvertWebpageToPdf(browser: Browser, url: string, options: PdfOptions): (r: Result<Bytes, ConvertError>)
    ensures browser.navigate(NormalizeUrl(url)).None? ==> r == Failure(NavigationFailed(NormalizeUrl(url)))
    ensures r.Success? <==>
              browser.navigate(NormalizeUrl(url)).Some? && browser.navigate(NormalizeUrl(url)).value.docsContent.Some?
    ensures r.Success? ==>
              var content := browser.navigate(NormalizeUrl(url)).value.docsContent;
              r.value == browser.printPdf(ExtractContent(content).value, PdfOptionsFor(options))
  {
    var pdfOptions := PdfOptionsFor(options);
    var processedUrl := NormalizeUrl(url);
    match browser.navigate(processedUrl)
    case None => Failure(NavigationFailed(processedUrl))
    case Some(page) =>
      match ExtractContent(page.docsContent)
      case Failure(e) => Failure(e)
      case Success(container) => Success(browser.printPdf(container, pdfOptions))
  }
}
