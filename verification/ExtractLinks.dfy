/** The documentation-link scraper (`extractLinksFromPage` in extract-links.js):
    which anchors of the docs navigation are taken for each documentation
    type, and how they become absolute links.

    The page is given as its `nav` elements in document order; a nav is its
    `aria-label` and its direct children, each child with its whole text
    content and the anchors inside it in document order. */
module ExtractLinks {
  import opened Wrappers
  import opened Text

  datatype Anchor = Anchor(href: Option<string>, text: string)

  datatype Section = Section(textContent: string, anchors: seq<Anchor>)

  datatype Nav = Nav(ariaLabel: Option<string>, sections: seq<Section>)

  /** What the page script returns per anchor. */
  datatype Link = Link(href: string, text: string)

  const BaseUrl := "https://svelte.dev"

  /** The first `nav` whose `aria-label` is `Docs`. */
  function FindDocsNav(navs: seq<Nav>): (r: Option<Nav>)
    ensures r.None? <==> forall i :: 0 <= i < |navs| ==> navs[i].ariaLabel != Some("Docs")
    ensures r.Some? ==>
              exists i :: && 0 <= i < |navs| && navs[i] == r.value
                          && r.value.ariaLabel == Some("Docs")
                          && (forall j :: 0 <= j < i ==> navs[j].ariaLabel != Some("Docs"))
  {
    if navs == [] then None
    else if navs[0].ariaLabel == Some("Docs") then Some(navs[0])
    else
      var r := FindDocsNav(navs[1..]);
      assert forall i :: 1 <= i < |navs| ==> navs[i] == navs[1..][i - 1];
      r
  }

  /** `getAttribute('href') || ''`. */
  function HrefOrEmpty(a: Anchor): string
  {
    match a.href
    case Some(h) => h
    case None => ""
  }

  /** The anchors of the given sections, section after section. */
  function AllAnchors(sections: seq<Section>): seq<Anchor>
  {
    if sections == [] then [] else sections[0].anchors + AllAnchors(sections[1..])
  }

  predicate IsKitSection(s: Section)
  {
    Contains(ToLower(s.textContent), "kit")
  }

  /** The nav children whose lower-cased text mentions `kit`, in order. */
  function KitSections(sections: seq<Section>): (r: seq<Section>)
    ensures forall s :: s in r <==> s in sections && IsKitSection(s)
  {
    if sections == [] then []
    else (if IsKitSection(sections[0]) then [sections[0]] else []) + KitSections(sections[1..])
  }

  /** The `forEach`/`push` loop of the SvelteKit branch. */
  method CollectAnchors(kitSections: seq<Section>) returns (anchors: seq<Anchor>)
    ensures anchors == AllAnchors(kitSections)
  {
    anchors := [];
    for i := 0 to |kitSections|
      invariant anchors + AllAnchors(kitSections[i..]) == AllAnchors(kitSections)
    {
      assert kitSections[i..][1..] == kitSections[i + 1..];
      anchors := anchors + kitSections[i].anchors;
    }
  }

  /** The Svelte branch: every anchor whose href does not contain `/kit/`, in order. */
  function SvelteAnchors(anchors: seq<Anchor>): (r: seq<Anchor>)
    ensures |r| <= |anchors|
    ensures forall a :: a in r <==> a in anchors && !Contains(HrefOrEmpty(a), "/kit/")
  {
    if anchors == [] then []
    else
      (if Contains(HrefOrEmpty(anchors[0]), "/kit/") then [] else [anchors[0]])
      + SvelteAnchors(anchors[1..])
  }

  /** `anchors.map(a => ({ href: a.getAttribute('href') || '', text: a.textContent.trim() }))`. */
  function ToLinks(anchors: seq<Anchor>): (r: seq<Link>)
    ensures |r| == |anchors|
    ensures forall i :: 0 <= i < |r| ==> r[i] == Link(HrefOrEmpty(anchors[i]), Trim(anchors[i].text))
  {
    seq(|anchors|, i requires 0 <= i < |anchors| => Link(HrefOrEmpty(anchors[i]), Trim(anchors[i].text)))
  }

  /** The anchors the page script takes from the docs nav: those of the
      sections mentioning `kit` for SvelteKit, otherwise every anchor whose
      href avoids `/kit/`. */
  function ChosenAnchors(docsNav: Nav, docType: string): seq<Anchor>
  {
    if docType == "SvelteKit" then AllAnchors(KitSections(docsNav.sections))
    else SvelteAnchors(AllAnchors(docsNav.sections))
  }

  /** The page script: the anchors chosen for the documentation type, as links,
      one per anchor and in the same order. */
  function SelectLinks(navs: seq<Nav>, docType: string): (r: seq<Link>)
    ensures FindDocsNav(navs).None? ==> r == []
    ensures FindDocsNav(navs).Some? ==>
              var chosen := ChosenAnchors(FindDocsNav(navs).value, docType);
              && |r| == |chosen|
              && forall i :: 0 <= i < |r| ==> r[i] == Link(HrefOrEmpty(chosen[i]), Trim(chosen[i].text))
    ensures docType != "SvelteKit" ==> forall i :: 0 <= i < |r| ==> !Contains(r[i].href, "/kit/")
  {
    match FindDocsNav(navs)
    case None => []
    case Some(docsNav) =>
      var chosen := ChosenAnchors(docsNav, docType);
      assert docType != "SvelteKit" ==> forall i :: 0 <= i < |chosen| ==> chosen[i] in SvelteAnchors(AllAnchors(docsNav.sections));
      ToLinks(chosen)
  }

  predicate IsDocLink(link: Link)
  {
    link.href != "" && StartsWith(link.href, "/docs/")
  }

  /** Keep the links under `/docs/` and prefix them with the site's base URL. */
  function CompleteDocLinks(links: seq<Link>): (r: seq<string>)
    ensures |r| <= |links|
    ensures forall i :: 0 <= i < |r| ==> StartsWith(r[i], "https://svelte.dev/docs/")
    ensures forall l :: l in links && IsDocLink(l) ==> BaseUrl + l.href in r
    ensures forall u :: u in r ==> exists l :: l in links && IsDocLink(l) && u == BaseUrl + l.href
  {
    if links == [] then []
    else
      var rest := CompleteDocLinks(links[1..]);
      var l := links[0];
      if IsDocLink(l) then
        assert StartsWith(BaseUrl + l.href, "https://svelte.dev/docs/") by {
          assert (BaseUrl + l.href)[..|"https://svelte.dev/docs/"|] == BaseUrl + l.href[..|"/docs/"|];
        }
        [BaseUrl + l.href] + rest
      else rest
  }

  /** `extractLinksFromPage` once the page is loaded: for each chosen anchor
      whose href lies under `/docs/`, the base URL followed by that href. */
  function ExtractLinksFromPage(navs: seq<Nav>, docType: string): (r: seq<string>)
    ensures FindDocsNav(navs).None? ==> r == []
    ensures FindDocsNav(navs).Some? ==>
              var chosen := ChosenAnchors(FindDocsNav(navs).value, docType);
              forall u :: u in r <==>
                exists a :: a in chosen && StartsWith(HrefOrEmpty(a), "/docs/") && u == BaseUrl + HrefOrEmpty(a)
  {
    match FindDocsNav(navs)
    case None => []
    case Some(docsNav) =>
      var chosen := ChosenAnchors(docsNav, docType);
      assert SelectLinks(navs, docType) == ToLinks(chosen);
      DocLinksAreChosen(chosen);
      ChosenAreDocLinks(chosen);
      CompleteDocLinks(SelectLinks(navs, docType))
  }

  lemma DocLinksAreChosen(chosen: seq<Anchor>)
    ensures forall u :: u in CompleteDocLinks(ToLinks(chosen)) ==>
              exists a :: a in chosen && StartsWith(HrefOrEmpty(a), "/docs/") && u == BaseUrl + HrefOrEmpty(a)
  {
    var links := ToLinks(chosen);
    forall u | u in CompleteDocLinks(links)
      ensures exists a :: a in chosen && StartsWith(HrefOrEmpty(a), "/docs/") && u == BaseUrl + HrefOrEmpty(a)
    {
      var l :| l in links && IsDocLink(l) && u == BaseUrl + l.href;
      var i :| 0 <= i < |links| && links[i] == l;
      assert chosen[i] in chosen && l.href == HrefOrEmpty(chosen[i]);
    }
  }

  lemma ChosenAreDocLinks(chosen: seq<Anchor>)
    ensures forall a :: a in chosen && StartsWith(HrefOrEmpty(a), "/docs/") ==>
              BaseUrl + HrefOrEmpty(a) in CompleteDocLinks(ToLinks(chosen))
  {
    var links := ToLinks(chosen);
    forall a | a in chosen && StartsWith(HrefOrEmpty(a), "/docs/")
      ensures BaseUrl + HrefOrEmpty(a) in CompleteDocLinks(links)
    {
      var i :| 0 <= i < |chosen| && chosen[i] == a;
      assert links[i] in links && IsDocLink(links[i]) && links[i].href == HrefOrEmpty(a);
    }
  }

  // ---------------------------------------------------------------------
  // Order is kept

  lemma {:induction false} AllAnchorsOfAppend(a: seq<Section>, b: seq<Section>)
    ensures AllAnchors(a + b) == AllAnchors(a) + AllAnchors(b)
  {
    if a == [] {
      assert a + b == b;
    } else {
      assert (a + b)[0] == a[0];
      assert (a + b)[1..] == a[1..] + b;
      AllAnchorsOfAppend(a[1..], b);
    }
  }

  lemma {:induction false} KitSectionsOfAppend(a: seq<Section>, b: seq<Section>)
    ensures KitSections(a + b) == KitSections(a) + KitSections(b)
  {
    if a == [] {
      assert a + b == b;
    } else {
      assert (a + b)[0] == a[0];
      assert (a + b)[1..] == a[1..] + b;
      KitSectionsOfAppend(a[1..], b);
    }
  }

  /** The SvelteKit branch takes the sections one after the other: the anchors
      of a split nav are the anchors of its first part, then of its second. */
  lemma KitAnchorsOfAppend(a: seq<Section>, b: seq<Section>)
    ensures AllAnchors(KitSections(a + b)) == AllAnchors(KitSections(a)) + AllAnchors(KitSections(b))
  {
    KitSectionsOfAppend(a, b);
    AllAnchorsOfAppend(KitSections(a), KitSections(b));
  }

  /** The Svelte branch keeps document order: filtering a concatenation is
      concatenating the filtered parts. */
  lemma {:induction false} SvelteAnchorsOfAppend(a: seq<Anchor>, b: seq<Anchor>)
    ensures SvelteAnchors(a + b) == SvelteAnchors(a) + SvelteAnchors(b)
  {
    if a == [] {
      assert a + b == b;
    } else {
      assert (a + b)[0] == a[0];
      assert (a + b)[1..] == a[1..] + b;
      SvelteAnchorsOfAppend(a[1..], b);
    }
  }

  /** Completion keeps the order of the links it keeps. */
  lemma {:induction false} CompleteDocLinksOfAppend(a: seq<Link>, b: seq<Link>)
    ensures CompleteDocLinks(a + b) == CompleteDocLinks(a) + CompleteDocLinks(b)
  {
    if a == [] {
      assert a + b == b;
    } else {
      assert (a + b)[0] == a[0];
      assert (a + b)[1..] == a[1..] + b;
      CompleteDocLinksOfAppend(a[1..], b);
    }
  }
}
