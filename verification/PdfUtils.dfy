/** The merge of rendered PDFs into one combined document, with the statistics
    the command line prints afterwards (`mergePDFs` in pdf-utils.js).

    A PDF is modelled as the sequence of its pages, each an opaque value of
    type `Page`. Reading a path is a lookup in a file-system snapshot; parsing
    the bytes is a function the caller supplies, which yields `None` where the
    PDF library throws. */
module PdfUtils {
  import opened Wrappers
  import opened Files

  /** What one merge may consult: the files, the PDF parser and `path.basename`. */
  datatype Env<Page> = Env(
    fs: FileSystem,
    parse: Bytes -> Option<seq<Page>>,
    basename: Path -> string)

  datatype FileSize = FileSize(file: string, size: nat)

  /** The statistics record returned to the command line. Sizes are byte counts. */
  datatype MergeStats = MergeStats(
    totalFiles: nat,
    totalPages: nat,
    fileWithMostPages: string,
    maxPages: nat,
    fileSizes: seq<FileSize>)

  /** The merged document being assembled: a page list that only grows at its end. */
  class PdfDocument<Page> {
    var pages: seq<Page>

    constructor Create()
      ensures pages == []
    {
      pages := [];
    }

    method AddPage(page: Page)
      modifies this
      ensures pages == old(pages) + [page]
    {
      pages := pages + [page];
    }

    /** `copiedPages.forEach(page => mergedPdf.addPage(page))`. */
    method AddPages(copiedPages: seq<Page>)
      modifies this
      ensures pages == old(pages) + copiedPages
    {
      for j := 0 to |copiedPages|
        invariant pages == old(pages) + copiedPages[..j]
      {
        AddPage(copiedPages[j]);
      }
      assert copiedPages[..|copiedPages|] == copiedPages;
    }
  }

  /** Read then load one input: `None` when either step throws. */
  function Load<Page>(env: Env<Page>, path: Path): Option<seq<Page>>
  {
    if path in env.fs then env.parse(env.fs[path]) else None
  }

  /** The pages an input adds to the merge: all of them if it loads, none otherwise. */
  function Contribution<Page>(env: Env<Page>, path: Path): seq<Page>
  {
    match Load(env, path)
    case Some(pages) => pages
    case None => []
  }

  function PageCount<Page>(env: Env<Page>, path: Path): nat
  {
    |Contribution(env, path)|
  }

  function Max(a: nat, b: nat): nat { if a < b then b else a }

  /** The pages of every input that loads, input after input. */
  function MergedPages<Page>(env: Env<Page>, inputs: seq<Path>): seq<Page>
  {
    if inputs == [] then []
    else MergedPages(env, inputs[..|inputs| - 1]) + Contribution(env, inputs[|inputs| - 1])
  }

  /** The sum of the page counts of the inputs that load. */
  function TotalPages<Page>(env: Env<Page>, inputs: seq<Path>): nat
  {
    if inputs == [] then 0
    else TotalPages(env, inputs[..|inputs| - 1]) + PageCount(env, inputs[|inputs| - 1])
  }

  /** The largest page count of an input that loads, or 0. */
  function MaxPages<Page>(env: Env<Page>, inputs: seq<Path>): nat
  {
    if inputs == [] then 0
    else Max(MaxPages(env, inputs[..|inputs| - 1]), PageCount(env, inputs[|inputs| - 1]))
  }

  /** The position of the input reported as having most pages: the last one
      whose count beat every count before it. */
  function Leader<Page>(env: Env<Page>, inputs: seq<Path>): (k: Option<nat>)
    ensures k.Some? ==> k.value < |inputs|
  {
    if inputs == [] then None
    else
      var init := inputs[..|inputs| - 1];
      if PageCount(env, inputs[|inputs| - 1]) > MaxPages(env, init) then Some(|inputs| - 1)
      else Leader(env, init)
  }

  function MostPagesFile<Page>(env: Env<Page>, inputs: seq<Path>): string
  {
    match Leader(env, inputs)
    case None => ""
    case Some(k) => env.basename(inputs[k])
  }

  /** One size entry per input that could be read, parsed or not. */
  function FileSizes<Page>(env: Env<Page>, inputs: seq<Path>): seq<FileSize>
  {
    if inputs == [] then []
    else
      var path := inputs[|inputs| - 1];
      FileSizes(env, inputs[..|inputs| - 1])
      + (if path in env.fs then [FileSize(env.basename(path), |env.fs[path]|)] else [])
  }

  function Stats<Page>(env: Env<Page>, inputs: seq<Path>): MergeStats
  {
    MergeStats(|inputs|, TotalPages(env, inputs), MostPagesFile(env, inputs),
               MaxPages(env, inputs), FileSizes(env, inputs))
  }

  /** `mergePDFs`: walks the inputs in order, skipping any that cannot be read
      or parsed, appending the pages of the others to a fresh document and
      accumulating the statistics. */
  method MergePdfs<Page>(env: Env<Page>, inputPaths: seq<Path>)
    returns (merged: seq<Page>, stats: MergeStats)
    ensures merged == MergedPages(env, inputPaths)
    ensures stats == Stats(env, inputPaths)
  {
    var mergedPdf := new PdfDocument<Page>.Create();
    var totalPages := 0;
    var fileWithMostPages := "";
    var maxPages := 0;
    var fileSizes := [];
    for i := 0 to |inputPaths|
      invariant mergedPdf.pages == MergedPages(env, inputPaths[..i])
      invariant totalPages == TotalPages(env, inputPaths[..i])
      invariant maxPages == MaxPages(env, inputPaths[..i])
      invariant fileWithMostPages == MostPagesFile(env, inputPaths[..i])
      invariant fileSizes == FileSizes(env, inputPaths[..i])
    {
      var filePath := inputPaths[i];
      MergeStep(env, inputPaths, i);
      if filePath in env.fs {
        var fileContent := env.fs[filePath];
        fileSizes := fileSizes + [FileSize(env.basename(filePath), |fileContent|)];
        var pdfDoc := env.parse(fileContent);
        if pdfDoc.Some? {
          var pageCount := |pdfDoc.value|;
          totalPages := totalPages + pageCount;
          if pageCount > maxPages {
            maxPages := pageCount;
            fileWithMostPages := env.basename(filePath);
          }
          mergedPdf.AddPages(pdfDoc.value);
        }
      }
    }
    assert inputPaths[..|inputPaths|] == inputPaths;
    stats := MergeStats(|inputPaths|, totalPages, fileWithMostPages, maxPages, fileSizes);
    merged := mergedPdf.pages;
  }

  /** One more input: how each specification value for the first `i + 1`
      inputs follows from the value for the first `i`. */
  lemma MergeStep<Page>(env: Env<Page>, inputs: seq<Path>, i: nat)
    requires i < |inputs|
    ensures var prefix, path := inputs[..i], inputs[i];
      && MergedPages(env, inputs[..i + 1]) == MergedPages(env, prefix) + Contribution(env, path)
      && TotalPages(env, inputs[..i + 1]) == TotalPages(env, prefix) + PageCount(env, path)
      && MaxPages(env, inputs[..i + 1]) == Max(MaxPages(env, prefix), PageCount(env, path))
      && MostPagesFile(env, inputs[..i + 1])
         == (if PageCount(env, path) > MaxPages(env, prefix) then env.basename(path) else MostPagesFile(env, prefix))
      && FileSizes(env, inputs[..i + 1])
         == FileSizes(env, prefix) + (if path in env.fs then [FileSize(env.basename(path), |env.fs[path]|)] else [])
  {
    assert inputs[..i + 1][..i] == inputs[..i];
    assert forall k :: 0 <= k < i ==> inputs[..i + 1][k] == inputs[..i][k];
  }

  // ---------------------------------------------------------------------
  // What the statistics mean

  /** The merged document holds exactly as many pages as `totalPages` reports. */
  lemma {:induction false} MergedLengthIsTotal<Page>(env: Env<Page>, inputs: seq<Path>)
    ensures |MergedPages(env, inputs)| == TotalPages(env, inputs)
  {
    if inputs != [] {
      MergedLengthIsTotal(env, inputs[..|inputs| - 1]);
    }
  }

  /** `maxPages` bounds every page count and is reached by some input unless it is 0. */
  lemma {:induction false} MaxPagesIsMaximum<Page>(env: Env<Page>, inputs: seq<Path>)
    ensures forall i :: 0 <= i < |inputs| ==> PageCount(env, inputs[i]) <= MaxPages(env, inputs)
    ensures MaxPages(env, inputs) == 0
            || exists i :: 0 <= i < |inputs| && PageCount(env, inputs[i]) == MaxPages(env, inputs)
  {
    if inputs != [] {
      var init := inputs[..|inputs| - 1];
      MaxPagesIsMaximum(env, init);
      assert forall i :: 0 <= i < |init| ==> inputs[i] == init[i];
      if MaxPages(env, inputs) != 0 && PageCount(env, inputs[|inputs| - 1]) < MaxPages(env, inputs) {
        var i :| 0 <= i < |init| && PageCount(env, init[i]) == MaxPages(env, init);
        assert PageCount(env, inputs[i]) == MaxPages(env, inputs);
      }
    }
  }

  /** The reported input is the FIRST one whose page count equals `maxPages`;
      none is reported exactly when no input has a page. */
  lemma {:induction false} LeaderIsFirstAtMax<Page>(env: Env<Page>, inputs: seq<Path>)
    ensures Leader(env, inputs).None? <==> MaxPages(env, inputs) == 0
    ensures Leader(env, inputs).Some? ==>
              var k := Leader(env, inputs).value;
              && PageCount(env, inputs[k]) == MaxPages(env, inputs)
              && forall j :: 0 <= j < k ==> PageCount(env, inputs[j]) < MaxPages(env, inputs)
  {
    if inputs != [] {
      var init := inputs[..|inputs| - 1];
      LeaderIsFirstAtMax(env, init);
      MaxPagesIsMaximum(env, init);
      assert forall i :: 0 <= i < |init| ==> inputs[i] == init[i];
    }
  }

  /** The largest count never exceeds the total. */
  lemma {:induction false} MaxAtMostTotal<Page>(env: Env<Page>, inputs: seq<Path>)
    ensures MaxPages(env, inputs) <= TotalPages(env, inputs)
  {
    if inputs != [] {
      MaxAtMostTotal(env, inputs[..|inputs| - 1]);
    }
  }

  /** Every input that can be read gets a size entry, whether it parses or
      not: when all of them can be read, there is one entry per input. */
  lemma {:induction false} ReadableInputsAllSized<Page>(env: Env<Page>, inputs: seq<Path>)
    requires forall p :: p in inputs ==> p in env.fs
    ensures |FileSizes(env, inputs)| == |inputs|
  {
    if inputs != [] {
      var init := inputs[..|inputs| - 1];
      assert forall p :: p in init ==> p in inputs;
      assert inputs[|inputs| - 1] in inputs;
      ReadableInputsAllSized(env, init);
    }
  }

  // ---------------------------------------------------------------------
  // Inputs are processed independently, in order

  lemma {:induction false} MergedPagesOfAppend<Page>(env: Env<Page>, a: seq<Path>, b: seq<Path>)
    ensures MergedPages(env, a + b) == MergedPages(env, a) + MergedPages(env, b)
  {
    if b == [] {
      assert a + b == a;
    } else {
      var init := b[..|b| - 1];
      assert (a + b)[..|a + b| - 1] == a + init;
      assert (a + b)[|a + b| - 1] == b[|b| - 1];
      MergedPagesOfAppend(env, a, init);
    }
  }

  lemma {:induction false} TotalPagesOfAppend<Page>(env: Env<Page>, a: seq<Path>, b: seq<Path>)
    ensures TotalPages(env, a + b) == TotalPages(env, a) + TotalPages(env, b)
  {
    if b == [] {
      assert a + b == a;
    } else {
      var init := b[..|b| - 1];
      assert (a + b)[..|a + b| - 1] == a + init;
      assert (a + b)[|a + b| - 1] == b[|b| - 1];
      TotalPagesOfAppend(env, a, init);
    }
  }

  lemma {:induction false} MaxPagesOfAppend<Page>(env: Env<Page>, a: seq<Path>, b: seq<Path>)
    ensures MaxPages(env, a + b) == Max(MaxPages(env, a), MaxPages(env, b))
  {
    if b == [] {
      assert a + b == a;
    } else {
      var init := b[..|b| - 1];
      assert (a + b)[..|a + b| - 1] == a + init;
      assert (a + b)[|a + b| - 1] == b[|b| - 1];
      MaxPagesOfAppend(env, a, init);
    }
  }

  lemma {:induction false} FileSizesOfAppend<Page>(env: Env<Page>, a: seq<Path>, b: seq<Path>)
    ensures FileSizes(env, a + b) == FileSizes(env, a) + FileSizes(env, b)
  {
    if b == [] {
      assert a + b == a;
    } else {
      var init := b[..|b| - 1];
      assert (a + b)[..|a + b| - 1] == a + init;
      assert (a + b)[|a + b| - 1] == b[|b| - 1];
      FileSizesOfAppend(env, a, init);
    }
  }

  /** The merge of two input lists one after the other is the merge of the
      first followed by the merge of the second, for pages, totals, maxima and
      size entries: what one input does never depends on a later one, and a
      failing input never stops the inputs after it. */
  lemma MergeOfAppend<Page>(env: Env<Page>, a: seq<Path>, b: seq<Path>)
    ensures MergedPages(env, a + b) == MergedPages(env, a) + MergedPages(env, b)
    ensures TotalPages(env, a + b) == TotalPages(env, a) + TotalPages(env, b)
    ensures MaxPages(env, a + b) == Max(MaxPages(env, a), MaxPages(env, b))
    ensures FileSizes(env, a + b) == FileSizes(env, a) + FileSizes(env, b)
  {
    MergedPagesOfAppend(env, a, b);
    TotalPagesOfAppend(env, a, b);
    MaxPagesOfAppend(env, a, b);
    FileSizesOfAppend(env, a, b);
  }

  /** A failed input on its own contributes no page, no count and no maximum. */
  lemma FailedInputAddsNothing<Page>(env: Env<Page>, path: Path)
    requires Load(env, path).None?
    ensures MergedPages(env, [path]) == []
    ensures TotalPages(env, [path]) == 0
    ensures MaxPages(env, [path]) == 0
  {
  }

  lemma SkipFailedPages<Page>(env: Env<Page>, a: seq<Path>, path: Path, b: seq<Path>)
    requires Load(env, path).None?
    ensures MergedPages(env, a + [path] + b) == MergedPages(env, a + b)
  {
    FailedInputAddsNothing(env, path);
    MergedPagesOfAppend(env, a + [path], b);
    MergedPagesOfAppend(env, a, [path]);
    MergedPagesOfAppend(env, a, b);
  }

  lemma SkipFailedTotal<Page>(env: Env<Page>, a: seq<Path>, path: Path, b: seq<Path>)
    requires Load(env, path).None?
    ensures TotalPages(env, a + [path] + b) == TotalPages(env, a + b)
  {
    FailedInputAddsNothing(env, path);
    TotalPagesOfAppend(env, a + [path], b);
    TotalPagesOfAppend(env, a, [path]);
    TotalPagesOfAppend(env, a, b);
  }

  lemma SkipFailedMax<Page>(env: Env<Page>, a: seq<Path>, path: Path, b: seq<Path>)
    requires Load(env, path).None?
    ensures MaxPages(env, a + [path] + b) == MaxPages(env, a + b)
  {
    FailedInputAddsNothing(env, path);
    MaxPagesOfAppend(env, a + [path], b);
    MaxPagesOfAppend(env, a, [path]);
    MaxPagesOfAppend(env, a, b);
  }

  /** An input that cannot be read or parsed adds nothing: merging without it
      gives the same pages, the same total and the same maximum. */
  lemma SkipFailedInput<Page>(env: Env<Page>, inputs: seq<Path>, i: nat)
    requires i < |inputs| && Load(env, inputs[i]).None?
    ensures var rest := inputs[..i] + inputs[i + 1..];
      && MergedPages(env, inputs) == MergedPages(env, rest)
      && TotalPages(env, inputs) == TotalPages(env, rest)
      && MaxPages(env, inputs) == MaxPages(env, rest)
  {
    var a, b := inputs[..i], inputs[i + 1..];
    assert inputs == a + [inputs[i]] + b;
    SkipFailedPages(env, a, inputs[i], b);
    SkipFailedTotal(env, a, inputs[i], b);
    SkipFailedMax(env, a, inputs[i], b);
  }

  // ---------------------------------------------------------------------
  // The end-to-end example: two good inputs around a corrupt one

  function SamplePages(bytes: Bytes): Option<seq<int>>
  {
    if bytes == [1] then Some([10, 11])
    else if bytes == [3] then Some([30, 31, 32])
    else None
  }

  function SampleBasename(path: Path): string { path }

  /** doc1.pdf holds a 2-page PDF, doc2.pdf a corrupt one, doc3.pdf a 3-page PDF. */
  function SampleEnv(): Env<int>
  {
    Env(map["doc1.pdf" := [1], "doc2.pdf" := [2], "doc3.pdf" := [3]], SamplePages, SampleBasename)
  }

  lemma SampleLoads()
    ensures Load(SampleEnv(), "doc1.pdf") == Some([10, 11])
    ensures Load(SampleEnv(), "doc2.pdf") == None
    ensures Load(SampleEnv(), "doc3.pdf") == Some([30, 31, 32])
    ensures forall p :: p in SampleEnv().fs ==> |SampleEnv().fs[p]| == 1
  {
  }

  /** Merging doc1.pdf, doc2.pdf, doc3.pdf gives 5 pages from 3 files, with
      doc3.pdf the longest; the corrupt file still gets a size entry. */
  lemma EndToEndExample()
    ensures MergedPages(SampleEnv(), ["doc1.pdf", "doc2.pdf", "doc3.pdf"]) == [10, 11, 30, 31, 32]
    ensures Stats(SampleEnv(), ["doc1.pdf", "doc2.pdf", "doc3.pdf"])
            == MergeStats(3, 5, "doc3.pdf", 3,
                 [FileSize("doc1.pdf", 1), FileSize("doc2.pdf", 1), FileSize("doc3.pdf", 1)])
  {
    var env := SampleEnv();
    var inputs := ["doc1.pdf", "doc2.pdf", "doc3.pdf"];
    SampleLoads();
    var p1, p2 := inputs[..1], inputs[..2];
    assert p1[..0] == [] && p2[..1] == p1 && inputs[..2] == p2;
    assert p1 == ["doc1.pdf"] && p2 == ["doc1.pdf", "doc2.pdf"];
    assert PageCount(env, "doc1.pdf") == 2 && PageCount(env, "doc2.pdf") == 0;
    assert PageCount(env, "doc3.pdf") == 3;
    assert MergedPages(env, p1) == [10, 11];
    assert MergedPages(env, p2) == [10, 11];
    assert TotalPages(env, p1) == 2 && MaxPages(env, p1) == 2 && Leader(env, p1) == Some(0);
    assert TotalPages(env, p2) == 2 && MaxPages(env, p2) == 2 && Leader(env, p2) == Some(0);
    assert Leader(env, inputs) == Some(2);
    assert FileSizes(env, p1) == [FileSize("doc1.pdf", 1)];
    assert FileSizes(env, p2) == [FileSize("doc1.pdf", 1), FileSize("doc2.pdf", 1)];
  }

  function TieBytes(bytes: Bytes): Option<seq<int>>
  {
    if |bytes| == 0 then None else Some(seq(bytes[0] as int, i => i))
  }

  /** Page counts 3, 5, 5, 2: the maximum is 5 and the first input with 5 pages is reported. */
  lemma TieGoesToFirst()
    ensures var env := Env(map["a" := [3], "b" := [5], "c" := [5], "d" := [2]],
                           TieBytes, SampleBasename);
      var inputs := ["a", "b", "c", "d"];
      MaxPages(env, inputs) == 5 && MostPagesFile(env, inputs) == "b"
  {
    var env := Env(map["a" := [3], "b" := [5], "c" := [5], "d" := [2]], TieBytes, SampleBasename);
    var inputs := ["a", "b", "c", "d"];
    var p1, p2, p3 := inputs[..1], inputs[..2], inputs[..3];
    assert p1[..0] == [] && p2[..1] == p1 && p3[..2] == p2 && inputs[..3] == p3;
    assert PageCount(env, "a") == 3;
    assert PageCount(env, "b") == 5;
    assert PageCount(env, "c") == 5;
    assert PageCount(env, "d") == 2;
    assert MaxPages(env, p1) == 3 && Leader(env, p1) == Some(0);
    assert MaxPages(env, p2) == 5 && Leader(env, p2) == Some(1);
    assert MaxPages(env, p3) == 5 && Leader(env, p3) == Some(1);
    assert Leader(env, inputs) == Some(1);
  }
}
