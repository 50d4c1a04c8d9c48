/** The command-line driver (index.js): which URLs a command processes, in
    what order and under what file name, the batch loop that renders and
    writes them, and when the combined PDF is made.

    Commander's option wiring, logging and the file-system calls are not
    modelled; the browser, `new URL`, `writeFile` and `path.join` are
    parameters, and the filters take their switches as booleans. */
module Cli {
  import opened Wrappers
  import opened Files
  import opened Text
  import Converter
  import PdfUtils

  // ---------------------------------------------------------------------
  // The URL list of the `bulk` command

  /** `lines.filter(url => url.trim())`: the lines that are not blank, in order. */
  function KeepNonBlank(lines: seq<string>): (r: seq<string>)
    ensures |r| <= |lines|
  {
    if lines == [] then []
    else (if Trim(lines[0]) != "" then [lines[0]] else []) + KeepNonBlank(lines[1..])
  }

  /** The filter keeps exactly the lines that are not all white space. */
  lemma {:induction false} KeepNonBlankMembers(lines: seq<string>)
    ensures forall l :: l in KeepNonBlank(lines) <==> l in lines && !IsBlank(l)
  {
    if lines != [] {
      KeepNonBlankMembers(lines[1..]);
      assert lines == [lines[0]] + lines[1..];
    }
  }

  /** `content.split('\n').filter(url => url.trim())`. */
  function ParseUrlList(content: string): (urls: seq<string>)
    ensures forall u :: u in urls ==> !IsBlank(u) && '\n' !in u
  {
    var lines := Split(content, '\n');
    KeepNonBlankMembers(lines);
    KeepNonBlank(lines)
  }

  /** A file made of the given lines yields exactly its non-blank lines, in file order. */
  lemma ParseUrlListOfLines(lines: seq<string>)
    requires |lines| >= 1
    requires forall i :: 0 <= i < |lines| ==> '\n' !in lines[i]
    ensures ParseUrlList(Join(lines, '\n')) == KeepNonBlank(lines)
  {
    SplitJoin(lines, '\n');
  }

  /** The blank-line filter keeps line order. */
  lemma {:induction false} KeepNonBlankOfAppend(a: seq<string>, b: seq<string>)
    ensures KeepNonBlank(a + b) == KeepNonBlank(a) + KeepNonBlank(b)
  {
    if a == [] {
      assert a + b == b;
    } else {
      assert (a + b)[0] == a[0];
      assert (a + b)[1..] == a[1..] + b;
      KeepNonBlankOfAppend(a[1..], b);
      var head := if Trim(a[0]) != "" then [a[0]] else [];
      calc {
        KeepNonBlank(a + b);
        head + KeepNonBlank(a[1..] + b);
        head + (KeepNonBlank(a[1..]) + KeepNonBlank(b));
        (head + KeepNonBlank(a[1..])) + KeepNonBlank(b);
      }
    }
  }

  /** A join of lines with a line feed is blank exactly when every line is. */
  lemma {:induction false} BlankJoin(parts: seq<string>)
    ensures IsBlank(Join(parts, '\n')) <==> forall i :: 0 <= i < |parts| ==> IsBlank(parts[i])
  {
    if |parts| > 1 {
      BlankJoin(parts[1..]);
      var s := parts[0] + ['\n'] + Join(parts[1..], '\n');
      assert forall i :: 0 <= i < |parts[0]| ==> s[i] == parts[0][i];
      assert forall i :: 0 <= i < |Join(parts[1..], '\n')| ==> s[|parts[0]| + 1 + i] == Join(parts[1..], '\n')[i];
      assert forall i :: 1 <= i < |parts| ==> parts[i] == parts[1..][i - 1];
    }
  }

  /** Reading the URL file: the non-blank lines, or the error exit when there are none. */
  function LoadUrls(content: string): (r: Result<seq<string>, string>)
    ensures r.Failure? <==> IsBlank(content)
    ensures r.Success? ==> r.value == ParseUrlList(content) && |r.value| > 0
  {
    var urls := ParseUrlList(content);
    var lines := Split(content, '\n');
    JoinSplit(content, '\n');
    BlankJoin(lines);
    KeepNonBlankMembers(lines);
    assert urls == [] <==> forall i :: 0 <= i < |lines| ==> IsBlank(lines[i]) by {
      if urls != [] {
        assert urls[0] in urls;
      } else {
        forall i | 0 <= i < |lines| ensures IsBlank(lines[i]) {
          assert lines[i] in lines;
        }
      }
    }
    if |urls| == 0 then Failure("No URLs found in the file.") else Success(urls)
  }

  // ---------------------------------------------------------------------
  // Output file names

  /** `s.replace(/[^a-z0-9]/gi, '_')`. */
  function ReplaceNonAlnum(s: string): (r: string)
    ensures |r| == |s|
    ensures forall i :: 0 <= i < |s| ==> r[i] == if IsAsciiAlnum(s[i]) then s[i] else '_'
  {
    seq(|s|, i requires 0 <= i < |s| => if IsAsciiAlnum(s[i]) then s[i] else '_')
  }

  predicate IsSafeFileNameChar(c: char)
  {
    IsAsciiLower(c) || IsAsciiDigit(c) || c == '_'
  }

  /** The fallback file name: `url.replace(/[^a-z0-9]/gi, '_').toLowerCase()`. */
  function SanitizeFileName(url: string): (r: string)
    ensures |r| == |url|
    ensures forall i :: 0 <= i < |r| ==> IsSafeFileNameChar(r[i])
    ensures forall i :: 0 <= i < |url| && IsAsciiAlnum(url[i]) ==> r[i] == ToLowerChar(url[i])
    ensures forall i :: 0 <= i < |url| && !IsAsciiAlnum(url[i]) ==> r[i] == '_'
  {
    ToLower(ReplaceNonAlnum(url))
  }

  lemma SanitizeIsIdempotent(url: string)
    ensures SanitizeFileName(SanitizeFileName(url)) == SanitizeFileName(url)
  {
    var once := SanitizeFileName(url);
    var twice := SanitizeFileName(once);
    assert forall i :: 0 <= i < |once| ==> twice[i] == once[i];
  }

  /** What `new URL(url)` yields that the file names use. */
  datatype Url = Url(hostname: string, pathname: string)

  /** The `urls` command's name: the host name, then the path with every
      character outside `[A-Za-z0-9]` replaced, all in lower case. */
  function HostPathFileName(u: Url): (r: string)
    ensures r == ToLower(u.hostname) + SanitizeFileName(u.pathname)
    ensures forall i :: 0 <= i < |u.hostname| && u.hostname[i] == '.' ==> r[i] == '.'
  {
    ToLower(u.hostname + ReplaceNonAlnum(u.pathname))
  }

  /** `pathname.split('/').pop() || 'index'`: never empty and never holding
      `/`; the last segment of the path, that is its longest `/`-free suffix,
      or `index` when the path is empty or ends in `/`. */
  function PageName(pathname: string): (r: string)
    ensures r != [] && '/' !in r
    ensures pathname != [] && pathname[|pathname| - 1] != '/' ==>
              && |r| <= |pathname| && pathname[|pathname| - |r|..] == r
              && (|r| == |pathname| || pathname[|pathname| - |r| - 1] == '/')
    ensures pathname == [] || pathname[|pathname| - 1] == '/' ==> r == "index"
  {
    var parts := Split(pathname, '/');
    var last := parts[|parts| - 1];
    LastPartIsSuffix(pathname, '/');
    if last == "" then "index" else last
  }

  // ---------------------------------------------------------------------
  // Exclusion filters of the `svelte`, `sveltekit` and `docs` commands

  /** `links.filter(link => !link.toLowerCase().includes(needle))`. */
  function ExcludeContaining(links: seq<string>, needle: string): (kept: seq<string>)
    ensures |kept| <= |links|
    ensures forall l :: l in kept <==> l in links && !Contains(ToLower(l), needle)
  {
    if links == [] then []
    else
      (if Contains(ToLower(links[0]), needle) then [] else [links[0]])
      + ExcludeContaining(links[1..], needle)
  }

  /** How many links mention the needle, case-insensitively. */
  function CountContaining(links: seq<string>, needle: string): nat
  {
    if links == [] then 0
    else (if Contains(ToLower(links[0]), needle) then 1 else 0) + CountContaining(links[1..], needle)
  }

  /** The number the command prints, `originalCount - links.length`, is the number of links that mention the needle. */
  lemma {:induction false} RemovedAreThoseContaining(links: seq<string>, needle: string)
    ensures |links| - |ExcludeContaining(links, needle)| == CountContaining(links, needle)
  {
    if links != [] {
      RemovedAreThoseContaining(links[1..], needle);
    }
  }

  lemma {:induction false} ExcludeIsIdempotent(links: seq<string>, needle: string)
    ensures ExcludeContaining(ExcludeContaining(links, needle), needle) == ExcludeContaining(links, needle)
  {
    if links != [] {
      var rest := ExcludeContaining(links[1..], needle);
      ExcludeIsIdempotent(links[1..], needle);
      if Contains(ToLower(links[0]), needle) {
        assert ExcludeContaining(links, needle) == rest;
      } else {
        var once := [links[0]] + rest;
        assert ExcludeContaining(links, needle) == once;
        assert once[0] == links[0] && once[1..] == rest;
        assert ExcludeContaining(once, needle) == [links[0]] + ExcludeContaining(rest, needle);
      }
    }
  }

  /** Filtering keeps the order of the links it keeps. */
  lemma {:induction false} ExcludeOfAppend(a: seq<string>, b: seq<string>, needle: string)
    ensures ExcludeContaining(a + b, needle) == ExcludeContaining(a, needle) + ExcludeContaining(b, needle)
  {
    if a == [] {
      assert a + b == b;
    } else {
      assert (a + b)[0] == a[0];
      assert (a + b)[1..] == a[1..] + b;
      ExcludeOfAppend(a[1..], b, needle);
    }
  }

  /** The `svelte` link list: the error exit on an empty list, then the
      optional `legacy` and `v4-migration-guide` filters. */
  function SvelteLinks(links: seq<string>, noLegacy: bool, noV4: bool): (r: Result<seq<string>, string>)
    ensures r.Failure? <==> links == []
    ensures r.Success? ==> forall l :: l in r.value <==>
              && l in links
              && (noLegacy ==> !Contains(ToLower(l), "legacy"))
              && (noV4 ==> !Contains(ToLower(l), "v4-migration-guide"))
  {
    if links == [] then Failure("No valid URLs found in svelte-links.js.")
    else
      var afterLegacy := if noLegacy then ExcludeContaining(links, "legacy") else links;
      var afterV4 := if noV4 then ExcludeContaining(afterLegacy, "v4-migration-guide") else afterLegacy;
      Success(afterV4)
  }

  /** The `sveltekit` link list: the error exit on an empty list, then the optional `migrat` filter. */
  function SvelteKitLinks(links: seq<string>, noMigration: bool): (r: Result<seq<string>, string>)
    ensures r.Failure? <==> links == []
    ensures r.Success? ==> forall l :: l in r.value <==>
              l in links && (noMigration ==> !Contains(ToLower(l), "migrat"))
  {
    if links == [] then Failure("No valid URLs found in sveltekit-links.js.")
    else Success(if noMigration then ExcludeContaining(links, "migrat") else links)
  }

  // ---------------------------------------------------------------------
  // The batch loop

  /** How a command names its outputs: the sanitised URL (`bulk`), host name
      and path (`urls`), or the last path segment (`svelte`, `sveltekit`, `docs`). */
  datatype NameRule = SanitizedUrl | HostAndPath | LastSegment

  /** The effects a batch depends on: the browser, `new URL` (`None` where it
      throws), whether `writeFile` to a path succeeds, and `path.join`. */
  datatype Io = Io(
    browser: Converter.Browser,
    parseUrl: string -> Option<Url>,
    writable: Path -> bool,
    join: (string, string) -> Path)

  /** One batch loop: its naming rule, whether it trims and skips empty URLs,
      its output directory, and the directory its fallback writes to
      (`None` when that directory is undefined, so `path.join` throws). */
  datatype Batch = Batch(rule: NameRule, trimUrls: bool, outputDir: string, fallbackDir: Option<string>)

  function BulkBatch(dir: string): Batch { Batch(SanitizedUrl, true, dir, Some(dir)) }

  function UrlsBatch(dir: string): Batch { Batch(HostAndPath, true, dir, Some(dir)) }

  function SvelteBatch(dir: string): Batch { Batch(LastSegment, false, dir, Some(dir)) }

  /** The Svelte loop of the `docs` command as written: its fallback reads an undefined option. */
  function DocsSvelteBatchAsWritten(dir: string): Batch { Batch(LastSegment, false, dir, None) }

  /** `convertWebpageToPdf(url)`, called without options. */
  function Render(io: Io, url: string): Result<Bytes, Converter.ConvertError>
  {
    Converter.ConvertWebpageToPdf(io.browser, url, map[])
  }

  /** Rendering succeeds exactly when the page loads and has a
      `#docs-content` element, and then prints the extracted content with
      the default PDF options. */
  lemma RenderPrintsDefault(io: Io, url: string)
    ensures var page := io.browser.navigate(Converter.NormalizeUrl(url));
      var r := Render(io, url);
      && (r.Success? <==> page.Some? && page.value.docsContent.Some?)
      && (r.Success? ==>
            r.value == io.browser.printPdf(Converter.ExtractContent(page.value.docsContent).value,
                                           Converter.DefaultPdfOptions))
  {
    assert Converter.PdfOptionsFor(map[]) == Converter.DefaultPdfOptions;
  }

  /** The file name the command's rule derives: the sanitised URL for `bulk`;
      for the other commands a name from `new URL(url)`, or `None` where
      that throws. */
  function PrimaryName(io: Io, rule: NameRule, url: string): (r: Option<string>)
    ensures rule == SanitizedUrl ==> r == Some(SanitizeFileName(url))
    ensures rule != SanitizedUrl ==> (r.None? <==> io.parseUrl(url).None?)
    ensures rule == HostAndPath && r.Some? ==>
              var u := io.parseUrl(url).value;
              r.value == ToLower(u.hostname) + SanitizeFileName(u.pathname)
    ensures rule == LastSegment && r.Some? ==>
              r.value == PageName(io.parseUrl(url).value.pathname) && r.value != [] && '/' !in r.value
  {
    match rule
    case SanitizedUrl => Some(SanitizeFileName(url))
    case HostAndPath =>
      (match io.parseUrl(url) case None => None case Some(u) => Some(HostPathFileName(u)))
    case LastSegment =>
      (match io.parseUrl(url) case None => None case Some(u) => Some(PageName(u.pathname)))
  }

  /** The URL a pass works on: trimmed by the `bulk` and `urls` loops. */
  function UrlOf(batch: Batch, rawUrl: string): string
  {
    if batch.trimUrls then Trim(rawUrl) else rawUrl
  }

  /** `if (!url) continue`: a blank line of the URL file is skipped. */
  predicate Skipped(batch: Batch, rawUrl: string)
  {
    batch.trimUrls && IsBlank(rawUrl)
  }

  /** `path.join(outputDir, name + '.pdf')` for the rule's name, if there is one. */
  function PrimaryPath(io: Io, batch: Batch, url: string): Option<Path>
  {
    match PrimaryName(io, batch.rule, url)
    case None => None
    case Some(name) => Some(io.join(batch.outputDir, name + ".pdf"))
  }

  predicate PrimaryWritable(io: Io, batch: Batch, url: string)
  {
    PrimaryPath(io, batch, url).Some? && io.writable(PrimaryPath(io, batch, url).value)
  }

  /** The fallback's path, `path.join(dir, sanitised + '.pdf')`. */
  function FallbackPath(io: Io, dir: string, url: string): Path
  {
    io.join(dir, SanitizeFileName(url) + ".pdf")
  }

  /** Whether the fallback runs and its write succeeds: never under `bulk`,
      whose loop has no fallback, nor where its directory is undefined. */
  predicate FallbackWritable(io: Io, batch: Batch, url: string)
  {
    batch.rule != SanitizedUrl && batch.fallbackDir.Some?
    && io.writable(FallbackPath(io, batch.fallbackDir.value, url))
  }

  /** One pass of the loop body: the path written and its bytes, or `None`
      when the URL is skipped, its rendering fails or every write fails. A
      failed `new URL` or a failed first write falls back to the sanitised
      name, except under the `bulk` rule, which has no fallback. */
  function WriteOutcome(io: Io, batch: Batch, rawUrl: string): (r: Option<(Path, Bytes)>)
    ensures Skipped(batch, rawUrl) ==> r.None?
    ensures r.Some? ==> io.writable(r.value.0)
  {
    var url := UrlOf(batch, rawUrl);
    if batch.trimUrls && url == "" then None
    else
      match Render(io, url)
      case Failure(_) => None
      case Success(pdf) =>
        var primary := PrimaryPath(io, batch, url);
        if primary.Some? && io.writable(primary.value) then Some((primary.value, pdf))
        else if batch.rule == SanitizedUrl then None
        else
          match batch.fallbackDir
          case None => None
          case Some(dir) =>
            var fallback := FallbackPath(io, dir, url);
            if io.writable(fallback) then Some((fallback, pdf)) else None
  }

  /** What one pass does, case by case: a URL yields an output exactly when
      it is not skipped, it renders, and the rule's path or the fallback's
      path can be written. The rule's path is tried first, and the bytes
      written are the rendered PDF. */
  lemma WriteOutcomeCases(io: Io, batch: Batch, rawUrl: string)
    ensures var url := UrlOf(batch, rawUrl);
      var r := WriteOutcome(io, batch, rawUrl);
      && (r.Some? <==> !Skipped(batch, rawUrl) && Render(io, url).Success?
                       && (PrimaryWritable(io, batch, url) || FallbackWritable(io, batch, url)))
      && (!Skipped(batch, rawUrl) && Render(io, url).Success? && PrimaryWritable(io, batch, url) ==>
            r == Some((PrimaryPath(io, batch, url).value, Render(io, url).value)))
      && (!Skipped(batch, rawUrl) && Render(io, url).Success? && !PrimaryWritable(io, batch, url)
          && FallbackWritable(io, batch, url) ==>
            r == Some((FallbackPath(io, batch.fallbackDir.value, url), Render(io, url).value)))
  {
  }

  /** `generatedPdfs` after the loop: the written paths, in URL order. */
  function Generated(io: Io, batch: Batch, urls: seq<string>): seq<Path>
  {
    if urls == [] then []
    else
      Generated(io, batch, urls[..|urls| - 1])
      + match WriteOutcome(io, batch, urls[|urls| - 1]) case None => [] case Some(w) => [w.0]
  }

  /** The file system after the loop: every successful write applied in order. */
  function FilesAfter(io: Io, batch: Batch, urls: seq<string>, fs: FileSystem): FileSystem
  {
    if urls == [] then fs
    else
      var before := FilesAfter(io, batch, urls[..|urls| - 1], fs);
      match WriteOutcome(io, batch, urls[|urls| - 1])
      case None => before
      case Some(w) => before[w.0 := w.1]
  }

  /** The loop over the URLs: each is converted and written inside its own
      `try`, so a failing URL is logged and the loop goes on. */
  method ConvertBatch(io: Io, batch: Batch, urls: seq<string>, fs0: FileSystem)
    returns (generatedPdfs: seq<Path>, fs: FileSystem)
    ensures generatedPdfs == Generated(io, batch, urls)
    ensures fs == FilesAfter(io, batch, urls, fs0)
  {
    generatedPdfs, fs := [], fs0;
    for i := 0 to |urls|
      invariant generatedPdfs == Generated(io, batch, urls[..i])
      invariant fs == FilesAfter(io, batch, urls[..i], fs0)
    {
      assert urls[..i + 1][..i] == urls[..i];
      var outcome := WriteOutcome(io, batch, urls[i]);
      if outcome.Some? {
        var (outputPath, pdfBuffer) := outcome.value;
        fs := fs[outputPath := pdfBuffer];
        generatedPdfs := generatedPdfs + [outputPath];
      }
    }
    assert urls[..|urls|] == urls;
  }

  /** A batch command: the loop, then the merge when `--combine` is given
      and at least one PDF was written. */
  method RunBatch<Page>(io: Io, batch: Batch, urls: seq<string>, combine: bool, fs0: FileSystem,
                        parse: Bytes -> Option<seq<Page>>, basename: Path -> string)
    returns (generatedPdfs: seq<Path>, fs: FileSystem, combined: Option<(seq<Page>, PdfUtils.MergeStats)>)
    ensures generatedPdfs == Generated(io, batch, urls)
    ensures fs == FilesAfter(io, batch, urls, fs0)
    ensures combined.Some? <==> combine && |generatedPdfs| > 0
    ensures combined.Some? ==>
              var env := PdfUtils.Env(fs, parse, basename);
              combined.value == (PdfUtils.MergedPages(env, generatedPdfs), PdfUtils.Stats(env, generatedPdfs))
  {
    generatedPdfs, fs := ConvertBatch(io, batch, urls, fs0);
    combined := None;
    if combine && |generatedPdfs| > 0 {
      var merged, stats := PdfUtils.MergePdfs(PdfUtils.Env(fs, parse, basename), generatedPdfs);
      combined := Some((merged, stats));
    }
  }

  // ---------------------------------------------------------------------
  // What the batch guarantees

  /** URLs are handled independently and in order: the outputs of two lists
      run one after the other are the outputs of the first, then of the
      second, so a failing URL never stops the ones after it. */
  lemma {:induction false} GeneratedOfAppend(io: Io, batch: Batch, a: seq<string>, b: seq<string>)
    ensures Generated(io, batch, a + b) == Generated(io, batch, a) + Generated(io, batch, b)
  {
    if b == [] {
      assert a + b == a;
    } else {
      var init := b[..|b| - 1];
      assert (a + b)[..|a + b| - 1] == a + init;
      assert (a + b)[|a + b| - 1] == b[|b| - 1];
      GeneratedOfAppend(io, batch, a, init);
    }
  }

  /** `generatedPdfs` lists exactly the successful writes: every listed path
      could be written, and every URL whose conversion and write succeeded
      has its output path listed. */
  lemma GeneratedListsEveryWrite(io: Io, batch: Batch, urls: seq<string>)
    ensures |Generated(io, batch, urls)| <= |urls|
    ensures forall p :: p in Generated(io, batch, urls) ==> io.writable(p)
    ensures forall i :: 0 <= i < |urls| && WriteOutcome(io, batch, urls[i]).Some? ==>
              WriteOutcome(io, batch, urls[i]).value.0 in Generated(io, batch, urls)
  {
    GeneratedAreWritable(io, batch, urls);
    forall i | 0 <= i < |urls| && WriteOutcome(io, batch, urls[i]).Some?
      ensures WriteOutcome(io, batch, urls[i]).value.0 in Generated(io, batch, urls)
    {
      WriteIsListed(io, batch, urls, i);
    }
  }

  lemma {:induction false} GeneratedAreWritable(io: Io, batch: Batch, urls: seq<string>)
    ensures |Generated(io, batch, urls)| <= |urls|
    ensures forall p :: p in Generated(io, batch, urls) ==> io.writable(p)
  {
    if urls != [] {
      GeneratedAreWritable(io, batch, urls[..|urls| - 1]);
    }
  }

  lemma {:induction false} WriteIsListed(io: Io, batch: Batch, urls: seq<string>, i: nat)
    requires i < |urls| && WriteOutcome(io, batch, urls[i]).Some?
    ensures WriteOutcome(io, batch, urls[i]).value.0 in Generated(io, batch, urls)
  {
    var init := urls[..|urls| - 1];
    if i < |init| {
      assert urls[i] == init[i];
      WriteIsListed(io, batch, init, i);
    }
  }

  /** Every path listed as generated is on disk when the loop ends. */
  lemma {:induction false} GeneratedAreWritten(io: Io, batch: Batch, urls: seq<string>, fs0: FileSystem)
    ensures forall p :: p in Generated(io, batch, urls) ==> p in FilesAfter(io, batch, urls, fs0)
    ensures fs0.Keys <= FilesAfter(io, batch, urls, fs0).Keys
  {
    if urls != [] {
      GeneratedAreWritten(io, batch, urls[..|urls| - 1], fs0);
    }
  }

  /** When the merge runs, it is given at least one file, and every file it is
      given can be read, so each gets a size entry in the statistics. */
  lemma CombinedReadsEveryOutput<Page>(io: Io, batch: Batch, urls: seq<string>, combine: bool, fs0: FileSystem,
                                       parse: Bytes -> Option<seq<Page>>, basename: Path -> string)
    requires combine && |Generated(io, batch, urls)| > 0
    ensures var generated := Generated(io, batch, urls);
      var env := PdfUtils.Env(FilesAfter(io, batch, urls, fs0), parse, basename);
      && PdfUtils.Stats(env, generated).totalFiles == |generated| > 0
      && |PdfUtils.Stats(env, generated).fileSizes| == |generated|
  {
    var generated := Generated(io, batch, urls);
    var env := PdfUtils.Env(FilesAfter(io, batch, urls, fs0), parse, basename);
    GeneratedAreWritten(io, batch, urls, fs0);
    PdfUtils.ReadableInputsAllSized(env, generated);
  }

  // ---------------------------------------------------------------------
  // The fallback of the `docs` command's Svelte loop

  /** A browser that renders every page, and `new URL` failing on every input. */
  function SampleIo(): Io
  {
    Io(Converter.Browser(u => Some(Converter.LoadedPage(Some([]))), (f, o) => []),
       u => None, p => true, (d, n) => d + "/" + n)
  }

  lemma SampleName()
    ensures SanitizeFileName("svelte.dev") == "svelte_dev"
  {
  }

  /** The sample browser renders the link to an empty PDF, and `new URL` rejects it. */
  lemma SampleRendersLink()
    ensures Render(SampleIo(), "svelte.dev") == Success([])
    ensures PrimaryName(SampleIo(), LastSegment, "svelte.dev") == None
  {
  }

  /** The `svelte` command writes the sample link under its sanitised name. */
  lemma SvelteWritesSampleLink()
    ensures WriteOutcome(SampleIo(), SvelteBatch("svelte-docs"), "svelte.dev")
            == Some(("svelte-docs/svelte_dev.pdf", []))
  {
    SampleRendersLink();
    SampleName();
    assert SampleIo().join("svelte-docs", SanitizeFileName("svelte.dev") + ".pdf") == "svelte-docs/svelte_dev.pdf";
    FallbackWritesSanitizedName(SampleIo(), "svelte-docs", "svelte.dev");
  }

  /** As written, a link `new URL` rejects is dropped by the `docs` command
      although the `svelte` command writes it under its sanitised name. */
  lemma DocsFallbackDropsUrl()
    ensures WriteOutcome(SampleIo(), DocsSvelteBatchAsWritten("svelte-docs"), "svelte.dev") == None
    ensures WriteOutcome(SampleIo(), SvelteBatch("svelte-docs"), "svelte.dev")
            == Some(("svelte-docs/svelte_dev.pdf", []))
  {
    SampleRendersLink();
    SvelteWritesSampleLink();
  }

  /** With the directory defined, a rendered URL whose derived name cannot be
      used still lands under its sanitised name whenever that path is writable. */
  lemma FallbackWritesSanitizedName(io: Io, dir: string, url: string)
    requires Render(io, url).Success?
    requires PrimaryName(io, LastSegment, url).None?
             || !io.writable(io.join(dir, PrimaryName(io, LastSegment, url).value + ".pdf"))
    requires io.writable(io.join(dir, SanitizeFileName(url) + ".pdf"))
    ensures WriteOutcome(io, SvelteBatch(dir), url)
            == Some((io.join(dir, SanitizeFileName(url) + ".pdf"), Render(io, url).value))
  {
  }
}
