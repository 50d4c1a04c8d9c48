# svelte-docs-pdf in Dafny

This project models the core of a command-line tool that turns the Svelte and
SvelteKit documentation into PDF files. The tool drives a headless browser. For
each page it keeps the content under `#docs-content`, prints it to a PDF and
writes one file per URL. On request it then merges those files into one
combined PDF and reports statistics about the merge.

The model covers:

- **The merge** (`PdfUtils`, from pdf-utils.js). The `mergePDFs` loop is an
  imperative method. It fills a `PdfDocument` object page by page and keeps the
  running statistics in local accumulators. It is proved equal to pure
  specification functions over the input list:
  - the concatenated pages;
  - the total page count;
  - the maximum page count;
  - the index of the first input with the most pages;
  - the size entries.

  Lemmas prove what these mean. Every input is handled on its own and in
  order. An input that cannot be read or parsed adds no pages and leaves the
  total and the maximum unchanged, but it still counts in `totalFiles`, and it
  still gets a size entry when it can be read. A PDF is a
  sequence of opaque pages. Reading a path is a lookup in a file-system
  snapshot. Parsing is a function supplied by the caller that returns `None`
  where the PDF library throws.
- **The converter** (`Converter`, from converter.js). This covers URL
  normalisation, the shallow override of the PDF options, and the error when
  `#docs-content` is missing. It also covers the fixed rule for what is
  extracted: the first header-like element, then either the first
  `.text.content` element or the whole parent minus that header. The content
  under `#docs-content` is a list of elements in document order, each with its
  nesting depth. So `querySelector` is a first-index search, and an element's
  subtree is the run of deeper elements that follows it.
- **The link scraper** (`ExtractLinks`, from extract-links.js). It picks
  anchors from the `Docs` navigation for each documentation type, keeps the
  `/docs/` links and turns them into absolute URLs.
- **The command-line driver** (`Cli`, from index.js). This covers:
  - parsing the URL file;
  - the three file-name rules and their fallback;
  - the exclusion filters;
  - the batch loop, which renders each URL, writes it and collects the paths
    written;
  - the guard that runs the merge only when `--combine` is given and something
    was written.

  The browser, `new URL`, `writeFile` and `path.join` are parameters.

`Wrappers` (Option, Result), `Files` (bytes, paths, the file-system snapshot)
and `Text` (the JavaScript string operations the tool uses) are helpers.

Two details of the code shape the model:

- A file's size is recorded before the file is parsed (pdf-utils.js:44 comes
  before :50). So unparsable files get a size entry too.
- The name `index` is used only by the last-segment rule
  (`svelte`/`sveltekit`/`docs`). It is not part of the host-and-path rule of
  the `urls` command.

## Model

| member | source | states |
|---|---|---|
| `PdfUtils.MergePdfs` | pdf-utils.js:16-84 | The merged pages are the pages of each input that can be read and parsed, input after input, each in its own order. `totalFiles` is the number of inputs, failed ones included. `totalPages`, `maxPages`, `fileWithMostPages` and `fileSizes` are the specification values over the whole list. |
| `PdfUtils.PdfDocument.Create` | pdf-utils.js:20 | A new merged document has no pages. |
| `PdfUtils.PdfDocument.AddPage` | pdf-utils.js:65 | Adding a page appends it at the end and leaves the earlier pages alone. |
| `PdfUtils.PdfDocument.AddPages` | pdf-utils.js:61-65 | Copying a parsed document appends all its pages at the end, in their own order. |
| `PdfUtils.MergedLengthIsTotal` | pdf-utils.js:51-65 | The merged document has exactly `totalPages` pages. |
| `PdfUtils.MaxPagesIsMaximum` | pdf-utils.js:26-27 | `maxPages` is at least every input's page count, and some input reaches it unless it is 0. |
| `PdfUtils.LeaderIsFirstAtMax` | pdf-utils.js:55-58 | No file is reported exactly when `maxPages` is 0. Otherwise the reported input has `maxPages` pages and every earlier input has fewer, so ties go to the first. |
| `PdfUtils.MaxAtMostTotal` | pdf-utils.js:54-58 | `maxPages <= totalPages`. |
| `PdfUtils.ReadableInputsAllSized` | pdf-utils.js:40-50 | An input that can be read gets a size entry even if it fails to parse. When every input can be read there is one entry per input. |
| `PdfUtils.MergeOfAppend` | pdf-utils.js:32-69 | Merging `a + b` gives the pages, total, size entries and maximum of `a` followed by those of `b`. A failing input never stops later inputs. |
| `PdfUtils.SkipFailedInput` | pdf-utils.js:66-68 | An input that cannot be read or parsed can be deleted from the list without changing the merged pages, the total or the maximum. |
| `PdfUtils.EndToEndExample` | pdf-utils.js:22-71 | Inputs of 2 pages, corrupt, and 3 pages merge into 5 pages from 3 files. `doc3.pdf` is the longest at 3 pages, and the corrupt file still has a size entry. |
| `PdfUtils.TieGoesToFirst` | pdf-utils.js:55-58 | With page counts 3, 5, 5, 2 the maximum is 5 and the second input, the first to reach 5, is reported. |
| `Text.Trim` | index.js:70 | The trimmed string is empty exactly when the string is all JavaScript white space. Otherwise it starts and ends with a visible character. |
| `Text.TrimIsInfix` | index.js:96 | The trimmed string is a contiguous part of the original. Everything before it and everything after it is white space. |
| `Text.Split` | index.js:70 | Splitting gives at least one part, and no part holds the separator. |
| `Text.JoinSplit` | index.js:70 | Joining the parts of a split with the separator gives back the original string. |
| `Text.SplitJoin` | index.js:70 | Splitting a join of separator-free parts gives back the parts. |
| `Text.LastPartIsSuffix` | index.js:331 | The last part of `split('/')` is the longest `/`-free suffix of the string. |
| `Cli.KeepNonBlank` | index.js:70 | The filter never lengthens the list. |
| `Cli.KeepNonBlankMembers` | index.js:70 | The filter keeps exactly the lines that are not all white space. |
| `Cli.ParseUrlList` | index.js:70 | Every URL read from the file has visible content and no line feed. |
| `Cli.ParseUrlListOfLines` | index.js:69-70 | A file made of given lines yields exactly its non-blank lines, in file order. |
| `Cli.KeepNonBlankOfAppend` | index.js:70 | The blank-line filter keeps line order. |
| `Cli.LoadUrls` | index.js:69-75 | The command exits with "No URLs found" exactly when the file is all white space. Otherwise it gets the non-empty list of parsed URLs. |
| `Cli.ReplaceNonAlnum` | index.js:105 | Same length. Each character outside `[A-Za-z0-9]` becomes `_`, and the others are kept. |
| `Cli.SanitizeFileName` | index.js:105 | Same length as the URL. Only `[a-z0-9_]` appears. ASCII letters and digits are kept and lowercased, and every other character becomes `_`. |
| `Cli.SanitizeIsIdempotent` | index.js:208 | Sanitising a sanitised name changes nothing. |
| `Cli.HostPathFileName` | index.js:194-198 | The name is the lowercased host name followed by the sanitised path. Dots in the host name are kept. |
| `Cli.PageName` | index.js:331-332 | Never empty and never contains `/`. When the path is non-empty and does not end in `/`, the name is its last segment: a suffix of the path that is either the whole path or preceded by a `/`. Otherwise (empty path or a trailing `/`) the name is `index`. |
| `Cli.RenderPrintsDefault` | index.js:102 | Rendering a URL without options succeeds exactly when the page loads and has `#docs-content`. It then prints the extracted content with the default PDF options. |
| `Cli.PrimaryName` | index.js:328-332 | The `bulk` rule (index.js:105) always gives the sanitised URL. The other rules give no name exactly when `new URL` throws. Otherwise the host-and-path rule (index.js:194-198) gives the lowercased host name followed by the sanitised path, and the last-segment rule gives `PageName` of the path, which is non-empty and free of `/`. |
| `Cli.ExcludeContaining` | index.js:281-283 | Keeps exactly the links whose lowercased form does not contain the needle. |
| `Cli.RemovedAreThoseContaining` | index.js:280-286 | The printed count, original minus kept, is the number of links that contain the needle. |
| `Cli.ExcludeIsIdempotent` | index.js:289-293 | Applying a filter twice gives the same list as applying it once. |
| `Cli.ExcludeOfAppend` | index.js:412-416 | Filtering keeps the links' order. |
| `Cli.SvelteLinks` | index.js:273-299 | An empty link list is an error exit. Otherwise a link is kept exactly when it avoids `legacy` (if that filter is on) and `v4-migration-guide` (if that filter is on). |
| `Cli.SvelteKitLinks` | index.js:406-422 | An empty link list is an error exit. Otherwise a link is kept exactly when it avoids `migrat`, if that filter is on. |
| `Cli.WriteOutcome` | index.js:320-353 | A blank URL is skipped when URLs are trimmed. Any path it reports could be written. |
| `Cli.WriteOutcomeCases` | index.js:320-353 | The loop body of each batch command (also index.js:95-116 and 183-219). A URL yields an output exactly when it is not skipped, it renders, and either the rule's path or the fallback's path can be written. The rule's path (`path.join(outputDir, name + '.pdf')`) is used when it can be written. Otherwise the fallback's sanitised path in the fallback directory is used. The bytes are the rendered PDF. |
| `Cli.ConvertBatch` | index.js:95-116 | `generatedPdfs` and the file system after the loop are those of the per-URL outcomes, taken in URL order. |
| `Cli.RunBatch` | index.js:118-135 | The merge runs exactly when `--combine` is set and at least one PDF was written. It merges the written paths, in order, against the files as written. |
| `Cli.GeneratedOfAppend` | index.js:183-219 | The outputs of `a + b` are the outputs of `a` followed by those of `b`. A failing URL never stops later ones. |
| `Cli.GeneratedListsEveryWrite` | index.js:101-115 | `generatedPdfs` has at most one entry per URL. Every listed path could be written, and the path of every URL whose render and write succeeded is listed. |
| `Cli.GeneratedAreWritten` | index.js:108-112 | Every generated path exists in the file system when the loop ends, and no earlier file disappears. |
| `Cli.CombinedReadsEveryOutput` | index.js:121-126 | When the merge runs, it gets at least one file, and every file it gets has a size entry. |
| `Cli.FallbackWritesSanitizedName` | index.js:340-349 | If `new URL` throws or the first write fails, a rendered URL is written under its sanitised name whenever that path can be written. |
| `Cli.DocsFallbackDropsUrl` | index.js:636-645 | As written, the `docs` command drops a link that `new URL` rejects, while the `svelte` command writes `svelte_dev.pdf` for it. |
| `Converter.NormalizeUrl` | converter.js:37-42 | The result always starts with `http://` or `https://`. A URL that already does is unchanged, and any other URL gets `https://` prepended. |
| `Converter.NormalizeIsIdempotent` | converter.js:40-42 | Normalising twice gives the same result as normalising once. |
| `Converter.PdfOptionsFor` | converter.js:21-24 | The keys are the defaults' keys plus the caller's keys. Every key the caller supplies wins, and the other defaults are unchanged. |
| `Converter.QuerySelector` | converter.js:90-93 | Returns the position of the first match in document order, or none when nothing matches. |
| `Converter.QuerySelectorFindsFirst` | converter.js:90-93 | Whenever some element is the first match, the query returns exactly that element. |
| `Converter.SubtreeEnd` | converter.js:98 | An element's clone covers exactly the following elements nested deeper than it. |
| `Converter.Subtree` | converter.js:98-114 | `cloneNode(true)` gives the element itself, then the run of following elements nested deeper than it, and stops at the first element that is not deeper. |
| `Converter.RemoveSubtree` | converter.js:122 | `remove()` keeps the elements before the removed one and shifts those after its subtree down. Nothing of the subtree is left, and the element now at that position is not nested inside the removed one. |
| `Converter.ExtractContent` | converter.js:68-128 | Fails with `SelectorNotFound("#docs-content")` exactly when the parent is missing. Otherwise the container is the first header-like subtree (if any), followed by the first `.text.content` subtree, or, when there is none, the parent minus the header's subtree. |
| `Converter.HeaderNotRepeated` | converter.js:116-124 | After the header is removed from the parent clone, a header query on the clone finds the next header after the removed subtree, never the removed one. |
| `Converter.ConvertWebpageToPdf` | converter.js:15-170 | Navigation goes to the normalised URL. The conversion succeeds exactly when navigation succeeds and `#docs-content` exists. The PDF is the print of the extracted container with the effective options. |
| `ExtractLinks.FindDocsNav` | extract-links.js:65-69 | Returns none exactly when no nav has `aria-label="Docs"`. Otherwise it returns the first nav that does. |
| `ExtractLinks.KitSections` | extract-links.js:76-80 | Keeps exactly the nav children whose lowercased text contains `kit`. |
| `ExtractLinks.CollectAnchors` | extract-links.js:83-86 | The `forEach`/`push` loop collects the anchors of the given sections, section after section. |
| `ExtractLinks.SvelteAnchors` | extract-links.js:88-93 | Keeps exactly the anchors whose href, with a missing href read as `""`, does not contain `/kit/`. |
| `ExtractLinks.ToLinks` | extract-links.js:95-102 | One link per anchor, in order. Each link's href is the anchor's href, with a missing one read as `""`, and its text is the anchor's trimmed text. |
| `ExtractLinks.SelectLinks` | extract-links.js:63-103 | Returns nothing without a Docs nav. Otherwise there is one link per anchor of the branch: the kit sections' anchors for SvelteKit, and the anchors without `/kit/` for Svelte. Each link carries its anchor's href and trimmed text. In the Svelte branch no href contains `/kit/`. |
| `ExtractLinks.CompleteDocLinks` | extract-links.js:106-117 | The output is never longer than the input. Every output starts with `https://svelte.dev/docs/`. Each output is `https://svelte.dev` followed by the href of an input `/docs/` link, and every such link appears. |
| `ExtractLinks.ExtractLinksFromPage` | extract-links.js:63-120 | A page without a Docs nav yields no links. Otherwise a URL is returned exactly when it is `https://svelte.dev` followed by the href of an anchor the branch selects whose href starts with `/docs/`. |
| `ExtractLinks.KitAnchorsOfAppend` | extract-links.js:74-86 | The SvelteKit branch keeps section order. |
| `ExtractLinks.SvelteAnchorsOfAppend` | extract-links.js:88-93 | The Svelte branch keeps document order. |
| `ExtractLinks.CompleteDocLinksOfAppend` | extract-links.js:115-117 | Completion keeps the order of the links it keeps. |

## Left out

- Browser automation is a parameter (`Converter.Browser`). This covers the
  launch, both navigation attempts and their 60-second timeout, `page.evaluate`,
  the styling injected into the page, `page.pdf` and `browser.close`. A failed
  navigation is a single `NavigationFailed` outcome.
- `Converter.ConvertWebpageToPdf`: `puppeteer.launch`, `browser.newPage` and
  `page.pdf` (converter.js:27, 34, 163) are taken never to fail, because
  `printPdf` returns bytes and cannot fail. In the source, a throw there
  rejects the conversion, and the loops count that URL as failed.
- pdf-lib is not modelled. Loading is the `parse` parameter and pages are
  opaque values. `save` and the write of the combined file are left out, and so
  is `combinedSize`.
- `PdfUtils.MergePdfs`: `copyPages` is taken never to throw. In the source, a
  throw there would come after `totalPages` and the maximum were updated, so
  the statistics would count pages the merged document lacks.
- `PdfUtils.MergePdfs`: `fileSizes` holds byte counts. The source formats them
  as kilobyte strings with `toFixed`, which is floating point.
- File-system effects are parameters or snapshots. This covers `readFile` (a
  map lookup), `writeFile` (the `writable` predicate), `mkdir`, `path.join` and
  `path.basename`. Two URLs with the same output name overwrite one another,
  as in the source.
- Commander's option wiring is not modelled, and the filters take their
  switches as booleans. As written, `--no-legacy`, `--no-v4` and
  `--no-migration` set `options.legacy`, `options.v4` and `options.migration`,
  while the code reads `noLegacy`, `noV4` and `noMigration`. So the filters
  never run from the command line. The `docs` command's `options.extract ===
  false` test is inverted with respect to its comment.
- Link extraction through `execSync`, console output and `process.exit` are
  left out. Error exits are `Failure` results.
- The `convert` command (one URL, then `writeFile`) and the `docs` command's
  sequencing of its Svelte and SvelteKit runs are not modelled as separate
  members. Each is a direct use of `ConvertWebpageToPdf` or `RunBatch`.
- `new URL` is a parameter returning the host name and path.
- `Text.ToLower` changes ASCII letters only. The few non-ASCII characters that
  JavaScript's `toLowerCase` maps onto ASCII letters (U+0130, U+212A) are not
  modelled. The links are ASCII URLs.
- `Cli.SanitizeFileName`: characters are Unicode scalar values. A character
  outside the Basic Multilingual Plane is two UTF-16 units in the source, so it
  becomes two `_` there and one here.
- `ExtractLinks.SelectLinks`: every anchor is taken to sit inside a direct
  child of the nav. An anchor that is itself a direct child is not modelled.
  Tag names are taken in lower case.
- config.js and sveltekit-links.js are static data. `saveLinks` is
  `JSON.stringify` plus a file write. `createTableOfContents` is an empty stub.
  `extractDocumentationLinks` only sequences two scrapes and two saves.

## Findings

| source | as written | input that shows it | evidently intended | confidence | as-written member | corrected member |
|---|---|---|---|---|---|---|
| index.js:639 | The `docs` command's Svelte fallback joins `options.sveltedir`, which is undefined, so `path.join` throws and the link is dropped. | A Svelte link that `new URL` rejects, e.g. `svelte.dev`, or any link whose first write fails. | Write it under its sanitised name in the Svelte directory (`options.svelteDir`), as the `svelte` command does. | not executed | `Cli.DocsFallbackDropsUrl` | `Cli.FallbackWritesSanitizedName` |
