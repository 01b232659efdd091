# docker-image-tool: layer trimming, modelled in Dafny

The tool takes a `docker save` archive and a layer list (an image descriptor
in JSON). It writes a copy of the archive without the layer blobs that the
list already names, so that only layers the receiving side lacks are shipped.
This project models that pipeline as pure functions over values and proves
what each step promises.

The steps, with one module each:

- `Layers`: layer sets and their difference (`difference`).
- `JsonValues`: an already-parsed JSON value, with serde_json's
  never-failing indexing (`Null` on any mismatch).
- `Manifest`: `read_json_layers`. It looks up `[0].RootFS.Layers`, requires
  an array of strings, and removes every `sha256:` from each string.
- `Archive`: the archive as its entries in stored order.
  - `read_tar_layers` is the scan. It yields the trimmed, non-empty digests
    of the entries under `blobs/sha256/`.
  - `write_trimmed_tar` is the rewrite. It is an order-preserving filter that
    drops the blob entries whose digest is not retained.
- `Trim`: `trim_image`.
  - It reads the list, then scans, then rewrites with `scanned - listed` as
    the retain set, and stops at the first failure.
  - It also resolves the output path.
- `Cli`: `identify_files`. It picks the one `.tar` and the one `.json` path
  out of the command-line arguments.
- `Strings`, `Results`: Rust's `starts_with`, `ends_with`, `str::replace`
  (replace every occurrence, leftmost first, without overlaps) and
  `str::trim` (Unicode White_Space), plus `Option` and `Result`.

Every piece of I/O in `trim_image` becomes a parameter:

- the parsed manifest, or `None` when the file could not be opened, read or
  parsed;
- the archive's entries, or `None` when the archive could not be read;
- whether the output could be written.

The run records which stages it attempted, so the fail-fast order can be
stated.

Where the program's own documentation and its code differ, the model follows
the code:

- The `--output` argument is documented as a directory where the trimmed
  image is saved (`src/cli/command.rs:23-26`). The code uses its value
  verbatim as the output file path (`src/tool/trim.rs:40-41`).
- The default output is documented as `{image_name}_trimmed.tar` beside the
  input (`src/tool/trim.rs:15`). The code replaces every `.tar` in the input
  path, not only the final extension (`src/tool/trim.rs:44`). For an input
  inside a directory named `<dir>.tar`, the directory part of the output
  path is rewritten too, so the output goes into `<dir>_trimmed.tar`
  (`Trim.DefaultOutputRenamesDirectory`). Nothing on disk is renamed; that
  directory usually does not exist, and then creating the output fails
  (`src/tool/io.rs:85`), which the model counts as a failed write.

Further behaviour of the code that the model keeps:

- The two sides normalise digests differently. The manifest side only
  removes `sha256:` and does not trim (`src/tool/io.rs:36`). The archive side
  removes `blobs/sha256/` and then trims whitespace (`src/tool/io.rs:59`).
  So a padded manifest reference such as ` sha256:aa ` becomes ` aa ` and
  never matches the blob `aa` (`Manifest.StripKeepsWhitespace`).
- The blob directory `blobs/sha256/` is a fixed literal. Entries under any
  other algorithm directory are structural entries and are always written.
- The rewrite loop also checks `!file_path.trim().is_empty()`
  (`src/tool/io.rs:95`). That guard never changes the outcome, because a path
  that starts with `blobs/sha256/` always has a non-whitespace first
  character (`Archive.RetainedIffDigestKept`).
- The rewrite opens the input and then creates the output, which empties an
  existing file (`src/tool/io.rs:84-85`). When the output path is the input
  path, the rewrite reads an empty archive, writes an archive without
  entries and still succeeds (`Trim.TrimImageEndToEnd`).

## Model

| member | source | states |
|---|---|---|
| Layers.Difference | src/tool/layers.rs:11-13 | `x` is in the difference iff it is in `a` and not in `b`; the result is a subset of `a` and disjoint from `b` |
| Layers.DifferenceExample | src/tool/layers.rs:20-26 | `{layer1, layer2} - {layer2, layer3}` is exactly `{layer1}`, of size 1 |
| Layers.DifferenceOfEmpty | src/tool/layers.rs:29-34 | nothing minus anything is empty |
| Layers.DifferenceWithEmpty | src/tool/layers.rs:37-44 | subtracting the empty set changes nothing |
| Layers.DifferenceDisjoint | src/tool/layers.rs:47-54 | disjoint sets take nothing from each other |
| Layers.DifferenceSelf | src/tool/layers.rs:57-62 | complete overlap leaves nothing |
| Layers.DifferenceSize | src/tool/layers.rs:11-13 | the size of the difference plus the size of the overlap is the size of `a` |
| Strings.ReplaceAll | src/tool/io.rs:36 | with a non-empty pattern, a replacement at least as long as the pattern never shortens the string, and removing the pattern never lengthens it |
| Strings.ReplaceAllCopiesUnmatched | src/tool/trim.rs:44 | characters where no match starts are copied unchanged ahead of the rewritten rest |
| Strings.ReplaceAllAbsent | src/tool/io.rs:36 | a string without an occurrence of the pattern is returned unchanged |
| Strings.WhitespaceTable | src/tool/io.rs:59 | ASCII blanks, the no-break space and the ideographic space are whitespace; letters, digits, `/`, zero-width characters and the byte-order mark are not |
| Strings.TrimStartSpec | src/tool/io.rs:59 | leading trimming keeps a suffix, removes only whitespace, and leaves no leading whitespace |
| Strings.TrimEndSpec | src/tool/io.rs:59 | trailing trimming keeps a prefix, removes only whitespace, and leaves no trailing whitespace |
| Strings.TrimSpec | src/tool/io.rs:59 | `trim` returns a slice of the input with only whitespace around it and none at its edges |
| Strings.TrimEmptyIffAllWhitespace | src/tool/io.rs:59-60 | the trimmed string is empty iff every character is whitespace |
| Strings.TrimFixedPoint | src/tool/io.rs:59 | a string without edge whitespace is its own trim |
| Strings.TrimIdempotent | src/tool/io.rs:59 | trimming twice is trimming once |
| Manifest.StripAlgorithm | src/tool/io.rs:36 | a digest is never longer than its reference, and a reference without `sha256:` is its own digest |
| Manifest.LayersField | src/tool/io.rs:28 | the lookup `json[0]["RootFS"]["Layers"]`, built from serde_json's never-failing indexing (`JsonValues.At`, `JsonValues.Field`), yields an array exactly when the document is an array whose first element has a `RootFS` object with a `Layers` array, and then it is that array |
| Manifest.CollectLayers | src/tool/io.rs:29-38 | it succeeds iff every element is a string, and a failure is the not-a-string error; on success, `d` is in the set iff some element normalises to `d` |
| Manifest.ReadJsonLayers | src/tool/io.rs:28-38 | the reader succeeds iff `[0].RootFS.Layers` is an array of strings; a non-array gives the not-an-array error; a non-string element gives the not-a-string error; on success, the set holds exactly the normalised strings |
| Manifest.MissingLayersRejected | src/tool/io.rs:28-31 | a non-array document, `[]`, `[{}]` and a `RootFS` without `Layers` are all rejected with the not-an-array error |
| Manifest.TwoLayerDescriptorRead | src/tool/io.rs:115-135 | the exported descriptor for layers `sha256:x` and `sha256:y` reads back as exactly `{x, y}`, of size 2 when `x != y` |
| Manifest.TwoLayerDescriptorExample | src/tool/io.rs:115-135 | the descriptor for `sha256:abc123` and `sha256:def456` reads back as exactly `{abc123, def456}` |
| Manifest.StripAlgorithmOfReference | src/tool/io.rs:36 | `sha256:<d>` normalises to `d` when `d` holds no further `sha256:` |
| Manifest.StripKeepsWhitespace | src/tool/io.rs:36 | the manifest side does not trim: ` sha256:aa ` normalises to ` aa ` |
| Archive.ReadTarLayers | src/tool/io.rs:55-64 | `d` is in the scan iff some entry under `blobs/sha256/` has the trimmed digest `d` and `d` is non-empty; the empty string is never in the scan |
| Archive.BlobDigestOfPath | src/tool/io.rs:58-59 | `blobs/sha256/<d>` is a blob entry whose digest is the trimmed `d` when `d` holds no further `blobs/sha256/` |
| Archive.RetainedIffDigestKept | src/tool/io.rs:95-99 | a blob entry is written iff its digest is retained; every other entry is always written |
| Archive.WriteTrimmedTar | src/tool/io.rs:92-102 | the output has no more entries than the input |
| Archive.WriteTrimmedTarAppend | src/tool/io.rs:92-102 | the rewrite works entry by entry, so it distributes over concatenation |
| Archive.RetainedPositions | src/tool/io.rs:92-101 | the positions of the written entries are in range, strictly increasing, and include every retained position |
| Archive.WriteTrimmedTarSelects | src/tool/io.rs:92-101 | the k-th output entry is the input entry at the k-th retained position, with header and content unchanged: an order-preserving subsequence |
| Archive.WriteTrimmedTarMembers | src/tool/io.rs:95-101 | an entry is in the output iff it is in the input and passes the retain test |
| Archive.WriteTrimmedTarKeepsStructure | src/tool/io.rs:95-101 | every entry outside `blobs/sha256/` is written |
| Archive.WriteTrimmedTarIdempotent | src/tool/io.rs:92-101 | rewriting the output again with the same retain set changes nothing |
| Archive.ScanAfterWrite | src/tool/io.rs:55-64 | scanning the rewritten archive yields the original scan intersected with the retain set |
| Archive.EmptyDigestBlobDropped | src/tool/io.rs:58-60 | with a retain set drawn from the scan, the bare `blobs/sha256/` entry (empty digest) is never written |
| Archive.RetainAllIsIdentity | src/tool/io.rs:92-101 | retaining everything the scan found reproduces the archive when no blob has an empty digest |
| Archive.AllRetainedIsIdentity | src/tool/io.rs:92-101 | when every entry passes, the output is the input |
| Archive.NoBlobsUnchanged | src/tool/io.rs:58-63 | an archive without blob entries scans to the empty set and is rewritten unchanged whatever is retained |
| Archive.ScanExample | src/tool/io.rs:55-64 | `blobs/sha256/aa`, `blobs/sha256/bb`, `manifest.json` scan to exactly `{aa, bb}` |
| Trim.OutputPath | src/tool/trim.rs:40-50 | an explicit output is used verbatim; a default always ends in `trimmed.tar`; a default from a `.tar` input ends in `_trimmed.tar`, is at least eight characters longer and so differs from the input; any other input gives `trimmed.tar` |
| Trim.TrimImage | src/tool/trim.rs:28-53 | stages run in the order list, scan, rewrite, and the first failure is the error reported: an unreadable list gives the unreadable-list error, an invalid one its own reader error, an unreadable archive the archive error, a failed write the write error; a list failure means no scan and no write; a scan failure means no write; the run succeeds iff every stage does, and then it wrote to the resolved output path |
| Trim.TrimImageKeepSet | src/tool/trim.rs:28-34 | on success the retain set holds exactly the non-empty blob digests of the archive that no string of the manifest's layer array normalises to |
| Trim.TrimImageEndToEnd | src/tool/trim.rs:28-53 | when the output is not the input, the written entries are the order-preserving rewrite of the archive with the retain set, so a blob entry is written iff its digest is non-empty and not listed, and every other entry is written; when the output is the input, no entry is written; the output never has more entries than the input |
| Trim.TrimImageAllListed | src/tool/trim.rs:28-53 | when the list names every scanned blob, only structural entries are written |
| Trim.TarCannotOverlap | src/tool/trim.rs:43-44 | a path that starts and ends with `.tar` is `.tar` itself or at least eight characters long |
| Trim.TarSuffixReplaced | src/tool/trim.rs:43-44 | replacing every `.tar` in a path that ends with `.tar` yields a path ending in `_trimmed.tar`, at least eight characters longer |
| Trim.TarFreeStem | src/tool/trim.rs:44 | no `.tar` match starts inside a `.tar`-free stem that is followed by text beginning with a dot |
| Trim.DefaultOutputBesideInput | tests/integration_test.rs:55-60 | `<stem>.tar` with a stem holding no `.tar` gets `<stem>_trimmed.tar` |
| Trim.DefaultOutputRenamesDirectory | src/tool/trim.rs:44 | in `<dir>.tar<name>.tar`, with no `.tar` inside `dir` or `name`, both occurrences are replaced, so the directory part changes too |
| Cli.Classify | src/main.rs:34-39 | a path is an image exactly when it ends in `.tar` and a layer list exactly when it ends in `.json` |
| Cli.Scan | src/main.rs:33-45 | the scan fails only with a multiple-archive or multiple-list error, never overwrites a filled slot, and fills a slot only with a path from the list |
| Cli.ScanSummary | src/main.rs:33-45 | the scan succeeds iff neither kind is met twice; a failure names a kind met twice; a success holds the paths it met of each kind |
| Cli.ScanAppend | src/main.rs:33-45 | scanning a concatenation is scanning the first part and continuing from its state unless it failed |
| Cli.IdentifyFiles | src/main.rs:29-53 | success iff exactly one `.tar` and one `.json` path, and then those paths are returned; none of either, only `.json` and only `.tar` each map to their own error; a multiple-file error occurs iff some kind is met at least twice, and the multiple-archive (multiple-list) error only when `.tar` (`.json`) paths are met at least twice |
| Cli.SecondImageDecides | src/main.rs:34-37 | a second `.tar` met before a second `.json` gives the multiple-archive error, whatever follows |
| Cli.SecondLayerListDecides | src/main.rs:39-42 | a second `.json` met before a second `.tar` gives the multiple-list error, whatever follows |
| Cli.MultipleIsFinal | src/main.rs:35-42 | appending paths never changes a multiple-file error |
| Cli.SuffixCaseSensitive | src/main.rs:34-39 | `a.TAR` and `a.JSON` are ignored; `a.tar` and `a.json` are classified |
| Cli.IdentifyFilesOrderFree | src/main.rs:33-48 | any rearrangement of a successfully identified list identifies the same archive and layer list |

## Left out

- File handling: opening, reading, seeking, creating and writing files. Their outcomes are parameters of `Trim.TrimImage`.
- JSON text: parsing with `serde_json::from_str` and the `trim` before it are not modelled. The model starts from a parsed value, and JSON numbers are integers because the reader never looks at them.
- Tar byte format: 512-byte headers, padding, long-name records, `Builder::finish`, and `entries_with_seek` versus `entries`. Headers are opaque bytes carried unchanged.
- Archive.WriteTrimmedTarSelects: an entry's name counts as carried unchanged, which holds only for paths that fit the header's own name fields, such as `blobs/sha256/<64 hex digits>`. The tar reader folds a GNU long-name or PAX record into the entry after it (`src/tool/io.rs:92`), and the rewrite appends only that entry's own header (`src/tool/io.rs:101`). So the record is not copied, and a kept entry whose path came from such a record is written under the shorter name its header holds.
- Entry paths: the model takes each path as already converted to a string. The lossy `display()` conversion of non-UTF-8 paths is not modelled.
- Per-entry read errors: an error during the scan counts as an unreadable archive, and one during the rewrite counts as a failed write. The partial output file a failed rewrite may leave behind is not modelled.
- Progress messages, the printed output path, the wait for Enter in `main`, and `clap` argument parsing are left out. They hold no logic beyond library calls. The program reports no sizes.
- Strings.ReplaceAll: the empty-pattern case is defined but has no lemma, because every call in the program passes a non-empty literal pattern.
- Trim.TrimImage: the output is recognised as the input only when the two path strings are equal. Other spellings of the same file, such as a `./` prefix or a link, depend on the file system and are not modelled.
- Strings.Trim, Strings.TrimStart, Strings.TrimEnd, Archive.BlobDigest and Archive.Retained carry no contract of their own. Their properties are stated in `TrimSpec`, `TrimStartSpec`, `TrimEndSpec`, `BlobDigestOfPath` and `RetainedIffDigestKept`, which keeps every other proof that mentions them small.
