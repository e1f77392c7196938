# copycode: file selection and context bundling

This project models the `copycode` command of a small developer CLI. The command
walks a project directory, picks the text files worth showing to a language
model, and builds one Markdown payload from them. The payload holds a file tree
and one fenced block per file. It goes to exactly one destination: a console
listing (dry run), a file, or the system clipboard. A write of more than 500000
characters to the clipboard needs confirmation first.

The model has two parts, one per source file.

- `FileReader` (`file_reader.dfy`) models `getValidFiles`.
  - A `RuleSet` class is filled by `Add` in the source's order: the 17 built-in
    patterns, then the lines of a root `.gitignore` when one exists.
  - Enumeration drops every path below a `node_modules` or `.git` directory.
  - The method `GetValidFiles` runs the source's filter loop with `continue`.
    It is proved equal to `Selection`, an order-preserving `Filter` of the
    enumeration. Lemmas state the properties of `Selection`.
- `Copy` (`copy.dfy`) models `copyCode`.
  - `Tree`, `Block`, `Body` and `Payload` are the exact text templates.
  - `ReadFiles` is the read loop. It builds the body (empty in a dry run) and
    keeps the token tally as four times `tokenCount`, so the tally stays exact.
  - `CopyCode` chooses the destination. Its postcondition gives the outcome and
    the new file-system and clipboard state for every branch.

Supporting modules:

- `Text` holds JavaScript's `Array.join` and `String.split` for a one-character
  separator, with round-trip lemmas.
- `Seqs` holds `Filter` and the subsequence relation.
- `Environment` holds the `Host` class. Its fields are the files under the root,
  the walk order and the clipboard. Its methods stand for `fs.readFileSync`,
  `fs.writeFileSync` and `clipboardy.write`.
- `Example` proves what the code selects, reports and bundles for one
  five-file project.

The foreign libraries enter as inputs:

- the directory walk of `fast-glob` is the sequence `Host.walk`;
- the matcher of the `ignore` library is a parameter `ignores(rules, path)`;
- the byte sniffer of `isbinaryfile` is a parameter `isBinary(path)`;
- the answer to the confirmation prompt is the parameter `proceed`.

Three behaviours of the code are worth stating plainly:

- The root `.gitignore` is itself a dot-file that `fast-glob` enumerates
  (`dot: true`, src/utils/file-reader.js:41). No default pattern names it, so
  it is bundled like any other text file. For a project holding `a.txt`
  ("hello"), an image, a `.git` file, a `.gitignore` excluding `*.log`, and
  `b.log`, the code selects `a.txt` and `.gitignore`, and the estimate is 3.
  `Example.ExampleSelection` and `Example.ExampleStats` prove this.
- Declining the size gate returns before the stats lines
  (src/commands/copy.js:69-72). The outcome `Declined` therefore carries no
  report.
- `options.output` is tested for truthiness, so an empty output path falls
  through to the clipboard (`ToFile`).

## Model

| member | source | states |
|---|---|---|
| `FileReader.RuleSet.Add` | src/utils/file-reader.js:11-35 | `ig.add` appends the given patterns after the existing ones, in order |
| `FileReader.CompiledRules` | src/utils/file-reader.js:8-36 | the rule list has exactly the 17 default patterns first, in source order. A missing `.gitignore` adds nothing. A present one adds its lines after the defaults |
| `FileReader.PrunedAtRoot` | src/utils/file-reader.js:39-44 | a path that starts with a `node_modules/` or `.git/` directory is pruned, whatever follows |
| `FileReader.PrunedBelow` | src/utils/file-reader.js:39-44 | a path that passes through `node_modules` or `.git` at any depth (`**/node_modules/**`) is pruned, whatever comes before or after |
| `FileReader.GetValidFiles` | src/utils/file-reader.js:7-58 | the loop's result is exactly the in-order filter of the enumeration by "not ignored and not binary". The paths given to the binary check are exactly the enumerated paths that are not ignored, in order |
| `FileReader.SelectionIsOrderedSubset` | src/utils/file-reader.js:47-57 | the result is a subsequence of the enumeration and never longer than it |
| `FileReader.SelectionMembership` | src/utils/file-reader.js:48-55 | an enumerated path is selected if and only if the compiled rules do not ignore it and it is not binary |
| `FileReader.SniffedOnlyWhenNotIgnored` | src/utils/file-reader.js:50-53 | every path handed to the binary check is enumerated and not ignored by the compiled rules |
| `FileReader.NeverUnderPrunedDir` | src/utils/file-reader.js:39-55 | no selected path lies under a `node_modules` or `.git` directory, for any rules, matcher or binary predicate |
| `Copy.BinaryNeverBundled` | src/utils/file-reader.js:53-54 | a binary file is never selected, so it never gets a section in the payload |
| `Environment.Host.ReadFile` | src/commands/copy.js:29 | a read yields the file's text exactly when the file exists, and otherwise fails |
| `Environment.Host.WriteFile` | src/commands/copy.js:46 | writing the output file sets that path's content and changes no other file |
| `Environment.Host.WriteClipboard` | src/commands/copy.js:76 | the clipboard afterwards holds exactly the written text |
| `Text.SplitJoin` | src/commands/copy.js:26 | joining line-free parts with `"\n"` and splitting again gives the same parts back |
| `Text.JoinSplit` | src/utils/file-reader.js:35 | splitting text at `"\n"` and joining again gives the text back |
| `Copy.TreeListsSelection` | src/commands/copy.js:26 | when no selected path contains a line break, the tree listing's lines are exactly the selected paths, each once, in selection order, and nothing else. A path with a line break (legal on Linux) spreads over several lines of the listing |
| `Copy.BodySnoc` | src/commands/copy.js:28-33 | reading one more file appends exactly `"\n\n# File: " + path + "\n```\n" + content + "\n```"` to the body |
| `Copy.ContentSizeSnoc` | src/commands/copy.js:34 | reading one more file adds exactly its length to the token tally |
| `Copy.FirstUnreadable` | src/commands/copy.js:28-29 | the position where the read loop throws: every earlier file is readable and the file there, if any, is not. So it is the list's length exactly when every file is readable |
| `Copy.ReadFiles` | src/commands/copy.js:28-35 | every file is read in order. If a read throws, the loop stops at the first unreadable file. Otherwise the body is the in-order concatenation of all blocks (empty in a dry run) and the tally is the total content length in both modes |
| `Copy.BodySize` | src/commands/copy.js:32 | the body's length is the content length plus the path length plus 19 framing characters per file |
| `Copy.PayloadSize` | src/commands/copy.js:43 | the length the gate compares with 500000 is 45 + twice the total path length + 20 per file + the total content length |
| `Copy.RoundedQuotient` | src/commands/copy.js:82 | `Math.round(n / d)` for n >= 0: the result is within one half of `n / d`, and halves round up |
| `Copy.EstimatedTokensClosedForm` | src/commands/copy.js:82 | the displayed estimate `Math.round(L / 4)` equals `floor((L + 2) / 4)` for a total content length L |
| `Copy.CopyCode` | src/commands/copy.js:9-87 | an empty selection reports failure with no read and no sink change. A failed read aborts with no sink change. A dry run reads every file, leaves the body empty and writes nothing. An output path gets the full payload, and the clipboard and the gate are untouched. On the clipboard path, a payload of at most 500000 characters is copied with no prompt; a larger one is copied only when confirmed, and a decline changes nothing and reports no stats. The stats are the file count and the rounded estimate over exactly the selected files, the same with or without a dry run |
| `Example.ExampleEnumeration` | src/utils/file-reader.js:39-44 | in the example project, `.git/config` is pruned and the four other paths are enumerated in walk order |
| `Example.ExampleRules` | src/utils/file-reader.js:32-36 | in the example project, the root `.gitignore` adds its one pattern after the defaults |
| `Example.ExampleSelection` | src/utils/file-reader.js:47-57 | in the example project, the selection is `a.txt` followed by `.gitignore` |
| `Example.ExampleStats` | src/commands/copy.js:80-82 | in the example project, the stats are 2 files and an estimate of 3 tokens |
| `Example.ExampleBody` | src/commands/copy.js:32 | in the example project, `a.txt` gets the section `"\n\n# File: a.txt\n```\nhello\n```"` |

## Left out

- The traversal order and glob dialect of `fast-glob`: the walk is an input sequence, and only its structural pruning is modelled.
- A regular file named exactly `node_modules` or `.git`: the model prunes directory segments only. Whether `**/node_modules/**` also matches such a file is up to the glob library.
- The pattern dialect of the `ignore` library: negation, directory scoping, comments, blank lines and `\r` before `\n`. The matcher is a parameter, and `.gitignore` text reaches it split at `\n`. No claim is made that a default-ignored path stays ignored, because a negation in `.gitignore` can re-include it.
- Binary detection by `isbinaryfile`: an input predicate on paths.
- Failures inside `getValidFiles` (an unreadable `.gitignore`, a sniffing error) and failing sink writes (`fs.writeFileSync`, `clipboardy.write` throwing). Each write is the last step of its branch, so a failed write only turns the outcome into a failure.
- `path.join` normalisation of the output path: the path is used as given.
- A file created by `--output` gets content in `Host.files`, but it is not added to `Host.walk`, because its place in a later walk is unknown.
- Spinner, colour and console text. The outcome datatype records what is reported: the tree, the stats, the saved path, the size warning and the decline.
- Strings are sequences of Unicode scalar values; JavaScript's UTF-16 `length`, which counts a character above U+FFFF twice, is not modelled (affects the token tally and the size gate).
- Floating point: `tokenCount` is a sum of `length / 4`, and each term is exact in binary floating point at these sizes. The model keeps four times that sum as an integer. The kilobyte figure in the size warning is `Math.round(length / 1024)`.
- `async`/`await`: the flow is sequential, with no concurrency.
- The AI-review pipeline (src/utils/engine.js) and the CLI wiring and scaffolding command (bin/index.js) are not part of this model.
