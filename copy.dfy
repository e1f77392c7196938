/** The context bundler (`copyCode`): select the files, read each one, build a
    Markdown payload with a file tree and one fenced block per file, estimate
    its token cost, and deliver it to exactly one destination: the console
    (dry run), a file, or the clipboard behind a size gate. */
module Copy {
  import opened Text
  import opened FileReader
  import opened Environment

  /** Above this many characters the clipboard write needs confirmation. */
  const LargeFileLimit: nat := 500000

  /** The payload's title and the opening of the file-structure fence. */
  const Header: string := "# Project Context\n\n## File Structure\n```\n"

  /** The summary lines: how many files, and the rounded token estimate. */
  datatype Report = Report(fileCount: nat, estimatedTokens: nat)

  /** How one invocation ends, as reported to the user. */
  datatype Outcome =
    | NoValidFiles                                        // "No valid files found to copy."
    | ReadFailed(path: Path)                              // a read threw; caught at the top
    | DryRunListed(tree: string, report: Report)          // tree printed, then stats
    | SavedTo(target: Path, report: Report)               // payload written to a file
    | CopiedToClipboard(warnedKb: Option<nat>, report: Report)  // Some(kb) when the gate asked
    | Declined(sizeKb: nat)                               // gate asked, user said no; no stats

  /** The file-structure listing: the selected paths, one per line. */
  function Tree(paths: seq<Path>): string
  {
    Join(paths, '\n')
  }

  /** One file's fenced section of the payload. */
  function Block(path: Path, content: string): string
  {
    "\n\n# File: " + path + "\n```\n" + content + "\n```"
  }

  predicate AllReadable(paths: seq<Path>, files: map<Path, string>)
  {
    forall k :: 0 <= k < |paths| ==> paths[k] in files
  }

  /** The position of the first path whose read throws, or `|paths|`. */
  function FirstUnreadable(paths: seq<Path>, files: map<Path, string>): (k: nat)
    ensures k <= |paths|
    ensures forall j :: 0 <= j < k ==> paths[j] in files
    ensures k < |paths| ==> paths[k] !in files
  {
    if paths == [] then 0
    else if paths[0] !in files then 0
    else 1 + FirstUnreadable(paths[1..], files)
  }

  /** The file sections of the payload, in selection order. */
  function Body(paths: seq<Path>, files: map<Path, string>): string
    requires AllReadable(paths, files)
  {
    if paths == [] then "" else Block(paths[0], files[paths[0]]) + Body(paths[1..], files)
  }

  /** The number of characters of content over the given files. */
  function ContentSize(paths: seq<Path>, files: map<Path, string>): nat
    requires AllReadable(paths, files)
  {
    if paths == [] then 0 else |files[paths[0]]| + ContentSize(paths[1..], files)
  }

  /** The complete text handed to a file or the clipboard. */
  function Payload(tree: string, body: string): string
  {
    Header + tree + "\n```\n" + body
  }

  /** JavaScript's `Math.round(n / d)` for non-negative `n`: the integer
      nearest to `n / d`, halves rounded up. */
  function RoundedQuotient(n: nat, d: nat): (r: nat)
    requires d > 0
    ensures 2 * n - d < 2 * r * d <= 2 * n + d
  {
    (2 * n + d) / (2 * d)
  }

  /** The displayed token estimate for `size` characters: `Math.round(size / 4)`. */
  function EstimatedTokens(size: nat): nat
  {
    RoundedQuotient(size, 4)
  }

  /** The stats the bundler prints for a selection whose files all read. */
  function Stats(paths: seq<Path>, files: map<Path, string>): Report
    requires AllReadable(paths, files)
  {
    Report(|paths|, EstimatedTokens(ContentSize(paths, files)))
  }

  /** `options.output` is used only when it is a non-empty string. */
  predicate ToFile(output: Option<Path>)
  {
    output.Some? && output.value != ""
  }

  /** Appending one readable file appends its block to the body. */
  lemma {:induction false} BodySnoc(paths: seq<Path>, p: Path, files: map<Path, string>)
    requires AllReadable(paths, files) && p in files
    ensures AllReadable(paths + [p], files)
    ensures Body(paths + [p], files) == Body(paths, files) + Block(p, files[p])
  {
    var qs := paths + [p];
    assert AllReadable(qs, files);
    if paths == [] {
      assert qs == [p];
    } else {
      assert qs[0] == paths[0];
      assert qs[1..] == paths[1..] + [p];
      BodySnoc(paths[1..], p, files);
      var first := Block(paths[0], files[paths[0]]);
      calc {
        Body(qs, files);
        first + Body(paths[1..] + [p], files);
        first + (Body(paths[1..], files) + Block(p, files[p]));
        (first + Body(paths[1..], files)) + Block(p, files[p]);
      }
    }
  }

  /** Appending one readable file adds its length to the content size. */
  lemma {:induction false} ContentSizeSnoc(paths: seq<Path>, p: Path, files: map<Path, string>)
    requires AllReadable(paths, files) && p in files
    ensures AllReadable(paths + [p], files)
    ensures ContentSize(paths + [p], files) == ContentSize(paths, files) + |files[p]|
  {
    var qs := paths + [p];
    assert AllReadable(qs, files);
    if paths == [] {
      assert qs == [p];
    } else {
      assert qs[0] == paths[0];
      assert qs[1..] == paths[1..] + [p];
      ContentSizeSnoc(paths[1..], p, files);
    }
  }

  /** The listing names every selected path once, in selection order, and
      nothing else: splitting it at line breaks gives the selection back
      (paths cannot contain a line break for this to hold). */
  lemma TreeListsSelection(paths: seq<Path>)
    requires |paths| >= 1
    requires forall k :: 0 <= k < |paths| ==> '\n' !in paths[k]
    ensures Split(Tree(paths), '\n') == paths
  {
    SplitJoin(paths, '\n');
  }

  /** Each file contributes its content, its path and 19 characters of
      framing to the body. */
  lemma {:induction false} BodySize(paths: seq<Path>, files: map<Path, string>)
    requires AllReadable(paths, files)
    ensures |Body(paths, files)| == ContentSize(paths, files) + TotalSize(paths) + 19 * |paths|
  {
    if paths != [] {
      BodySize(paths[1..], files);
    }
  }

  /** The size the clipboard gate compares with `LargeFileLimit`, in terms of
      the selection: 45 characters of fixed text, each path twice (listing and
      header), 20 characters of framing per file, and the contents. */
  lemma {:induction false} PayloadSize(paths: seq<Path>, files: map<Path, string>)
    requires |paths| >= 1 && AllReadable(paths, files)
    ensures |Payload(Tree(paths), Body(paths, files))| ==
            45 + 2 * TotalSize(paths) + 20 * |paths| + ContentSize(paths, files)
  {
    JoinSize(paths, '\n');
    BodySize(paths, files);
  }

  /** `Math.round(L / 4)` for a total length `L` is `floor((L + 2) / 4)`. */
  lemma EstimatedTokensClosedForm(size: nat)
    ensures EstimatedTokens(size) == (size + 2) / 4
  {
    var r := EstimatedTokens(size);
    assert 2 * size - 4 < 8 * r <= 2 * size + 4;
    assert 4 * r <= size + 2 < 4 * r + 4;
  }

  /** A binary file is never selected, so it has no section in the payload. */
  lemma BinaryNeverBundled(walk: seq<Path>, files: map<Path, string>,
                           ignores: (seq<Pattern>, Path) -> bool, isBinary: Path -> bool, p: Path)
    requires isBinary(p)
    ensures p !in Selection(walk, files, ignores, isBinary)
  {
    SelectionMembership(walk, files, ignores, isBinary, p);
  }

  /** The read loop of `copyCode`: read every path in order, appending its
      block to the body unless this is a dry run, and adding its length to
      the token tally (kept as four times `tokenCount`, so it stays exact).
      Stops at the first read that throws. */
  method ReadFiles(host: Host, paths: seq<Path>, dryRun: bool)
    returns (failed: Option<Path>, text: string, quarters: nat, ghost read: seq<Path>)
    ensures failed.Some? <==> !AllReadable(paths, host.files)
    ensures failed.Some? ==>
              var k := FirstUnreadable(paths, host.files);
              failed.value == paths[k] && read == paths[..k]
    ensures failed.None? ==>
              read == paths &&
              text == (if dryRun then "" else Body(paths, host.files)) &&
              quarters == ContentSize(paths, host.files)
  {
    text, quarters, read := "", 0, [];
    for i := 0 to |paths|
      invariant AllReadable(paths[..i], host.files)
      invariant FirstUnreadable(paths, host.files) >= i
      invariant read == paths[..i]
      invariant text == if dryRun then "" else Body(paths[..i], host.files)
      invariant quarters == ContentSize(paths[..i], host.files)
    {
      var file := paths[i];
      var content := host.ReadFile(file);
      if content.None? {
        assert FirstUnreadable(paths, host.files) == i;
        failed := Some(file);
        return;
      }
      assert paths[..i + 1] == paths[..i] + [file];
      BodySnoc(paths[..i], file, host.files);
      ContentSizeSnoc(paths[..i], file, host.files);
      if !dryRun {
        text := text + Block(file, content.value);
      }
      quarters := quarters + |content.value|;
      read := read + [file];
    }
    assert paths[..|paths|] == paths;
    failed := None;
  }

  /** `copyCode`: every selected file is read, in order, whether or not this
      is a dry run; the payload goes to at most one sink. The ghost results
      record the selection, the files read and the body accumulated. */
  method CopyCode(host: Host, output: Option<Path>, dryRun: bool,
                  ignores: (seq<Pattern>, Path) -> bool, isBinary: Path -> bool,
                  proceed: bool)
    returns (outcome: Outcome, ghost selected: seq<Path>, ghost read: seq<Path>, ghost body: string)
    modifies host
    ensures host.walk == old(host.walk)
    ensures selected == Selection(old(host.walk), old(host.files), ignores, isBinary)
    // No files: report and stop before any read or write.
    ensures selected == [] ==> outcome == NoValidFiles && read == [] && unchanged(host)
    // A read that throws aborts the invocation with no sink written.
    ensures selected != [] && !AllReadable(selected, old(host.files)) ==>
              var k := FirstUnreadable(selected, old(host.files));
              outcome == ReadFailed(selected[k]) && read == selected[..k] && unchanged(host)
    // Otherwise every selected file is read; the body is empty in a dry run.
    ensures selected != [] && AllReadable(selected, old(host.files)) ==>
              read == selected &&
              body == (if dryRun then "" else Body(selected, old(host.files)))
    ensures selected != [] && AllReadable(selected, old(host.files)) && dryRun ==>
              outcome == DryRunListed(Tree(selected), Stats(selected, old(host.files))) &&
              unchanged(host)
    ensures selected != [] && AllReadable(selected, old(host.files)) && !dryRun && ToFile(output) ==>
              host.files == old(host.files)[output.value := Payload(Tree(selected), body)] &&
              host.clipboard == old(host.clipboard) &&
              outcome == SavedTo(output.value, Stats(selected, old(host.files)))
    ensures selected != [] && AllReadable(selected, old(host.files)) && !dryRun && !ToFile(output) ==>
              var payload := Payload(Tree(selected), body);
              var kb := RoundedQuotient(|payload|, 1024);
              host.files == old(host.files) &&
              (|payload| <= LargeFileLimit ==>
                 host.clipboard == payload &&
                 outcome == CopiedToClipboard(None, Stats(selected, old(host.files)))) &&
              (|payload| > LargeFileLimit && !proceed ==>
                 host.clipboard == old(host.clipboard) && outcome == Declined(kb)) &&
              (|payload| > LargeFileLimit && proceed ==>
                 host.clipboard == payload &&
                 outcome == CopiedToClipboard(Some(kb), Stats(selected, old(host.files))))
  {
    var files;
    ghost var sniffed;
    files, sniffed := GetValidFiles(host.walk, host.files, ignores, isBinary);
    selected, read, body := files, [], "";
    if |files| == 0 {
      outcome := NoValidFiles;
      return;
    }

    var tree := Tree(files);
    var failed, text, quarters;
    failed, text, quarters, read := ReadFiles(host, files, dryRun);
    if failed.Some? {
      outcome := ReadFailed(failed.value);
      return;
    }
    body := text;
    var stats := Report(|files|, EstimatedTokens(quarters));

    if dryRun {
      outcome := DryRunListed(tree, stats);
      return;
    }
    var finalOutput := Payload(tree, text);
    if ToFile(output) {
      host.WriteFile(output.value, finalOutput);
      outcome := SavedTo(output.value, stats);
    } else {
      var warned := None;
      if |finalOutput| > LargeFileLimit {
        var kb := RoundedQuotient(|finalOutput|, 1024);
        if !proceed {
          outcome := Declined(kb);
          return;
        }
        warned := Some(kb);
      }
      host.WriteClipboard(finalOutput);
      outcome := CopiedToClipboard(warned, stats);
    }
  }
}
