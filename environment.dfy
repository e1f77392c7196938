/** What `copycode` observes and changes outside itself: the files under the
    project root and the system clipboard. Both are sinks the bundler writes
    through the methods below (`fs.readFileSync`, `fs.writeFileSync`,
    `clipboardy.write`). */
module Environment {
  import opened FileReader

  datatype Option<T> = None | Some(value: T)

  class Host {
    /** Every regular file under the root, in the order the directory walk
        meets it (before any pruning or filtering). */
    var walk: seq<Path>
    /** The text of each file, by root-relative path. A walked path with no
        entry here is one whose read throws (it vanished or is unreadable). */
    var files: map<Path, string>
    /** The system clipboard's current text. */
    var clipboard: string

    constructor (walk: seq<Path>, files: map<Path, string>, clipboard: string)
      ensures this.walk == walk && this.files == files && this.clipboard == clipboard
    {
      this.walk, this.files, this.clipboard := walk, files, clipboard;
    }

    /** Read a file as UTF-8 text: its content when it exists, `None` when the
        read throws. */
    method ReadFile(p: Path) returns (content: Option<string>)
      ensures content.Some? <==> p in files
      ensures content.Some? ==> content.value == files[p]
    {
      content := if p in files then Some(files[p]) else None;
    }

    /** Create or overwrite the root-relative file `p` with `text`. */
    method WriteFile(p: Path, text: string)
      modifies this`files
      ensures files == old(files)[p := text]
    {
      files := files[p := text];
    }

    /** Replace the clipboard's text. */
    method WriteClipboard(text: string)
      modifies this`clipboard
      ensures clipboard == text
    {
      clipboard := text;
    }
  }
}
