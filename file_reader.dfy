/** The file selector (`getValidFiles`): which files under the project root
    go into a context bundle. Directory enumeration, the ignore-file pattern
    dialect and binary sniffing belong to libraries; they enter the model as
    the traversal order `walk` and the predicates `ignores` and `isBinary`. */
module FileReader {
  import opened Text
  import opened Seqs

  /** A root-relative, slash-separated file path. */
  type Path = string
  /** One ignore-file pattern, such as `*.png` or `dist`. */
  type Pattern = string

  /** The built-in noise list, always added first. */
  const DefaultIgnores: seq<Pattern> := [
    ".git", "node_modules", "dist", "build", "coverage", ".DS_Store",
    "package-lock.json", "yarn.lock", "pnpm-lock.yaml", ".env", ".env.local",
    "*.png", "*.jpg", "*.jpeg", "*.gif", "*.ico", "*.svg"
  ]

  /** The project ignore file, looked up at the root only. */
  const GitignoreName: Path := ".gitignore"

  /** Directories the enumeration never descends into, whatever the rules say. */
  const PrunedDirs: set<string> := {"node_modules", ".git"}

  /** The compiled ignore rule set; `Add` appends patterns in order. */
  class RuleSet {
    var patterns: seq<Pattern>

    constructor ()
      ensures patterns == []
    {
      patterns := [];
    }

    method Add(more: seq<Pattern>)
      modifies this
      ensures patterns == old(patterns) + more
    {
      patterns := patterns + more;
    }
  }

  /** The rules `getValidFiles` compiles: the defaults, then the lines of the
      root `.gitignore` when it exists. */
  function CompiledRules(files: map<Path, string>): (rules: seq<Pattern>)
    ensures |DefaultIgnores| == 17 && |rules| >= 17
    ensures rules[..17] == DefaultIgnores
    ensures GitignoreName !in files ==> rules == DefaultIgnores
    ensures GitignoreName in files ==> rules[17..] == Split(files[GitignoreName], '\n')
  {
    DefaultIgnores + (if GitignoreName in files then Split(files[GitignoreName], '\n') else [])
  }

  /** Some directory on the path (any segment but the last) is one the
      enumeration prunes. */
  predicate UnderPrunedDir(p: Path)
  {
    var segments := Split(p, '/');
    exists k :: 0 <= k < |segments| - 1 && segments[k] in PrunedDirs
  }

  /** A path that starts with a pruned directory is under it, whatever
      follows. */
  lemma PrunedAtRoot(dir: string, rest: Path)
    requires dir in PrunedDirs
    ensures UnderPrunedDir(dir + "/" + rest)
  {
    var p := dir + "/" + rest;
    assert '/' !in dir;
    assert p[..|dir|] == dir && p[|dir| + 1..] == rest;
    SplitAt(p, '/', |dir|);
    assert Split(p, '/')[0] == dir;
  }

  /** A path that passes through a pruned directory at any depth is under
      it, whatever comes before or after. */
  lemma PrunedBelow(parent: Path, dir: string, rest: Path)
    requires dir in PrunedDirs
    ensures UnderPrunedDir(parent + "/" + dir + "/" + rest)
  {
    var p := parent + "/" + dir + "/" + rest;
    assert '/' !in dir;
    assert p == parent + ['/'] + (dir + ['/'] + rest);
    SplitConcat(parent, dir + ['/'] + rest, '/');
    SplitConcat(dir, rest, '/');
    SplitWithout(dir, '/');
    var segments := Split(p, '/');
    assert segments == Split(parent, '/') + [dir] + Split(rest, '/');
    assert segments[|Split(parent, '/')|] == dir;
  }

  function Unpruned(): Path -> bool
  {
    p => !UnderPrunedDir(p)
  }

  /** The structurally pruned enumeration: the walk without anything under a
      `node_modules` or `.git` directory. */
  function Enumerate(walk: seq<Path>): seq<Path>
  {
    Filter(walk, Unpruned())
  }

  function NotIgnored(rules: seq<Pattern>, ignores: (seq<Pattern>, Path) -> bool): Path -> bool
  {
    p => !ignores(rules, p)
  }

  function Accepted(rules: seq<Pattern>, ignores: (seq<Pattern>, Path) -> bool, isBinary: Path -> bool): Path -> bool
  {
    p => !ignores(rules, p) && !isBinary(p)
  }

  /** What `getValidFiles` returns: the enumerated paths, in order, that the
      compiled rules do not ignore and that are not binary. */
  function Selection(walk: seq<Path>, files: map<Path, string>,
                     ignores: (seq<Pattern>, Path) -> bool, isBinary: Path -> bool): seq<Path>
  {
    Filter(Enumerate(walk), Accepted(CompiledRules(files), ignores, isBinary))
  }

  /** `getValidFiles`: compile the rules into a fresh rule set, enumerate, then
      keep each path that is not ignored and, checked only then, not binary.
      `sniffed` lists the paths handed to the binary check, in order. */
  method GetValidFiles(walk: seq<Path>, files: map<Path, string>,
                       ignores: (seq<Pattern>, Path) -> bool, isBinary: Path -> bool)
    returns (valid: seq<Path>, ghost sniffed: seq<Path>)
    ensures valid == Selection(walk, files, ignores, isBinary)
    ensures sniffed == Filter(Enumerate(walk), NotIgnored(CompiledRules(files), ignores))
  {
    var ig := new RuleSet();
    ig.Add(DefaultIgnores);
    if GitignoreName in files {
      ig.Add(Split(files[GitignoreName], '\n'));
    }
    var rules := ig.patterns;
    assert rules == CompiledRules(files);
    var allFiles := Enumerate(walk);
    valid, sniffed := [], [];
    for i := 0 to |allFiles|
      invariant valid == Filter(allFiles[..i], Accepted(rules, ignores, isBinary))
      invariant sniffed == Filter(allFiles[..i], NotIgnored(rules, ignores))
    {
      var file := allFiles[i];
      assert allFiles[..i + 1] == allFiles[..i] + [file];
      FilterSnoc(allFiles[..i], file, Accepted(rules, ignores, isBinary));
      FilterSnoc(allFiles[..i], file, NotIgnored(rules, ignores));
      if ignores(rules, file) {
        continue;
      }
      sniffed := sniffed + [file];
      var binary := isBinary(file);
      if !binary {
        valid := valid + [file];
      }
    }
    assert allFiles[..|allFiles|] == allFiles;
  }

  /** The result keeps enumeration order and is never longer than the
      enumeration. */
  lemma SelectionIsOrderedSubset(walk: seq<Path>, files: map<Path, string>,
                                 ignores: (seq<Pattern>, Path) -> bool, isBinary: Path -> bool)
    ensures IsSubsequence(Selection(walk, files, ignores, isBinary), Enumerate(walk))
    ensures |Selection(walk, files, ignores, isBinary)| <= |Enumerate(walk)|
  {
    var rules := CompiledRules(files);
    FilterIsSubsequence(Enumerate(walk), Accepted(rules, ignores, isBinary));
    SubsequenceLength(Selection(walk, files, ignores, isBinary), Enumerate(walk));
  }

  /** An enumerated path is selected exactly when the compiled rules do not
      ignore it and it is not binary. */
  lemma SelectionMembership(walk: seq<Path>, files: map<Path, string>,
                            ignores: (seq<Pattern>, Path) -> bool, isBinary: Path -> bool, p: Path)
    ensures p in Selection(walk, files, ignores, isBinary) <==>
            p in Enumerate(walk) && !ignores(CompiledRules(files), p) && !isBinary(p)
  {
    FilterMembership(Enumerate(walk), Accepted(CompiledRules(files), ignores, isBinary), p);
  }

  /** Only paths the rules do not ignore reach the binary check. */
  lemma SniffedOnlyWhenNotIgnored(walk: seq<Path>, files: map<Path, string>,
                                  ignores: (seq<Pattern>, Path) -> bool, p: Path)
    requires p in Filter(Enumerate(walk), NotIgnored(CompiledRules(files), ignores))
    ensures p in Enumerate(walk) && !ignores(CompiledRules(files), p)
  {
    FilterMembership(Enumerate(walk), NotIgnored(CompiledRules(files), ignores), p);
  }

  /** Nothing under `node_modules` or `.git` is ever selected, whatever the
      ignore rules, the matcher or the binary check decide. */
  lemma NeverUnderPrunedDir(walk: seq<Path>, files: map<Path, string>,
                            ignores: (seq<Pattern>, Path) -> bool, isBinary: Path -> bool, p: Path)
    requires p in Selection(walk, files, ignores, isBinary)
    ensures !UnderPrunedDir(p)
  {
    SelectionMembership(walk, files, ignores, isBinary, p);
    FilterMembership(walk, Unpruned(), p);
  }
}
