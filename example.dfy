/** A five-file project, proved through the model: a root holding `a.txt`
    ("hello"), an image, a file under `.git`, a `.gitignore` that excludes
    `*.log`, and `b.log`. */
module Example {
  import opened Text
  import opened Seqs
  import opened FileReader
  import opened Copy

  const Walk: seq<Path> := ["a.txt", "img.png", ".git/config", ".gitignore", "b.log"]
  const Files: map<Path, string> :=
    map["a.txt" := "hello", "img.png" := "\U{89}PNG", ".git/config" := "[core]",
        ".gitignore" := "*.log", "b.log" := "trace"]

  /** A stand-in for the ignore library that is enough for these five paths. */
  function Matcher(rules: seq<Pattern>, p: Path): bool
  {
    ("*.log" in rules && p == "b.log") || ("*.png" in rules && p == "img.png")
  }

  /** A stand-in for the byte sniffer: only the image is binary. */
  function Sniffer(p: Path): bool
  {
    p == "img.png"
  }

  /** A path with no slash is never under a pruned directory. */
  lemma TopLevel(p: Path)
    requires '/' !in p
    ensures !UnderPrunedDir(p)
  {
    SplitWithout(p, '/');
  }

  /** `.git/config` lies under a pruned directory. */
  lemma GitConfigPruned()
    ensures UnderPrunedDir(".git/config")
  {
    assert ".git/config" == ".git" + "/" + "config";
    PrunedAtRoot(".git", "config");
  }

  /** The four top-level files are not under a pruned directory. */
  lemma TopLevelKept()
    ensures !UnderPrunedDir("a.txt") && !UnderPrunedDir("img.png")
    ensures !UnderPrunedDir(".gitignore") && !UnderPrunedDir("b.log")
  {
    TopLevel("a.txt");
    TopLevel("img.png");
    TopLevel(".gitignore");
    TopLevel("b.log");
  }

  /** The `.git` file is pruned; every other walked path is enumerated. */
  lemma ExampleEnumeration()
    ensures Enumerate(Walk) == ["a.txt", "img.png", ".gitignore", "b.log"]
  {
    GitConfigPruned();
    TopLevelKept();
    var f := Unpruned();
    assert !f(".git/config") && f("a.txt") && f("img.png") && f(".gitignore") && f("b.log");
    EnumerationFilter(f);
  }

  lemma EnumerationFilter(keep: Path -> bool)
    requires !keep(".git/config") && keep("a.txt") && keep("img.png") && keep(".gitignore") && keep("b.log")
    ensures Filter(Walk, keep) == ["a.txt", "img.png", ".gitignore", "b.log"]
  {
    assert Walk == [] + ["a.txt"] + ["img.png"] + [".git/config"] + [".gitignore"] + ["b.log"];
    FilterSnoc([], "a.txt", keep);
    FilterSnoc([] + ["a.txt"], "img.png", keep);
    FilterSnoc([] + ["a.txt"] + ["img.png"], ".git/config", keep);
    FilterSnoc([] + ["a.txt"] + ["img.png"] + [".git/config"], ".gitignore", keep);
    FilterSnoc([] + ["a.txt"] + ["img.png"] + [".git/config"] + [".gitignore"], "b.log", keep);
  }

  /** The root `.gitignore` adds its one pattern after the seventeen defaults. */
  lemma ExampleRules()
    ensures CompiledRules(Files) == DefaultIgnores + ["*.log"]
  {
    assert Files[".gitignore"] == "*.log";
    SplitWithout("*.log", '\n');
  }

  /** Under the example's rules, the image and the log are turned away and
      the two text files are kept. */
  lemma ExampleVerdicts(rules: seq<Pattern>)
    requires rules == DefaultIgnores + ["*.log"]
    ensures Matcher(rules, "img.png") && Matcher(rules, "b.log")
    ensures !Matcher(rules, "a.txt") && !Sniffer("a.txt")
    ensures !Matcher(rules, ".gitignore") && !Sniffer(".gitignore")
  {
    assert DefaultIgnores[11] == "*.png";
    assert rules[11] == "*.png" && rules[17] == "*.log";
    assert |".gitignore"| != |"b.log"| && |".gitignore"| != |"img.png"|;
  }

  /** Filtering the enumerated paths with the example's verdicts. */
  lemma ExampleFilter(keep: Path -> bool)
    requires !keep("img.png") && !keep("b.log") && keep("a.txt") && keep(".gitignore")
    ensures Filter(["a.txt", "img.png", ".gitignore", "b.log"], keep) == ["a.txt", ".gitignore"]
  {
    assert ["a.txt", "img.png", ".gitignore", "b.log"] == [] + ["a.txt"] + ["img.png"] + [".gitignore"] + ["b.log"];
    FilterSnoc([], "a.txt", keep);
    FilterSnoc([] + ["a.txt"], "img.png", keep);
    FilterSnoc([] + ["a.txt"] + ["img.png"], ".gitignore", keep);
    FilterSnoc([] + ["a.txt"] + ["img.png"] + [".gitignore"], "b.log", keep);
  }

  /** The image and the log are ignored, and the `.gitignore` itself is
      bundled next to `a.txt`. */
  lemma ExampleSelection()
    ensures Selection(Walk, Files, Matcher, Sniffer) == ["a.txt", ".gitignore"]
  {
    ExampleEnumeration();
    ExampleRules();
    var rules := DefaultIgnores + ["*.log"];
    ExampleVerdicts(rules);
    ExampleFilter(Accepted(rules, Matcher, Sniffer));
  }

  /** Two files of ten characters in all: `Math.round(10 / 4)` is 3. */
  lemma ExampleStats()
    ensures Stats(["a.txt", ".gitignore"], Files) == Report(2, 3)
  {
    assert ContentSize(["a.txt", ".gitignore"], Files) == 10;
  }

  /** The fenced section for `a.txt`. */
  lemma ExampleBody()
    ensures Body(["a.txt"], Files) == "\n\n# File: a.txt\n```\nhello\n```"
  {
  }
}
