/** The two string operations the bundler relies on, with JavaScript's
    meaning for a one-character separator: `parts.join(sep)` and
    `s.split(sep)`. */
module Text {

  /** `parts.join(sep)`: the parts in order, one separator between
      neighbours; the empty list joins to the empty string. */
  function Join(parts: seq<string>, sep: char): string
  {
    if |parts| == 0 then ""
    else if |parts| == 1 then parts[0]
    else parts[0] + [sep] + Join(parts[1..], sep)
  }

  /** Position of the first `c` in `s`, or `|s|` when `s` has none. */
  function IndexOf(s: string, c: char): (i: nat)
    ensures i <= |s|
    ensures i < |s| ==> s[i] == c
    ensures forall j :: 0 <= j < i ==> s[j] != c
  {
    if |s| == 0 then 0
    else if s[0] == c then 0
    else 1 + IndexOf(s[1..], c)
  }

  /** `s.split(sep)`: the maximal separator-free pieces between separators;
      the empty string splits to `[""]`. */
  function Split(s: string, sep: char): (parts: seq<string>)
    ensures |parts| >= 1
    ensures forall k :: 0 <= k < |parts| ==> sep !in parts[k]
    decreases |s|
  {
    var i := IndexOf(s, sep);
    if i == |s| then [s] else [s[..i]] + Split(s[i + 1..], sep)
  }

  /** Text without the separator splits to itself alone. */
  lemma SplitWithout(s: string, sep: char)
    requires sep !in s
    ensures Split(s, sep) == [s]
  {
    assert IndexOf(s, sep) == |s|;
  }

  /** Text whose first separator is at `i` splits into the piece before it
      and the split of what follows. */
  lemma SplitAt(s: string, sep: char, i: nat)
    requires i < |s| && s[i] == sep && sep !in s[..i]
    ensures Split(s, sep) == [s[..i]] + Split(s[i + 1..], sep)
  {
    assert forall j :: 0 <= j < i ==> s[..i][j] == s[j];
    assert IndexOf(s, sep) == i;
  }

  /** Splitting two texts joined by a separator splits each of them. */
  lemma {:induction false} SplitConcat(a: string, b: string, sep: char)
    ensures Split(a + [sep] + b, sep) == Split(a, sep) + Split(b, sep)
    decreases |a|
  {
    var i := IndexOf(a, sep);
    if i == |a| {
      SplitConcatPlain(a, b, sep);
    } else {
      var before, after := a[..i], a[i + 1..];
      assert Split(a + [sep] + b, sep) == [before] + Split(after + [sep] + b, sep) by {
        SplitConcatStep(a, b, sep, i);
      }
      assert Split(a, sep) == [before] + Split(after, sep) by {
        SplitAt(a, sep, i);
      }
      SplitConcat(after, b, sep);
    }
  }

  lemma SplitConcatPlain(a: string, b: string, sep: char)
    requires sep !in a
    ensures Split(a + [sep] + b, sep) == [a] + Split(b, sep)
    ensures Split(a, sep) == [a]
  {
    var s := a + [sep] + b;
    assert s[..|a|] == a && s[|a| + 1..] == b;
    SplitAt(s, sep, |a|);
    SplitWithout(a, sep);
  }

  lemma SplitConcatStep(a: string, b: string, sep: char, i: nat)
    requires i < |a| && i == IndexOf(a, sep)
    ensures Split(a + [sep] + b, sep) == [a[..i]] + Split(a[i + 1..] + [sep] + b, sep)
  {
    var s := a + [sep] + b;
    assert s[..i] == a[..i] && s[i] == sep;
    assert s[i + 1..] == a[i + 1..] + [sep] + b;
    assert forall j :: 0 <= j < i ==> s[..i][j] == a[j];
    SplitAt(s, sep, i);
  }

  /** Total number of characters in `parts`. */
  function TotalSize(parts: seq<string>): nat
  {
    if parts == [] then 0 else |parts[0]| + TotalSize(parts[1..])
  }

  /** Splitting and joining again on the same separator gives back the text. */
  lemma {:induction false} JoinSplit(s: string, sep: char)
    ensures Join(Split(s, sep), sep) == s
    decreases |s|
  {
    var i := IndexOf(s, sep);
    if i < |s| {
      var rest := Split(s[i + 1..], sep);
      JoinSplit(s[i + 1..], sep);
      assert Split(s, sep) == [s[..i]] + rest;
      assert ([s[..i]] + rest)[1..] == rest;
      calc {
        Join(Split(s, sep), sep);
        s[..i] + [sep] + Join(rest, sep);
        s[..i] + [sep] + s[i + 1..];
        s;
      }
    }
  }

  /** Joining separator-free parts and splitting again gives back the parts:
      every part comes back once, in order, and nothing else. */
  lemma {:induction false} SplitJoin(parts: seq<string>, sep: char)
    requires |parts| >= 1
    requires forall k :: 0 <= k < |parts| ==> sep !in parts[k]
    ensures Split(Join(parts, sep), sep) == parts
    decreases |parts|
  {
    var s := Join(parts, sep);
    if |parts| == 1 {
      assert IndexOf(s, sep) == |s|;
    } else {
      var head, tail := parts[0], Join(parts[1..], sep);
      assert s == head + [sep] + tail;
      assert s[|head|] == sep;
      assert IndexOf(s, sep) == |head|;
      assert s[..|head|] == head;
      assert s[|head| + 1..] == tail;
      SplitJoin(parts[1..], sep);
      assert parts == [head] + parts[1..];
    }
  }

  /** A non-empty join is as long as its parts plus one separator between
      each pair of neighbours. */
  lemma {:induction false} JoinSize(parts: seq<string>, sep: char)
    requires |parts| >= 1
    ensures |Join(parts, sep)| == TotalSize(parts) + |parts| - 1
    decreases |parts|
  {
    if |parts| > 1 {
      JoinSize(parts[1..], sep);
    }
  }
}
