/** Slash-separated paths, as text and as component lists.

    The source compares virtual paths as strings (prefix tests ending in "/") and host
    paths as `pathlib` component lists.  This module relates the two views. */
module Paths {
  type Path = seq<string>

  /** A component as `PurePosixPath` keeps it: non-empty, not ".", and without a slash. */
  predicate IsName(name: string) {
    name != "" && name != "." && '/' !in name
  }

  predicate WellNamed(path: Path) {
    forall k | 0 <= k < |path| :: IsName(path[k])
  }

  /** "/a/b" for ["a", "b"], and "" for the root. */
  function Text(path: Path): (s: string)
    ensures s == "" || s[0] == '/'
  {
    if path == [] then "" else "/" + path[0] + Text(path[1..])
  }

  /** `PurePosixPath.as_posix()` of an absolute path. */
  function Posix(path: Path): string {
    if path == [] then "/" else Text(path)
  }

  /** `text.rstrip("/")` */
  function StripSlashes(text: string): (s: string)
    ensures s <= text
    ensures s == "" || s[|s| - 1] != '/'
    ensures forall k | |s| <= k < |text| :: text[k] == '/'
  {
    if text != "" && text[|text| - 1] == '/' then StripSlashes(text[..|text| - 1]) else text
  }

  /** Where the component that starts at `from` ends. */
  function NameEnd(text: string, from: nat): (end: nat)
    requires from <= |text|
    ensures from <= end <= |text|
    ensures '/' !in text[from..end]
    ensures end < |text| ==> text[end] == '/'
    decreases |text| - from
  {
    if from == |text| || text[from] == '/' then from
    else
      var end := NameEnd(text, from + 1);
      assert text[from..end] == [text[from]] + text[from + 1..end];
      end
  }

  /** The components of "/a/b"; a doubled slash gives an empty component, which no mount has. */
  function Split(text: string): Path
    requires text == "" || text[0] == '/'
    decreases |text|
  {
    if text == "" then [] else
      var end := NameEnd(text, 1);
      [text[1..end]] + Split(text[end..])
  }

  /** Components of a virtual path once its trailing slashes are gone. */
  function Components(text: string): Path
    requires text != "" && text[0] == '/'
  {
    var stripped := StripSlashes(text);
    if stripped == "" then [] else Split(stripped)
  }

  predicate TextWithin(text: string, root: string) {
    text == root || root + "/" <= text
  }

  lemma NameEndUnique(text: string, name: string)
    requires text != "" && text[0] == '/' && IsName(name)
    requires |name| + 1 <= |text| && text[1..|name| + 1] == name
    requires |name| + 1 < |text| ==> text[|name| + 1] == '/'
    ensures NameEnd(text, 1) == |name| + 1
  {
    hide NameEnd;
    var end := NameEnd(text, 1);
    assert forall k | 1 <= k < |name| + 1 :: text[k] == name[k - 1];
    assert forall k | 1 <= k < end :: text[k] == text[1..end][k - 1];
  }

  lemma TextWithinCancel(head: string, text: string, root: string)
    ensures TextWithin(head + text, head + root) <==> TextWithin(text, root)
  {
    assert (head + root) + "/" == head + (root + "/");
    PrefixCancel(head, root + "/", text);
    if head + text == head + root {
      assert text == (head + text)[|head|..] == (head + root)[|head|..] == root;
    }
  }

  lemma PrefixCancel(head: string, short: string, long: string)
    ensures head + short <= head + long <==> short <= long
  {
    if head + short <= head + long {
      assert short == (head + short)[|head|..];
      assert long[..|short|] == (head + long)[|head|..|head| + |short|];
      assert (head + short)[|head|..] == (head + long)[|head|..|head| + |short|];
    }
    if short <= long {
      assert long == short + long[|short|..];
      assert head + long == (head + short) + long[|short|..];
    }
  }

  /** The first component of a path that some rooted text covers. */
  lemma TextWithinHead(text: string, name: string, rest: string)
    requires text != "" && text[0] == '/' && IsName(name)
    requires rest == "" || rest[0] == '/'
    requires TextWithin(text, "/" + name + rest)
    ensures text[1..NameEnd(text, 1)] == name
  {
    var whole := "/" + name + rest;
    assert whole <= text;
    assert whole[1..|name| + 1] == name;
    assert text[1..|name| + 1] == whole[1..|name| + 1];
    if |name| + 1 < |text| {
      if rest == "" {
        assert whole + "/" <= text;
        assert text[|name| + 1] == (whole + "/")[|name| + 1];
      } else {
        assert text[|name| + 1] == whole[|name| + 1] == rest[0];
      }
    }
    NameEndUnique(text, name);
  }

  /** One component of the correspondence below. */
  lemma TextWithinStep(text: string, name: string, rest: string)
    requires text != "" && text[0] == '/' && IsName(name)
    requires rest == "" || rest[0] == '/'
    ensures var end := NameEnd(text, 1);
            TextWithin(text, "/" + name + rest) <==>
            text[1..end] == name && TextWithin(text[end..], rest)
  {
    var end := NameEnd(text, 1);
    if TextWithin(text, "/" + name + rest) {
      TextWithinHead(text, name, rest);
    }
    if text[1..end] == name {
      assert text == ("/" + name) + text[end..];
      TextWithinCancel("/" + name, text[end..], rest);
    }
  }

  /** A string-prefix test on a "/" boundary is the component-prefix test. */
  lemma {:induction false} TextWithinIsPrefix(text: string, root: Path)
    requires text == "" || text[0] == '/'
    requires WellNamed(root)
    ensures TextWithin(text, Text(root)) <==> root <= Split(text)
    decreases |root|
  {
    if root != [] && text != "" {
      TextWithinStep(text, root[0], Text(root[1..]));
      var tail := text[NameEnd(text, 1)..];
      TextWithinIsPrefix(tail, root[1..]);
      assert Split(text)[1..] == Split(tail);
      assert root == [root[0]] + root[1..];
    }
  }

  /** Rendering and splitting are inverse on component lists that `pathlib` can produce. */
  lemma {:induction false} SplitText(path: Path)
    requires WellNamed(path)
    ensures Split(Text(path)) == path
  {
    if path != [] {
      var text := Text(path);
      var rest := Text(path[1..]);
      assert text[1..|path[0]| + 1] == path[0];
      assert text[|path[0]| + 1..] == rest;
      NameEndUnique(text, path[0]);
      SplitText(path[1..]);
    }
  }

  lemma {:induction false} TextOfSplit(text: string)
    requires text == "" || text[0] == '/'
    ensures Text(Split(text)) == text
    decreases |text|
  {
    hide NameEnd;
    if text != "" {
      var end := NameEnd(text, 1);
      var name, rest := text[1..end], Split(text[end..]);
      TextOfSplit(text[end..]);
      assert Split(text) == [name] + rest;
      assert ([name] + rest)[1..] == rest;
      assert text == "/" + name + text[end..];
    }
  }

  lemma {:induction false} TextEndsInName(path: Path)
    requires WellNamed(path) && path != []
    ensures var text := Text(path); text[|text| - 1] != '/'
  {
    if |path| > 1 {
      TextEndsInName(path[1..]);
    }
  }

  lemma {:induction false} TextAppend(left: Path, right: Path)
    ensures Text(left + right) == Text(left) + Text(right)
  {
    if left == [] {
      assert left + right == right;
    } else {
      assert (left + right)[1..] == left[1..] + right;
      TextAppend(left[1..], right);
    }
  }

  /** Among prefixes of one path, the longer text is the deeper path. */
  lemma TextLengthOrders(shallow: Path, deep: Path)
    requires shallow < deep
    ensures |Text(shallow)| < |Text(deep)|
  {
    var rest := deep[|shallow|..];
    assert deep == shallow + rest;
    TextAppend(shallow, rest);
  }

  lemma ComponentsOfPosix(path: Path)
    requires WellNamed(path)
    ensures Components(Posix(path)) == path
  {
    if path != [] {
      TextEndsInName(path);
      SplitText(path);
    }
  }
}
