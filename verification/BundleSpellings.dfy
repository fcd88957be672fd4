/** How a bundle ID is written and what path it names. */
module BundleSpellings {
  import opened Wrappers
  import opened BundlePaths

  /** The text of an ID below the backup root, split at the slashes; a doubled slash leaves an empty
      component. */
  type Spelling = seq<string>

  /** The path that a text names: empty and `.` components say nothing. */
  function Normal(spelling: Spelling): Path {
    if spelling == [] then []
    else if spelling[0] == "" || spelling[0] == "." then Normal(spelling[1..])
    else [spelling[0]] + Normal(spelling[1..])
  }

  lemma {:induction false} PlainIsNormal(path: Path)
    requires forall i :: 0 <= i < |path| ==> path[i] != "" && path[i] != "."
    ensures Normal(path) == path
  {
    if path != [] {
      assert forall i :: 0 <= i < |path[1..]| ==> path[1..][i] == path[i + 1];
      PlainIsNormal(path[1..]);
      assert path == [path[0]] + path[1..];
    }
  }

  lemma PublishedIsPlain(path: Path, i: nat)
    requires ValidatedRelative(path).Some? && i < |path|
    ensures path[i] != "" && path[i] != "."
  {
    var id := ValidatedRelative(path).value;
    assert Final(id.vm, id.run, id.stamp) == Some(path);
    assert |Print(id.stamp)| == 16;
    assert |path[1]| == 36 && |path[2]| == 4 && |path[3]| == 2 && |path[4]| > 16;
  }

  /** A canonical path is its own spelling. */
  lemma PublishedIsNormal(path: Path)
    requires ValidatedRelative(path).Some?
    ensures Normal(path) == path
  {
    forall i | 0 <= i < |path|
      ensures path[i] != "" && path[i] != "."
    {
      PublishedIsPlain(path, i);
    }
    PlainIsNormal(path);
  }

  /** So every published bundle has other spellings as well. */
  lemma AnotherSpelling(path: Path)
    requires ValidatedRelative(path).Some?
    ensures Normal(["."] + path) == Normal([""] + path) == path && ["."] + path != path
  {
    PublishedIsNormal(path);
    assert (["."] + path)[1..] == path && ([""] + path)[1..] == path;
  }
}
