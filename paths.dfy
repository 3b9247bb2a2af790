/** The `System.IO.Path` operations the template generator uses, on paths
    whose directories are separated by '/' or '\\'. Volumes, roots and the
    normalisation of separators are not modelled. */
module Paths {
  import opened Common

  /** The characters `Path` treats as directory separators. */
  const Separators: set<char> := {'/', '\\'}

  predicate NoSeparator(s: string) {
    forall i :: 0 <= i < |s| ==> s[i] !in Separators
  }

  /** Index of the last separator of `p`, or -1. */
  function LastSeparator(p: string): (k: int)
    ensures -1 <= k < |p|
    ensures k >= 0 ==> p[k] in Separators
    ensures forall j :: k < j < |p| ==> p[j] !in Separators
  {
    LastIndexOfAny(p, Separators)
  }

  /** `Path.GetFileName`: the longest suffix of `p` without a separator. */
  function FileName(p: string): (r: string)
    ensures |r| <= |p| && r == p[|p| - |r|..] && NoSeparator(r)
    ensures |r| < |p| ==> p[|p| - |r| - 1] in Separators
  {
    var k := LastSeparator(p);
    p[k + 1..]
  }

  /** `Path.GetDirectoryName`: the text before the last separator, or ""
      when `p` has none. */
  function DirectoryName(p: string): (r: string)
    ensures |r| <= |p| && r == p[..|r|]
    ensures p != "" ==> |r| < |p|
    ensures |r| > 0 ==> p[|r|] in Separators
    ensures LastSeparator(p) < 0 ==> r == ""
    ensures LastSeparator(p) >= 0 ==> |r| == LastSeparator(p)
  {
    var k := LastSeparator(p);
    if k < 0 then "" else p[..k]
  }

  /** A path is its directory, the separator after it, and its file name. */
  lemma SplitPath(p: string)
    ensures LastSeparator(p) < 0 ==> DirectoryName(p) == "" && FileName(p) == p
    ensures LastSeparator(p) >= 0 ==>
              p == DirectoryName(p) + [p[LastSeparator(p)]] + FileName(p)
  {
    var k := LastSeparator(p);
    if k >= 0 {
      assert p == p[..k] + [p[k]] + p[k + 1..];
    }
  }

  /** `Path.GetFileNameWithoutExtension`: the file name up to its last
      '.', or the whole file name when it has no '.'. */
  function FileNameWithoutExtension(p: string): (r: string)
    ensures |r| <= |FileName(p)| && r == FileName(p)[..|r|]
    ensures |r| < |FileName(p)| ==> FileName(p)[|r|] == '.'
    ensures |r| == |FileName(p)| ==> '.' !in FileName(p)
    ensures forall j :: |r| < j < |FileName(p)| ==> FileName(p)[j] != '.'
  {
    var name := FileName(p);
    var k := LastIndexOfAny(name, {'.'});
    if k < 0 then name else name[..k]
  }

  /** `Path.Combine`: `b` when `a` is empty or `b` starts at a separator,
      `a` when `b` is empty, otherwise the two joined by exactly one
      separator. */
  function Combine(a: string, b: string): string {
    if |b| == 0 then a
    else if |a| == 0 || b[0] in Separators then b
    else if a[|a| - 1] in Separators then a + b
    else a + "/" + b
  }

  /** Text without a separator, appended after one, becomes the file name
      and leaves the rest as the directory. */
  lemma {:induction false} AfterSeparator(a: string, c: char, b: string)
    requires c in Separators && NoSeparator(b)
    ensures LastSeparator(a + [c] + b) == |a|
    ensures FileName(a + [c] + b) == b && DirectoryName(a + [c] + b) == a
  {
    var t := [c] + b;
    LastIndexOfAnyFirst(t, Separators);
    LastIndexOfAnyAppend(a, t, Separators);
    assert a + [c] + b == a + t;
  }

  /** Combining a directory with a bare file name can be split back. */
  lemma CombineSplit(a: string, b: string)
    requires |a| > 0 && |b| > 0 && NoSeparator(b)
    ensures FileName(Combine(a, b)) == b
    ensures a[|a| - 1] !in Separators ==> DirectoryName(Combine(a, b)) == a
    ensures a[|a| - 1] in Separators ==> DirectoryName(Combine(a, b)) == a[..|a| - 1]
  {
    if a[|a| - 1] in Separators {
      AfterSeparator(a[..|a| - 1], a[|a| - 1], b);
      assert a[..|a| - 1] + [a[|a| - 1]] + b == a + b;
    } else {
      AfterSeparator(a, '/', b);
    }
  }

  predicate NoDot(s: string) {
    forall i :: 0 <= i < |s| ==> s[i] != '.'
  }

  lemma NoSeparatorAppend(a: string, b: string)
    requires NoSeparator(a) && NoSeparator(b)
    ensures NoSeparator(a + b)
  {
    forall i | 0 <= i < |a + b| ensures (a + b)[i] !in Separators {
      if i >= |a| {
        assert (a + b)[i] == b[i - |a|];
      }
    }
  }

  /** The name a file is known by inside its folder: whatever the folder,
      the file "`folder`/`stem``ext`" has the stem `stem`, provided the
      stem holds no separator and the extension is a '.' followed by
      neither separators nor dots. */
  lemma StemOf(folder: string, stem: string, ext: string)
    requires NoSeparator(stem) && |ext| > 0 && ext[0] == '.' && NoSeparator(ext) && NoDot(ext[1..])
    ensures FileNameWithoutExtension(folder + "/" + (stem + ext)) == stem
  {
    NoSeparatorAppend(stem, ext);
    AfterSeparator(folder, '/', stem + ext);
    LastIndexOfAnyFirst(ext, {'.'});
    LastIndexOfAnyAppend(stem, ext, {'.'});
  }
}
