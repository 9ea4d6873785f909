/** The two os.path helpers the recorders use to name a recorded take:
    the last component of a path and that component without its extension. */
module Paths {
  import opened Common

  /** The index of the last occurrence of c in s. */
  function LastIndexOf(s: string, c: char): (r: Option<nat>)
    ensures r.None? <==> c !in s
    ensures r.Some? ==> r.value < |s| && s[r.value] == c && c !in s[r.value + 1..]
  {
    if s == [] then None
    else if s[|s| - 1] == c then Some(|s| - 1)
    else
      var r := LastIndexOf(s[..|s| - 1], c);
      assert r.Some? ==> s[r.value + 1..] == s[..|s| - 1][r.value + 1..] + [s[|s| - 1]];
      assert r.None? ==> s == s[..|s| - 1] + [s[|s| - 1]];
      r
  }

  /** os.path.basename: what follows the last '/'. */
  function Basename(p: string): string
  {
    match LastIndexOf(p, '/')
    case None => p
    case Some(k) => p[k + 1..]
  }

  /** Whether s[..d] holds a character other than '.'. */
  predicate NonDotBefore(s: string, d: nat)
    requires d <= |s|
  {
    exists i :: 0 <= i < d && s[i] != '.'
  }

  /** os.path.splitext(name)[0] for a name without '/': everything before the
      last '.', unless that dot is only preceded by dots (a hidden file such
      as ".mp4" has no extension). */
  function Stem(name: string): string
  {
    match LastIndexOf(name, '.')
    case None => name
    case Some(d) => if NonDotBefore(name, d) then name[..d] else name
  }

  /** A basename holds no '/' and ends the path. */
  lemma BasenameSpec(p: string)
    ensures '/' !in Basename(p)
    ensures |Basename(p)| <= |p| && Basename(p) == p[|p| - |Basename(p)|..]
    ensures '/' !in p ==> Basename(p) == p
  {
  }

  /** The stem is a prefix of the name and gives the name back once the
      extension, which holds no further '.', is put back after it. */
  lemma StemSpec(name: string)
    ensures |Stem(name)| <= |name| && Stem(name) == name[..|Stem(name)|]
    ensures Stem(name) != name ==>
      name[|Stem(name)|] == '.' && '.' !in name[|Stem(name)| + 1..]
  {
  }

  /** The round trip of the recorder's file naming: a video saved as
      dir/name.ext is recorded under name, whenever the extension holds no
      '.' or '/', the name holds no '/', and the name is not all dots. */
  lemma StemOfVideoPath(dir: string, name: string, ext: string)
    requires '/' !in name && '/' !in ext && '.' !in ext
    requires |name| > 0 && NonDotBefore(name, |name|)
    ensures Stem(Basename(dir + ['/'] + name + ['.'] + ext)) == name
  {
    var p := dir + ['/'] + name + ['.'] + ext;
    var k := |dir|;
    assert p[k] == '/';
    assert p[k + 1..] == name + ['.'] + ext;
    assert '/' !in p[k + 1..];
    var file := name + ['.'] + ext;
    assert LastIndexOf(p, '/') == Some(k) by {
      LastIndexUnique(p, '/', k);
    }
    assert Basename(p) == file;
    assert file[|name|] == '.';
    assert file[|name| + 1..] == ext;
    LastIndexUnique(file, '.', |name|);
    assert file[..|name|] == name;
    var i :| 0 <= i < |name| && name[i] != '.';
    assert file[i] == name[i];
  }

  /** The last occurrence is the one after which the character is absent. */
  lemma LastIndexUnique(s: string, c: char, k: nat)
    requires k < |s| && s[k] == c && c !in s[k + 1..]
    ensures LastIndexOf(s, c) == Some(k)
  {
  }
}
