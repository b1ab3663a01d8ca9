/** Path strings as the bridge builds them: the Python string-literal form of a path
    (preparePythonLiteralPath), its inverse used for IPED queries (prepareIPEDLiteralPath), and
    the joining of a directory and a child the way java.io.File(parent, child) does it on a
    Unix-like system. Whether the system is Windows is a parameter. */
module LiteralPaths {
  import opened Text

  /** preparePythonLiteralPath: on Windows every backslash is doubled, elsewhere the path is
      returned as it is. */
  function PreparePythonLiteralPath(path: string, isWindows: bool): string
  {
    if isWindows then Replace(path, "\\", "\\\\") else path
  }

  /** prepareIPEDLiteralPath: on Windows every double backslash becomes '/', elsewhere the
      path is returned as it is. */
  function PrepareIPEDLiteralPath(path: string, isWindows: bool): string
  {
    if isWindows then Replace(path, "\\\\", "/") else path
  }

  /** Preparing a path for Python and then for IPED gives the path with '/' as its only
      separator on Windows, and the path unchanged elsewhere. */
  lemma PythonThenIPED(path: string, isWindows: bool)
    ensures isWindows ==>
      PrepareIPEDLiteralPath(PreparePythonLiteralPath(path, isWindows), isWindows) == SwapChar(path, '\\', '/')
    ensures !isWindows ==>
      PrepareIPEDLiteralPath(PreparePythonLiteralPath(path, isWindows), isWindows) == path
  {
    if isWindows {
      DoubleThenCollapse(path);
    }
  }

  /** On a path without backslashes the Python form is the path itself. */
  lemma {:induction false} NoBackslashUnchanged(path: string, isWindows: bool)
    requires '\\' !in path
    ensures PreparePythonLiteralPath(path, isWindows) == path
  {
    if isWindows && path != [] {
      assert path[0] != '\\';
      if |path| >= 1 {
        assert path[..1] != "\\";
      }
      assert '\\' !in path[1..];
      NoBackslashUnchanged(path[1..], isWindows);
      assert path == [path[0]] + path[1..];
    }
  }

  /** new File(dir, child).getPath(): an empty child names the directory itself, a child that
      starts with '/' is appended, any other child is appended after a '/'. */
  function Resolve(dir: string, child: string): (r: string)
  {
    if child == [] then dir
    else if child[0] == '/' then dir + child
    else dir + "/" + child
  }

  /** The folders File.mkdirs leaves behind: the directory itself and every prefix of it that
      ends just before a '/', that is, each of its ancestors. */
  function Ancestors(dir: string): set<string>
  {
    {dir} + set i | 0 < i < |dir| && dir[i] == '/' :: dir[..i]
  }

  /** A folder is made exactly when it is the directory or one of its '/'-bounded prefixes. */
  lemma AncestorsMember(dir: string, d: string)
    ensures d in Ancestors(dir) <==> d == dir || (0 < |d| < |dir| && dir[..|d|] == d && dir[|d|] == '/')
  {
    if 0 < |d| < |dir| && dir[..|d|] == d && dir[|d|] == '/' {
      assert dir[..|d|] in Ancestors(dir);
    }
  }

  /** Making a folder makes its parent: with `rest` a '/'-prefixed name, `d` is an ancestor of
      `d + rest`. */
  lemma ParentIsAncestor(d: string, rest: string)
    requires d != [] && rest != [] && rest[0] == '/'
    ensures d in Ancestors(d + rest)
  {
    var dir := d + rest;
    assert dir[|d|] == '/' && dir[..|d|] == d;
  }

  /** Resolving the parent part of a relative path and then its '/'-prefixed name, as the
      staging code does after splitting at the last '/', is resolving the whole relative path:
      the staged copy of <dump>/x/y.db lands at <staging dir>/x/y.db. */
  lemma ResolveSplit(dir: string, rel: string, k: int)
    requires 0 <= k < |rel| && rel[k] == '/'
    ensures Resolve(Resolve(dir, rel[..k]), rel[k..]) == Resolve(dir, rel)
  {
    assert rel == rel[..k] + rel[k..];
    if k == 0 {
      assert rel[k..] == rel;
    } else {
      assert rel[..k][0] == rel[0];
      assert (dir + "/" + rel[..k]) + rel[k..] == dir + "/" + rel;
      assert (dir + rel[..k]) + rel[k..] == dir + rel;
    }
  }
}
