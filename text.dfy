/** String helpers with the meaning of the java.lang.String operations the bridge and the
    column manager use: contains, startsWith, lastIndexOf and replace. */
module Text {

  /** `sub` occurs in `s` starting at position `i`. */
  predicate OccursAt(s: string, sub: string, i: int)
  {
    0 <= i && i + |sub| <= |s| && s[i..i + |sub|] == sub
  }

  /** String.contains */
  predicate Contains(s: string, sub: string)
  {
    exists i | 0 <= i <= |s| - |sub| :: OccursAt(s, sub, i)
  }

  /** String.startsWith */
  predicate StartsWith(s: string, prefix: string)
  {
    |prefix| <= |s| && s[..|prefix|] == prefix
  }

  /** String.lastIndexOf for a one-character argument: -1 when `c` does not occur. */
  function LastIndexOf(s: string, c: char): (r: int)
    ensures -1 <= r < |s|
    ensures r == -1 <==> c !in s
    ensures 0 <= r ==> s[r] == c && c !in s[r + 1..]
  {
    if s == [] then -1
    else if s[|s| - 1] == c then |s| - 1
    else
      var r := LastIndexOf(s[..|s| - 1], c);
      assert s == s[..|s| - 1] + [s[|s| - 1]];
      r
  }

  /** String.replace(target, replacement): every occurrence of `target`, scanned left to
      right without overlaps, is replaced. */
  function Replace(s: string, target: string, replacement: string): string
    requires target != []
    decreases |s|
  {
    if |s| < |target| then s
    else if s[..|target|] == target then replacement + Replace(s[|target|..], target, replacement)
    else [s[0]] + Replace(s[1..], target, replacement)
  }

  /** Every occurrence of the character `c` changed to `d`. */
  function SwapChar(s: string, c: char, d: char): (r: string)
    ensures |r| == |s|
    ensures c != d ==> c !in r
  {
    if s == [] then [] else [if s[0] == c then d else s[0]] + SwapChar(s[1..], c, d)
  }

  /** Doubling every backslash and then collapsing every double backslash to a slash turns each
      original backslash into exactly one slash: the pairs created by the first replacement are
      the ones the second consumes. */
  lemma {:induction false} DoubleThenCollapse(s: string)
    ensures Replace(Replace(s, "\\", "\\\\"), "\\\\", "/") == SwapChar(s, '\\', '/')
  {
    if s == [] {
    } else if s[0] == '\\' {
      var rest := Replace(s[1..], "\\", "\\\\");
      assert Replace(s, "\\", "\\\\") == "\\\\" + rest;
      var d := "\\\\" + rest;
      assert d[..2] == "\\\\";
      assert d[2..] == rest;
      DoubleThenCollapse(s[1..]);
    } else {
      var rest := Replace(s[1..], "\\", "\\\\");
      assert Replace(s, "\\", "\\\\") == [s[0]] + rest;
      var d := [s[0]] + rest;
      assert d[1..] == rest;
      if |d| >= 2 {
        assert d[..2][0] == s[0];
      }
      DoubleThenCollapse(s[1..]);
    }
  }

  /** The occurrence test is preserved under a prefix extension. */
  lemma ContainsInSuffix(pre: string, s: string, sub: string)
    requires Contains(s, sub)
    ensures Contains(pre + s, sub)
  {
    var i :| 0 <= i <= |s| - |sub| && OccursAt(s, sub, i);
    assert (pre + s)[|pre| + i..|pre| + i + |sub|] == s[i..i + |sub|];
    assert OccursAt(pre + s, sub, |pre| + i);
  }
}
