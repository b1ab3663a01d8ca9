/** The path escaping of the LEAPP bridge: the characters a Windows file name cannot hold are
    replaced by '_' and a process-wide table remembers, for each escaped path, the original
    it came from (LeappBridgeTask.replaceSpecialChars / revertSpecialChars). */
module Escaping {

  /** The characters of the class [:*?"<>|]. */
  predicate IsSpecial(c: char)
  {
    c == ':' || c == '*' || c == '?' || c == '"' || c == '<' || c == '>' || c == '|'
  }

  predicate HasSpecial(s: string)
  {
    exists i | 0 <= i < |s| :: IsSpecial(s[i])
  }

  /** artpath.replaceAll("[:*?\"<>|]", "_") */
  function EscapeChars(s: string): string
  {
    if s == [] then [] else [if IsSpecial(s[0]) then '_' else s[0]] + EscapeChars(s[1..])
  }

  /** Each special character becomes '_' and every other character stays in place. */
  lemma {:induction false} EscapeCharsAt(s: string, i: int)
    requires 0 <= i < |s|
    ensures |EscapeChars(s)| == |s|
    ensures EscapeChars(s)[i] == if IsSpecial(s[i]) then '_' else s[i]
  {
    EscapeCharsLength(s);
    if i > 0 {
      EscapeCharsAt(s[1..], i - 1);
    }
  }

  lemma {:induction false} EscapeCharsLength(s: string)
    ensures |EscapeChars(s)| == |s|
  {
    if s != [] {
      EscapeCharsLength(s[1..]);
    }
  }

  /** The escaped path holds none of the special characters. */
  lemma NoSpecialAfterEscape(s: string)
    ensures !HasSpecial(EscapeChars(s))
  {
    EscapeCharsLength(s);
    forall i | 0 <= i < |s| ensures !IsSpecial(EscapeChars(s)[i]) {
      EscapeCharsAt(s, i);
    }
  }

  /** A path is left as it is exactly when it has no special character. */
  lemma UnchangedIffNoSpecial(s: string)
    ensures EscapeChars(s) == s <==> !HasSpecial(s)
  {
    EscapeCharsLength(s);
    if EscapeChars(s) == s {
      NoSpecialAfterEscape(s);
    } else {
      var i :| 0 <= i < |s| && EscapeChars(s)[i] != s[i];
      EscapeCharsAt(s, i);
    }
  }

  /** Escaping twice is escaping once. */
  lemma EscapeIdempotent(s: string)
    ensures EscapeChars(EscapeChars(s)) == EscapeChars(s)
  {
    NoSpecialAfterEscape(s);
    UnchangedIffNoSpecial(EscapeChars(s));
  }

  /** In particular the escaped path never contains the container separator ">>". */
  lemma EscapedHasNoDoubleAngle(s: string)
    ensures !(exists i | 0 <= i < |EscapeChars(s)| :: EscapeChars(s)[i] == '>')
  {
    NoSpecialAfterEscape(s);
  }

  /** The table after escaping `artpath`: an entry is written only when escaping changed it,
      and a later original with the same escaped form overwrites the earlier one. */
  function Record(table: map<string, string>, artpath: string): map<string, string>
  {
    var escaped := EscapeChars(artpath);
    if escaped != artpath then table[escaped := artpath] else table
  }

  /** revertSpecialChars on a table value. */
  function Revert(table: map<string, string>, escaped: string): string
  {
    if escaped in table then table[escaped] else escaped
  }

  /** Every entry maps an escaped path to an original that escapes to it and differs from it. */
  ghost predicate Consistent(table: map<string, string>)
  {
    forall k | k in table :: EscapeChars(table[k]) == k && table[k] != k
  }

  lemma RecordKeepsConsistent(table: map<string, string>, artpath: string)
    requires Consistent(table)
    ensures Consistent(Record(table, artpath))
  {
  }

  /** Reverting the escaped form of a path that had a special character gives the path back. */
  lemma RoundTrip(table: map<string, string>, x: string)
    requires HasSpecial(x)
    ensures Revert(Record(table, x), EscapeChars(x)) == x
  {
    UnchangedIffNoSpecial(x);
  }

  /** A path without special characters leaves the table untouched. */
  lemma PlainPathLeavesTable(table: map<string, string>, x: string)
    requires !HasSpecial(x)
    ensures Record(table, x) == table && EscapeChars(x) == x
  {
    UnchangedIffNoSpecial(x);
  }

  /** Of two originals with the same escaped form, the later one is what reverting gives. */
  lemma LaterOriginalWins(table: map<string, string>, x: string, y: string)
    requires HasSpecial(x) && HasSpecial(y) && EscapeChars(x) == EscapeChars(y)
    ensures Revert(Record(Record(table, x), y), EscapeChars(x)) == y
  {
    UnchangedIffNoSpecial(x);
    UnchangedIffNoSpecial(y);
  }

  /** A path that is already plain but equal to an earlier escaped path does not revert to
      itself: the round trip holds only for paths that escaping changed. */
  lemma PlainPathCanCollide()
    ensures var t := Record(map[], "a:b");
            EscapeChars("a_b") == "a_b" && Revert(Record(t, "a_b"), EscapeChars("a_b")) == "a:b"
  {
    assert IsSpecial("a:b"[1]);
    assert EscapeChars("a:b") == "a_b";
    assert EscapeChars("a_b") == "a_b";
  }

  /** Whatever a key reverts to, escaping it leads back to the key, for any key that could be
      the output of escaping. */
  lemma RevertThenEscape(table: map<string, string>, k: string)
    requires Consistent(table)
    requires !HasSpecial(k)
    ensures EscapeChars(Revert(table, k)) == k
  {
    UnchangedIffNoSpecial(k);
  }

  /** The process-wide table escapedFiles. */
  class EscapeTable {
    var escapedFiles: map<string, string>

    ghost predicate Valid()
      reads this
    {
      Consistent(escapedFiles)
    }

    constructor ()
      ensures Valid() && escapedFiles == map[]
    {
      escapedFiles := map[];
    }

    /** replaceSpecialChars: returns the escaped path and records it when it differs. */
    method ReplaceSpecialChars(artpath: string) returns (r: string)
      requires Valid()
      modifies this
      ensures Valid()
      ensures r == EscapeChars(artpath)
      ensures escapedFiles == Record(old(escapedFiles), artpath)
    {
      var escaped := EscapeChars(artpath);
      if escaped != artpath {
        escapedFiles := escapedFiles[escaped := artpath];
        return escaped;
      }
      return artpath;
    }

    /** revertSpecialChars */
    function RevertSpecialChars(escaped: string): (r: string)
      reads this
      requires Valid()
      ensures escaped in escapedFiles ==> EscapeChars(r) == escaped && r != escaped
      ensures escaped !in escapedFiles ==> r == escaped
    {
      Revert(escapedFiles, escaped)
    }
  }
}
