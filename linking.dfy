/** What processPlugin and executePlugin build from the staged files: one LINKED_ITEMS query
    per listed file, the Python list literal handed to the plugin (after sorting), and the
    media_to_html hook's link. */
module Linking {
  import opened Items
  import opened Text
  import opened Ordering
  import opened LiteralPaths

  /** The part of a path after its last '/' (all of it when there is none). */
  function BaseName(path: string): (r: string)
    ensures '/' !in r
  {
    var k := LastIndexOf(path, '/');
    path[k + 1..]
  }

  /** The base name is the last segment of the path: a suffix of it that is the whole path
      or follows a '/'. */
  lemma BaseNameIsLastSegment(path: string)
    ensures var r := BaseName(path);
            && |r| <= |path| && path[|path| - |r|..] == r
            && (|r| < |path| ==> path[|path| - |r| - 1] == '/')
  {
  }

  /** The LINKED_ITEMS query for a relative path. */
  function LinkQuery(rel: string): string
  {
    "path:\"*" + rel + "\" && name:\"" + BaseName(rel) + "\""
  }

  /** The query for one listed file: the file minus as many characters as the listed form of
      reportDumpPath has, in IPED form; None where that substring throws. */
  function LinkedEntry(file: string, prefixLength: nat, isWindows: bool): Option<string>
  {
    if |file| < prefixLength then None
    else Some(LinkQuery(PrepareIPEDLiteralPath(file[prefixLength..], isWindows)))
  }

  /** The queries added for the files, in order, up to the first one whose substring throws;
      `complete` says whether every file got its query. */
  datatype Links = Links(entries: seq<string>, complete: bool)

  function LinkedEntries(files: seq<string>, prefixLength: nat, isWindows: bool): (r: Links)
    ensures |r.entries| <= |files|
    ensures r.complete ==> |r.entries| == |files|
  {
    if files == [] then Links([], true)
    else
      var prev := LinkedEntries(files[..|files| - 1], prefixLength, isWindows);
      if !prev.complete then prev
      else match LinkedEntry(files[|files| - 1], prefixLength, isWindows)
        case None => Links(prev.entries, false)
        case Some(e) => Links(prev.entries + [e], true)
  }

  /** One more file: its query is added when all before it got theirs and its substring does
      not throw. */
  lemma LinkedEntriesStep(files: seq<string>, i: nat, prefixLength: nat, isWindows: bool)
    requires i < |files|
    ensures var prev := LinkedEntries(files[..i], prefixLength, isWindows);
            var next := LinkedEntries(files[..i + 1], prefixLength, isWindows);
            next == if !prev.complete then prev
                    else match LinkedEntry(files[i], prefixLength, isWindows)
                      case None => Links(prev.entries, false)
                      case Some(e) => Links(prev.entries + [e], true)
  {
    assert files[..i + 1][..i] == files[..i];
  }

  /** When every file is at least as long as the prefix, every file gets exactly its own query,
      in order and duplicates included. */
  lemma {:induction false} LinkedEntriesComplete(files: seq<string>, prefixLength: nat, isWindows: bool)
    requires forall i | 0 <= i < |files| :: prefixLength <= |files[i]|
    ensures LinkedEntries(files, prefixLength, isWindows).complete
    ensures |LinkedEntries(files, prefixLength, isWindows).entries| == |files|
    ensures forall i | 0 <= i < |files| ::
              LinkedEntry(files[i], prefixLength, isWindows) == Some(LinkedEntries(files, prefixLength, isWindows).entries[i])
  {
    if files != [] {
      var n := |files| - 1;
      var init := files[..n];
      assert forall i | 0 <= i < |init| :: init[i] == files[i];
      LinkedEntriesComplete(init, prefixLength, isWindows);
      var prev := LinkedEntries(init, prefixLength, isWindows);
      LinkedEntriesStep(files, n, prefixLength, isWindows);
      assert files[..n + 1] == files;
      var last := LinkedEntry(files[n], prefixLength, isWindows);
      assert last.Some?;
      var e := last.value;
      var r := LinkedEntries(files, prefixLength, isWindows);
      assert r.entries == prev.entries + [e];
      forall i | 0 <= i < |files|
        ensures LinkedEntry(files[i], prefixLength, isWindows) == Some(r.entries[i])
      {
        if i < n {
          assert files[i] == init[i];
          assert r.entries[i] == prev.entries[i];
        }
      }
    }
  }

  /** Replacing a one-character target distributes over concatenation. */
  lemma {:induction false} ReplaceOneCharAppend(a: string, b: string, target: string, replacement: string)
    requires |target| == 1
    ensures Replace(a + b, target, replacement) == Replace(a, target, replacement) + Replace(b, target, replacement)
  {
    if a == [] {
      assert a + b == b;
    } else {
      assert (a + b)[..1] == a[..1];
      assert (a + b)[1..] == a[1..] + b;
      ReplaceOneCharAppend(a[1..], b, target, replacement);
    }
  }

  /** The query of a file staged at reportDumpPath + rel names rel (with '/' separators on
      Windows) and its base name: the cross-reference points back at the relative path. */
  lemma LinkOfStagedFile(reportDumpPath: string, rel: string, isWindows: bool)
    ensures var file := PreparePythonLiteralPath(reportDumpPath + rel, isWindows);
            var prefix := PreparePythonLiteralPath(reportDumpPath, isWindows);
            var shown := if isWindows then SwapChar(rel, '\\', '/') else rel;
            LinkedEntry(file, |prefix|, isWindows) == Some(LinkQuery(shown))
  {
    if isWindows {
      ReplaceOneCharAppend(reportDumpPath, rel, "\\", "\\\\");
      var file := PreparePythonLiteralPath(reportDumpPath + rel, isWindows);
      var prefix := PreparePythonLiteralPath(reportDumpPath, isWindows);
      assert file[|prefix|..] == PreparePythonLiteralPath(rel, isWindows);
      PythonThenIPED(rel, isWindows);
    } else {
      assert (reportDumpPath + rel)[|reportDumpPath|..] == rel;
    }
  }

  /** Adds the LINKED_ITEMS queries of the listed files to the item, stopping where a
      substring throws (processPlugin, the loop after staging). */
  method AddLinkedItems(evidence: Item, files: seq<string>, reportDumpPath: string, isWindows: bool)
    returns (complete: bool)
    modifies evidence
    ensures var r := LinkedEntries(files, |PreparePythonLiteralPath(reportDumpPath, isWindows)|, isWindows);
            && complete == r.complete
            && evidence.linkedItems == old(evidence.linkedItems) + r.entries
    ensures evidence.toIgnore == old(evidence.toIgnore) && evidence.hasChildren == old(evidence.hasChildren)
    ensures evidence.exported == old(evidence.exported) && evidence.pluginTag == old(evidence.pluginTag)
    ensures evidence.mediaType == old(evidence.mediaType)
  {
    var prefixLength := |PreparePythonLiteralPath(reportDumpPath, isWindows)|;
    ghost var added := [];
    var i := 0;
    assert files[..0] == [];
    while i < |files|
      invariant LinkProgress(files, i, prefixLength, isWindows, added)
      invariant evidence.linkedItems == old(evidence.linkedItems) + added
      invariant evidence.toIgnore == old(evidence.toIgnore) && evidence.hasChildren == old(evidence.hasChildren)
      invariant evidence.exported == old(evidence.exported) && evidence.pluginTag == old(evidence.pluginTag)
      invariant evidence.mediaType == old(evidence.mediaType)
    {
      var file := files[i];
      if |file| < prefixLength {
        // String.substring throws: the remaining files get no query
        LinkStopStep(files, i, prefixLength, isWindows, added);
        return false;
      }
      var entry := LinkedQuery(file, prefixLength, isWindows);
      LinkKeepStep(files, i, prefixLength, isWindows, added, entry);
      evidence.linkedItems := evidence.linkedItems + [entry];
      added := added + [entry];
      i := i + 1;
    }
    assert files[..i] == files;
    return true;
  }

  /** The query one listed file gets: the file minus the prefix, in IPED form, searched by
      its path suffix and its base name. */
  method LinkedQuery(file: string, prefixLength: nat, isWindows: bool) returns (entry: string)
    requires prefixLength <= |file|
    ensures var rel := PrepareIPEDLiteralPath(file[prefixLength..], isWindows);
            exists k | 0 <= k <= |rel| && (k == 0 || rel[k - 1] == '/') && '/' !in rel[k..] ::
              entry == "path:\"*" + rel + "\" && name:\"" + rel[k..] + "\""
    ensures LinkedEntry(file, prefixLength, isWindows) == Some(entry)
  {
    var filel := PrepareIPEDLiteralPath(file[prefixLength..], isWindows);
    var k := LastIndexOf(filel, '/') + 1;
    var filename := filel[k..];
    entry := "path:\"*" + filel + "\" && name:\"" + filename + "\"";
    assert '/' !in filel[k..] by {
      assert filel[k..] == BaseName(filel);
    }
  }

  /** The loop of AddLinkedItems has handled files[..i], every one with its query. */
  ghost predicate LinkProgress(files: seq<string>, i: int, prefixLength: nat, isWindows: bool, added: seq<string>)
  {
    && 0 <= i <= |files|
    && LinkedEntries(files[..i], prefixLength, isWindows).complete
    && added == LinkedEntries(files[..i], prefixLength, isWindows).entries
  }

  lemma LinkKeepStep(files: seq<string>, i: int, prefixLength: nat, isWindows: bool, added: seq<string>, entry: string)
    requires LinkProgress(files, i, prefixLength, isWindows, added) && i < |files|
    requires prefixLength <= |files[i]|
    requires LinkedEntry(files[i], prefixLength, isWindows) == Some(entry)
    ensures LinkProgress(files, i + 1, prefixLength, isWindows, added + [entry])
  {
    LinkedEntriesStep(files, i, prefixLength, isWindows);
  }

  lemma LinkStopStep(files: seq<string>, i: int, prefixLength: nat, isWindows: bool, added: seq<string>)
    requires LinkProgress(files, i, prefixLength, isWindows, added) && i < |files|
    requires |files[i]| < prefixLength
    ensures LinkedEntries(files, prefixLength, isWindows) == Links(added, false)
  {
    LinkedEntriesStep(files, i, prefixLength, isWindows);
    LinkedEntriesStop(files, prefixLength, isWindows, i + 1);
  }

  /** Once a prefix of the files is incomplete, so is every longer prefix, with the same
      entries. */
  lemma {:induction false} LinkedEntriesStop(files: seq<string>, prefixLength: nat, isWindows: bool, n: nat)
    requires n <= |files|
    requires !LinkedEntries(files[..n], prefixLength, isWindows).complete
    ensures LinkedEntries(files, prefixLength, isWindows) == LinkedEntries(files[..n], prefixLength, isWindows)
    decreases |files| - n
  {
    if n == |files| {
      assert files[..n] == files;
    } else {
      assert files[..n + 1][..n] == files[..n];
      LinkedEntriesStop(files, prefixLength, isWindows, n + 1);
    }
  }

  /** One element of the Python list literal. */
  function Element(file: string): string
  {
    " '" + file + "'"
  }

  /** The elements separated by commas. */
  function Elements(files: seq<string>): string
  {
    if files == [] then ""
    else if |files| == 1 then Element(files[0])
    else Elements(files[..|files| - 1]) + "," + Element(files[|files| - 1])
  }

  /** What the StringBuffer holds after the loop of executePlugin: "[" and one " 'f'," per file. */
  function Appended(files: seq<string>): string
  {
    if files == [] then "[" else Appended(files[..|files| - 1]) + Element(files[|files| - 1]) + ","
  }

  lemma {:induction false} AppendedIsElementsWithComma(files: seq<string>)
    requires files != []
    ensures Appended(files) == "[" + Elements(files) + ","
  {
    if |files| > 1 {
      AppendedIsElementsWithComma(files[..|files| - 1]);
    }
  }

  /** The list-literal building of executePlugin: the trailing comma is cut and "]" appended,
      so a non-empty list gives "[ 'f1', 'f2', …]"; an empty one would give "]". */
  method ListLiteral(files: seq<string>) returns (lists: string)
    ensures files != [] ==> lists == "[" + Elements(files) + "]"
    ensures files == [] ==> lists == "]"
  {
    var list := "[";
    var i := 0;
    while i < |files|
      invariant 0 <= i <= |files|
      invariant list == Appended(files[..i])
    {
      assert files[..i + 1][..i] == files[..i];
      list := list + " '" + files[i] + "',";
      i := i + 1;
    }
    assert files[..i] == files;
    if files != [] {
      AppendedIsElementsWithComma(files);
      assert list[..|list| - 1] == "[" + Elements(files);
    }
    lists := list[..|list| - 1] + "]";
  }

  /** The list literal a plugin receives for the files it was given. */
  function PythonList(files: seq<string>): string
  {
    "[" + Elements(Sort(files, LexLeq)) + "]"
  }

  /** executePlugin up to the call into the plugin: the files are sorted (String order) and
      turned into the list literal passed to the plugin's parse function. */
  method ExecutePluginArgument(files: seq<string>) returns (sorted: seq<string>, lists: string)
    requires files != []
    ensures multiset(sorted) == multiset(files)
    ensures SortedBy(sorted, LexLeq)
    ensures lists == "[" + Elements(sorted) + "]"
    ensures lists == PythonList(files)
  {
    sorted := Sort(files, LexLeq);
    LexIsTotalPreorder();
    SortSorted(files, LexLeq);
    lists := ListLiteral(sorted);
  }

  /** media_to_html: a link to the first listed file whose path contains the media path, or
      the empty string when none does. */
  method MediaToHtml(mediaPath: string, filesFound: seq<string>, reportFolder: string) returns (html: string)
    ensures html == "" <==> forall i | 0 <= i < |filesFound| :: !Contains(filesFound[i], mediaPath)
    ensures html != "" ==> exists k | 0 <= k < |filesFound| ::
              && Contains(filesFound[k], mediaPath)
              && (forall i | 0 <= i < k :: !Contains(filesFound[i], mediaPath))
              && html == "<a href=\"" + filesFound[k] + "\"></a>"
  {
    var i := 0;
    while i < |filesFound|
      invariant 0 <= i <= |filesFound|
      invariant forall j | 0 <= j < i :: !Contains(filesFound[j], mediaPath)
    {
      if Contains(filesFound[i], mediaPath) {
        return "<a href=\"" + filesFound[i] + "\"></a>";
      }
      i := i + 1;
    }
    return "";
  }
}
