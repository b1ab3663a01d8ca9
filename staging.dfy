/** The staging planner of LeappBridgeTask.processPlugin: for every file pattern of a plugin it
    asks the index for the hits of the pattern's query and, for each raw hit the plugin's
    patterns accept, either uses the file where it lies in the case source tree or moves its
    temporary copy into the staging directory under its path relative to the dump item. The
    index search and the pattern matcher of the plugins manager are parameters; the file
    system is the set of existing files and the set of created directories. */
module Staging {
  import opened Items
  import opened Text
  import opened Escaping
  import opened LiteralPaths
  import opened PluginQuery

  /** A LEAPP plugin: its module name and its file patterns. */
  datatype Plugin = Plugin(moduleName: string, patterns: seq<string>)

  /** One index hit: the item's path, its DECODED_DATA value (None when absent), the canonical
      path of its temporary file, the canonical path of the case source it belongs to, and
      whether moving the temporary file succeeds. */
  datatype Hit = Hit(path: string, decoded: Option<string>, tempPath: string, sourcePath: string, moveSucceeds: bool)

  /** The collaborators the planner queries: the index search (a query string to its hits),
      ALeappPluginsManager.hasPatternMatch, and whether the system is Windows. */
  datatype Case = Case(search: string -> seq<Hit>, hasPatternMatch: (string, Plugin) -> bool, isWindows: bool)

  /** The planner's state: filesFound, the current reportDumpPath, the escape table, the
      existing files and created directories, the targets moved so far, and whether an
      exception ended the staging. */
  datatype StageState = StageState(
    found: seq<string>,
    reportDumpPath: string,
    escaped: map<string, string>,
    files: set<string>,
    dirs: set<string>,
    moved: seq<string>,
    aborted: bool)

  /** Only raw files are staged: DECODED_DATA absent or anything but "true". */
  predicate IsRaw(h: Hit)
  {
    h.decoded != Some("true")
  }

  /** An item inside a container: its path goes through a ">>" separator. */
  predicate IsContainerPath(rel: string)
  {
    Contains(rel, ">>")
  }

  /** The skip test exactly as written: ">>" is looked for in the ESCAPED relative path. */
  predicate AsWrittenContainerSkip(rel: string)
  {
    Contains(EscapeChars(rel), ">>")
  }

  /** The as-written test can never skip anything: escaping replaces every '>' by '_'. */
  lemma AsWrittenSkipNeverFires(rel: string)
    ensures !AsWrittenContainerSkip(rel)
  {
    var e := EscapeChars(rel);
    if Contains(e, ">>") {
      var i :| 0 <= i <= |e| - 2 && OccursAt(e, ">>", i);
      assert e[i] == e[i..i + 2][0] == '>';
      EscapedHasNoDoubleAngle(rel);
    }
  }

  /** A concrete relative path of a file inside a zip that the as-written test lets through
      although the intended test skips it. */
  lemma AsWrittenLetsContainerItemThrough()
    ensures IsContainerPath("/a.zip>>b.db") && !AsWrittenContainerSkip("/a.zip>>b.db")
  {
    assert OccursAt("/a.zip>>b.db", ">>", 6);
    AsWrittenSkipNeverFires("/a.zip>>b.db");
  }

  /** The path processPlugin adds to filesFound for a staged file. */
  function Listed(c: Case, path: string): string
  {
    PreparePythonLiteralPath(path, c.isWindows)
  }

  /** The hit is one the code stages: raw, long enough to lie under the dump, passing the
      container test as written, and accepted by the plugin's patterns. */
  predicate Eligible(c: Case, p: Plugin, dumpPath: string, h: Hit)
  {
    && IsRaw(h)
    && |dumpPath| <= |h.path|
    && !AsWrittenContainerSkip(h.path[|dumpPath|..])
    && c.hasPatternMatch(EscapeChars(h.path[|dumpPath|..]), p)
  }

  /** One hit: the body of the innermost loop of processPlugin, with the container test on the
      escaped relative path, as the code has it. */
  function StageHit(c: Case, p: Plugin, dumpPath: string, st: StageState, h: Hit): StageState
    requires !st.aborted
  {
    if !IsRaw(h) then st
    else if |h.path| < |dumpPath| then st.(aborted := true)
    else
      var rel := h.path[|dumpPath|..];
      var art := EscapeChars(rel);
      var st1 := st.(escaped := Record(st.escaped, rel));
      if Contains(art, ">>") || !c.hasPatternMatch(art, p) then st1
      else if StartsWith(h.tempPath, h.sourcePath) then
        st1.(reportDumpPath := h.sourcePath, found := st1.found + [Listed(c, h.tempPath)])
      else
        var k := LastIndexOf(art, '/');
        if k < 0 then st1.(aborted := true)
        else
          var folder := Resolve(st1.reportDumpPath, art[..k]);
          var target := Resolve(folder, art[k..]);
          var st2 := st1.(dirs := st1.dirs + Ancestors(folder));
          if target in st2.files || target in st2.dirs then st2.(found := st2.found + [Listed(c, target)])
          else if h.moveSucceeds then
            st2.(files := st2.files + {target}, moved := st2.moved + [target], found := st2.found + [Listed(c, target)])
          else st2
  }

  /** The hits of one pattern, in order, until an exception. */
  function StageHits(c: Case, p: Plugin, dumpPath: string, st: StageState, hits: seq<Hit>): StageState
  {
    if hits == [] then st
    else
      var prev := StageHits(c, p, dumpPath, st, hits[..|hits| - 1]);
      if prev.aborted then prev else StageHit(c, p, dumpPath, prev, hits[|hits| - 1])
  }

  /** The hits of the patterns, pattern by pattern, each searched with its own query. */
  function StagePatterns(c: Case, p: Plugin, dumpPath: string, st: StageState, patterns: seq<string>): StageState
  {
    if patterns == [] then st
    else
      var prev := StagePatterns(c, p, dumpPath, st, patterns[..|patterns| - 1]);
      if prev.aborted then prev
      else StageHits(c, p, dumpPath, prev, c.search(Query(dumpPath, patterns[|patterns| - 1])))
  }

  /** Once an exception ended the staging of a prefix of the hits, the later hits change
      nothing. */
  lemma {:induction false} StageHitsStop(c: Case, p: Plugin, dumpPath: string, st: StageState, hits: seq<Hit>, n: nat)
    requires n <= |hits|
    requires StageHits(c, p, dumpPath, st, hits[..n]).aborted
    ensures StageHits(c, p, dumpPath, st, hits) == StageHits(c, p, dumpPath, st, hits[..n])
    decreases |hits| - n
  {
    if n == |hits| {
      assert hits[..n] == hits;
    } else {
      assert hits[..n + 1][..n] == hits[..n];
      StageHitsStop(c, p, dumpPath, st, hits, n + 1);
    }
  }

  /** Likewise for the later patterns: none of them is searched. */
  lemma {:induction false} StagePatternsStop(c: Case, p: Plugin, dumpPath: string, st: StageState, patterns: seq<string>, n: nat)
    requires n <= |patterns|
    requires StagePatterns(c, p, dumpPath, st, patterns[..n]).aborted
    ensures StagePatterns(c, p, dumpPath, st, patterns) == StagePatterns(c, p, dumpPath, st, patterns[..n])
    decreases |patterns| - n
  {
    if n == |patterns| {
      assert patterns[..n] == patterns;
    } else {
      assert patterns[..n + 1][..n] == patterns[..n];
      StagePatternsStop(c, p, dumpPath, st, patterns, n + 1);
    }
  }

  /** The state processPlugin starts from. */
  function Start(reportDumpPath: string, escaped: map<string, string>, files: set<string>, dirs: set<string>): StageState
  {
    StageState([], reportDumpPath, escaped, files, dirs, [], false)
  }

  /** What one step may change: filesFound grows by at most one path, and only for an eligible
      hit; files and directories only grow; the table only learns the hit's escaping. */
  lemma StageHitEffect(c: Case, p: Plugin, dumpPath: string, st: StageState, h: Hit)
    requires !st.aborted
    ensures var r := StageHit(c, p, dumpPath, st, h);
            && (r.found == st.found || (Eligible(c, p, dumpPath, h) && |r.found| == |st.found| + 1 && r.found[..|st.found|] == st.found))
            && st.files <= r.files && st.dirs <= r.dirs
            && (IsRaw(h) && |dumpPath| <= |h.path| ==> r.escaped == Record(st.escaped, h.path[|dumpPath|..]))
            && (!IsRaw(h) || |h.path| < |dumpPath| ==> r.escaped == st.escaped)
  {
    if IsRaw(h) && |dumpPath| <= |h.path| {
      var rel := h.path[|dumpPath|..];
      AsWrittenSkipNeverFires(rel);
      if !c.hasPatternMatch(EscapeChars(rel), p) {
        assert StageHit(c, p, dumpPath, st, h) == st.(escaped := Record(st.escaped, rel));
      } else {
        assert Eligible(c, p, dumpPath, h);
        var art := EscapeChars(rel);
        var st1 := st.(escaped := Record(st.escaped, rel));
        if !StartsWith(h.tempPath, h.sourcePath) && 0 <= LastIndexOf(art, '/') {
          var k := LastIndexOf(art, '/');
          var folder := Resolve(st1.reportDumpPath, art[..k]);
          var target := Resolve(folder, art[k..]);
          var st2 := st1.(dirs := st1.dirs + Ancestors(folder));
          var r := StageHit(c, p, dumpPath, st, h);
          assert r == st2 || r.found == st2.found + [Listed(c, target)];
        }
      }
    }
  }

  /** Skipped hits change nothing but the escape table: decoded items and items the plugin's
      patterns reject are never staged and never moved. */
  lemma SkippedHitStagesNothing(c: Case, p: Plugin, dumpPath: string, st: StageState, h: Hit)
    requires !st.aborted
    requires |dumpPath| <= |h.path| && !Eligible(c, p, dumpPath, h)
    ensures var r := StageHit(c, p, dumpPath, st, h);
            && r.found == st.found && r.files == st.files && r.dirs == st.dirs
            && r.moved == st.moved && r.reportDumpPath == st.reportDumpPath && !r.aborted
  {
  }

  /** A hit whose file already lies in the case source tree is listed where it is, nothing is
      moved, and the source tree becomes the reportDumpPath of every later hit. */
  lemma InSourceHitRedirects(c: Case, p: Plugin, dumpPath: string, st: StageState, h: Hit)
    requires !st.aborted && Eligible(c, p, dumpPath, h)
    requires StartsWith(h.tempPath, h.sourcePath)
    ensures var r := StageHit(c, p, dumpPath, st, h);
            && r.found == st.found + [Listed(c, h.tempPath)]
            && r.reportDumpPath == h.sourcePath
            && r.moved == st.moved && r.files == st.files && !r.aborted
  {
  }

  /** A temporary copy is staged at reportDumpPath joined with the escaped relative path; it is
      moved there only when nothing exists there yet, and its path is listed either way
      unless the move failed. */
  lemma CopiedHitStaging(c: Case, p: Plugin, dumpPath: string, st: StageState, h: Hit)
    requires !st.aborted && Eligible(c, p, dumpPath, h)
    requires !StartsWith(h.tempPath, h.sourcePath)
    requires '/' in EscapeChars(h.path[|dumpPath|..])
    ensures var art := EscapeChars(h.path[|dumpPath|..]);
            var target := Resolve(st.reportDumpPath, art);
            var r := StageHit(c, p, dumpPath, st, h);
            && !r.aborted
            && r.reportDumpPath == st.reportDumpPath
            && (target in st.files || target in r.dirs ==> r.moved == st.moved && r.found == st.found + [Listed(c, target)])
            && (target !in st.files && target !in r.dirs && h.moveSucceeds ==>
                  r.moved == st.moved + [target] && r.files == st.files + {target} && r.found == st.found + [Listed(c, target)])
            && (target !in st.files && target !in r.dirs && !h.moveSucceeds ==>
                  r.moved == st.moved && r.found == st.found)
  {
    var art := EscapeChars(h.path[|dumpPath|..]);
    var k := LastIndexOf(art, '/');
    ResolveSplit(st.reportDumpPath, art, k);
  }

  /** Staging the same copied hit a second time moves nothing and lists the same path again. */
  lemma RepeatedTargetNotMovedTwice(c: Case, p: Plugin, dumpPath: string, st: StageState, h: Hit)
    requires !st.aborted && Eligible(c, p, dumpPath, h)
    requires !StartsWith(h.tempPath, h.sourcePath)
    requires '/' in EscapeChars(h.path[|dumpPath|..])
    requires h.moveSucceeds
    ensures var once := StageHit(c, p, dumpPath, st, h);
            var twice := StageHit(c, p, dumpPath, once, h);
            && !twice.aborted
            && twice.moved == once.moved
            && |twice.found| == |once.found| + 1
            && twice.found[|once.found|] == once.found[|once.found| - 1]
  {
    CopiedHitStaging(c, p, dumpPath, st, h);
    var once := StageHit(c, p, dumpPath, st, h);
    CopiedHitStaging(c, p, dumpPath, once, h);
  }

  /** The invariant behind "never moves twice": the moved targets are distinct, none existed
      when staging started, and all exist now; nothing that existed disappears. */
  ghost predicate MovesFresh(st0: StageState, st: StageState)
  {
    && (forall i, j | 0 <= i < j < |st.moved| :: st.moved[i] != st.moved[j])
    && (forall t | t in st.moved :: t !in st0.files && t !in st0.dirs && t in st.files)
    && st0.files <= st.files && st0.dirs <= st.dirs
  }

  lemma StageHitKeepsMovesFresh(c: Case, p: Plugin, dumpPath: string, st0: StageState, st: StageState, h: Hit)
    requires !st.aborted && MovesFresh(st0, st)
    ensures MovesFresh(st0, StageHit(c, p, dumpPath, st, h))
  {
    var r := StageHit(c, p, dumpPath, st, h);
    if r.moved != st.moved {
      var t := r.moved[|r.moved| - 1];
      assert r.moved == st.moved + [t];
      assert t !in st.files && t !in st.dirs;
      forall i, j | 0 <= i < j < |r.moved| ensures r.moved[i] != r.moved[j] {
        if j == |r.moved| - 1 {
          assert r.moved[i] in st.moved;
        }
      }
    }
  }

  lemma {:induction false} StageHitsKeepMovesFresh(c: Case, p: Plugin, dumpPath: string, st0: StageState, st: StageState, hits: seq<Hit>)
    requires MovesFresh(st0, st)
    ensures MovesFresh(st0, StageHits(c, p, dumpPath, st, hits))
  {
    if hits != [] {
      StageHitsKeepMovesFresh(c, p, dumpPath, st0, st, hits[..|hits| - 1]);
      var prev := StageHits(c, p, dumpPath, st, hits[..|hits| - 1]);
      if !prev.aborted {
        StageHitKeepsMovesFresh(c, p, dumpPath, st0, prev, hits[|hits| - 1]);
      }
    }
  }

  lemma {:induction false} StagePatternsKeepMovesFresh(c: Case, p: Plugin, dumpPath: string, st0: StageState, st: StageState, patterns: seq<string>)
    requires MovesFresh(st0, st)
    ensures MovesFresh(st0, StagePatterns(c, p, dumpPath, st, patterns))
  {
    if patterns != [] {
      StagePatternsKeepMovesFresh(c, p, dumpPath, st0, st, patterns[..|patterns| - 1]);
      var prev := StagePatterns(c, p, dumpPath, st, patterns[..|patterns| - 1]);
      if !prev.aborted {
        StageHitsKeepMovesFresh(c, p, dumpPath, st0, prev, c.search(Query(dumpPath, patterns[|patterns| - 1])));
      }
    }
  }

  /** Over a whole plugin, no target is moved twice and no existing file is overwritten. */
  lemma NeverMovesTwice(c: Case, p: Plugin, dumpPath: string, st0: StageState)
    requires st0.moved == []
    ensures var r := StagePatterns(c, p, dumpPath, st0, p.patterns);
            && (forall i, j | 0 <= i < j < |r.moved| :: r.moved[i] != r.moved[j])
            && (forall t | t in r.moved :: t !in st0.files && t !in st0.dirs && t in r.files)
  {
    StagePatternsKeepMovesFresh(c, p, dumpPath, st0, st0, p.patterns);
  }

  /** The escape table stays consistent through a whole plugin. */
  lemma {:induction false} StageHitsKeepTable(c: Case, p: Plugin, dumpPath: string, st: StageState, hits: seq<Hit>)
    requires Consistent(st.escaped)
    ensures Consistent(StageHits(c, p, dumpPath, st, hits).escaped)
  {
    if hits != [] {
      StageHitsKeepTable(c, p, dumpPath, st, hits[..|hits| - 1]);
      var prev := StageHits(c, p, dumpPath, st, hits[..|hits| - 1]);
      if !prev.aborted {
        var h := hits[|hits| - 1];
        if IsRaw(h) && |dumpPath| <= |h.path| {
          RecordKeepsConsistent(prev.escaped, h.path[|dumpPath|..]);
        }
      }
    }
  }

  /** filesFound only grows, and once the staging is aborted it stays aborted. */
  lemma {:induction false} StageHitsExtend(c: Case, p: Plugin, dumpPath: string, st: StageState, hits: seq<Hit>)
    requires !st.aborted
    ensures var r := StageHits(c, p, dumpPath, st, hits);
            |st.found| <= |r.found| && r.found[..|st.found|] == st.found
  {
    if hits != [] {
      StageHitsExtend(c, p, dumpPath, st, hits[..|hits| - 1]);
      var prev := StageHits(c, p, dumpPath, st, hits[..|hits| - 1]);
      if !prev.aborted {
        StageHitEffect(c, p, dumpPath, prev, hits[|hits| - 1]);
        var r := StageHit(c, p, dumpPath, prev, hits[|hits| - 1]);
        assert r.found[..|prev.found|] == prev.found;
        assert r.found[..|st.found|] == r.found[..|prev.found|][..|st.found|];
      }
    }
  }

  /** With no eligible hit at all, nothing is listed (so the item ends up ignored). */
  lemma {:induction false} NoEligibleHitNothingFound(c: Case, p: Plugin, dumpPath: string, st: StageState, hits: seq<Hit>)
    requires forall h | h in hits :: !Eligible(c, p, dumpPath, h)
    ensures StageHits(c, p, dumpPath, st, hits).found == st.found
  {
    if hits != [] {
      NoEligibleHitNothingFound(c, p, dumpPath, st, hits[..|hits| - 1]);
      var prev := StageHits(c, p, dumpPath, st, hits[..|hits| - 1]);
      if !prev.aborted {
        StageHitEffect(c, p, dumpPath, prev, hits[|hits| - 1]);
      }
    }
  }

  /** The hits that get listed are exactly eligible hits: raw, under the dump and accepted by
      the patterns on their escaped path. */
  lemma ListedHitIsEligible(c: Case, p: Plugin, dumpPath: string, st: StageState, h: Hit)
    requires !st.aborted
    requires |StageHit(c, p, dumpPath, st, h).found| > |st.found|
    ensures IsRaw(h) && |dumpPath| <= |h.path|
    ensures c.hasPatternMatch(EscapeChars(h.path[|dumpPath|..]), p)
  {
    StageHitEffect(c, p, dumpPath, st, h);
  }

  /** The evidently intended step: a hit inside a container is skipped once its escaping is
      recorded, and every other hit is staged as the code does. */
  function IntendedStageHit(c: Case, p: Plugin, dumpPath: string, st: StageState, h: Hit): StageState
    requires !st.aborted
  {
    if IsRaw(h) && |dumpPath| <= |h.path| && IsContainerPath(h.path[|dumpPath|..]) then
      st.(escaped := Record(st.escaped, h.path[|dumpPath|..]))
    else StageHit(c, p, dumpPath, st, h)
  }

  /** Under the intended test, a listed hit is raw, lies under the dump, is outside every
      container and is accepted by the patterns; and on every hit outside a container the
      intended step and the step as written agree. */
  lemma IntendedListsNoContainerItem(c: Case, p: Plugin, dumpPath: string, st: StageState, h: Hit)
    requires !st.aborted
    ensures |IntendedStageHit(c, p, dumpPath, st, h).found| > |st.found| ==>
              && IsRaw(h) && |dumpPath| <= |h.path| && !IsContainerPath(h.path[|dumpPath|..])
              && c.hasPatternMatch(EscapeChars(h.path[|dumpPath|..]), p)
    ensures !(|dumpPath| <= |h.path| && IsContainerPath(h.path[|dumpPath|..])) ==>
              IntendedStageHit(c, p, dumpPath, st, h) == StageHit(c, p, dumpPath, st, h)
  {
    if |IntendedStageHit(c, p, dumpPath, st, h).found| > |st.found| {
      ListedHitIsEligible(c, p, dumpPath, st, h);
    }
  }

  /** The step as written stages a raw file inside a container that the patterns accept and
      that already lies in the source tree, where the intended step lists nothing. */
  lemma AsWrittenStagesContainerHit(c: Case, p: Plugin, dumpPath: string, st: StageState, h: Hit)
    requires !st.aborted && IsRaw(h) && |dumpPath| <= |h.path|
    requires IsContainerPath(h.path[|dumpPath|..])
    requires c.hasPatternMatch(EscapeChars(h.path[|dumpPath|..]), p)
    requires StartsWith(h.tempPath, h.sourcePath)
    ensures StageHit(c, p, dumpPath, st, h).found == st.found + [Listed(c, h.tempPath)]
    ensures IntendedStageHit(c, p, dumpPath, st, h).found == st.found
  {
    AsWrittenSkipNeverFires(h.path[|dumpPath|..]);
  }

  /** The file system as the planner sees it. */
  class Disk {
    var files: set<string>
    var dirs: set<string>

    constructor (files: set<string>, dirs: set<string>)
      ensures this.files == files && this.dirs == dirs
    {
      this.files := files;
      this.dirs := dirs;
    }

    /** File.mkdirs: the folder and every missing ancestor of it. */
    method Mkdirs(dir: string)
      modifies this
      ensures dirs == old(dirs) + Ancestors(dir) && files == old(files)
    {
      dirs := dirs + Ancestors(dir);
    }

    /** Files.move (or moveDir) of a temporary copy to `target`: when it succeeds the target
        exists afterwards. */
    method Move(target: string, succeeds: bool) returns (ok: bool)
      modifies this
      ensures ok == succeeds
      ensures files == if ok then old(files) + {target} else old(files)
      ensures dirs == old(dirs)
    {
      ok := succeeds;
      if ok {
        files := files + {target};
      }
    }
  }

  /** The body of the innermost loop of processPlugin against the real table and disk. */
  method StageOne(table: EscapeTable, disk: Disk, c: Case, p: Plugin, dumpPath: string, h: Hit,
                  found: seq<string>, reportDumpPath: string, ghost moved: seq<string>)
    returns (found': seq<string>, reportDumpPath': string, aborted: bool, ghost moved': seq<string>)
    requires table.Valid()
    modifies table, disk
    ensures table.Valid()
    ensures StageState(found', reportDumpPath', table.escapedFiles, disk.files, disk.dirs, moved', aborted)
         == StageHit(c, p, dumpPath,
                     StageState(found, reportDumpPath, old(table.escapedFiles), old(disk.files), old(disk.dirs), moved, false), h)
  {
    found', reportDumpPath', aborted, moved' := found, reportDumpPath, false, moved;
    if h.decoded == Some("true") {
      return;
    }
    if |h.path| < |dumpPath| {
      // String.substring throws: the exception leaves processPlugin
      aborted := true;
      return;
    }
    var rel := h.path[|dumpPath|..];
    var artpath := table.ReplaceSpecialChars(rel);
    if Contains(artpath, ">>") {
      return;
    }
    if !c.hasPatternMatch(artpath, p) {
      return;
    }
    if StartsWith(h.tempPath, h.sourcePath) {
      reportDumpPath' := h.sourcePath;
      found' := found + [PreparePythonLiteralPath(h.tempPath, c.isWindows)];
      return;
    }
    var k := LastIndexOf(artpath, '/');
    if k < 0 {
      // artpath.substring(0, -1) throws
      aborted := true;
      return;
    }
    var artParentPath := artpath[..k];
    var artname := artpath[k..];
    var artfolder := Resolve(reportDumpPath, artParentPath);
    disk.Mkdirs(artfolder);
    var fileFound := Resolve(artfolder, artname);
    if fileFound !in disk.files && fileFound !in disk.dirs {
      var ok := disk.Move(fileFound, h.moveSucceeds);
      if !ok {
        // the exception is caught and printed; the file is not listed
        return;
      }
      moved' := moved + [fileFound];
    }
    found' := found + [PreparePythonLiteralPath(fileFound, c.isWindows)];
  }
}
