/** The LeappBridgeTask itself: the expansion of a dump root into the report items, the
    priority gate that makes plugin items wait for queue 3 and DeviceDetails items for queue 4,
    the processing of one plugin item (staging, LINKED_ITEMS, the call into the plugin) and of
    the DeviceDetails item. The index, the file system and the Python runtime are the
    collaborators held by the task. */
module LeappBridge {
  import opened Items
  import opened Text
  import opened Ordering
  import opened Escaping
  import opened LiteralPaths
  import opened PluginQuery
  import opened Staging
  import opened Linking
  import opened DeviceInfo

  /** START_QUEUE_PRIORITY */
  const StartQueuePriority: int := 3

  /** REPORT_EVIDENCE_NAME */
  const ReportEvidenceName: string := "LEAPP_Reports"

  /** DEVICE_DETAILS_HTML */
  const DeviceDetailsHtml: string := "DeviceDetails.html"

  /** dumpStartFolderNames: the names of the items the reports hang under. */
  predicate IsDumpRoot(name: string)
  {
    name == "Dump" || name == "backup"
  }

  /** What the gate decides for an item: run it now, or re-enqueue it at a priority. */
  datatype Gate = Run | Defer(priority: int)

  /** The gate of process: an item waiting for queue `threshold` runs once the current queue
      priority reaches it and is otherwise re-enqueued at exactly `threshold`. */
  function QueueGate(threshold: int, current: int): Gate
  {
    if current < threshold then Defer(threshold) else Run
  }

  /** Plugin items wait for START_QUEUE_PRIORITY. */
  function PluginGate(current: int): Gate
  {
    QueueGate(StartQueuePriority, current)
  }

  /** DeviceDetails items wait for the queue after it. */
  function DeviceDetailsGate(current: int): Gate
  {
    QueueGate(StartQueuePriority + 1, current)
  }

  /** A deferral always moves the item to a strictly later queue, at which it then runs: no
      item is deferred twice. */
  lemma DeferredItemRunsNext(threshold: int, current: int)
    ensures QueueGate(threshold, current) == Run <==> threshold <= current
    ensures QueueGate(threshold, current).Defer? ==>
              && current < QueueGate(threshold, current).priority
              && QueueGate(threshold, QueueGate(threshold, current).priority) == Run
  {
  }

  /** The DeviceDetails item runs after every plugin item: at any queue where it runs, plugin
      items run as well, and at START_QUEUE_PRIORITY plugins run while it still waits. */
  lemma DeviceDetailsRunsLast(current: int)
    ensures DeviceDetailsGate(current) == Run ==> PluginGate(current) == Run
    ensures PluginGate(StartQueuePriority) == Run && DeviceDetailsGate(StartQueuePriority) == Defer(4)
    ensures PluginGate(current).Defer? ==> PluginGate(current).priority == 3
    ensures DeviceDetailsGate(current).Defer? ==> DeviceDetailsGate(current).priority == 4
  {
  }

  /** pluginsManager.getPlugin: the plugin with the module name, if any. */
  function FindPlugin(plugins: seq<Plugin>, name: string): (r: Option<Plugin>)
    ensures r.Some? ==> r.value in plugins && r.value.moduleName == name
    ensures r.None? <==> forall k | 0 <= k < |plugins| :: plugins[k].moduleName != name
  {
    if plugins == [] then None
    else if plugins[0].moduleName == name then Some(plugins[0])
    else FindPlugin(plugins[1..], name)
  }

  /** What process did: the item was handled, or it was re-enqueued (the
      ItemReEnqueuedException) at a priority. */
  datatype Outcome = Processed | ReEnqueued(priority: int)

  /** A call of a plugin's parse function: the plugin's module name and the list literal it
      was given. */
  datatype PluginRun = PluginRun(moduleName: string, files: string)

  /** The staging of a whole plugin from the given table, files and directories. */
  function Staged(c: Case, p: Plugin, dumpPath: string, reportDumpPath: string,
                  escaped: map<string, string>, files: set<string>, dirs: set<string>): StageState
  {
    StagePatterns(c, p, dumpPath, Start(reportDumpPath, escaped, files, dirs), p.patterns)
  }

  /** The LINKED_ITEMS queries processPlugin adds after a staging that listed files. */
  function StagedLinks(c: Case, st: StageState): Links
  {
    LinkedEntries(st.found, |PreparePythonLiteralPath(st.reportDumpPath, c.isWindows)|, c.isWindows)
  }

  /** Whether the plugin got to run after a staging: files were listed and every LINKED_ITEMS
      query was added. */
  predicate PluginRan(c: Case, st: StageState)
  {
    !st.aborted && st.found != [] && StagedLinks(c, st).complete
  }

  /** The attributes process gives each item it creates under a dump root. */
  ghost predicate IsSubItem(item: Item, id: int, parentId: int, name: string, path: string,
                            tag: Option<string>, mediaType: Option<string>)
    reads item
  {
    && item.id == id && item.parentId == parentId
    && item.name == name && item.path == path
    && item.pluginTag == tag && item.mediaType == mediaType
    && item.subItem && item.subitemId == 1 && item.decodedData
  }

  /** A LeappBridgeTask. The escape table and the device-info buffers are shared by every
      task (static in the original); `env` is the index and the plugins manager, `plugins`
      the plugins the manager loaded, and `createsItems` tells, per module name, whether the
      plugin's run creates items under the plugin item. `runs` records the calls into the
      plugins. */
  class LeappBridgeTask {
    const escapes: EscapeTable
    const devInfo: DeviceInfoBuffers
    const disk: Disk
    const worker: Worker
    const env: Case
    const plugins: seq<Plugin>
    const createsItems: string -> bool
    var runs: seq<PluginRun>

    ghost predicate Valid()
      reads this, escapes
    {
      escapes.Valid()
    }

    constructor (escapes: EscapeTable, devInfo: DeviceInfoBuffers, disk: Disk, worker: Worker,
                 env: Case, plugins: seq<Plugin>, createsItems: string -> bool)
      requires escapes.Valid()
      ensures Valid()
      ensures this.escapes == escapes && this.devInfo == devInfo && this.disk == disk && this.worker == worker
      ensures this.env == env && this.plugins == plugins && this.createsItems == createsItems
      ensures runs == []
    {
      this.escapes := escapes;
      this.devInfo := devInfo;
      this.disk := disk;
      this.worker := worker;
      this.env := env;
      this.plugins := plugins;
      this.createsItems := createsItems;
      runs := [];
    }

    /** createChildItem followed by the attributes every report item gets (a sub-item with
        sub-item id 1 and DECODED_DATA set) and processNewItem. */
    method NewSubItem(parent: Item, name: string, path: string, tag: Option<string>,
                      mediaType: Option<string>, hasChildren: bool) returns (item: Item)
      modifies worker
      ensures fresh(item)
      ensures IsSubItem(item, old(worker.nextId), parent.id, name, path, tag, mediaType)
      ensures item.hasChildren == hasChildren
      ensures worker.newItems == old(worker.newItems) + [item] && worker.nextId == old(worker.nextId) + 1
      ensures worker.requeued == old(worker.requeued) && worker.currentPriority == old(worker.currentPriority)
    {
      item := worker.CreateChild(parent);
      item.name := name;
      item.path := path;
      item.subItem := true;
      item.subitemId := 1;
      item.hasChildren := hasChildren;
      item.pluginTag := tag;
      item.mediaType := mediaType;
      item.decodedData := true;
      worker.ProcessNewItem(item);
    }

    /** The first part of process for a Dump or backup item: a LEAPP_Reports child, under it
        one item per plugin tagged with the plugin's name, and a DeviceDetails.html item, all
        handed to the worker in that order with consecutive ids. The plugin and
        DeviceDetails items take their path from the dump item. */
    method ExpandDump(evidence: Item) returns (reports: Item, pluginItems: seq<Item>, details: Item)
      modifies worker
      ensures fresh(reports) && fresh(details)
      ensures IsSubItem(reports, old(worker.nextId), evidence.id, ReportEvidenceName,
                        evidence.path + "/" + ReportEvidenceName, None, None)
      ensures reports.hasChildren
      ensures |pluginItems| == |plugins|
      ensures forall k | 0 <= k < |plugins| ::
                && fresh(pluginItems[k])
                && IsSubItem(pluginItems[k], old(worker.nextId) + 1 + k, reports.id, plugins[k].moduleName,
                             evidence.path + "/" + plugins[k].moduleName, Some(plugins[k].moduleName), None)
      ensures IsSubItem(details, old(worker.nextId) + 1 + |plugins|, reports.id, DeviceDetailsHtml,
                        evidence.path + "/" + DeviceDetailsHtml, None, Some(DeviceDetailsMediaType))
      ensures worker.newItems == old(worker.newItems) + [reports] + pluginItems + [details]
      ensures worker.nextId == old(worker.nextId) + |plugins| + 2
      ensures worker.requeued == old(worker.requeued) && worker.currentPriority == old(worker.currentPriority)
    {
      reports := NewSubItem(evidence, ReportEvidenceName, evidence.path + "/" + ReportEvidenceName, None, None, true);
      pluginItems := [];
      var k := 0;
      while k < |plugins|
        invariant 0 <= k <= |plugins| && |pluginItems| == k
        invariant fresh(reports) && reports.hasChildren
        invariant IsSubItem(reports, old(worker.nextId), evidence.id, ReportEvidenceName,
                            evidence.path + "/" + ReportEvidenceName, None, None)
        invariant forall m | 0 <= m < k ::
                    && fresh(pluginItems[m])
                    && IsSubItem(pluginItems[m], old(worker.nextId) + 1 + m, reports.id, plugins[m].moduleName,
                                 evidence.path + "/" + plugins[m].moduleName, Some(plugins[m].moduleName), None)
        invariant worker.newItems == old(worker.newItems) + [reports] + pluginItems
        invariant worker.nextId == old(worker.nextId) + 1 + k
        invariant worker.requeued == old(worker.requeued) && worker.currentPriority == old(worker.currentPriority)
      {
        var moduleName := plugins[k].moduleName;
        var item := NewSubItem(reports, moduleName, evidence.path + "/" + moduleName, Some(moduleName), None, false);
        pluginItems := pluginItems + [item];
        k := k + 1;
      }
      details := NewSubItem(reports, DeviceDetailsHtml, evidence.path + "/" + DeviceDetailsHtml,
                            None, Some(DeviceDetailsMediaType), false);
    }

    /** The items a dump root gets, in the order they are handed to the worker: LEAPP_Reports
        under the dump item, one item per plugin and DeviceDetails.html under it, with
        consecutive ids from `firstId` and paths under the dump item's `path`. */
    ghost predicate Expanded(items: seq<Item>, parentId: int, path: string, firstId: int)
      reads items
    {
      && |items| == |plugins| + 2
      && IsSubItem(items[0], firstId, parentId, ReportEvidenceName, path + "/" + ReportEvidenceName, None, None)
      && items[0].hasChildren
      && (forall k | 0 <= k < |plugins| ::
            IsSubItem(items[1 + k], firstId + 1 + k, items[0].id, plugins[k].moduleName,
                      path + "/" + plugins[k].moduleName, Some(plugins[k].moduleName), None))
      && IsSubItem(items[|plugins| + 1], firstId + 1 + |plugins|, items[0].id, DeviceDetailsHtml,
                   path + "/" + DeviceDetailsHtml, None, Some(DeviceDetailsMediaType))
    }

    /** executePlugin: the files sorted and turned into the list literal the plugin's parse
        function is called with; a plugin that creates items gives the item children. */
    method ExecutePlugin(evidence: Item, p: Plugin, filesFound: seq<string>)
      requires filesFound != []
      modifies this, evidence
      ensures runs == old(runs) + [PluginRun(p.moduleName, PythonList(filesFound))]
      ensures evidence.hasChildren == (old(evidence.hasChildren) || createsItems(p.moduleName))
      ensures evidence.toIgnore == old(evidence.toIgnore) && evidence.linkedItems == old(evidence.linkedItems)
      ensures evidence.pluginTag == old(evidence.pluginTag) && evidence.mediaType == old(evidence.mediaType)
      ensures evidence.exported == old(evidence.exported)
    {
      var sorted, lists := ExecutePluginArgument(filesFound);
      runs := runs + [PluginRun(p.moduleName, lists)];
      if createsItems(p.moduleName) {
        evidence.hasChildren := true;
      }
    }

    /** The loop of processPlugin over the hits of one pattern's query. */
    method StageHitsOf(p: Plugin, dumpPath: string, hits: seq<Hit>, found0: seq<string>, rdp0: string,
                       ghost moved0: seq<string>)
      returns (found: seq<string>, rdp: string, aborted: bool, ghost moved: seq<string>)
      requires Valid()
      modifies escapes, disk
      ensures Valid()
      ensures StageState(found, rdp, escapes.escapedFiles, disk.files, disk.dirs, moved, aborted)
           == StageHits(env, p, dumpPath,
                        StageState(found0, rdp0, old(escapes.escapedFiles), old(disk.files), old(disk.dirs), moved0, false), hits)
    {
      found, rdp, aborted, moved := found0, rdp0, false, moved0;
      ghost var st0 := StageState(found0, rdp0, escapes.escapedFiles, disk.files, disk.dirs, moved0, false);
      var j := 0;
      while j < |hits|
        invariant 0 <= j <= |hits|
        invariant escapes.Valid()
        invariant StageState(found, rdp, escapes.escapedFiles, disk.files, disk.dirs, moved, false)
               == StageHits(env, p, dumpPath, st0, hits[..j])
        modifies escapes, disk
      {
        assert hits[..j + 1][..j] == hits[..j];
        found, rdp, aborted, moved := StageOne(escapes, disk, env, p, dumpPath, hits[j], found, rdp, moved);
        if aborted {
          // the exception leaves processPlugin: no later hit is looked at
          StageHitsStop(env, p, dumpPath, st0, hits, j + 1);
          return;
        }
        j := j + 1;
      }
      assert hits[..j] == hits;
    }

    /** The search and staging loops of processPlugin; `aborted` tells that an exception
        ended them. */
    method StagePlugin(p: Plugin, dumpPath: string, reportDumpPath: string)
      returns (found: seq<string>, rdp: string, aborted: bool)
      requires Valid()
      modifies escapes, disk
      ensures Valid()
      ensures var st := Staged(env, p, dumpPath, reportDumpPath, old(escapes.escapedFiles), old(disk.files), old(disk.dirs));
              && found == st.found && rdp == st.reportDumpPath && aborted == st.aborted
              && escapes.escapedFiles == st.escaped && disk.files == st.files && disk.dirs == st.dirs
    {
      found, rdp, aborted := [], reportDumpPath, false;
      ghost var moved: seq<string> := [];
      ghost var st0 := Start(reportDumpPath, escapes.escapedFiles, disk.files, disk.dirs);
      var i := 0;
      while i < |p.patterns|
        invariant 0 <= i <= |p.patterns|
        invariant escapes.Valid()
        invariant StageState(found, rdp, escapes.escapedFiles, disk.files, disk.dirs, moved, false)
               == StagePatterns(env, p, dumpPath, st0, p.patterns[..i])
        modifies escapes, disk
      {
        assert p.patterns[..i + 1][..i] == p.patterns[..i];
        var query := BuildQuery(dumpPath, p.patterns[i]);
        found, rdp, aborted, moved := StageHitsOf(p, dumpPath, env.search(query), found, rdp, moved);
        if aborted {
          StagePatternsStop(env, p, dumpPath, st0, p.patterns, i + 1);
          return;
        }
        i := i + 1;
      }
      assert p.patterns[..i] == p.patterns;
    }

    /** processPlugin: stage the plugin's files, then either ignore the item (nothing found)
        or add one LINKED_ITEMS query per listed file and run the plugin. `aborted` tells
        that an exception left the method. */
    method ProcessPlugin(p: Plugin, evidence: Item, dumpPath: string, reportDumpPath: string)
      returns (aborted: bool)
      requires Valid()
      modifies this, escapes, disk, evidence
      ensures Valid()
      ensures var st := Staged(env, p, dumpPath, reportDumpPath, old(escapes.escapedFiles), old(disk.files), old(disk.dirs));
              && escapes.escapedFiles == st.escaped && disk.files == st.files && disk.dirs == st.dirs
              && AfterStaging(st, p, aborted, old(evidence.linkedItems), old(evidence.toIgnore), old(evidence.hasChildren),
                              old(runs), evidence.linkedItems, evidence.toIgnore, evidence.hasChildren, runs)
      ensures evidence.pluginTag == old(evidence.pluginTag) && evidence.mediaType == old(evidence.mediaType)
      ensures evidence.exported == old(evidence.exported)
    {
      var found, rdp;
      found, rdp, aborted := StagePlugin(p, dumpPath, reportDumpPath);
      if aborted {
        return;
      }
      if |found| == 0 {
        evidence.toIgnore := true;
        return false;
      }
      var complete := AddLinkedItems(evidence, found, rdp, env.isWindows);
      if !complete {
        return true;
      }
      ExecutePlugin(evidence, p, found);
      return false;
    }

    /** What processPlugin leaves behind after the staging `st`: on an exception nothing
        more; with no file found the item is ignored; otherwise the LINKED_ITEMS queries are
        added and, when all of them were, the plugin runs on the sorted list of files. */
    ghost predicate AfterStaging(st: StageState, p: Plugin, aborted: bool,
                                 links0: seq<string>, ignore0: bool, children0: bool, runs0: seq<PluginRun>,
                                 links: seq<string>, ignore: bool, children: bool, runs': seq<PluginRun>)
    {
      && (st.aborted ==> aborted && links == links0 && ignore == ignore0)
      && (!st.aborted && st.found == [] ==> !aborted && ignore && links == links0)
      && (!st.aborted && st.found != [] ==>
            && links == links0 + StagedLinks(env, st).entries
            && ignore == ignore0
            && aborted == !StagedLinks(env, st).complete)
      && (PluginRan(env, st) ==>
            && runs' == runs0 + [PluginRun(p.moduleName, PythonList(st.found))]
            && children == (children0 || createsItems(p.moduleName)))
      && (!PluginRan(env, st) ==> runs' == runs0 && children == children0)
    }

    /** What processEvidence leaves behind: the report folder and its Dump folder exist; with
        no plugin nothing else changes; with a plugin, the table, files and folders are those of
        its staging, the LINKED_ITEMS queries are added when files were listed, the plugin runs
        when all of them were, and the item ends ignored when it already was, when nothing was
        staged, or when the plugin ran and produced no children. */
    twostate predicate EvidenceProcessed(evidence: Item, p: Option<Plugin>, dumpPath: string, reportPath: string)
      reads this, escapes, disk, evidence
    {
      var dirs0 := old(disk.dirs) + Ancestors(reportPath) + Ancestors(Resolve(reportPath, "Dump"));
      && (p.None? ==>
            && escapes.escapedFiles == old(escapes.escapedFiles) && disk.files == old(disk.files) && disk.dirs == dirs0
            && runs == old(runs) && evidence.toIgnore == old(evidence.toIgnore)
            && evidence.linkedItems == old(evidence.linkedItems) && evidence.hasChildren == old(evidence.hasChildren))
      && (p.Some? ==>
            var st := Staged(env, p.value, dumpPath, Resolve(reportPath, "Dump"), old(escapes.escapedFiles),
                             old(disk.files), dirs0);
            && escapes.escapedFiles == st.escaped && disk.files == st.files && disk.dirs == st.dirs
            && evidence.linkedItems == (if !st.aborted && st.found != []
                                        then old(evidence.linkedItems) + StagedLinks(env, st).entries
                                        else old(evidence.linkedItems))
            && runs == (if PluginRan(env, st) then old(runs) + [PluginRun(p.value.moduleName, PythonList(st.found))]
                        else old(runs))
            && evidence.hasChildren == (old(evidence.hasChildren) || (PluginRan(env, st) && createsItems(p.value.moduleName)))
            && evidence.toIgnore == (old(evidence.toIgnore)
                                     || (!st.aborted && st.found == [])
                                     || (PluginRan(env, st) && !old(evidence.hasChildren) && !createsItems(p.value.moduleName))))
    }

    /** processEvidence: create the report folder and its Dump folder, process the plugin,
        and ignore the item when the plugin produced nothing under it. An exception (an
        unknown plugin, a failed staging) is caught here, before the ignore rule. */
    method ProcessEvidence(evidence: Item, p: Option<Plugin>, dumpPath: string, reportPath: string)
      requires Valid()
      modifies this, escapes, disk, evidence
      ensures Valid()
      ensures EvidenceProcessed(evidence, p, dumpPath, reportPath)
      ensures evidence.pluginTag == old(evidence.pluginTag) && evidence.mediaType == old(evidence.mediaType)
      ensures evidence.exported == old(evidence.exported)
    {
      var reportDumpPath := Resolve(reportPath, "Dump");
      disk.Mkdirs(reportPath);
      disk.Mkdirs(reportDumpPath);
      if p.None? {
        // getPlugin found nothing: processPlugin fails on the missing plugin
        return;
      }
      assert disk.dirs == old(disk.dirs) + Ancestors(reportPath) + Ancestors(reportDumpPath);
      ghost var st := Staged(env, p.value, dumpPath, reportDumpPath, escapes.escapedFiles, disk.files, disk.dirs);
      ghost var ignore0, children0 := evidence.toIgnore, evidence.hasChildren;
      var aborted := ProcessPlugin(p.value, evidence, dumpPath, reportDumpPath);
      assert AfterStaging(st, p.value, aborted, old(evidence.linkedItems), ignore0, children0, old(runs),
                          evidence.linkedItems, evidence.toIgnore, evidence.hasChildren, runs);
      if !aborted && !evidence.hasChildren {
        evidence.toIgnore := true;
      }
    }

    /** processDeviceDetails: export the buffer of the item's parent wrapped in a document, or
        ignore the item when no plugin under that parent logged anything. */
    method ProcessDeviceDetails(evidence: Item)
      modifies evidence
      ensures Details(devInfo.buffers, evidence.parentId).Some? ==>
                evidence.exported == Details(devInfo.buffers, evidence.parentId) && evidence.toIgnore == old(evidence.toIgnore)
      ensures Details(devInfo.buffers, evidence.parentId).None? ==>
                evidence.toIgnore && evidence.exported == old(evidence.exported)
      ensures evidence.linkedItems == old(evidence.linkedItems) && evidence.hasChildren == old(evidence.hasChildren)
    {
      var key := evidence.parentId;
      if key in devInfo.buffers {
        evidence.exported := Some("<html><body>" + devInfo.buffers[key] + "</body></html>");
      } else {
        evidence.toIgnore := true;
      }
    }

    /** The gates of process and what follows them: a plugin item waits for START_QUEUE_PRIORITY
        and then runs processEvidence with the plugin of its name; the DeviceDetails item waits
        one queue more and then runs processDeviceDetails; any other item is left alone. */
    twostate predicate Handled(evidence: Item, dumpPath: string, reportPath: string, outcome: Outcome)
      reads this, worker, escapes, disk, evidence, devInfo
    {
      && (outcome.ReEnqueued? ==> worker.requeued == old(worker.requeued) + [Requeue(evidence, outcome.priority)])
      && (outcome == Processed ==> worker.requeued == old(worker.requeued))
      && (old(evidence.pluginTag).Some? && PluginGate(old(worker.currentPriority)).Defer? ==>
            && outcome == ReEnqueued(StartQueuePriority)
            && escapes.escapedFiles == old(escapes.escapedFiles)
            && disk.files == old(disk.files) && disk.dirs == old(disk.dirs) && runs == old(runs)
            && evidence.toIgnore == old(evidence.toIgnore) && evidence.exported == old(evidence.exported)
            && evidence.linkedItems == old(evidence.linkedItems) && evidence.hasChildren == old(evidence.hasChildren))
      && (old(evidence.pluginTag).Some? && PluginGate(old(worker.currentPriority)) == Run
          && old(evidence.mediaType) != Some(DeviceDetailsMediaType) ==>
            && outcome == Processed && evidence.exported == old(evidence.exported)
            && EvidenceProcessed(evidence, FindPlugin(plugins, old(evidence.pluginTag).value), dumpPath, reportPath))
      && (old(evidence.pluginTag).None? && old(evidence.mediaType) != Some(DeviceDetailsMediaType) ==>
            && outcome == Processed
            && escapes.escapedFiles == old(escapes.escapedFiles) && runs == old(runs)
            && disk.files == old(disk.files) && disk.dirs == old(disk.dirs)
            && evidence.toIgnore == old(evidence.toIgnore) && evidence.exported == old(evidence.exported)
            && evidence.linkedItems == old(evidence.linkedItems) && evidence.hasChildren == old(evidence.hasChildren))
      && ((old(evidence.pluginTag).None? || PluginGate(old(worker.currentPriority)) == Run)
          && old(evidence.mediaType) == Some(DeviceDetailsMediaType)
          && DeviceDetailsGate(old(worker.currentPriority)).Defer? ==>
            outcome == ReEnqueued(StartQueuePriority + 1))
      && (old(evidence.pluginTag).None? && old(evidence.mediaType) == Some(DeviceDetailsMediaType)
          && DeviceDetailsGate(old(worker.currentPriority)).Defer? ==>
            && escapes.escapedFiles == old(escapes.escapedFiles)
            && disk.files == old(disk.files) && disk.dirs == old(disk.dirs) && runs == old(runs)
            && evidence.toIgnore == old(evidence.toIgnore) && evidence.exported == old(evidence.exported)
            && evidence.linkedItems == old(evidence.linkedItems) && evidence.hasChildren == old(evidence.hasChildren))
      && ((old(evidence.pluginTag).None? || PluginGate(old(worker.currentPriority)) == Run)
          && old(evidence.mediaType) == Some(DeviceDetailsMediaType)
          && DeviceDetailsGate(old(worker.currentPriority)) == Run ==>
            && outcome == Processed
            && (Details(devInfo.buffers, evidence.parentId).Some? ==>
                  evidence.exported == Details(devInfo.buffers, evidence.parentId))
            && (Details(devInfo.buffers, evidence.parentId).None? ==>
                  evidence.toIgnore && evidence.exported == old(evidence.exported)))
      && (old(evidence.pluginTag).None? && old(evidence.mediaType) == Some(DeviceDetailsMediaType)
          && DeviceDetailsGate(old(worker.currentPriority)) == Run ==>
            && escapes.escapedFiles == old(escapes.escapedFiles)
            && disk.files == old(disk.files) && disk.dirs == old(disk.dirs) && runs == old(runs)
            && (Details(devInfo.buffers, evidence.parentId).Some? ==> evidence.toIgnore == old(evidence.toIgnore))
            && evidence.linkedItems == old(evidence.linkedItems) && evidence.hasChildren == old(evidence.hasChildren))
      && (outcome.ReEnqueued? ==> outcome.priority in {StartQueuePriority, StartQueuePriority + 1})
    }

    /** process after the dump expansion: the plugin gate and processEvidence, then the
        DeviceDetails gate and processDeviceDetails. */
    method RunOrDefer(evidence: Item, dumpPath: string, reportPath: string) returns (outcome: Outcome)
      requires Valid()
      modifies this, worker, escapes, disk, evidence
      ensures Valid()
      ensures worker.newItems == old(worker.newItems) && worker.nextId == old(worker.nextId)
      ensures Handled(evidence, dumpPath, reportPath, outcome)
    {
      var pluginName := evidence.pluginTag;
      if pluginName.Some? {
        var priority := worker.currentPriority;
        if priority < StartQueuePriority {
          worker.ReEnqueue(evidence, StartQueuePriority);
          return ReEnqueued(StartQueuePriority);
        }
        var p := FindPlugin(plugins, pluginName.value);
        label Before:
        ProcessEvidence(evidence, p, dumpPath, reportPath);
        assert EvidenceProcessed@Before(evidence, p, dumpPath, reportPath);
      }

      var mt := evidence.mediaType;
      if mt == Some(DeviceDetailsMediaType) {
        var priority := worker.currentPriority;
        if priority < StartQueuePriority + 1 {
          worker.ReEnqueue(evidence, StartQueuePriority + 1);
          return ReEnqueued(StartQueuePriority + 1);
        }
        ProcessDeviceDetails(evidence);
      }
      return Processed;
    }

    /** The first part of process: a Dump or backup item gets its report items. */
    method ExpandIfDumpRoot(evidence: Item)
      modifies worker
      ensures IsDumpRoot(evidence.name) ==>
                && |worker.newItems| == |old(worker.newItems)| + |plugins| + 2
                && worker.newItems[..|old(worker.newItems)|] == old(worker.newItems)
                && (forall i | |old(worker.newItems)| <= i < |worker.newItems| :: fresh(worker.newItems[i]))
                && Expanded(worker.newItems[|old(worker.newItems)|..], evidence.id, evidence.path, old(worker.nextId))
      ensures !IsDumpRoot(evidence.name) ==> worker.newItems == old(worker.newItems)
      ensures worker.requeued == old(worker.requeued) && worker.currentPriority == old(worker.currentPriority)
    {
      if IsDumpRoot(evidence.name) {
        var reports, pluginItems, details := ExpandDump(evidence);
        assert worker.newItems[..|old(worker.newItems)|] == old(worker.newItems);
        assert worker.newItems[|old(worker.newItems)|..] == [reports] + pluginItems + [details];
        assert Expanded([reports] + pluginItems + [details], evidence.id, evidence.path, old(worker.nextId));
      }
    }

    /** process: expand a dump root, then run the item or re-enqueue it at the queue it waits
        for (START_QUEUE_PRIORITY for a plugin item, the one after it for the DeviceDetails
        item). `dumpPath` is the path of the dump item above the item's LEAPP_Reports parent
        and `reportPath` the temporary report folder. */
    method Process(evidence: Item, dumpPath: string, reportPath: string) returns (outcome: Outcome)
      requires Valid()
      modifies this, worker, escapes, disk, evidence
      ensures Valid()
      ensures IsDumpRoot(old(evidence.name)) ==> |worker.newItems| == |old(worker.newItems)| + |plugins| + 2
      ensures IsDumpRoot(old(evidence.name)) ==>
                && worker.newItems[..|old(worker.newItems)|] == old(worker.newItems)
                && (forall i | |old(worker.newItems)| <= i < |worker.newItems| :: fresh(worker.newItems[i]))
                && Expanded(worker.newItems[|old(worker.newItems)|..], evidence.id, old(evidence.path), old(worker.nextId))
      ensures !IsDumpRoot(old(evidence.name)) ==> worker.newItems == old(worker.newItems)
      ensures Handled(evidence, dumpPath, reportPath, outcome)
    {
      ExpandIfDumpRoot(evidence);
      label Expanded:
      outcome := RunOrDefer(evidence, dumpPath, reportPath);
      assert Handled@Expanded(evidence, dumpPath, reportPath, outcome);
    }
  }
}
