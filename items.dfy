/** The evidence items the bridge creates and updates, and the part of the processing worker
    it talks to: the queue that new and re-enqueued items go to. */
module Items {

  datatype Option<T> = None | Some(value: T)

  /** MediaType.application("x-leapp-devicedetails") */
  const DeviceDetailsMediaType: string := "application/x-leapp-devicedetails"

  /** An evidence item. The attributes the bridge reads or writes are fields of their own:
      `decodedData` is the DECODED_DATA extra attribute, `pluginTag` the ALEAPP:PLUGIN
      metadata value, `linkedItems` the LINKED_ITEMS metadata values, and `exported` the
      content handed to ExportFileTask.extractFile. */
  class Item {
    const id: int
    const parentId: int
    var name: string
    var path: string
    var mediaType: Option<string>
    var subItem: bool
    var subitemId: int
    var hasChildren: bool
    var toIgnore: bool
    var decodedData: bool
    var pluginTag: Option<string>
    var linkedItems: seq<string>
    var exported: Option<string>

    constructor (id: int, parentId: int, name: string, path: string)
      ensures this.id == id && this.parentId == parentId
      ensures this.name == name && this.path == path
      ensures mediaType == None && pluginTag == None && exported == None
      ensures !subItem && subitemId == 0 && !hasChildren && !toIgnore && !decodedData
      ensures linkedItems == []
    {
      this.id := id;
      this.parentId := parentId;
      this.name := name;
      this.path := path;
      mediaType := None;
      subItem := false;
      subitemId := 0;
      hasChildren := false;
      toIgnore := false;
      decodedData := false;
      pluginTag := None;
      linkedItems := [];
      exported := None;
    }
  }

  /** A re-submission of an item to the processing queues at a given priority. */
  datatype Requeue = Requeue(item: Item, priority: int)

  /** The worker: the priority of the queue it currently drains, the ids it hands to new items,
      the items it was given to process (processNewItem) and the re-enqueued ones. */
  class Worker {
    var currentPriority: int
    var nextId: int
    var newItems: seq<Item>
    var requeued: seq<Requeue>

    constructor (currentPriority: int, nextId: int)
      ensures this.currentPriority == currentPriority && this.nextId == nextId
      ensures newItems == [] && requeued == []
    {
      this.currentPriority := currentPriority;
      this.nextId := nextId;
      newItems := [];
      requeued := [];
    }

    /** createChildItem: a fresh item whose parent is `parent`, with the next id. */
    method CreateChild(parent: Item) returns (child: Item)
      modifies this
      ensures fresh(child)
      ensures child.id == old(nextId) && child.parentId == parent.id
      ensures child.name == "" && child.path == ""
      ensures child.mediaType == None && child.pluginTag == None && child.exported == None
      ensures !child.subItem && !child.hasChildren && !child.toIgnore && !child.decodedData
      ensures child.linkedItems == []
      ensures nextId == old(nextId) + 1
      ensures newItems == old(newItems) && requeued == old(requeued)
      ensures currentPriority == old(currentPriority)
    {
      child := new Item(nextId, parent.id, "", "");
      nextId := nextId + 1;
    }

    /** processNewItem */
    method ProcessNewItem(item: Item)
      modifies this
      ensures newItems == old(newItems) + [item]
      ensures requeued == old(requeued) && nextId == old(nextId)
      ensures currentPriority == old(currentPriority)
    {
      newItems := newItems + [item];
    }

    /** reEnqueueItem */
    method ReEnqueue(item: Item, priority: int)
      modifies this
      ensures requeued == old(requeued) + [Requeue(item, priority)]
      ensures newItems == old(newItems) && nextId == old(nextId)
      ensures currentPriority == old(currentPriority)
    {
      requeued := requeued + [Requeue(item, priority)];
    }
  }
}
