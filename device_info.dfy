/** Device-info aggregation: plugin runs append HTML fragments to a buffer keyed by the id of
    their parent (the LEAPP_Reports item); the DeviceDetails.html sibling later exports the
    whole buffer wrapped in a document, or is ignored when nothing was logged
    (LeappBridgeTask.logdevinfo / processDeviceDetails). */
module DeviceInfo {
  import opened Items

  /** The fragment logdevinfo appends for one message. */
  function Fragment(message: string): string
  {
    message + "<br/>"
  }

  /** The buffers after one logdevinfo call for a plugin item whose parent id is `key`. */
  function Log(buffers: map<int, string>, key: int, message: string): map<int, string>
  {
    buffers[key := (if key in buffers then buffers[key] else "") + Fragment(message)]
  }

  /** The document processDeviceDetails exports for a DeviceDetails item whose parent id is
      `key`, or None when no buffer exists (the item is then ignored). */
  function Details(buffers: map<int, string>, key: int): Option<string>
  {
    if key in buffers then Some("<html><body>" + buffers[key] + "</body></html>") else None
  }

  /** The concatenated fragments of a sequence of messages, in order. */
  function Fragments(messages: seq<string>): string
  {
    if messages == [] then "" else Fragments(messages[..|messages| - 1]) + Fragment(messages[|messages| - 1])
  }

  /** Several logdevinfo calls for the same key, in order. */
  function LogAll(buffers: map<int, string>, key: int, messages: seq<string>): map<int, string>
  {
    if messages == [] then buffers
    else Log(LogAll(buffers, key, messages[..|messages| - 1]), key, messages[|messages| - 1])
  }

  /** Logging only ever extends the buffer of its key and leaves every other key alone. */
  lemma LogEffect(buffers: map<int, string>, key: int, message: string)
    ensures var b := Log(buffers, key, message);
            && b.Keys == buffers.Keys + {key}
            && (forall k | k in buffers && k != key :: b[k] == buffers[k])
            && (key in buffers ==> b[key] == buffers[key] + message + "<br/>")
            && (key !in buffers ==> b[key] == message + "<br/>")
  {
  }

  /** No fragment is lost: n calls for a key leave exactly those n fragments, in call order,
      after whatever the buffer held before. */
  lemma {:induction false} LogAllAppends(buffers: map<int, string>, key: int, messages: seq<string>)
    ensures var b := LogAll(buffers, key, messages);
            && (messages != [] ==> key in b)
            && (key in b ==> b[key] == (if key in buffers then buffers[key] else "") + Fragments(messages))
            && (forall k | k != key :: (k in b <==> k in buffers) && (k in b ==> b[k] == buffers[k]))
  {
    if messages != [] {
      LogAllAppends(buffers, key, messages[..|messages| - 1]);
    }
  }

  /** Logging for two different parents commutes: runs under different LEAPP_Reports items do
      not see each other. */
  lemma LogDifferentKeysCommute(buffers: map<int, string>, k1: int, m1: string, k2: int, m2: string)
    requires k1 != k2
    ensures Log(Log(buffers, k1, m1), k2, m2) == Log(Log(buffers, k2, m2), k1, m1)
  {
  }

  /** Once a plugin under the same parent has logged something, the DeviceDetails sibling
      exports a document holding every fragment; without any logging it is ignored. */
  lemma DetailsAfterLogging(buffers: map<int, string>, key: int, messages: seq<string>)
    requires key !in buffers
    ensures messages == [] ==> Details(LogAll(buffers, key, messages), key) == None
    ensures messages != [] ==>
      Details(LogAll(buffers, key, messages), key) == Some("<html><body>" + Fragments(messages) + "</body></html>")
  {
    LogAllAppends(buffers, key, messages);
    assert "" + Fragments(messages) == Fragments(messages);
  }

  /** The static devInfoBuffers map of LeappBridgeTask. */
  class DeviceInfoBuffers {
    var buffers: map<int, string>

    constructor ()
      ensures buffers == map[]
    {
      buffers := map[];
    }

    /** logdevinfo, for the item the running plugin was bound to. */
    method LogDevInfo(evidence: Item, message: string)
      modifies this
      ensures buffers == Log(old(buffers), evidence.parentId, message)
    {
      var key := evidence.parentId;
      var buffer := "";
      if key in buffers {
        buffer := buffers[key];
      }
      buffers := buffers[key := buffer + Fragment(message)];
    }
  }
}
