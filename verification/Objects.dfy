/** The Diamond object that the filters and both caches act on. */
module Objects {
  import opened Wrappers

  type Key = string
  type Value = string

  const ATTR_DATA := ""
  const ATTR_OBJ_ID := "_ObjectID"
  const ATTR_DISPLAY_NAME := "Display-Name"
  const ATTR_DEVICE_NAME := "Device-Name"

  /** MurmurHash is taken as collision free: a signature is a free constructor
      over the hashed value, and no modelled code looks inside it. */
  datatype Digest = Murmur(data: Value)

  /** The value of an object: its attributes and the names withheld from the client. */
  datatype ObjState = ObjState(attrs: map<Key, Value>, omit: set<Key>)

  /** What get_signature() says about a key, absence included. */
  function SigOf(st: ObjState, k: Key): Option<Digest> {
    if k in st.attrs then Some(Murmur(st.attrs[k])) else None
  }

  function InitialState(serverId: string, url: string): ObjState {
    ObjState(map[ATTR_DEVICE_NAME := serverId + "\0", ATTR_OBJ_ID := url + "\0"], {})
  }

  /** What the client receives for an object: names, each with its value or an empty one. */
  function Sent(st: ObjState, outputSet: Option<set<Key>>): map<Key, Value> {
    map k | k in st.attrs.Keys - st.omit ::
      if outputSet.None? || k in outputSet.value + {ATTR_OBJ_ID} then st.attrs[k] else ""
  }

  /** The end of a search is announced by an object with no attributes.  An accepted
      object is mistaken for it exactly when filters have omitted every attribute. */
  lemma {:induction false} NothingSent(st: ObjState, outputSet: Option<set<Key>>)
    ensures Sent(st, outputSet) == map[] <==> st.attrs.Keys <= st.omit
  {
    var sent := Sent(st, outputSet);
    assert sent.Keys == st.attrs.Keys - st.omit;
    assert sent == map[] <==> sent.Keys == {};
    assert forall k :: k in st.attrs.Keys && k !in st.omit ==> k in sent.Keys;
  }

  class DiamondObject {
    const id: string
    var attrs: map<Key, Value>
    var signatures: map<Key, Digest>
    var omitAttrs: set<Key>

    ghost predicate Valid()
      reads this
    {
      && signatures.Keys == attrs.Keys
      && (forall k :: k in attrs ==> signatures[k] == Murmur(attrs[k]))
    }

    function State(): ObjState
      reads this
    {
      ObjState(attrs, omitAttrs)
    }

    constructor (serverId: string, url: string)
      ensures Valid() && id == url
      ensures State() == InitialState(serverId, url)
    {
      id := url;
      attrs, signatures, omitAttrs := map[], map[], {};
      new;
      SetItem(ATTR_DEVICE_NAME, serverId + "\0");
      SetItem(ATTR_OBJ_ID, url + "\0");
    }

    method SetItem(key: Key, value: Value)
      requires Valid()
      modifies this
      ensures Valid()
      ensures State() == old(State()).(attrs := old(attrs)[key := value])
    {
      attrs := attrs[key := value];
      signatures := signatures[key := Murmur(value)];
    }

    /** omit() raises KeyError for an attribute the object does not have. */
    method Omit(key: Key) returns (ok: bool)
      requires Valid()
      modifies this
      ensures Valid()
      ensures ok <==> key in old(attrs)
      ensures State() == if ok then old(State()).(omit := old(omitAttrs) + {key}) else old(State())
    {
      ok := key in attrs;
      if ok {
        omitAttrs := omitAttrs + {key};
      }
    }

    /** xdr_attributes(): the names and values sent for an accepted object, or only the
        object ID when a reexecution dropped it. */
    method XdrAttributes(outputSet: Option<set<Key>>, forDrop: bool) returns (sent: map<Key, Value>)
      requires Valid()
      requires forDrop ==> ATTR_OBJ_ID in attrs
      ensures !forDrop ==> sent == Sent(State(), outputSet)
      ensures !forDrop ==> forall k :: k in sent <==> k in attrs && k !in omitAttrs
      ensures !forDrop ==> forall k :: k in sent ==>
        sent[k] == if outputSet == None || k in outputSet.value || k == "_ObjectID" then attrs[k] else ""
      ensures forDrop ==> sent == map[ATTR_OBJ_ID := attrs[ATTR_OBJ_ID]]
    {
      var sendKeys := if forDrop then {ATTR_OBJ_ID} else attrs.Keys - omitAttrs;
      var sendValues := if outputSet.Some? then sendKeys * (outputSet.value + {ATTR_OBJ_ID}) else sendKeys;
      sent := map[];
      var todo := sendKeys;
      while todo != {}
        invariant todo <= sendKeys
        invariant sent.Keys == sendKeys - todo
        invariant forall k :: k in sent ==> sent[k] == if k in sendValues then attrs[k] else ""
        decreases todo
      {
        var name :| name in todo;
        sent := sent[name := if name in sendValues then attrs[name] else ""];
        todo := todo - {name};
      }
    }
  }
}
