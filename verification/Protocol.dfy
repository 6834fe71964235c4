/** The message schemas of the Diamond protocol. */
module Protocol {
  import opened Wrappers
  import opened Xdr

  function Named(names: seq<string>, handlers: seq<Schema>): Schema {
    Struct(seq(|names|, i requires 0 <= i < |names| => Some(names[i])), handlers)
  }

  const RPC_HEADER := Named(["sequence", "status", "cmd", "datalen"], [Uint, Int, Int, Uint])
  const XDR_ATTRIBUTE := Named(["name", "value"], [String, Opaque])
  const XDR_OBJECT := Named(["attrs"], [Array(XDR_ATTRIBUTE)])
  const XDR_BLOB_LIST := Named(["uris"], [Array(String)])
  const XDR_FILTER_CONFIG := Named(["name", "arguments", "dependencies", "min_score", "max_score", "code", "blob"],
                                 [String, Array(String), Array(String), Double, Double, String, String])
  const XDR_SETUP := Named(["cookies", "filters"], [Array(String), Array(XDR_FILTER_CONFIG)])
  const XDR_BLOB_DATA := Named(["blobs"], [Array(Opaque)])
  const XDR_START := Named(["search_id", "attrs"], [FOpaque(36), Optional(Array(String))])
  const XDR_STAT := Named(["name", "value"], [String, Hyper])
  const XDR_FILTER_STATS := Named(["name", "stats"], [String, Array(XDR_STAT)])
  const XDR_SEARCH_STATS := Named(["stats", "filter_stats"], [Array(XDR_STAT), Optional(Array(XDR_FILTER_STATS))])
  const XDR_SESSION_VAR := Named(["name", "value"], [String, Double])
  const XDR_SESSION_VARS := Named(["vars"], [Array(XDR_SESSION_VAR)])
  const XDR_REEXECUTE := Named(["object_id", "attrs"], [String, Optional(Array(String))])
  const XDR_RETRAIN := Named(["names", "labels", "features"], [Array(String), Array(Int), Array(Opaque)])
  const XDR_ATTRIBUTE_LIST := Named(["attrs"], [Array(XDR_ATTRIBUTE)])

  /** A schema without constants, nameless members and hypers. */
  predicate Transparent(s: Schema) {
    match s
    case Hyper => false
    case Array(item) => Transparent(item)
    case Optional(item) => Transparent(item)
    case Constant(_, _) => false
    case Struct(names, handlers) =>
      && (forall i :: 0 <= i < |names| ==> names[i].Some?)
      && (forall i :: 0 <= i < |handlers| ==> Transparent(handlers[i]))
    case _ => true
  }

  lemma {:induction false} TransparentIsExact(s: Schema, v: Value)
    requires Transparent(s) && Encode(s, v).Some?
    ensures Exact(s, v)
    decreases s
  {
    match s
    case Array(item) =>
      EncodableItems(item, v.items, |v.items|);
      forall i | 0 <= i < |v.items| ensures Exact(item, v.items[i]) {
        TransparentIsExact(item, v.items[i]);
      }
    case Optional(item) =>
      if !v.Nothing? {
        TransparentIsExact(item, v);
      }
    case Struct(names, handlers) =>
      EncodableMembers(names, handlers, v.fields, s.Arity());
      forall i | 0 <= i < s.Arity() ensures Exact(handlers[i], v.fields[i]) {
        TransparentIsExact(handlers[i], v.fields[i]);
      }
    case _ =>
  }

  lemma {:induction false} NamedTransparent(names: seq<string>, handlers: seq<Schema>)
    requires forall i :: 0 <= i < |handlers| ==> Transparent(handlers[i])
    ensures Transparent(Named(names, handlers))
  {
  }

  /** The messages that carry no statistics. */
  function Messages(): seq<Schema> {
    [RPC_HEADER, XDR_OBJECT, XDR_BLOB_LIST, XDR_SETUP, XDR_BLOB_DATA, XDR_START, XDR_SESSION_VARS, XDR_REEXECUTE, XDR_RETRAIN,
     XDR_ATTRIBUTE_LIST]
  }

  lemma {:induction false} PartsAreTransparent()
    ensures Transparent(XDR_ATTRIBUTE) && Transparent(XDR_FILTER_CONFIG) && Transparent(XDR_SESSION_VAR)
  {
    NamedTransparent(["name", "value"], [String, Opaque]);
    NamedTransparent(["name", "arguments", "dependencies", "min_score", "max_score", "code", "blob"],
                     [String, Array(String), Array(String), Double, Double, String, String]);
    NamedTransparent(["name", "value"], [String, Double]);
  }

  lemma {:induction false} SearchMessagesAreTransparent()
    ensures Transparent(XDR_OBJECT) && Transparent(XDR_SETUP) && Transparent(XDR_START)
    ensures Transparent(XDR_SESSION_VARS) && Transparent(XDR_ATTRIBUTE_LIST)
  {
    PartsAreTransparent();
    NamedTransparent(["attrs"], [Array(XDR_ATTRIBUTE)]);
    NamedTransparent(["cookies", "filters"], [Array(String), Array(XDR_FILTER_CONFIG)]);
    NamedTransparent(["search_id", "attrs"], [FOpaque(36), Optional(Array(String))]);
    NamedTransparent(["vars"], [Array(XDR_SESSION_VAR)]);
  }

  lemma {:induction false} MessagesAreTransparent()
    ensures forall i :: 0 <= i < |Messages()| ==> Transparent(Messages()[i])
  {
    SearchMessagesAreTransparent();
    NamedTransparent(["sequence", "status", "cmd", "datalen"], [Uint, Int, Int, Uint]);
    NamedTransparent(["uris"], [Array(String)]);
    NamedTransparent(["blobs"], [Array(Opaque)]);
    NamedTransparent(["object_id", "attrs"], [String, Optional(Array(String))]);
    NamedTransparent(["names", "labels", "features"], [Array(String), Array(Int), Array(Opaque)]);
  }

  /** Every such message is received as it was sent. */
  lemma {:induction false} MessageRoundTrip(i: nat, v: Value)
    requires i < |Messages()| && Encode(Messages()[i], v).Some?
    ensures DecodeAll(Messages()[i], Encode(Messages()[i], v).value) == Ok(v)
  {
    MessagesAreTransparent();
    TransparentIsExact(Messages()[i], v);
    CanonIsIdentity(Messages()[i], v);
    WholeRoundTrip(Messages()[i], v);
  }

  /** Statistics are received as they were sent exactly when every counter fits 64 bits. */
  lemma {:induction false} StatisticsRoundTrip(v: Value)
    requires Encode(XDR_SEARCH_STATS, v).Some?
    ensures DecodeAll(XDR_SEARCH_STATS, Encode(XDR_SEARCH_STATS, v).value) == Ok(v) <==> Exact(XDR_SEARCH_STATS, v)
  {
    CanonIsIdentity(XDR_SEARCH_STATS, v);
    WholeRoundTrip(XDR_SEARCH_STATS, v);
  }
}
