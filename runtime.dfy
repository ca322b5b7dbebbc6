/** The dispatch runtime of `challenges/common.py`: class `Node`, with its
    handler table, one-shot callback table, message-id counter, identity and
    topology, and `SeqKVService`, the client of the sequential key-value store.

    `Node` is generic in the tags an application registers: `H` for type
    handlers, `C` for callbacks, `K` for `before_message` hooks. The
    application's receive loop runs its hooks, asks `Route` where a message
    goes, and runs the handler or callback that `Route` names. Standard output
    is the `outbox` sequence: every message written, in order. */
module Runtime {
  import opened Messages
  import Topology

  /** The peer name of the sequential key-value store. */
  const SeqKV := "seq-kv"

  /** Why `handles` refuses a registration (a `ValueError` and a `KeyError`). */
  datatype ConfigError = ReservedType(kind: string) | DuplicateType(kind: string)

  datatype Registration = Registered | Rejected(error: ConfigError)

  /** Where the body of `run` sends one incoming message. */
  datatype Routed<H, C> =
    | Initialized               // an `init` message: identity set and `init_ok` sent
    | ToCallback(callback: C)   // popped from the callback table by `in_reply_to`
    | ToHandler(handler: H)     // found in the handler table by type
    | Ignored                   // no callback or no handler: logged and skipped
    | Halted(fault: Fault)      // an exception ended `run`

  /** How an application's receive loop ended: the input ran out, or an
      exception escaped at the input with this index. */
  datatype RunOutcome = Exhausted | Stopped(index: nat, fault: Fault)

  /** The message types `handles` never accepts. */
  predicate Reserved(kind: string)
  {
    kind == "init" || kind == "error"
  }

  class Node<H, C, K> {
    var handlers: map<string, H>
    var callbacks: map<int, C>
    var hooks: seq<K>
    var msgId: int
    /** Whether `_initialize` has run; before that `_id`, `_nodes` and
        `_topology` are unset and reading them raises. */
    var initialized: bool
    var id: string
    var nodes: seq<string>
    var topology: map<string, seq<string>>
    /** Whether `topology` is still the `defaultdict` built at `init`, rather
        than a plain dictionary installed through the setter. */
    var topologyDefaults: bool
    var outbox: seq<Message>

    constructor ()
      ensures handlers == map[] && callbacks == map[] && hooks == []
      ensures msgId == 0 && !initialized && outbox == []
    {
      handlers, callbacks, hooks := map[], map[], [];
      msgId := 0;
      initialized, id, nodes := false, "", [];
      topology, topologyDefaults := map[], false;
      outbox := [];
    }

    /** Every key of the callback table is an id `next_msg_id` has already issued. */
    predicate CallbackKeysIssued()
      reads this
    {
      forall k :: k in callbacks ==> k <= msgId
    }

    /** The `handles` decorator: registers `h` for `kind` unless the type is
        reserved or already taken. */
    method Handles(kind: string, h: H) returns (r: Registration)
      modifies this`handlers
      ensures Reserved(kind) ==> r == Rejected(ReservedType(kind))
      ensures !Reserved(kind) && kind in old(handlers) ==> r == Rejected(DuplicateType(kind))
      ensures r.Registered? <==> !Reserved(kind) && kind !in old(handlers)
      ensures handlers == if r.Registered? then old(handlers)[kind := h] else old(handlers)
    {
      if Reserved(kind) {
        r := Rejected(ReservedType(kind));
      } else if kind in handlers {
        r := Rejected(DuplicateType(kind));
      } else {
        handlers := handlers[kind := h];
        r := Registered;
      }
    }

    /** The `before_message` decorator: hooks run in registration order. */
    method BeforeMessage(hook: K)
      modifies this`hooks
      ensures hooks == old(hooks) + [hook]
    {
      hooks := hooks + [hook];
    }

    method NextMsgId() returns (n: int)
      modifies this`msgId
      ensures n == old(msgId) + 1 && msgId == n
    {
      msgId := msgId + 1;
      n := msgId;
    }

    /** `_initialize`: identity, peer list and the line topology. */
    method Initialize(nodeId: string, nodeIds: seq<string>)
      modifies this`initialized, this`id, this`nodes, this`topology, this`topologyDefaults
      ensures initialized && id == nodeId && nodes == nodeIds
      ensures topology == Topology.LineTopology(nodeIds) && topologyDefaults
    {
      id := nodeId;
      nodes := nodeIds;
      topology := Topology.MakeTopology(nodeIds);
      topologyDefaults := true;
      initialized := true;
    }

    /** The `topology` setter: the whole map is replaced, nothing merged. */
    method SetTopology(value: map<string, seq<string>>)
      modifies this`topology, this`topologyDefaults
      ensures topology == value && !topologyDefaults
    {
      topology := value;
      topologyDefaults := false;
    }

    /** The `neighbours` property, `topology[id]`. On the `defaultdict` an
        absent key inserts and returns an empty list; on an installed
        dictionary it raises. */
    method Neighbours() returns (st: Status, ns: seq<string>)
      modifies this`topology
      ensures st == if !initialized then Crash(Uninitialized)
                    else if id in old(topology) || topologyDefaults then Done
                    else Crash(MissingNeighbours)
      ensures st.Done? ==> ns == GetOr(old(topology), id, [])
      ensures topology == if initialized && id !in old(topology) && topologyDefaults
                          then old(topology)[id := []] else old(topology)
      ensures forall n :: GetOr(topology, n, []) == GetOr(old(topology), n, [])
    {
      ns := [];
      if !initialized {
        st := Crash(Uninitialized);
      } else if id in topology {
        st, ns := Done, topology[id];
      } else if topologyDefaults {
        topology := topology[id := []];
        st := Done;
      } else {
        st := Crash(MissingNeighbours);
      }
    }

    /** `send_to`: writes one message from this node and, when a callback is
        given and the body has a `msg_id`, stores the callback under it first.
        Before `init` reading the node's id raises and nothing happens. */
    method SendTo(dest: string, body: Body, callback: Option<C>) returns (st: Status)
      modifies this`outbox, this`callbacks
      ensures st == if initialized then Done else Crash(Uninitialized)
      ensures outbox == if initialized then old(outbox) + [Message(id, dest, body)] else old(outbox)
      ensures callbacks == if initialized && callback.Some? && body.msgId.Some?
                           then old(callbacks)[body.msgId.value := callback.value]
                           else old(callbacks)
    {
      if !initialized {
        return Crash(Uninitialized);
      }
      var message := Message(id, dest, body);
      if callback.Some? && body.msgId.Some? {
        callbacks := callbacks[body.msgId.value := callback.value];
      }
      outbox := outbox + [message];
      st := Done;
    }

    /** How `reply_to` on `request` ends: it asserts the request's `msg_id`,
        then sends, which needs the node's id. */
    function ReplyStatus(request: Message): Status
      reads this
    {
      if request.body.msgId.None? then Crash(MissingMsgId)
      else if initialized then Done
      else Crash(Uninitialized)
    }

    /** The message `reply_to(request, body)` writes. */
    function Answer(request: Message, body: Body): (m: Message)
      reads this
      ensures request.body.msgId.Some? ==> RepliesTo(m, request)
      ensures m.src == id && m.body.kind == body.kind && m.body.msgId == body.msgId && m.body.payload == body.payload
    {
      Message(id, request.src, body.(inReplyTo := request.body.msgId))
    }

    /** `reply_to`: the request must carry a `msg_id`; the body goes back to
        the request's sender with `in_reply_to` set to it, and no callback is
        registered. */
    method ReplyTo(request: Message, body: Body) returns (st: Status)
      modifies this`outbox, this`callbacks
      ensures st == ReplyStatus(request)
      ensures outbox == if st.Done? then old(outbox) + [Answer(request, body)] else old(outbox)
      ensures callbacks == old(callbacks)
    {
      if request.body.msgId.None? {
        return Crash(MissingMsgId);
      }
      st := SendTo(request.src, body.(inReplyTo := request.body.msgId), None);
    }

    /** The body of `run` for one message: `init` initializes and replies
        `init_ok`; a message with `in_reply_to` pops its callback (and never
        looks at the handler table); any other message is routed by type;
        a missing callback or handler means the message is ignored. */
    method Route(msg: Message) returns (r: Routed<H, C>)
      modifies this`initialized, this`id, this`nodes, this`topology, this`topologyDefaults
      modifies this`outbox, this`callbacks
      ensures msg.body.kind == "init" && !msg.body.payload.InitFields? ==>
        r == Halted(MissingField("node_id")) && unchanged(this)
      ensures msg.body.kind == "init" && msg.body.payload.InitFields? ==>
        && initialized && id == msg.body.payload.nodeId && nodes == msg.body.payload.nodeIds
        && topology == Topology.LineTopology(msg.body.payload.nodeIds) && topologyDefaults
        && callbacks == old(callbacks)
        && r == (if msg.body.msgId.Some? then Initialized else Halted(MissingMsgId))
        && outbox == if msg.body.msgId.Some?
                     then old(outbox) + [Message(id, msg.src, Body("init_ok", None, msg.body.msgId, NoFields))]
                     else old(outbox)
      ensures msg.body.kind != "init" && msg.body.inReplyTo.Some? ==>
        && r == (if msg.body.inReplyTo.value in old(callbacks)
                 then ToCallback(old(callbacks)[msg.body.inReplyTo.value]) else Ignored)
        && callbacks == old(callbacks) - {msg.body.inReplyTo.value}
        && unchanged(this`initialized, this`id, this`nodes, this`topology, this`topologyDefaults, this`outbox)
      ensures msg.body.kind != "init" && msg.body.inReplyTo.None? ==>
        && r == (if msg.body.kind in handlers then ToHandler(handlers[msg.body.kind]) else Ignored)
        && unchanged(this)
    {
      if msg.body.kind == "init" {
        if !msg.body.payload.InitFields? {
          return Halted(MissingField("node_id"));
        }
        Initialize(msg.body.payload.nodeId, msg.body.payload.nodeIds);
        var st := ReplyTo(msg, Plain("init_ok", NoFields));
        r := if st.Done? then Initialized else Halted(st.fault);
      } else if msg.body.inReplyTo.Some? {
        var key := msg.body.inReplyTo.value;
        if key in callbacks {
          r := ToCallback(callbacks[key]);
          callbacks := callbacks - {key};
        } else {
          r := Ignored;
        }
      } else if msg.body.kind in handlers {
        r := ToHandler(handlers[msg.body.kind]);
      } else {
        r := Ignored;
      }
    }
  }

  /** `SeqKVService`: requests to the sequential key-value store, each with a
      fresh `msg_id` from the node's counter. */
  class SeqKVService<H, C, K> {
    const node: Node<H, C, K>

    constructor (node: Node<H, C, K>)
      ensures this.node == node
    {
      this.node := node;
    }

    method Read(key: string, callback: Option<C>) returns (st: Status)
      modifies node`msgId, node`outbox, node`callbacks
      ensures node.msgId == old(node.msgId) + 1
      ensures st == if node.initialized then Done else Crash(Uninitialized)
      ensures node.outbox == if node.initialized
                             then old(node.outbox) + [Message(node.id, SeqKV, Body("read", Some(node.msgId), None, KeyFields(key)))]
                             else old(node.outbox)
      ensures node.callbacks == if node.initialized && callback.Some?
                                then old(node.callbacks)[node.msgId := callback.value]
                                else old(node.callbacks)
      ensures old(node.CallbackKeysIssued()) ==> node.msgId !in old(node.callbacks) && node.CallbackKeysIssued()
    {
      var n := node.NextMsgId();
      st := node.SendTo(SeqKV, Body("read", Some(n), None, KeyFields(key)), callback);
    }

    method Write(key: string, value: int, callback: Option<C>) returns (st: Status)
      modifies node`msgId, node`outbox, node`callbacks
      ensures node.msgId == old(node.msgId) + 1
      ensures st == if node.initialized then Done else Crash(Uninitialized)
      ensures node.outbox == if node.initialized
                             then old(node.outbox) + [Message(node.id, SeqKV, Body("write", Some(node.msgId), None, KeyValueFields(key, value)))]
                             else old(node.outbox)
      ensures node.callbacks == if node.initialized && callback.Some?
                                then old(node.callbacks)[node.msgId := callback.value]
                                else old(node.callbacks)
      ensures old(node.CallbackKeysIssued()) ==> node.msgId !in old(node.callbacks) && node.CallbackKeysIssued()
    {
      var n := node.NextMsgId();
      st := node.SendTo(SeqKV, Body("write", Some(n), None, KeyValueFields(key, value)), callback);
    }
  }
}
