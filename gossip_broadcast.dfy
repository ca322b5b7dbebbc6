/** The broadcast challenge with delta gossip (`challenges/3-broadcast.py`).

    A node keeps the grow-only set `messages` of every value it has learned
    and, per peer, the set `known` of values that peer has itself gossiped to
    this node. A `before_message` hook, at most once per 100 ms, sends every
    neighbour a `gossip` carrying the values that neighbour is not known to
    have. Incoming gossip is merged by union. The clock is the integer
    millisecond reading taken on each poll of the receive loop. */
module GossipBroadcast {
  import opened Messages
  import opened Runtime
  import Topology

  /** `propagate_messages` fires when more than 0.1 s has passed. */
  const PropagationInterval := 100

  datatype Handler = HandleBroadcast | HandleRead | HandleTopology | HandleGossip

  datatype Hook = PropagateMessages

  /** This program registers no callbacks. */
  datatype NoCallback = NoCallback

  /** The replicated state: learned values and what each peer is known to have. */
  datatype Replica = Replica(messages: set<int>, known: map<string, set<int>>)

  /** The state after `handle_broadcast` of `m`. */
  function Broadcasted(r: Replica, m: int): Replica
  {
    r.(messages := r.messages + {m})
  }

  /** The state after `handle_gossip` of `seen` from `src`. */
  function Gossiped(r: Replica, src: string, seen: seq<int>): Replica
  {
    Replica(r.messages + Elements(seen), r.known[src := GetOr(r.known, src, {}) + Elements(seen)])
  }

  /** What a propagation round sends to `dest`: `messages − known[dest]`. */
  function Delta(r: Replica, dest: string): set<int>
  {
    r.messages - GetOr(r.known, dest, {})
  }

  /** `r'` has every value and every per-peer knowledge of `r`. */
  ghost predicate Grows(r: Replica, r': Replica)
  {
    r.messages <= r'.messages && forall p :: GetOr(r.known, p, {}) <= GetOr(r'.known, p, {})
  }

  /** Broadcast and gossip only ever add. */
  lemma UpdatesGrow(r: Replica, m: int, src: string, seen: seq<int>)
    ensures Grows(r, Broadcasted(r, m)) && m in Broadcasted(r, m).messages
    ensures Grows(r, Gossiped(r, src, seen)) && Elements(seen) <= Gossiped(r, src, seen).messages
  {
  }

  /** Handling the same gossip twice leaves the state of handling it once. */
  lemma GossipIdempotent(r: Replica, src: string, seen: seq<int>)
    ensures Gossiped(Gossiped(r, src, seen), src, seen) == Gossiped(r, src, seen)
  {
    var once := Gossiped(r, src, seen);
    assert GetOr(once.known, src, {}) + Elements(seen) == GetOr(once.known, src, {});
    assert once.known[src := GetOr(once.known, src, {})] == once.known;
  }

  /** Two gossip messages give the same state in either order. */
  lemma GossipCommutes(r: Replica, a: string, seenA: seq<int>, b: string, seenB: seq<int>)
    ensures Gossiped(Gossiped(r, a, seenA), b, seenB) == Gossiped(Gossiped(r, b, seenB), a, seenA)
  {
    var ab := Gossiped(Gossiped(r, a, seenA), b, seenB);
    var ba := Gossiped(Gossiped(r, b, seenB), a, seenA);
    assert ab.messages == ba.messages;
    forall p ensures (p in ab.known <==> p in ba.known) && (p in ab.known ==> ab.known[p] == ba.known[p]) {
    }
    assert ab.known == ba.known;
  }

  /** Once a peer has gossiped a value to this node, no later round sends that
      value to it, whatever else is learned meanwhile. */
  lemma ReportedNotResent(r: Replica, peer: string, seen: seq<int>, x: int, later: Replica)
    requires x in seen && Grows(Gossiped(r, peer, seen), later)
    ensures x !in Delta(later, peer)
  {
    assert x in GetOr(Gossiped(r, peer, seen).known, peer, {});
  }

  /** `m` is the `gossip` a round sends from `src` to `dest`, with the given
      `msg_id`, listing exactly `delta`. */
  predicate GossipMessage(m: Message, src: string, dest: string, msgId: int, delta: set<int>)
  {
    && m.src == src && m.dest == dest
    && m.body.kind == "gossip" && m.body.msgId == Some(msgId) && m.body.inReplyTo.None?
    && m.body.payload.SeenFields? && Enumerates(m.body.payload.seen, delta)
  }

  /** The handler table the program registers. */
  function Handlers(): map<string, Handler>
  {
    map["broadcast" := HandleBroadcast, "read" := HandleRead,
        "topology" := HandleTopology, "gossip" := HandleGossip]
  }

  class GossipNode {
    const node: Node<Handler, NoCallback, Hook>
    var messages: set<int>
    var known: map<string, set<int>>
    var lastPropagated: int

    function State(): Replica
      reads this
    {
      Replica(messages, known)
    }

    /** The registrations are those the program makes at import, and no callback is pending. */
    ghost predicate Valid()
      reads this, node
    {
      node.hooks == [PropagateMessages] && node.handlers == Handlers() && node.callbacks == map[]
    }

    /** Module set-up: empty state, the clock reading `start`, the hook and the four handlers. */
    constructor (start: int)
      ensures Valid() && fresh(node)
      ensures messages == {} && known == map[] && lastPropagated == start
      ensures !node.initialized && node.msgId == 0 && node.outbox == []
    {
      var n := new Node<Handler, NoCallback, Hook>();
      n.BeforeMessage(PropagateMessages);
      var registered := n.Handles("broadcast", HandleBroadcast);
      registered := n.Handles("read", HandleRead);
      registered := n.Handles("topology", HandleTopology);
      registered := n.Handles("gossip", HandleGossip);
      node := n;
      messages, known, lastPropagated := {}, map[], start;
    }

    /** `propagate_messages`. When more than the interval has passed, every
        neighbour, in topology order, gets one `gossip` with a fresh `msg_id`
        and no callback, listing exactly the values it is not known to have;
        then the clock reading is recorded. `messages` and `known` keep their
        contents (looking a peer up in `known` may add an empty entry). */
    method Propagate(now: int) returns (st: Status)
      modifies this`known, this`lastPropagated, node`topology, node`msgId, node`outbox, node`callbacks
      ensures now - old(lastPropagated) <= PropagationInterval ==> st == Done && unchanged(this, node)
      ensures now - old(lastPropagated) > PropagationInterval && !node.initialized ==>
        st == Crash(Uninitialized) && unchanged(this, node)
      ensures now - old(lastPropagated) > PropagationInterval && node.initialized ==>
        && st == (if node.id in old(node.topology) || node.topologyDefaults then Done else Crash(MissingNeighbours))
        && (st.Crash? ==> unchanged(this, node))
      ensures node.callbacks == old(node.callbacks)
      ensures forall p :: GetOr(known, p, {}) == GetOr(old(known), p, {})
      ensures forall n :: GetOr(node.topology, n, []) == GetOr(old(node.topology), n, [])
      ensures now - old(lastPropagated) > PropagationInterval && st.Done? ==>
        var ns := GetOr(old(node.topology), node.id, []);
        && lastPropagated == now
        && node.msgId == old(node.msgId) + |ns|
        && |node.outbox| == |old(node.outbox)| + |ns|
        && node.outbox[..|old(node.outbox)|] == old(node.outbox)
        && forall j :: 0 <= j < |ns| ==>
             GossipMessage(node.outbox[|old(node.outbox)| + j], node.id, ns[j], old(node.msgId) + j + 1, Delta(old(State()), ns[j]))
    {
      if now - lastPropagated <= PropagationInterval {
        return Done;
      }
      var ns;
      st, ns := node.Neighbours();
      if st.Crash? {
        return;
      }
      ghost var sentBefore, firstId, before := node.outbox, node.msgId + 1, State();
      ghost var topology := node.topology;
      for j := 0 to |ns|
        invariant node.topology == topology
        invariant |node.outbox| == |sentBefore| + j && node.outbox[..|sentBefore|] == sentBefore
        invariant node.msgId == firstId - 1 + j
        invariant node.callbacks == old(node.callbacks)
        invariant messages == before.messages
        invariant forall p :: GetOr(known, p, {}) == GetOr(before.known, p, {})
        invariant forall k :: 0 <= k < j ==>
          GossipMessage(node.outbox[|sentBefore| + k], node.id, ns[k], firstId + k, Delta(before, ns[k]))
      {
        var dest := ns[j];
        var knownTo := GetOr(known, dest, {});
        known := known[dest := knownTo];
        var notifyOf := Enumerate(messages - knownTo);
        var id := node.NextMsgId();
        var sent := node.SendTo(dest, Body("gossip", Some(id), None, SeenFields(notifyOf)), None);
      }
      lastPropagated := now;
    }

    /** `handle_broadcast`: the value joins `messages`, then `broadcast_ok` goes back to the sender. */
    method Broadcast(request: Message) returns (st: Status)
      modifies this`messages, node`outbox, node`callbacks
      ensures !request.body.payload.MessageFields? ==> st == Crash(MissingField("message")) && unchanged(this, node)
      ensures request.body.payload.MessageFields? ==>
        && State() == Broadcasted(old(State()), request.body.payload.message)
        && st == node.ReplyStatus(request)
        && node.outbox == if st.Done? then old(node.outbox) + [node.Answer(request, Plain("broadcast_ok", NoFields))]
                          else old(node.outbox)
      ensures node.callbacks == old(node.callbacks)
    {
      if !request.body.payload.MessageFields? {
        return Crash(MissingField("message"));
      }
      messages := messages + {request.body.payload.message};
      st := node.ReplyTo(request, Plain("broadcast_ok", NoFields));
    }

    /** `handle_read`: `read_ok` listing exactly the values of `messages`; the state is unchanged. */
    method Read(request: Message) returns (st: Status)
      modifies node`outbox, node`callbacks
      ensures st == node.ReplyStatus(request)
      ensures st.Crash? ==> unchanged(node)
      ensures st.Done? ==>
        && |node.outbox| == |old(node.outbox)| + 1 && node.outbox[..|old(node.outbox)|] == old(node.outbox)
        && var reply := node.outbox[|old(node.outbox)|];
           && RepliesTo(reply, request) && reply.src == node.id
           && reply.body.kind == "read_ok" && reply.body.msgId.None?
           && reply.body.payload.MessagesFields? && Enumerates(reply.body.payload.messages, messages)
      ensures node.callbacks == old(node.callbacks)
    {
      var listed := Enumerate(messages);
      st := node.ReplyTo(request, Plain("read_ok", MessagesFields(listed)));
    }

    /** `handle_topology`: replies `topology_ok` and leaves the topology as it is. */
    method TopologyMessage(request: Message) returns (st: Status)
      modifies node`outbox, node`callbacks
      ensures st == node.ReplyStatus(request)
      ensures node.outbox == if st.Done? then old(node.outbox) + [node.Answer(request, Plain("topology_ok", NoFields))]
                             else old(node.outbox)
      ensures node.topology == old(node.topology) && node.callbacks == old(node.callbacks)
    {
      st := node.ReplyTo(request, Plain("topology_ok", NoFields));
    }

    /** `handle_gossip`: `seen` joins both `messages` and the sender's `known`
        set; other peers' entries stay, and nothing is sent. */
    method Gossip(request: Message) returns (st: Status)
      modifies this`messages, this`known
      ensures !request.body.payload.SeenFields? ==> st == Crash(MissingField("seen")) && unchanged(this)
      ensures request.body.payload.SeenFields? ==>
        st == Done && State() == Gossiped(old(State()), request.src, request.body.payload.seen)
    {
      if !request.body.payload.SeenFields? {
        return Crash(MissingField("seen"));
      }
      var seen := Elements(request.body.payload.seen);
      known := known[request.src := GetOr(known, request.src, {}) + seen];
      messages := messages + seen;
      st := Done;
    }

    /** Runs the handler `run` found for `msg`. */
    method Dispatch(h: Handler, msg: Message) returns (st: Status)
      requires Valid()
      modifies this, node
      ensures Valid() && Grows(old(State()), State())
    {
      match h
      case HandleBroadcast => st := Broadcast(msg);
      case HandleRead => st := Read(msg);
      case HandleTopology => st := TopologyMessage(msg);
      case HandleGossip => st := Gossip(msg);
    }

    /** The `before_message` hooks, in registration order. */
    method RunHooks(now: int) returns (st: Status)
      requires Valid()
      modifies this, node
      ensures Valid() && Grows(old(State()), State())
    {
      st := Done;
      for j := 0 to |node.hooks|
        invariant Valid() && Grows(old(State()), State())
      {
        match node.hooks[j]
        case PropagateMessages => st := Propagate(now);
        if st.Crash? {
          return;
        }
      }
    }

    /** `Node.run` over a finite sequence of polls: each poll runs the hooks
        (so a round can fire on a poll that reads nothing), then routes the
        message read, if any, and runs its handler. The first exception ends
        the loop. `messages` and every peer's `known` set never shrink, and no
        callback is ever pending, so replies to this node are ignored. */
    method Run(inputs: seq<Poll>) returns (outcome: RunOutcome)
      requires Valid()
      modifies this, node
      ensures Valid() && Grows(old(State()), State())
    {
      outcome := Exhausted;
      for i := 0 to |inputs|
        invariant Valid() && Grows(old(State()), State())
      {
        var st := RunHooks(inputs[i].now);
        if st.Crash? {
          return Stopped(i, st.fault);
        }
        if inputs[i].msg.Some? {
          var msg := inputs[i].msg.value;
          var routed := node.Route(msg);
          match routed
          case Halted(f) => return Stopped(i, f);
          case ToHandler(h) =>
            st := Dispatch(h, msg);
            if st.Crash? {
              return Stopped(i, st.fault);
            }
          case ToCallback(_) =>
            // no callback is ever registered, so a reply never finds one
            assert false;
          case _ =>
        }
      }
    }
  }
}
