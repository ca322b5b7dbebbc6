/** The broadcast challenge with a pending set (`challenges/3b-broadcast.py`).

    A node keeps `messages`, every value it has learned, and `to_propagate`,
    the values received since the last round. A `before_message` hook, at most
    once per second and only when something is pending, re-sends every pending
    value to every neighbour as a `broadcast`, then empties the pending set.
    The clock is the integer millisecond reading taken on each poll of the
    receive loop. */
module PendingBroadcast {
  import opened Messages
  import opened Runtime
  import Topology

  /** `propagate_messages` fires when more than 1 s has passed. */
  const PropagationInterval := 1000

  datatype Handler = HandleBroadcast | HandleRead | HandleTopology

  datatype Hook = PropagateMessages

  /** This program registers no callbacks. */
  datatype NoCallback = NoCallback

  /** The `broadcast` of value `v` to `dest` with `msg_id` `id`. */
  function Forward(src: string, dest: string, id: int, v: int): Message
  {
    Message(src, dest, Body("broadcast", Some(id), None, MessageFields(v)))
  }

  /** Value `v` sent to each of `ns` in order, ids counting up from `first`. */
  function Fanout(src: string, v: int, ns: seq<string>, first: int): (out: seq<Message>)
    ensures |out| == |ns|
    ensures forall j :: 0 <= j < |out| ==> out[j].dest == ns[j] && out[j].body.msgId == Some(first + j)
    ensures forall j, k :: 0 <= j < k < |out| ==> out[j].body.msgId != out[k].body.msgId
  {
    seq(|ns|, j requires 0 <= j < |ns| => Forward(src, ns[j], first + j, v))
  }

  /** What `product(to_propagate, neighbours)` sends: for each value in
      order, one message per neighbour; the k-th message sent carries
      `msg_id` first + k. */
  function Round(src: string, vals: seq<int>, ns: seq<string>, first: int): seq<Message>
    decreases |vals|
  {
    if vals == [] then []
    else
      var earlier := Round(src, vals[..|vals| - 1], ns, first);
      earlier + Fanout(src, vals[|vals| - 1], ns, first + |earlier|)
  }

  /** (a + 1)·m = a·m + m, and an index below a·m + m in a row of width m
      that starts at a·m lies past every earlier row. */
  lemma RowStep(a: nat, i: nat, j: nat, m: nat)
    requires i < a && j < m
    ensures (a + 1) * m == a * m + m
    ensures i * m + j < a * m
  {
    assert (i + 1) * m <= a * m by {
      MulMonotone(i + 1, a, m);
    }
  }

  lemma MulMonotone(x: nat, y: nat, m: nat)
    requires x <= y
    ensures x * m <= y * m
  {
  }

  /** A round sends |vals| × |neighbours| messages. */
  lemma {:induction false} RoundLength(src: string, vals: seq<int>, ns: seq<string>, first: int)
    ensures |Round(src, vals, ns, first)| == |vals| * |ns|
    decreases |vals|
  {
    if vals != [] {
      var n := |vals| - 1;
      RoundLength(src, vals[..n], ns, first);
      assert |vals| * |ns| == n * |ns| + |ns|;
    }
  }

  /** Message k of a round carries `msg_id` first + k: the ids are
      consecutive, so each message has its own. */
  lemma {:induction false} RoundIds(src: string, vals: seq<int>, ns: seq<string>, first: int, k: nat)
    requires k < |Round(src, vals, ns, first)|
    ensures Round(src, vals, ns, first)[k].body.msgId == Some(first + k)
    decreases |vals|
  {
    var n := |vals| - 1;
    var earlier := Round(src, vals[..n], ns, first);
    if k >= |earlier| {
      assert Round(src, vals, ns, first)[k] == Fanout(src, vals[n], ns, first + |earlier|)[k - |earlier|];
    } else {
      RoundIds(src, vals[..n], ns, first, k);
    }
  }

  /** Listing the pending set once each, a round sends
      |to_propagate| × |neighbours| messages. */
  lemma RoundCount(src: string, vals: seq<int>, pending: set<int>, ns: seq<string>, first: int)
    requires Enumerates(vals, pending)
    ensures |Round(src, vals, ns, first)| == |pending| * |ns|
  {
    EnumerationLength(vals, pending);
    RoundLength(src, vals, ns, first);
  }

  /** Value i goes to neighbour j as message i·|ns| + j of the round, so
      every (value, neighbour) pair is sent, each at its own position. */
  lemma {:induction false} RoundAt(src: string, vals: seq<int>, ns: seq<string>, first: int, i: nat, j: nat)
    requires i < |vals| && j < |ns|
    ensures i * |ns| + j < |Round(src, vals, ns, first)|
    ensures Round(src, vals, ns, first)[i * |ns| + j] == Forward(src, ns[j], first + i * |ns| + j, vals[i])
    decreases |vals|
  {
    var n := |vals| - 1;
    var front := vals[..n];
    var earlier := Round(src, front, ns, first);
    RoundLength(src, front, ns, first);
    RoundLength(src, vals, ns, first);
    if i < n {
      RowStep(n, i, j, |ns|);
      RoundAt(src, front, ns, first, i, j);
      assert vals[i] == front[i];
    } else {
      assert i * |ns| == |earlier|;
    }
  }

  /** The handler table the program registers. */
  function Handlers(): map<string, Handler>
  {
    map["broadcast" := HandleBroadcast, "read" := HandleRead, "topology" := HandleTopology]
  }

  class PendingNode {
    const node: Node<Handler, NoCallback, Hook>
    var messages: set<int>
    var toPropagate: set<int>
    var lastPropagated: int

    /** Pending values are learned values; the registrations are those the
        program makes at import, and no callback is pending. */
    ghost predicate Valid()
      reads this, node
    {
      && toPropagate <= messages
      && node.hooks == [PropagateMessages] && node.handlers == Handlers() && node.callbacks == map[]
    }

    /** Module set-up: empty sets, the clock reading `start`, the hook and the three handlers. */
    constructor (start: int)
      ensures Valid() && fresh(node)
      ensures messages == {} && toPropagate == {} && lastPropagated == start
      ensures !node.initialized && node.msgId == 0 && node.outbox == []
    {
      var n := new Node<Handler, NoCallback, Hook>();
      n.BeforeMessage(PropagateMessages);
      var registered := n.Handles("broadcast", HandleBroadcast);
      registered := n.Handles("read", HandleRead);
      registered := n.Handles("topology", HandleTopology);
      node := n;
      messages, toPropagate, lastPropagated := {}, {}, start;
    }

    /** `propagate_messages`. It fires only when more than the interval has
        passed and something is pending; then every pending value (listed in
        `vals`, in iteration order) goes to every neighbour, |to_propagate| ×
        |neighbours| messages with fresh ids, the pending set is emptied and
        the clock reading recorded. `messages` never changes. */
    method Propagate(now: int) returns (st: Status, ghost vals: seq<int>)
      modifies this`toPropagate, this`lastPropagated, node`topology, node`msgId, node`outbox, node`callbacks
      ensures !(now - old(lastPropagated) > PropagationInterval && old(toPropagate) != {}) ==>
        st == Done && unchanged(this, node)
      ensures now - old(lastPropagated) > PropagationInterval && old(toPropagate) != {} ==>
        && st == (if !node.initialized then Crash(Uninitialized)
                  else if node.id in old(node.topology) || node.topologyDefaults then Done
                  else Crash(MissingNeighbours))
        && (st.Crash? ==> unchanged(this, node))
      ensures messages == old(messages) && node.callbacks == old(node.callbacks)
      ensures forall n :: GetOr(node.topology, n, []) == GetOr(old(node.topology), n, [])
      ensures now - old(lastPropagated) > PropagationInterval && old(toPropagate) != {} && st.Done? ==>
        var ns := GetOr(old(node.topology), node.id, []);
        && Enumerates(vals, old(toPropagate))
        && node.outbox == old(node.outbox) + Round(node.id, vals, ns, old(node.msgId) + 1)
        && node.msgId == old(node.msgId) + |vals| * |ns|
        && toPropagate == {} && lastPropagated == now
    {
      vals := [];
      if !(now - lastPropagated > PropagationInterval && toPropagate != {}) {
        return Done, vals;
      }
      var listed := Enumerate(toPropagate);
      vals := listed;
      var ns;
      st, ns := node.Neighbours();
      if st.Crash? {
        return;
      }
      ghost var first := node.msgId + 1;
      SendRound(listed, ns);
      RoundLength(node.id, listed, ns, first);
      toPropagate := {};
      lastPropagated := now;
    }

    /** The propagation loop: every value of `vals` goes to every one of `ns`. */
    method SendRound(vals: seq<int>, ns: seq<string>)
      requires node.initialized
      modifies node`msgId, node`outbox, node`callbacks
      ensures node.outbox == old(node.outbox) + Round(node.id, vals, ns, old(node.msgId) + 1)
      ensures node.msgId == old(node.msgId) + |Round(node.id, vals, ns, old(node.msgId) + 1)|
      ensures node.callbacks == old(node.callbacks)
    {
      ghost var first := node.msgId + 1;
      for i := 0 to |vals|
        invariant node.callbacks == old(node.callbacks)
        invariant node.outbox == old(node.outbox) + Round(node.id, vals[..i], ns, first)
        invariant node.msgId == first - 1 + |Round(node.id, vals[..i], ns, first)|
      {
        SendValue(vals[i], ns);
        assert vals[..i + 1][..i] == vals[..i];
      }
      assert vals[..|vals|] == vals;
    }

    /** The inner part of the propagation loop: `v` goes to each of `ns` in
        turn, each `broadcast` under a fresh id. */
    method SendValue(v: int, ns: seq<string>)
      requires node.initialized
      modifies node`msgId, node`outbox, node`callbacks
      ensures node.outbox == old(node.outbox) + Fanout(node.id, v, ns, old(node.msgId) + 1)
      ensures node.msgId == old(node.msgId) + |ns|
      ensures node.callbacks == old(node.callbacks)
    {
      for j := 0 to |ns|
        invariant node.callbacks == old(node.callbacks)
        invariant node.outbox == old(node.outbox) + Fanout(node.id, v, ns[..j], old(node.msgId) + 1)
        invariant node.msgId == old(node.msgId) + j
      {
        var id := node.NextMsgId();
        var sent := node.SendTo(ns[j], Body("broadcast", Some(id), None, MessageFields(v)), None);
        assert Fanout(node.id, v, ns[..j + 1], old(node.msgId) + 1)
            == Fanout(node.id, v, ns[..j], old(node.msgId) + 1) + [Forward(node.id, ns[j], id, v)];
      }
      assert ns[..|ns|] == ns;
    }

    /** `handle_broadcast`: the value joins `messages` and `to_propagate`,
        then `broadcast_ok` goes back to the sender. */
    method Broadcast(request: Message) returns (st: Status)
      modifies this`messages, this`toPropagate, node`outbox, node`callbacks
      ensures !request.body.payload.MessageFields? ==> st == Crash(MissingField("message")) && unchanged(this, node)
      ensures request.body.payload.MessageFields? ==>
        && messages == old(messages) + {request.body.payload.message}
        && toPropagate == old(toPropagate) + {request.body.payload.message}
        && st == node.ReplyStatus(request)
        && node.outbox == if st.Done? then old(node.outbox) + [node.Answer(request, Plain("broadcast_ok", NoFields))]
                          else old(node.outbox)
      ensures node.callbacks == old(node.callbacks)
    {
      if !request.body.payload.MessageFields? {
        return Crash(MissingField("message"));
      }
      var message := request.body.payload.message;
      messages := messages + {message};
      toPropagate := toPropagate + {message};
      st := node.ReplyTo(request, Plain("broadcast_ok", NoFields));
    }

    /** `handle_read`: `read_ok` listing exactly the values of `messages`; the state is unchanged. */
    method Read(request: Message) returns (st: Status)
      modifies node`outbox, node`callbacks
      ensures st == node.ReplyStatus(request)
      ensures st.Crash? ==> unchanged(node)
      ensures st.Done? ==>
        && |node.outbox| == |old(node.outbox)| + 1 && node.outbox[..|old(node.outbox)|] == old(node.outbox)
        && var reply := node.outbox[|old(node.outbox)|];
           && RepliesTo(reply, request) && reply.src == node.id
           && reply.body.kind == "read_ok" && reply.body.msgId.None?
           && reply.body.payload.MessagesFields? && Enumerates(reply.body.payload.messages, messages)
      ensures node.callbacks == old(node.callbacks)
    {
      var listed := Enumerate(messages);
      st := node.ReplyTo(request, Plain("read_ok", MessagesFields(listed)));
    }

    /** `handle_topology`: ignores the payload and replies `topology_ok`. */
    method TopologyMessage(request: Message) returns (st: Status)
      modifies node`outbox, node`callbacks
      ensures st == node.ReplyStatus(request)
      ensures node.outbox == if st.Done? then old(node.outbox) + [node.Answer(request, Plain("topology_ok", NoFields))]
                             else old(node.outbox)
      ensures node.topology == old(node.topology) && node.callbacks == old(node.callbacks)
    {
      st := node.ReplyTo(request, Plain("topology_ok", NoFields));
    }

    /** Runs the handler `run` found for `msg`. */
    method Dispatch(h: Handler, msg: Message) returns (st: Status)
      requires Valid()
      modifies this, node
      ensures Valid() && old(messages) <= messages
    {
      match h
      case HandleBroadcast => st := Broadcast(msg);
      case HandleRead => st := Read(msg);
      case HandleTopology => st := TopologyMessage(msg);
    }

    /** The `before_message` hooks, in registration order. */
    method RunHooks(now: int) returns (st: Status)
      requires Valid()
      modifies this, node
      ensures Valid() && old(messages) == messages
    {
      st := Done;
      ghost var ignored: seq<int>;
      for j := 0 to |node.hooks|
        invariant Valid() && old(messages) == messages
      {
        match node.hooks[j]
        case PropagateMessages => st, ignored := Propagate(now);
        if st.Crash? {
          return;
        }
      }
    }

    /** `Node.run` over a finite sequence of polls: each poll runs the hooks
        (so a round can fire on a poll that reads nothing), then routes the
        message read, if any, and runs its handler. The first exception ends
        the loop. Pending values stay learned values throughout, `messages`
        never shrinks, and no callback is ever pending. */
    method Run(inputs: seq<Poll>) returns (outcome: RunOutcome)
      requires Valid()
      modifies this, node
      ensures Valid() && old(messages) <= messages
    {
      outcome := Exhausted;
      for i := 0 to |inputs|
        invariant Valid() && old(messages) <= messages
      {
        var st := RunHooks(inputs[i].now);
        if st.Crash? {
          return Stopped(i, st.fault);
        }
        if inputs[i].msg.Some? {
          var msg := inputs[i].msg.value;
          var routed := node.Route(msg);
          match routed
          case Halted(f) => return Stopped(i, f);
          case ToHandler(h) =>
            st := Dispatch(h, msg);
            if st.Crash? {
              return Stopped(i, st.fault);
            }
          case ToCallback(_) =>
            // no callback is ever registered, so a reply never finds one
            assert false;
          case _ =>
        }
      }
    }
  }
}
