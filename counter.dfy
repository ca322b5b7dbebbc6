/** The grow-only counter challenge (`challenges/4-grow-only-counter.py`).

    Each node keeps its own running total in `node.state[node.id]` and
    mirrors it to the sequential key-value store under its own id. A `read`
    starts from the node's own total, asks the store for every other node's
    total and, when the response to the last of those requests arrives,
    replies with the sum.

    Each `read` handler call creates a fresh closure variable `value` shared
    by the callbacks it registers; here those variables are the cells of
    `cells`, and a callback names its cell by index. */
module Counter {
  import opened Messages
  import opened Runtime

  datatype Handler = HandleAdd | HandleRead

  /** This program registers no `before_message` hook. */
  datatype NoHook = NoHook

  /** `partial(callback, final=final)` as one read registers it: the cell of
      its closure's `value`, the read request it will answer, and `final`. */
  datatype Callback = Aggregate(cell: nat, request: Message, final: bool)

  /** The handler table the program registers. */
  function Handlers(): map<string, Handler>
  {
    map["add" := HandleAdd, "read" := HandleRead]
  }

  function Sum(xs: seq<int>): int
  {
    if xs == [] then 0 else Sum(xs[..|xs| - 1]) + xs[|xs| - 1]
  }

  /** `[o for o in nodes if o != self]`. */
  function Others(nodes: seq<string>, self: string): (others: seq<string>)
    ensures |others| <= |nodes|
    ensures forall o :: o in others <==> o in nodes && o != self
    decreases |nodes|
  {
    if nodes == [] then []
    else
      var front := Others(nodes[..|nodes| - 1], self);
      var last := nodes[|nodes| - 1];
      assert nodes == nodes[..|nodes| - 1] + [last];
      if last != self then front + [last] else front
  }

  /** Node names that are distinct stay distinct after filtering, and
      exactly one name (the node's own) is dropped when it occurs. */
  lemma {:induction false} OthersDistinct(nodes: seq<string>, self: string)
    requires NoDuplicates(nodes)
    ensures NoDuplicates(Others(nodes, self))
    ensures |Others(nodes, self)| == if self in nodes then |nodes| - 1 else |nodes|
    decreases |nodes|
  {
    if nodes != [] {
      var init := nodes[..|nodes| - 1];
      var last := nodes[|nodes| - 1];
      assert nodes == init + [last];
      assert NoDuplicates(init);
      OthersDistinct(init, self);
      assert last !in init;
      assert self in nodes <==> self in init || self == last;
    }
  }

  /** `final` for the request sent for `others[k]`: `key == others[-1]`. */
  predicate IsFinal(others: seq<string>, k: nat)
    requires k < |others|
  {
    others[k] == others[|others| - 1]
  }

  /** When the other nodes' names are distinct, only the request for the
      last of them is final, so the read is answered once. */
  lemma FinalIsLast(others: seq<string>, k: nat)
    requires NoDuplicates(others) && k < |others|
    ensures IsFinal(others, k) <==> k == |others| - 1
  {
  }

  /** When a name occurs twice and the second is last, two callbacks carry
      `final`, and the read is answered twice. */
  lemma RepeatedLastName(others: seq<string>, k: nat)
    requires k < |others| - 1 && others[k] == others[|others| - 1]
    ensures IsFinal(others, k) && IsFinal(others, |others| - 1)
    ensures forall j :: 0 <= j < |others| && others[j] != others[|others| - 1] ==> !IsFinal(others, j)
  {
  }

  /** The `read` requests a `read` handler sends to the store: one per other
      node, keyed by its name, ids counting up from `first`. */
  function StoreReads(src: string, others: seq<string>, first: int): (out: seq<Message>)
    ensures |out| == |others|
    ensures forall k :: 0 <= k < |out| ==>
      out[k].dest == SeqKV && out[k].body.kind == "read" && out[k].body.msgId == Some(first + k)
    ensures forall j, k :: 0 <= j < k < |out| ==> out[j].body.msgId != out[k].body.msgId
  {
    seq(|others|, k requires 0 <= k < |others| => Message(src, SeqKV, Body("read", Some(first + k), None, KeyFields(others[k]))))
  }

  /** `pending` after the requests for `others[..n]` registered their
      callbacks, under the ids counting up from `first`. */
  function WithReadCallbacks(pending: map<int, Callback>, first: int, cell: nat, request: Message,
                             others: seq<string>, n: nat): (m: map<int, Callback>)
    requires n <= |others|
    ensures forall k :: k in m <==> k in pending || first <= k < first + n
    ensures forall k :: first <= k < first + n ==> m[k] == Aggregate(cell, request, IsFinal(others, k - first))
    ensures forall k :: k in pending && !(first <= k < first + n) ==> m[k] == pending[k]
  {
    if n == 0 then pending
    else WithReadCallbacks(pending, first, cell, request, others, n - 1)[first + n - 1 := Aggregate(cell, request, IsFinal(others, n - 1))]
  }

  /** With distinct node names that include the node's own, a read's
      callbacks carry `final` exactly once, on the request for the last
      other node: such a read is answered exactly once, and only when
      there is another node. */
  lemma OneFinalCallback(pending: map<int, Callback>, first: int, cell: nat, request: Message,
                         nodes: seq<string>, self: string)
    requires NoDuplicates(nodes) && self in nodes
    ensures var others := Others(nodes, self);
      var m := WithReadCallbacks(pending, first, cell, request, others, |others|);
      && |others| == |nodes| - 1
      && forall k :: first <= k < first + |others| ==> (m[k].final <==> k == first + |others| - 1)
  {
    var others := Others(nodes, self);
    OthersDistinct(nodes, self);
    forall k | 0 <= k < |others|
      ensures IsFinal(others, k) <==> k == |others| - 1
    {
      FinalIsLast(others, k);
    }
  }

  class CounterNode {
    const node: Node<Handler, Callback, NoHook>
    const kv: SeqKVService<Handler, Callback, NoHook>
    /** `node.state`: the node's own running total under its id. */
    var state: map<string, int>
    /** The closure variables `value` of the reads handled so far. */
    var cells: seq<int>
    /** For each read: the own total it started from ... */
    ghost var base: seq<int>
    /** ... and the values of the `read_ok` responses added to it since. */
    ghost var received: seq<seq<int>>

    /** Each closure variable holds its read's starting total plus every
        value added to it; every pending callback names an existing cell,
        and its key is an id already issued. */
    ghost predicate Valid()
      reads this, node, kv
    {
      && kv.node == node
      && node.handlers == Handlers() && node.hooks == []
      && node.CallbackKeysIssued()
      && |base| == |cells| && |received| == |cells|
      && (forall c :: 0 <= c < |cells| ==> cells[c] == base[c] + Sum(received[c]))
      && (forall k :: k in node.callbacks ==> node.callbacks[k].cell < |cells|)
    }

    /** Module set-up: a node, the store client on it, and the two handlers. */
    constructor ()
      ensures Valid() && fresh(node)
      ensures state == map[] && cells == []
      ensures !node.initialized && node.msgId == 0 && node.outbox == [] && node.callbacks == map[]
    {
      var n := new Node<Handler, Callback, NoHook>();
      var client := new SeqKVService(n);
      var registered := n.Handles("add", HandleAdd);
      registered := n.Handles("read", HandleRead);
      node, kv := n, client;
      state, cells, base, received := map[], [], [], [];
    }

    /** `increment_global_counter`: reads `delta`, adds it to the own total
        (0 when absent), writes the new total to the store under the node's
        id without a callback, then replies `add_ok`. */
    method Add(request: Message) returns (st: Status)
      requires Valid()
      modifies this`state, node`msgId, node`outbox, node`callbacks
      ensures Valid()
      ensures !request.body.payload.DeltaFields? ==> st == Crash(MissingField("delta")) && unchanged(this, node)
      ensures request.body.payload.DeltaFields? && !node.initialized ==> st == Crash(Uninitialized) && unchanged(this, node)
      ensures request.body.payload.DeltaFields? && node.initialized ==>
        var total := GetOr(old(state), node.id, 0) + request.body.payload.delta;
        && state == old(state)[node.id := total]
        && node.msgId == old(node.msgId) + 1
        && st == node.ReplyStatus(request)
        && node.outbox == old(node.outbox)
             + [Message(node.id, SeqKV, Body("write", Some(node.msgId), None, KeyValueFields(node.id, total)))]
             + (if st.Done? then [node.Answer(request, Plain("add_ok", NoFields))] else [])
        && node.callbacks == old(node.callbacks)
    {
      if !request.body.payload.DeltaFields? {
        return Crash(MissingField("delta"));
      }
      if !node.initialized {
        return Crash(Uninitialized);
      }
      var delta := request.body.payload.delta;
      var total := GetOr(state, node.id, 0) + delta;
      state := state[node.id := total];
      st := kv.Write(node.id, total, None);
      st := node.ReplyTo(request, Plain("add_ok", NoFields));
    }

    /** `read_counter_value`: a new closure variable starts at the own total
        (stored as 0 when absent); one store `read` per other node follows,
        each registering a callback on that variable, final for the last
        name. Nothing is replied here: with no other node nothing ever is. */
    method Read(request: Message) returns (st: Status)
      requires Valid()
      modifies this`state, this`cells, this`base, this`received, node`msgId, node`outbox, node`callbacks
      ensures Valid()
      ensures !node.initialized ==> st == Crash(Uninitialized) && unchanged(this, node)
      ensures node.initialized ==>
        var own := GetOr(old(state), node.id, 0);
        var others := Others(node.nodes, node.id);
        && st == Done
        && state == old(state)[node.id := own]
        && cells == old(cells) + [own] && base == old(base) + [own] && received == old(received) + [[]]
        && node.outbox == old(node.outbox) + StoreReads(node.id, others, old(node.msgId) + 1)
        && node.msgId == old(node.msgId) + |others|
        && (forall k :: old(node.msgId) < k <= node.msgId ==> k !in old(node.callbacks))
        && node.callbacks == WithReadCallbacks(old(node.callbacks), old(node.msgId) + 1, |old(cells)|, request, others, |others|)
    {
      if !node.initialized {
        return Crash(Uninitialized);
      }
      var own := GetOr(state, node.id, 0);
      state := state[node.id := own];
      var cell := |cells|;
      cells, base, received := cells + [own], base + [own], received + [[]];
      var others := Others(node.nodes, node.id);
      RequestTotals(others, cell, request);
      st := Done;
    }

    /** The loop of `read_counter_value`: one store `read` per name of
        `others`, each registering a callback on closure variable `cell`. */
    method RequestTotals(others: seq<string>, cell: nat, request: Message)
      requires kv.node == node && node.initialized
      modifies node`msgId, node`outbox, node`callbacks
      ensures node.outbox == old(node.outbox) + StoreReads(node.id, others, old(node.msgId) + 1)
      ensures node.msgId == old(node.msgId) + |others|
      ensures node.callbacks == WithReadCallbacks(old(node.callbacks), old(node.msgId) + 1, cell, request, others, |others|)
    {
      ghost var first := node.msgId + 1;
      for i := 0 to |others|
        invariant node.outbox == old(node.outbox) + StoreReads(node.id, others[..i], first)
        invariant node.msgId == first - 1 + i
        invariant node.callbacks == WithReadCallbacks(old(node.callbacks), first, cell, request, others, i)
      {
        var final := others[i] == others[|others| - 1];
        var st := kv.Read(others[i], Some(Aggregate(cell, request, final)));
        assert StoreReads(node.id, others[..i + 1], first)
            == StoreReads(node.id, others[..i], first) + [Message(node.id, SeqKV, Body("read", Some(first + i), None, KeyFields(others[i])))];
      }
      assert others[..|others|] == others;
    }

    /** The callback `partial(callback, final=...)`: a `read_ok` response's
        `value` is added to the read's closure variable (any other response
        adds nothing); the final callback then replies `read_ok` to the
        original request with the read's starting total plus everything
        added to it. */
    method OnStoreResponse(cb: Callback, response: Message) returns (st: Status)
      requires Valid() && cb.cell < |cells|
      modifies this`cells, this`received, node`outbox, node`callbacks
      ensures Valid()
      ensures response.body.kind == "read_ok" && !response.body.payload.ValueFields? ==>
        st == Crash(MissingField("value")) && unchanged(this, node)
      ensures !(response.body.kind == "read_ok" && !response.body.payload.ValueFields?) ==>
        var added := if response.body.kind == "read_ok" then [response.body.payload.value] else [];
        && received == old(received)[cb.cell := old(received)[cb.cell] + added]
        && cells == old(cells)[cb.cell := cells[cb.cell]]
        && cells[cb.cell] == base[cb.cell] + Sum(received[cb.cell])
        && (!cb.final ==> st == Done && node.outbox == old(node.outbox))
        && (cb.final ==>
              && st == node.ReplyStatus(cb.request)
              && node.outbox == if st.Done?
                   then old(node.outbox) + [node.Answer(cb.request, Plain("read_ok", ValueFields(base[cb.cell] + Sum(received[cb.cell]))))]
                   else old(node.outbox))
      ensures node.callbacks == old(node.callbacks)
    {
      if response.body.kind == "read_ok" {
        if !response.body.payload.ValueFields? {
          return Crash(MissingField("value"));
        }
        var value := response.body.payload.value;
        ghost var now := received[cb.cell] + [value];
        assert now[..|now| - 1] == received[cb.cell];
        cells := cells[cb.cell := cells[cb.cell] + value];
        received := received[cb.cell := now];
      } else {
        assert received[cb.cell] + [] == received[cb.cell];
      }
      st := Done;
      if cb.final {
        st := node.ReplyTo(cb.request, Plain("read_ok", ValueFields(cells[cb.cell])));
      }
    }

    /** Runs the handler `run` found for `msg`. */
    method Dispatch(h: Handler, msg: Message) returns (st: Status)
      requires Valid()
      modifies this, node
      ensures Valid() && |old(cells)| <= |cells|
    {
      match h
      case HandleAdd => st := Add(msg);
      case HandleRead => st := Read(msg);
    }

    /** `Node.run` over a finite sequence of polls: there are no hooks, so a
        poll that reads nothing changes nothing; a message read is routed and
        its handler or callback run; the first exception ends the loop. Every
        closure variable keeps its read's starting total plus the values
        added to it. */
    method Run(inputs: seq<Poll>) returns (outcome: RunOutcome)
      requires Valid()
      modifies this, node
      ensures Valid() && |old(cells)| <= |cells|
    {
      outcome := Exhausted;
      for i := 0 to |inputs|
        invariant Valid() && |old(cells)| <= |cells|
      {
        if inputs[i].msg.Some? {
          var msg := inputs[i].msg.value;
          ghost var pending := node.callbacks;
          assert forall k :: k in pending ==> pending[k].cell < |cells|;
          var routed := node.Route(msg);
          match routed
          case Halted(f) => return Stopped(i, f);
          case ToHandler(h) =>
            var st := Dispatch(h, msg);
            if st.Crash? {
              return Stopped(i, st.fault);
            }
          case ToCallback(cb) =>
            assert cb == pending[msg.body.inReplyTo.value];
            var st := OnStoreResponse(cb, msg);
            if st.Crash? {
              return Stopped(i, st.fault);
            }
          case _ =>
        }
      }
    }
  }
}
