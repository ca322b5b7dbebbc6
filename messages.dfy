/** The wire-level unit of communication: an envelope holding a typed body.

    A body on the wire is a JSON object with a `type` string, optional
    `msg_id` and `in_reply_to` integers and message-specific fields. Here the
    message-specific fields are one variant of `Payload`; the decoding of a
    JSON line into a `Message` is not part of this model. */
module Messages {

  datatype Option<T> = None | Some(value: T)

  /** The uncaught exceptions that end the node's receive loop. */
  datatype Fault =
    | Uninitialized             // the node's id or topology is read before `init` (AttributeError)
    | MissingMsgId              // a reply is built for a request without `msg_id` (AssertionError)
    | MissingField(name: string) // a body field a handler reads is absent (KeyError)
    | MissingNeighbours         // own id absent from an explicitly installed topology (KeyError)
    | InvalidLiteral            // `int(...)` of a string that is not a decimal literal (ValueError)

  /** How an operation that may raise ended. */
  datatype Status = Done | Crash(fault: Fault)

  /** The value of an operation that may raise. */
  datatype Result<T> = Ok(value: T) | Err(fault: Fault)

  datatype Payload =
    | NoFields
    | InitFields(nodeId: string, nodeIds: seq<string>)
    | EchoFields(echo: string)
    | IdFields(id: int)
    | MessageFields(message: int)
    | MessagesFields(messages: seq<int>)
    | TopologyFields(topology: map<string, seq<string>>)
    | SeenFields(seen: seq<int>)
    | DeltaFields(delta: int)
    | ValueFields(value: int)
    | KeyFields(key: string)
    | KeyValueFields(key: string, value: int)

  /** `kind` is the body's `type` field. */
  datatype Body = Body(kind: string, msgId: Option<int>, inReplyTo: Option<int>, payload: Payload)

  datatype Message = Message(src: string, dest: string, body: Body)

  /** One pass of the receive loop `Node.__next__`: the clock reading
      (integer milliseconds) the `before_message` hooks see, and the message
      read after them, `None` when stdin had no line ready or the line did
      not decode (the loop then goes round again, hooks first). */
  datatype Poll = Poll(now: int, msg: Option<Message>)

  /** A body carrying neither `msg_id` nor `in_reply_to`, as every handler builds its replies. */
  function Plain(kind: string, payload: Payload): Body
  {
    Body(kind, None, None, payload)
  }

  /** `reply` answers `request`: it goes back to the request's sender and is
      correlated with the request's `msg_id`, which must exist. */
  predicate RepliesTo(reply: Message, request: Message)
  {
    && request.body.msgId.Some?
    && reply.dest == request.src
    && reply.body.inReplyTo == request.body.msgId
  }

  /** A dictionary read with a default: `m[k]` when `k` is a key, `default`
      otherwise (a `defaultdict` lookup, `dict.get` or `setdefault`'s value). */
  function GetOr<K, V>(m: map<K, V>, k: K, default: V): V
  {
    if k in m then m[k] else default
  }

  function Elements(xs: seq<int>): set<int>
  {
    set x | x in xs
  }

  predicate NoDuplicates<T(==)>(xs: seq<T>)
  {
    forall i, j :: 0 <= i < j < |xs| ==> xs[i] != xs[j]
  }

  /** `xs` lists the elements of `s`, each exactly once, in some order: what
      Python's `list(s)` gives for a set. The order is the set's iteration
      order, which the model leaves open. */
  predicate Enumerates(xs: seq<int>, s: set<int>)
  {
    Elements(xs) == s && NoDuplicates(xs)
  }

  /** `list(s)` for a set of integers. */
  method Enumerate(s: set<int>) returns (xs: seq<int>)
    ensures Enumerates(xs, s)
  {
    xs := [];
    var rest := s;
    while rest != {}
      invariant rest <= s
      invariant Elements(xs) == s - rest
      invariant NoDuplicates(xs)
      decreases |rest|
    {
      NonEmptyHasMember(rest);
      var x :| x in rest;
      assert Elements(xs + [x]) == Elements(xs) + {x};
      xs := xs + [x];
      rest := rest - {x};
    }
  }

  /** A non-empty set has a member (stated so that a such-that can use it). */
  lemma NonEmptyHasMember(s: set<int>)
    requires s != {}
    ensures exists x :: x in s
  {
    if forall y :: y !in s {
      assert false;
    }
  }

  /** An enumeration is as long as the set it enumerates. */
  lemma {:induction false} EnumerationLength(xs: seq<int>, s: set<int>)
    requires Enumerates(xs, s)
    ensures |xs| == |s|
  {
    if xs != [] {
      var last := xs[|xs| - 1];
      var front := xs[..|xs| - 1];
      assert xs == front + [last];
      assert last !in front by {
        forall i | 0 <= i < |front| ensures front[i] != last {
          assert xs[i] != xs[|xs| - 1];
        }
      }
      assert Elements(front) == s - {last} by {
        forall x ensures x in Elements(front) <==> x in s - {last} {
          if x in front {
            var i :| 0 <= i < |front| && front[i] == x;
            assert xs[i] == x;
          }
          if x in s && x != last {
            assert x in xs;
            var i :| 0 <= i < |xs| && xs[i] == x;
            assert i < |front|;
            assert front[i] == x;
          }
        }
      }
      EnumerationLength(front, s - {last});
    }
  }
}
