# Gossip Glomers nodes in Dafny

This project models the Python solutions to the Maelstrom "Gossip Glomers"
distributed-systems challenges. Each program is a single-threaded node
process. It reads JSON messages from stdin, dispatches them to handlers, and
writes replies and requests to stdout.

The model has eight modules, one per source file plus two shared ones:

- `Messages` (messages.dfy) holds the envelope `Message(src, dest, body)` and
  the `Body` with `type`, `msg_id`, `in_reply_to` and one `Payload` variant
  for the message-specific fields. It also holds the exceptions that end a
  node's loop (`Fault`), the outcome of a step (`Status`, `Result`), and
  `Enumerate`, which lists a set once per element the way `list(s)` does.
- `Topology` (topology.dfy) is the line topology `Node._make_topology` builds
  at `init`, including its `defaultdict(list)` behaviour.
- `Runtime` (runtime.dfy) is the dispatch runtime of `challenges/common.py`.
  The class `Node` holds:
  - the handler table, the one-shot callback table and the `msg_id` counter;
  - the identity, the peer list and the topology;
  - the `before_message` hooks;
  - an outbox that stands for stdout.

  Handlers, callbacks and hooks are tags of a type each program chooses.
  `SeqKVService` is the client for the `seq-kv` store.
- `Echo` (echo.dfy) is the reply builder of the echo challenge.
- `UniqueIds` (unique_ids.dfy) covers the Snowflake-style id packing, the
  global `SEQUENCE` counter (class `IdGenerator`) and the `generate_ok` reply.
- `GossipBroadcast` (gossip_broadcast.dfy) is the broadcast node that gossips
  deltas: `messages`, a per-peer `known` map and `last_propagated`.
- `PendingBroadcast` (pending_broadcast.dfy) is the broadcast node that
  re-sends a pending set `to_propagate` to every neighbour.
- `Counter` (counter.dfy) is the grow-only counter. `add` writes the node's
  own total to `seq-kv`. `read` sums the totals of the other nodes through
  callbacks.

Each application's `Run` takes the input as a finite sequence of polls, one
per pass of the receive loop `Node.__next__`. A poll carries the clock
reading and the decoded message, or `None` when stdin had no line ready or
the line did not decode. Every poll runs the `before_message` hooks, so a
propagation round can fire on a poll that reads nothing. When the poll read
a message, `Run` then does what `Node.run` does with it. An exception ends
the loop: `Stopped(index, fault)`.

Time is an integer parameter. Each broadcast hook gets the poll's clock
reading in milliseconds, so 0.1 s is 100 and 1 s is 1000. The id generator
gets whole Unix seconds.

## Model

| member | source | states |
|---|---|---|
| Messages.Enumerate | challenges/3-broadcast.py:65 | the list holds every element of the set exactly once (what `list(set)` gives); the order is left open |
| Messages.EnumerationLength | challenges/3b-broadcast.py:36 | a duplicate-free listing of a set has exactly as many entries as the set has elements |
| Topology.MakeTopology | challenges/common.py:99-108 | the loop over `enumerate(nodes)` builds exactly the dictionary `LineTopology(nodes)` |
| Topology.LineTopologyKeys | challenges/common.py:99-108 | with two or more nodes, the keys are exactly the listed nodes; with fewer, the dictionary is empty because nothing is ever appended |
| Topology.LineTopologyAt | challenges/common.py:101-106 | for distinct nodes, node i's neighbours are `nodes[i-1]` then `nodes[i+1]`, each only where it exists |
| Topology.LineTopologyAdjacent | challenges/common.py:101-106 | for distinct nodes, b is a neighbour of a exactly when they sit next to each other in the list |
| Topology.LineTopologySymmetric | challenges/common.py:101-106 | for distinct nodes, the neighbour relation is symmetric |
| Topology.LineTopologyDegree | challenges/common.py:101-106 | for two or more distinct nodes, the two ends have one neighbour and interior nodes have two |
| Topology.LineTopologyIrreflexive | challenges/common.py:101-106 | for distinct nodes, no node is its own neighbour |
| Runtime.Node.constructor | challenges/common.py:67-72 | a node starts with empty handler, callback and hook tables, `msg_id` 0 and no identity |
| Runtime.Node.Handles | challenges/common.py:189-201 | `init` and `error` are rejected; so is a type that is already registered; in both cases the table is unchanged; otherwise exactly the one entry is added |
| Runtime.Node.BeforeMessage | challenges/common.py:182-187 | the hook is appended after the earlier ones |
| Runtime.Node.NextMsgId | challenges/common.py:128-130 | returns the previous counter plus one, and the counter now holds it |
| Runtime.Node.Initialize | challenges/common.py:93-96 | sets id and peers, and installs `LineTopology` of the peers as a `defaultdict` |
| Runtime.Node.SetTopology | challenges/common.py:144-146 | the whole topology is replaced by the given (plain) dictionary |
| Runtime.Node.Neighbours | challenges/common.py:148-150 | before `init` it raises; otherwise it returns the own entry; a missing entry on the `defaultdict` gives `[]` and inserts it, and on an installed dictionary it raises; every lookup afterwards gives what it gave before |
| Runtime.Node.SendTo | challenges/common.py:116-121 | appends exactly one message with `src` = own id and the given `dest` and body; the callback is stored under `msg_id` exactly when one is given and the body has a `msg_id`; before `init` it raises and nothing changes |
| Runtime.Node.Answer | challenges/common.py:123-126 | the reply goes from this node to the request's sender, with `in_reply_to` set to the request's `msg_id` and the body otherwise unchanged |
| Runtime.Node.ReplyTo | challenges/common.py:123-126 | a request without `msg_id` fails the assertion before anything is sent; a request with one that arrives before `init` raises (the send needs the node's id) and nothing is appended; otherwise exactly the answer is appended; no callback is ever registered |
| Runtime.Node.Route | challenges/common.py:158-176 | `init` initializes and replies `init_ok`; a message with `in_reply_to` pops its callback (one-shot) without consulting the handler table; anything else goes to its type's handler; a missing handler or callback means the message is ignored and nothing changes |
| Runtime.SeqKVService.constructor | challenges/common.py:216-217 | the client sends through the given node |
| Runtime.SeqKVService.Read | challenges/common.py:219-224 | sends one `read` of the key to `seq-kv` under a fresh `msg_id`; any callback is stored under that id, which (while every key in the table is an issued id) was not in the table before |
| Runtime.SeqKVService.Write | challenges/common.py:226-238 | sends one `write` of key and value to `seq-kv` under a fresh `msg_id`; any callback is stored under that id, likewise not in use before |
| Echo.EchoReply | challenges/1-echo.py:14-24 | fails exactly when the request has no `msg_id` or no `echo`; otherwise the reply is `echo_ok` from this node to the sender, with `in_reply_to` = the request's `msg_id`, no `msg_id` of its own, and `echo` copied |
| UniqueIds.SnowflakeLayout | challenges/2-unique-ids.py:31-39 | for node numbers below 2^10, id = (ts mod 2^42)·2^22 + node·2^12 + (SEQUENCE mod 2^12) |
| UniqueIds.SnowflakeFields | challenges/2-unique-ids.py:31-39 | shift and mask recover the timestamp, node number and sequence fields, and the id is below 2^64 |
| UniqueIds.SnowflakeInjective | challenges/2-unique-ids.py:31-39 | two ids are equal exactly when their three fields agree (modulo their widths) |
| UniqueIds.SameSecondIds | challenges/2-unique-ids.py:31-38 | on one node within one second, two ids collide exactly when `SEQUENCE` moved by a multiple of 4096 between them |
| UniqueIds.NodeNumberOfName | challenges/2-unique-ids.py:28-29 | the node named "n" followed by k gets node number k + 1 |
| UniqueIds.IdGenerator.constructor | challenges/2-unique-ids.py:16 | `SEQUENCE` starts at 1 |
| UniqueIds.IdGenerator.GenerateUniqueId | challenges/2-unique-ids.py:23-39 | a node id whose part after the first character is not a decimal literal raises, and `SEQUENCE` is unchanged; otherwise `SEQUENCE` moves up by one; a negative node number then raises; any other case returns the packed id of the old `SEQUENCE` |
| UniqueIds.IdGenerator.Handle | challenges/2-unique-ids.py:42-54 | succeeds exactly when the request has a `msg_id` and the node number parses and is not negative; a missing `msg_id` raises before an id is drawn (`SEQUENCE` unchanged), a bad node number raises `ValueError`; a success is the `GenerateReply` of the packed id of the old `SEQUENCE` |
| UniqueIds.GenerateReply | challenges/2-unique-ids.py:42-54 | succeeds exactly when the request has a `msg_id`; the reply goes to the sender, with `in_reply_to` = the request's `msg_id`, `msg_id` one more, and the id |
| GossipBroadcast.UpdatesGrow | challenges/3-broadcast.py:74-77 | broadcast and gossip only add to `messages` and to every peer's `known`, and the new values are in `messages` |
| GossipBroadcast.GossipIdempotent | challenges/3-broadcast.py:76-77 | handling the same gossip twice gives the state of handling it once |
| GossipBroadcast.GossipCommutes | challenges/3-broadcast.py:76-77 | two gossip messages give the same state in either order |
| GossipBroadcast.ReportedNotResent | challenges/3-broadcast.py:41-42 | a value a peer gossiped to this node is never in a later delta for that peer |
| GossipBroadcast.GossipNode.constructor | challenges/3-broadcast.py:12-17 | empty `messages` and `known`, the clock reading at start-up, one hook and the four handlers |
| GossipBroadcast.GossipNode.Propagate | challenges/3-broadcast.py:37-52 | when not due, nothing changes; when due, each neighbour in order gets exactly one `gossip` with a fresh `msg_id` and no callback, listing exactly `messages − known[dest]`, and only `last_propagated` is updated; `known` keeps every peer's contents; before `init`, or with the own entry missing from an installed topology, it raises and nothing changes |
| GossipBroadcast.GossipNode.Broadcast | challenges/3-broadcast.py:57-60 | `messages` gains the value and `broadcast_ok` goes back to the sender |
| GossipBroadcast.GossipNode.Read | challenges/3-broadcast.py:64-65 | `read_ok` goes back to the sender, listing exactly the elements of `messages`; the state is unchanged |
| GossipBroadcast.GossipNode.TopologyMessage | challenges/3-broadcast.py:69-70 | replies `topology_ok` and leaves the topology unchanged |
| GossipBroadcast.GossipNode.Gossip | challenges/3-broadcast.py:74-77 | `messages` and the sender's `known` gain `seen`; other peers are untouched; nothing is sent |
| GossipBroadcast.GossipNode.Dispatch | challenges/common.py:176 | running the routed handler keeps the registrations and only adds to `messages` and `known` |
| GossipBroadcast.GossipNode.RunHooks | challenges/common.py:80-81 | running the hooks in registration order keeps the registrations and only adds to the state |
| GossipBroadcast.GossipNode.Run | challenges/common.py:156-176 | over any sequence of polls, including polls that read nothing, `messages` never shrinks, neither does any peer's `known`, and no callback is ever pending |
| PendingBroadcast.RoundLength | challenges/3b-broadcast.py:36-44 | a round sends (number of values) × (number of neighbours) messages |
| PendingBroadcast.Fanout | challenges/3b-broadcast.py:36-44 | one value fanned out goes to each neighbour in list order, the j-th under `msg_id` first + j, so no two of its messages share an id |
| PendingBroadcast.RoundIds | challenges/3b-broadcast.py:41 | message k of a round carries `msg_id` first + k, so all its ids are distinct |
| PendingBroadcast.RoundCount | challenges/3b-broadcast.py:36 | listing the pending set once per element, a round sends (size of `to_propagate`) × (number of neighbours) messages |
| PendingBroadcast.RoundAt | challenges/3b-broadcast.py:36-44 | value i goes to neighbour j as message i × (number of neighbours) + j, so every (value, neighbour) pair is sent |
| PendingBroadcast.PendingNode.constructor | challenges/3b-broadcast.py:12-17 | empty sets, the clock reading at start-up, one hook and the three handlers |
| PendingBroadcast.PendingNode.Propagate | challenges/3b-broadcast.py:33-47 | fires only when due and something is pending, and otherwise nothing changes; when it fires it sends the round for the listed pending values and the neighbours, with fresh ids, and then `to_propagate` is empty, `messages` is unchanged and `last_propagated` = now |
| PendingBroadcast.PendingNode.SendValue | challenges/3b-broadcast.py:36-44 | one value goes to each neighbour in order, each `broadcast` under the next fresh id, with no callback |
| PendingBroadcast.PendingNode.SendRound | challenges/3b-broadcast.py:36-44 | the product loop appends exactly the round and advances the counter by its length |
| PendingBroadcast.PendingNode.Broadcast | challenges/3b-broadcast.py:52-56 | the value joins both `messages` and `to_propagate`, and `broadcast_ok` goes back |
| PendingBroadcast.PendingNode.Read | challenges/3b-broadcast.py:60-61 | `read_ok` lists exactly the elements of `messages` |
| PendingBroadcast.PendingNode.TopologyMessage | challenges/3b-broadcast.py:65-66 | ignores the payload and replies `topology_ok` |
| PendingBroadcast.PendingNode.Dispatch | challenges/common.py:176 | running the routed handler keeps `to_propagate` within `messages` and only adds to `messages` |
| PendingBroadcast.PendingNode.RunHooks | challenges/common.py:80-81 | running the hooks in registration order keeps `to_propagate` within `messages` and leaves `messages` unchanged |
| PendingBroadcast.PendingNode.Run | challenges/common.py:156-176 | over any sequence of polls, including polls that read nothing, `to_propagate` stays within `messages`, `messages` never shrinks, and no callback is ever pending |
| Counter.Others | challenges/4-grow-only-counter.py:44 | the filtered list holds exactly the listed nodes other than this one |
| Counter.OthersDistinct | challenges/4-grow-only-counter.py:44 | filtering distinct names keeps them distinct, and it drops exactly one name when the own name is listed |
| Counter.FinalIsLast | challenges/4-grow-only-counter.py:46 | for distinct names, only the request for the last other node is final |
| Counter.RepeatedLastName | challenges/4-grow-only-counter.py:46 | for any list, a request whose name equals the last name is final just as the last one is, so a repeated last name gives two final callbacks; a request for any other name is not final |
| Counter.OneFinalCallback | challenges/4-grow-only-counter.py:44-47 | with distinct names that include the own, a read registers one callback per other node, and exactly the last of them is final |
| Counter.CounterNode.constructor | challenges/4-grow-only-counter.py:10-12 | a fresh node with its store client, the two handlers and empty state |
| Counter.CounterNode.Add | challenges/4-grow-only-counter.py:24-28 | a missing `delta` raises, and so does a node before `init`; otherwise the own total becomes default-0 plus delta and every other key is unchanged; one `write` of the new total under the own id goes to `seq-kv` without a callback; then `add_ok` is replied |
| Counter.CounterNode.Read | challenges/4-grow-only-counter.py:32-47 | the own total is stored as 0 when absent, and a new closure value starts from it; one `seq-kv` `read` per other node follows, in list order, each registering a callback on that value under a fresh key, final exactly for the last name; nothing is replied |
| Counter.StoreReads | challenges/4-grow-only-counter.py:45-47 | one `read` to `seq-kv` per other node, in list order, the k-th under `msg_id` first + k, so no two requests share an id (and hence no two callbacks share a key) |
| Counter.CounterNode.RequestTotals | challenges/4-grow-only-counter.py:45-47 | the loop sends exactly those reads and registers exactly those callbacks |
| Counter.CounterNode.OnStoreResponse | challenges/4-grow-only-counter.py:35-42 | a `read_ok` response adds its `value` and any other response adds nothing; a `read_ok` without `value` raises; only a final callback replies `read_ok`, and its value is the read's starting total plus every value added to it |
| Counter.CounterNode.Dispatch | challenges/common.py:176 | running the routed handler keeps the invariant and never drops a closure value |
| Counter.CounterNode.Run | challenges/common.py:156-176 | over any sequence of polls every closure value stays its starting total plus the values added, and every pending callback names an existing one |

## Left out

- Logging and the `DEBUG` environment switch (`challenges/common.py:9-28`) are configuration only.
- Transport is not modelled:
  - `select`, `readline`, `json.loads` and `json.dump` to stdout are not modelled. Their effect on the loop is kept: input is a finite sequence of polls, where an empty poll or an undecodable line is a poll without a message, and output is the outbox;
  - at end of input, `readline` returns `""` and decoding fails on every call, so the Python loop never ends: it keeps running the hooks. The model's `Run` covers any finite prefix of that, as polls without messages, and stops when the sequence is exhausted;
  - JSON decoding also means a body field can be missing. Each handler's missing field is modelled as its `KeyError`, but fields of the wrong JSON type are not modelled.
- Exception and interrupt handling in `run` (`challenges/common.py:177-180`) is not modelled beyond ending the loop at the first uncaught exception.
- Floating-point clocks: `time.perf_counter()` and `time.time()` are integer parameters. The 0.1 s and 1 s thresholds become 100 and 1000 milliseconds.
- `EPOCH` is computed from a naive local-time `datetime`, so its value depends on the machine's time zone. The model fixes the UTC value 1672531200000.
- `int()` parsing in `generate_unique_id` is modelled for an optional sign followed by ASCII digits. Surrounding whitespace, `_` separators and non-ASCII digits, which Python also accepts, are not modelled.
- The `main()` wiring of the echo and id programs calls `node.add_handler` and reads `node.node_id`, neither of which `Node` defines, and `run` never sends a handler's return value. Only the reply-building handlers are modelled; the node's id is a parameter.
- Python callables, closures, `functools.partial` and `nonlocal` are replaced by tags:
  - handler, hook and callback tags are datatypes;
  - a counter read's closure variable `value` is a cell of `CounterNode.cells`, named by its callback.
- The `seq-kv` store itself is not modelled. Its responses are whatever input messages correlate with the requests.
- Multi-node behaviour (delivery, convergence) is not modelled; every property is about one node.
- Set iteration order is left open. `list(messages)`, `known` deltas and `product(to_propagate, ...)` use some duplicate-free listing of the set.
- Handler registration at import cannot fail in these programs; each constructor discards the (always successful) `Registration`.
- Where the documented design and the code disagree, the model follows the code:
  - a propagation round does not record the values it sent as known to the destination;
  - `handle_topology` ignores the topology it is given and keeps the line topology from `init`.
- GossipBroadcast.GossipNode.Propagate: states that every peer's `known` set keeps its contents rather than that the `known` map is unchanged, because reading `known[dest]` on the `defaultdict` inserts an empty entry.
