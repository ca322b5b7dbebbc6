/** Snowflake-style id generation of the unique-ids challenge
    (`challenges/2-unique-ids.py`).

    An id is the binary string made of three fields, read back as an integer:
    the timestamp in 42 digits (its low 42 bits), the node number in at least
    10 digits, and the per-process sequence counter modulo 2^12 in 12 digits.
    The clock is a parameter: whole seconds since the Unix epoch, to which the
    code adds `EPOCH`, a count of milliseconds. */
module UniqueIds {
  import opened Messages

  /** `EPOCH`: 2023-01-01T00:00:00 in milliseconds (taken in UTC). */
  const Epoch: nat := 1672531200000

  const TimestampModulus: nat := 4398046511104   // 2^42
  const NodeLimit: nat := 1024                   // 2^10
  const SequenceModulus: nat := 4096             // 2^12
  const IdLimit: nat := 18446744073709551616     // 2^64

  function Pow2(k: nat): (p: nat)
    ensures p >= 1
  {
    if k == 0 then 1 else 2 * Pow2(k - 1)
  }

  /** The number of digits `format(n, "b")` prints. */
  function BinaryDigits(n: nat): (d: nat)
    ensures d >= 1
  {
    if n < 2 then 1 else 1 + BinaryDigits(n / 2)
  }

  /** The number of digits `format(n, "010b")` prints: at least 10. */
  function NodeFieldWidth(n: nat): nat
  {
    if BinaryDigits(n) < 10 then 10 else BinaryDigits(n)
  }

  /** `int(snowflake, base=2)` for the concatenated fields. A node number of
      2^10 or more widens its field and shifts the timestamp further left. */
  function Snowflake(ts: nat, nodeNumber: nat, sequence: int): nat
  {
    (ts % TimestampModulus) * Pow2(12 + NodeFieldWidth(nodeNumber))
      + nodeNumber * SequenceModulus + sequence % SequenceModulus
  }

  /** A number below 2^k has at most k binary digits. */
  lemma {:induction false} BinaryDigitsAtMost(n: nat, k: nat)
    requires n < Pow2(k)
    ensures BinaryDigits(n) <= k || (n < 2 && k == 0)
  {
    if n >= 2 {
      assert k >= 2;
      BinaryDigitsAtMost(n / 2, k - 1);
    }
  }

  /** For node numbers below 2^10 the fields have their nominal widths. */
  lemma SnowflakeLayout(ts: nat, nodeNumber: nat, sequence: int)
    requires nodeNumber < NodeLimit
    ensures Snowflake(ts, nodeNumber, sequence)
         == (ts % TimestampModulus) * 4194304 + nodeNumber * SequenceModulus + sequence % SequenceModulus
  {
    assert Pow2(10) == NodeLimit;
    BinaryDigitsAtMost(nodeNumber, 10);
    assert NodeFieldWidth(nodeNumber) == 10;
    assert Pow2(22) == 4194304;
  }

  /** The three fields come back from the id by shift and mask, and the id fits in 64 bits. */
  lemma SnowflakeFields(ts: nat, nodeNumber: nat, sequence: int)
    requires nodeNumber < NodeLimit
    ensures var id := Snowflake(ts, nodeNumber, sequence);
      && id / 4194304 == ts % TimestampModulus
      && (id / SequenceModulus) % NodeLimit == nodeNumber
      && id % SequenceModulus == sequence % SequenceModulus
      && id < IdLimit
  {
    SnowflakeLayout(ts, nodeNumber, sequence);
  }

  /** Ids from different timestamps (modulo 2^42), node numbers or sequence
      values (modulo 2^12) differ, for node numbers below 2^10. */
  lemma SnowflakeInjective(ts1: nat, node1: nat, seq1: int, ts2: nat, node2: nat, seq2: int)
    requires node1 < NodeLimit && node2 < NodeLimit
    ensures Snowflake(ts1, node1, seq1) == Snowflake(ts2, node2, seq2) <==>
      && ts1 % TimestampModulus == ts2 % TimestampModulus
      && node1 == node2
      && seq1 % SequenceModulus == seq2 % SequenceModulus
  {
    SnowflakeFields(ts1, node1, seq1);
    SnowflakeFields(ts2, node2, seq2);
  }

  /** Within one second on one node, two ids collide exactly when the
      sequence counter moved by a multiple of 2^12 between them. */
  lemma SameSecondIds(ts: nat, nodeNumber: nat, seq1: int, seq2: int)
    ensures Snowflake(ts, nodeNumber, seq1) == Snowflake(ts, nodeNumber, seq2) <==>
      (seq2 - seq1) % SequenceModulus == 0
  {
  }

  predicate IsDigit(c: char)
  {
    '0' <= c <= '9'
  }

  function DigitValue(c: char): nat
    requires IsDigit(c)
  {
    c as int - '0' as int
  }

  /** The value of a non-empty string of decimal digits. */
  function DigitsValue(s: string): nat
    requires |s| > 0 && forall i :: 0 <= i < |s| ==> IsDigit(s[i])
  {
    var last := DigitValue(s[|s| - 1]);
    if |s| == 1 then last else DigitsValue(s[..|s| - 1]) * 10 + last
  }

  /** `int(s)` on an optionally signed decimal literal. */
  function ParseInt(s: string): Result<int>
  {
    var signed := |s| > 0 && (s[0] == '-' || s[0] == '+');
    var digits := if signed then s[1..] else s;
    if |digits| == 0 || exists i :: 0 <= i < |digits| && !IsDigit(digits[i]) then Err(InvalidLiteral)
    else
      var magnitude: int := DigitsValue(digits);
      Ok(if signed && s[0] == '-' then -magnitude else magnitude)
  }

  /** `int(node_id[1:]) + 1`: "n0" is node 1, "n1" node 2, and so on. */
  function NodeNumber(nodeId: string): Result<int>
  {
    var rest := if |nodeId| > 0 then nodeId[1..] else "";
    match ParseInt(rest)
    case Ok(n) => Ok(n + 1)
    case Err(f) => Err(f)
  }

  /** The decimal spelling of a natural number, as Maelstrom writes node ids. */
  function Decimal(n: nat): (s: string)
    ensures |s| > 0 && forall i :: 0 <= i < |s| ==> IsDigit(s[i])
  {
    var digit := ('0' as int + n % 10) as char;
    if n < 10 then [digit] else Decimal(n / 10) + [digit]
  }

  lemma {:induction false} DecimalValue(n: nat)
    ensures DigitsValue(Decimal(n)) == n
  {
    if n >= 10 {
      DecimalValue(n / 10);
      var s := Decimal(n);
      assert s[..|s| - 1] == Decimal(n / 10);
    }
  }

  /** The node called "n" followed by k gets node number k + 1. */
  lemma NodeNumberOfName(k: nat)
    ensures NodeNumber("n" + Decimal(k)) == Ok(k + 1)
  {
    var name := "n" + Decimal(k);
    assert name[1..] == Decimal(k);
    DecimalValue(k);
  }

  /** The global `SEQUENCE` counter and `generate_unique_id`. */
  class IdGenerator {
    var sequence: int

    constructor ()
      ensures sequence == 1
    {
      sequence := 1;
    }

    /** `generate_unique_id`: raises when the node id does not end in a
        decimal literal (before `SEQUENCE` moves) and when the node number is
        negative (after `SEQUENCE` moved, when the binary string is parsed);
        otherwise returns the id of the current sequence value and advances
        `SEQUENCE` by one. */
    method GenerateUniqueId(nodeId: string, unixSeconds: nat) returns (r: Result<nat>)
      modifies this
      ensures NodeNumber(nodeId).Err? ==> r == Err(InvalidLiteral) && sequence == old(sequence)
      ensures NodeNumber(nodeId).Ok? ==> sequence == old(sequence) + 1
      ensures NodeNumber(nodeId).Ok? && NodeNumber(nodeId).value < 0 ==> r == Err(InvalidLiteral)
      ensures NodeNumber(nodeId).Ok? && NodeNumber(nodeId).value >= 0 ==>
        r == Ok(Snowflake(unixSeconds + Epoch, NodeNumber(nodeId).value, old(sequence)))
    {
      var ts := unixSeconds + Epoch;
      var parsed := NodeNumber(nodeId);
      if parsed.Err? {
        return Err(InvalidLiteral);
      }
      var nodeNumber := parsed.value;
      var current := sequence;
      sequence := sequence + 1;
      if nodeNumber < 0 {
        return Err(InvalidLiteral);
      }
      r := Ok(Snowflake(ts, nodeNumber, current));
    }

    /** `handler`: asserts the request's `msg_id` (before any id is drawn),
        then replies `generate_ok` with the fresh id. */
    method Handle(selfId: string, request: Message, unixSeconds: nat) returns (r: Result<Message>)
      modifies this
      ensures request.body.msgId.None? ==> r == Err(MissingMsgId) && sequence == old(sequence)
      ensures request.body.msgId.Some? ==> sequence == if NodeNumber(selfId).Ok? then old(sequence) + 1 else old(sequence)
      ensures r.Ok? <==> request.body.msgId.Some? && NodeNumber(selfId).Ok? && NodeNumber(selfId).value >= 0
      ensures r.Err? ==> r.fault == (if request.body.msgId.None? then MissingMsgId else InvalidLiteral)
      ensures r.Ok? ==>
        r == GenerateReply(selfId, request, Snowflake(unixSeconds + Epoch, NodeNumber(selfId).value, old(sequence)))
    {
      if request.body.msgId.None? {
        return Err(MissingMsgId);
      }
      var uid := GenerateUniqueId(selfId, unixSeconds);
      if uid.Err? {
        return Err(uid.fault);
      }
      r := GenerateReply(selfId, request, uid.value);
    }
  }

  /** The reply `handler` builds around a generated id: `generate_ok` from
      this node to the sender, correlated with the request, with `msg_id`
      one more than the request's. */
  function GenerateReply(selfId: string, request: Message, uid: int): (r: Result<Message>)
    ensures r.Ok? <==> request.body.msgId.Some?
    ensures r.Err? ==> r.fault == MissingMsgId
    ensures r.Ok? ==>
      && RepliesTo(r.value, request)
      && r.value.src == selfId
      && r.value.body.kind == "generate_ok"
      && r.value.body.msgId == Some(request.body.msgId.value + 1)
      && r.value.body.payload == IdFields(uid)
  {
    match request.body.msgId
    case None => Err(MissingMsgId)
    case Some(m) => Ok(Message(selfId, request.src, Body("generate_ok", Some(m + 1), Some(m), IdFields(uid))))
  }
}
