/** The reply builder of the echo challenge (`challenges/1-echo.py`). The
    node's own id, which the handler reads from the node, is a parameter. */
module Echo {
  import opened Messages

  /** `handler`: the request must carry a `msg_id` and an `echo` field; the
      reply is an `echo_ok` from this node back to the sender, correlated with
      the request, repeating `echo` and carrying no `msg_id` of its own. */
  function EchoReply(selfId: string, request: Message): (r: Result<Message>)
    ensures request.body.msgId.None? ==> r == Err(MissingMsgId)
    ensures request.body.msgId.Some? && !request.body.payload.EchoFields? ==> r == Err(MissingField("echo"))
    ensures r.Ok? <==> request.body.msgId.Some? && request.body.payload.EchoFields?
    ensures r.Ok? ==>
      && RepliesTo(r.value, request)
      && r.value.src == selfId
      && r.value.body.kind == "echo_ok"
      && r.value.body.msgId.None?
      && r.value.body.payload == EchoFields(request.body.payload.echo)
  {
    if request.body.msgId.None? then Err(MissingMsgId)
    else if !request.body.payload.EchoFields? then Err(MissingField("echo"))
    else Ok(Message(selfId, request.src,
                    Body("echo_ok", None, request.body.msgId, EchoFields(request.body.payload.echo))))
  }
}
