/** The AJAX handler `orgchart_update_data`: one request applies one of
    add / update / remove to the stored chart and answers with
    `{success, message, new_data?}`. */
module UpdateHandler {
  import opened Json
  import opened ChartOps
  import opened Store

  const MsgNonceFailed := "Nonce verification failed."
  const MsgAdded := "Node added successfully."
  const MsgInvalidAdd := "Invalid new node data provided."
  const MsgUpdated := "Node updated successfully."
  const MsgNotFoundUpdate := "Node not found for update."
  const MsgInvalidUpdate := "Invalid update node data or missing ID."
  const MsgRemoved := "Node removed successfully."
  const MsgNotFoundRemove := "Node not found for removal."
  const MsgMissingNodeId := "Missing node ID for removal."
  const MsgUnknownAction := "Unknown action type."

  /** One POST request: whether the nonce verified, `action_type`, the
      decoded `data` payload, and `node_id` ("" when it was not sent). */
  datatype Request = Request(nonceValid: bool, actionType: string, data: Option<Node>, nodeId: string)

  /** What the handler sends back: the nonce rejection of
      `wp_send_json_error`, or the response record. */
  datatype Response =
    | NonceRejected(error: string)
    | Reply(success: bool, message: string, newData: Option<seq<Node>>)

  /** The logical result of one action before anything is written: a new
      chart to persist, or a refusal with its message. */
  datatype Step = Commit(message: string, nodes: seq<Node>) | Refuse(message: string)

  /** The response, the store after the request, and whether `update_option`
      was called. */
  datatype Outcome = Outcome(response: Response, store: Stored, wrote: bool)

  /** The add payload decoded to a non-empty object. */
  predicate AddPayloadValid(data: Option<Node>)
  {
    PayloadTruthy(data)
  }

  /** The update payload decoded to a non-empty object with a non-null `id`. */
  predicate UpdatePayloadValid(data: Option<Node>)
  {
    PayloadTruthy(data) && IsSet(data.value, "id")
  }

  /** The switch on `action_type`, applied to the current chart. */
  function Apply(current: seq<Node>, req: Request): (s: Step)
    // Only the three known actions can change anything.
    ensures s.Commit? ==> req.actionType == "add" || req.actionType == "update" || req.actionType == "remove"
    ensures req.actionType != "add" && req.actionType != "update" && req.actionType != "remove" ==>
      s == Refuse(MsgUnknownAction)
    // add: the payload is appended verbatim, with no check on its id.
    ensures req.actionType == "add" ==>
      && (s.Commit? <==> AddPayloadValid(req.data))
      && (s.Refuse? ==> s.message == MsgInvalidAdd)
      && (s.Commit? ==>
            && s.message == MsgAdded
            && |s.nodes| == |current| + 1
            && s.nodes[..|current|] == current
            && s.nodes[|current|] == req.data.value)
    // update: merge into the first record with the payload's id.
    ensures req.actionType == "update" ==>
      && (!UpdatePayloadValid(req.data) ==> s == Refuse(MsgInvalidUpdate))
      && (UpdatePayloadValid(req.data) && Count(current, req.data.value["id"]) == 0 ==>
            s == Refuse(MsgNotFoundUpdate))
      && (s.Commit? <==> UpdatePayloadValid(req.data) && Count(current, req.data.value["id"]) > 0)
      && (s.Commit? ==> s.message == MsgUpdated && UpdateFirst(current, req.data.value) == Some(s.nodes))
    // remove: drop every record with the id; succeed only if one was dropped.
    ensures req.actionType == "remove" ==>
      && (!StringTruthy(req.nodeId) ==> s == Refuse(MsgMissingNodeId))
      && (StringTruthy(req.nodeId) && Count(current, Str(req.nodeId)) == 0 ==> s == Refuse(MsgNotFoundRemove))
      && (s.Commit? <==> StringTruthy(req.nodeId) && Count(current, Str(req.nodeId)) > 0)
      && (s.Commit? ==> s.message == MsgRemoved && s.nodes == Without(current, Str(req.nodeId)))
  {
    if req.actionType == "add" then
      if PayloadTruthy(req.data) then Commit(MsgAdded, current + [req.data.value])
      else Refuse(MsgInvalidAdd)
    else if req.actionType == "update" then
      if PayloadTruthy(req.data) && IsSet(req.data.value, "id") then
        match UpdateFirst(current, req.data.value)
        case Some(next) => Commit(MsgUpdated, next)
        case None => Refuse(MsgNotFoundUpdate)
      else Refuse(MsgInvalidUpdate)
    else if req.actionType == "remove" then
      if StringTruthy(req.nodeId) then
        var next := Without(current, Str(req.nodeId));
        if |next| < |current| then Commit(MsgRemoved, next) else Refuse(MsgNotFoundRemove)
      else Refuse(MsgMissingNodeId)
    else Refuse(MsgUnknownAction)
  }

  /** The whole request: check the nonce, read the chart, apply the action,
      and write the new chart back only when the action committed.
      `writeOk` is what `update_option` returns. */
  function Handle(stored: Stored, req: Request, writeOk: bool): (out: Outcome)
    ensures !req.nonceValid ==> out == Outcome(NonceRejected(MsgNonceFailed), stored, false)
    ensures req.nonceValid ==> out.response.Reply?
    // A write is issued exactly when the action committed; the response
    // carries the new chart exactly then.
    ensures req.nonceValid ==>
      && (out.wrote <==> Apply(LoadChart(stored), req).Commit?)
      && (out.response.newData.Some? <==> out.wrote)
      && (out.wrote ==> out.response.newData.value == Apply(LoadChart(stored), req).nodes)
      && out.response.message == Apply(LoadChart(stored), req).message
    // success means the action committed AND the write went through.
    ensures out.response.Reply? ==> (out.response.success <==> out.wrote && writeOk)
    // The store changes only through a successful write.
    ensures out.store != stored ==> out.wrote && writeOk
    ensures out.wrote && writeOk ==> out.store == Saved(out.response.newData.value)
  {
    if !req.nonceValid then Outcome(NonceRejected(MsgNonceFailed), stored, false)
    else
      match Apply(LoadChart(stored), req)
      case Refuse(msg) => Outcome(Reply(false, msg, None), stored, false)
      case Commit(msg, next) =>
        Outcome(Reply(writeOk, msg, Some(next)), if writeOk then Saved(next) else stored, true)
  }

  /** A store that holds no readable chart behaves exactly like an empty one. */
  lemma UnreadableActsEmpty(req: Request, writeOk: bool)
    ensures Handle(Unreadable, req, writeOk).response == Handle(Saved([]), req, writeOk).response
    ensures Handle(Absent, req, writeOk).response == Handle(Saved([]), req, writeOk).response
  {
  }

  /** Adding the same record twice keeps both copies: the count of its id
      grows by two. */
  lemma AddTwiceKeepsDuplicates(stored: Stored, node: Node)
    requires |node| > 0
    ensures var req := Request(true, "add", Some(node), "");
            var first := Handle(stored, req, true);
            var second := Handle(first.store, req, true);
            && first.response.success
            && second.response.success
            && Count(LoadChart(second.store), IdOf(node)) == Count(LoadChart(stored), IdOf(node)) + 2
  {
    var req := Request(true, "add", Some(node), "");
    var c0 := LoadChart(stored);
    var c1 := c0 + [node];
    assert Handle(stored, req, true).store == Saved(c1);
    CountAppend(c0, node, IdOf(node));
    CountAppend(c1, node, IdOf(node));
  }

  /** A remove that succeeded cannot succeed again: the second identical
      request finds nothing and leaves the store alone. */
  lemma RemoveTwiceFails(stored: Stored, nodeId: string)
    requires Handle(stored, Request(true, "remove", None, nodeId), true).response.success
    ensures var req := Request(true, "remove", None, nodeId);
            var second := Handle(Handle(stored, req, true).store, req, true);
            && second.response == Reply(false, MsgNotFoundRemove, None)
            && second.store == Handle(stored, req, true).store
  {
    WithoutLeavesNoMatch(LoadChart(stored), Str(nodeId));
  }

  /** Removal does not cascade: a record whose own id differs survives even
      when its `pid` names the removed id. */
  lemma RemoveKeepsChildren(stored: Stored, nodeId: string, child: Node)
    requires child in LoadChart(stored) && !HasId(child, Str(nodeId))
    ensures var out := Handle(stored, Request(true, "remove", None, nodeId), true);
            out.response.success ==> child in LoadChart(out.store)
  {
    WithoutMembers(LoadChart(stored), Str(nodeId), child);
  }

  /** Updating with the same payload twice gives the same chart as once: the
      repeat still commits and re-writes exactly the chart already stored, so
      whether it reports success is up to the second write's result `ok2`. */
  lemma UpdateTwiceSameChart(stored: Stored, patch: Node, ok2: bool)
    requires Handle(stored, Request(true, "update", Some(patch), ""), true).response.success
    ensures var req := Request(true, "update", Some(patch), "");
            var first := Handle(stored, req, true);
            var second := Handle(first.store, req, ok2);
            && second.wrote
            && second.response.newData == Some(LoadChart(first.store))
            && second.store == first.store
            && (second.response.success <==> ok2)
  {
    UpdateFirstIdempotent(LoadChart(stored), patch);
  }
}
