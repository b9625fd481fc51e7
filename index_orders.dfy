/**
 * index.js: the `pendingOrders` and `orderMessages` Maps and every
 * handler that changes them — the order-message handler, its
 * auto-delete timer body, the `./approved` command and the buttons.
 */
module IndexOrders {
  import opened Wrappers
  import opened Text
  import opened Platform
  import opened IndexExtraction
  import opened CustomIds
  import opened MemberMatch

  /** One entry of `pendingOrders`; `timestamp` is the time of insertion, given as a number. */
  datatype OrderData = OrderData(
    orderId: string,
    discordUsername: string,
    rank: string,
    purchaseType: string,
    embed: Embed,
    messageId: string,
    channelId: string,
    timestamp: int)

  /** The message object kept in `orderMessages`. */
  datatype MessageRef = MessageRef(id: string, channelId: string)

  /** A stored order: its id, the custom ids of its two buttons, and whether the auto-delete timer was armed. */
  datatype Stored = Stored(orderId: string, approveId: string, rejectId: string, timerArmed: bool)

  /** A button press as the handler sees it. */
  datatype Interaction = Interaction(isButton: bool, customId: string)

  /** What the `./approved` command or a button press comes to. */
  datatype Outcome =
    | Ignored                                            // not for this handler
    | Usage                                              // "Usage: `./approved <order_id>`"
    | NotFound                                           // "not found or already processed" / "already processed or expired"
    | UserNotFound(orderId: string, username: string)    // button path only: reply and return, order left pending
    | Approved(orderId: string, target: Option<Member>)  // order message edited, both maps cleared
    | Rejected(orderId: string)                          // order message edited, both maps cleared
    | Failed(orderId: string)                            // a call threw: "Failed to approve/reject order."

  /** The order an outcome removes from both maps, if any. */
  function RemovedBy(o: Outcome): Option<string> {
    match o
    case Approved(id, _) => Some(id)
    case Rejected(id) => Some(id)
    case _ => None
  }

  /**
   * The `./approved` handler against `pending`. It has no permission
   * check. A found member is sent a DM, or mentioned in the channel when
   * the DM throws; an unknown buyer gets a "not found" reply and the
   * order is approved all the same.
   */
  function CommandOutcome(m: Message, pending: map<string, OrderData>, members: seq<Member>, fx: Effects): Outcome {
    if m.authorIsBot || !StartsWith(m.content, "./approved") then Ignored
    else
      var args := Split(m.content, ' ');
      if |args| < 2 then Usage
      else
        var id := args[1];
        if id !in pending then NotFound
        else if !fx.membersFetched then Failed(id)
        else
          var target := FirstLenientMatch(members, pending[id].discordUsername);
          if target.Some? && !fx.dmSent && !fx.channelSent then Failed(id)
          else if target.None? && !fx.replySent then Failed(id)
          else if !fx.messageEdited then Failed(id)
          else Approved(id, target)
  }

  /**
   * The `interactionCreate` handler against `pending`, once the custom id
   * has been read into an action and an order id. Approve with no
   * matching member replies and returns, leaving the order pending;
   * reject looks no one up; any other action does nothing.
   */
  function ButtonOutcomeFor(isButton: bool, action: string, parsed: Option<string>,
                            pending: map<string, OrderData>, members: seq<Member>, fx: Effects): Outcome {
    if !isButton then Ignored
    else if parsed.None? || parsed.value !in pending then NotFound
    else
      var id := parsed.value;
      if action == ApproveAction then
        if !fx.membersFetched then Failed(id)
        else
          var target := FirstLenientMatch(members, pending[id].discordUsername);
          if target.None? then
            if fx.replySent then UserNotFound(id, pending[id].discordUsername) else Failed(id)
          else if !fx.dmSent && !fx.channelSent then Failed(id)
          else if !fx.messageEdited then Failed(id)
          else Approved(id, target)
      else if action == RejectAction then
        if !fx.messageEdited then Failed(id) else Rejected(id)
      else Ignored
  }

  /** The button handler as written: `const [action, orderId] = customId.split('_')`. */
  function ButtonOutcome(i: Interaction, pending: map<string, OrderData>, members: seq<Member>, fx: Effects): Outcome {
    var (action, parsed) := SplitCustomId(i.customId);
    ButtonOutcomeFor(i.isButton, action, parsed, pending, members, fx)
  }

  /** The button handler as intended: the custom id read with `ParseCustomId`, cutting at the first '_' only. */
  function ButtonOutcomeIntended(i: Interaction, pending: map<string, OrderData>, members: seq<Member>, fx: Effects): Outcome {
    var (action, parsed) := ParseCustomId(i.customId);
    ButtonOutcomeFor(i.isButton, action, parsed, pending, members, fx)
  }

  /** A command or button on an order that is not pending removes nothing. */
  lemma MissingOrderUntouched(m: Message, i: Interaction, pending: map<string, OrderData>, members: seq<Member>, fx: Effects)
    ensures RemovedBy(CommandOutcome(m, pending, members, fx)).Some? ==>
      RemovedBy(CommandOutcome(m, pending, members, fx)).value in pending
    ensures RemovedBy(ButtonOutcome(i, pending, members, fx)).Some? ==>
      RemovedBy(ButtonOutcome(i, pending, members, fx)).value in pending
    ensures RemovedBy(ButtonOutcomeIntended(i, pending, members, fx)).Some? ==>
      RemovedBy(ButtonOutcomeIntended(i, pending, members, fx)).value in pending
  {
    var (a1, p1) := SplitCustomId(i.customId);
    ButtonRemovesParsed(i.isButton, a1, p1, pending, members, fx);
    var (a2, p2) := ParseCustomId(i.customId);
    ButtonRemovesParsed(i.isButton, a2, p2, pending, members, fx);
  }

  /** A button removes only the pending order its custom id was read as. */
  lemma ButtonRemovesParsed(isButton: bool, action: string, parsed: Option<string>,
                            pending: map<string, OrderData>, members: seq<Member>, fx: Effects)
    ensures RemovedBy(ButtonOutcomeFor(isButton, action, parsed, pending, members, fx)).Some? ==>
      parsed.Some? && parsed.value in pending
      && RemovedBy(ButtonOutcomeFor(isButton, action, parsed, pending, members, fx)).value == parsed.value
  {
  }

  /** As written, no button press ever removes an order whose id contains '_' (every "ORD_" id does). */
  lemma UnderscoreOrdersOutliveButtons(i: Interaction, pending: map<string, OrderData>, members: seq<Member>, fx: Effects, id: string)
    requires '_' in id
    ensures RemovedBy(ButtonOutcome(i, pending, members, fx)) != Some(id)
  {
    var (action, parsed) := SplitCustomId(i.customId);
    assert parsed.Some? ==> '_' !in parsed.value;
  }

  /**
   * As written, the approve button of a pending order "ORD_123" looks up
   * "ORD"; with no order "ORD" pending it reports the order processed
   * and changes nothing, whatever the platform calls do.
   */
  lemma OrdButtonReportsNotFound(pending: map<string, OrderData>, members: seq<Member>, fx: Effects)
    requires "ORD_123" in pending && "ORD" !in pending
    ensures ButtonOutcome(Interaction(true, BuildCustomId(ApproveAction, "ORD_123")), pending, members, fx) == NotFound
    ensures ButtonOutcome(Interaction(true, BuildCustomId(RejectAction, "ORD_123")), pending, members, fx) == NotFound
  {
    SplitCustomIdLosesOrdSuffix();
    assert BuildCustomId(RejectAction, "ORD_123") == Join(["reject", "ORD", "123"], '_');
    SplitJoin(["reject", "ORD", "123"], '_');
  }

  /**
   * The two approval paths part ways when no member matches the buyer:
   * with every platform call succeeding, `./approved <id>` approves and
   * removes the order, while the approve button leaves it pending. As
   * written the button reaches the order only when its id has no '_'.
   */
  lemma {:induction false} CommandAndButtonDifferOnUnknownBuyer(
    id: string, pending: map<string, OrderData>, members: seq<Member>, author: Message)
    requires id in pending && ' ' !in id
    requires FirstLenientMatch(members, pending[id].discordUsername).None?
    ensures var m := author.(authorIsBot := false, content := "./approved " + id);
      CommandOutcome(m, pending, members, Effects(true, true, true, true, true)) == Approved(id, None)
    ensures '_' !in id ==>
      ButtonOutcome(Interaction(true, BuildCustomId(ApproveAction, id)), pending, members, Effects(true, true, true, true, true))
      == UserNotFound(id, pending[id].discordUsername)
    ensures ButtonOutcomeIntended(Interaction(true, BuildCustomId(ApproveAction, id)), pending, members, Effects(true, true, true, true, true))
      == UserNotFound(id, pending[id].discordUsername)
  {
    var content := "./approved " + id;
    assert StartsWith(content, "./approved");
    assert content == Join(["./approved", id], ' ');
    SplitJoin(["./approved", id], ' ');
    ParseCustomIdRoundTrip(ApproveAction, id);
    if '_' !in id {
      SplitCustomIdRoundTrip(ApproveAction, id);
    }
  }

  /**
   * The reject button removes a pending order whatever the member list,
   * once the message edit succeeds: as written for ids without '_', as
   * intended for every id.
   */
  lemma RejectButtonNeedsNoLookup(id: string, pending: map<string, OrderData>, members: seq<Member>, fx: Effects)
    requires id in pending && fx.messageEdited
    ensures '_' !in id ==> ButtonOutcome(Interaction(true, BuildCustomId(RejectAction, id)), pending, members, fx) == Rejected(id)
    ensures ButtonOutcomeIntended(Interaction(true, BuildCustomId(RejectAction, id)), pending, members, fx) == Rejected(id)
  {
    ParseCustomIdRoundTrip(RejectAction, id);
    if '_' !in id {
      SplitCustomIdRoundTrip(RejectAction, id);
    }
  }

  /** index.js's two Maps, kept with the same keys. */
  class OrderTracker {
    var pendingOrders: map<string, OrderData>
    var orderMessages: map<string, MessageRef>

    ghost predicate Valid()
      reads this
    {
      pendingOrders.Keys == orderMessages.Keys
    }

    constructor ()
      ensures Valid() && pendingOrders == map[] && orderMessages == map[]
    {
      pendingOrders := map[];
      orderMessages := map[];
    }

    /**
     * The order-message handler: store the order in both Maps under its
     * id (overwriting an entry with the same id), then put the approve
     * and reject buttons on the message. The auto-delete timer is armed
     * only when that edit succeeds.
     */
    method OnOrderMessage(m: Message, now: int, editOk: bool) returns (r: Option<Stored>)
      requires Valid()
      modifies this
      ensures Valid()
      ensures r.Some? <==> OrderSubmission(m).Some?
      ensures r.None? ==> pendingOrders == old(pendingOrders) && orderMessages == old(orderMessages)
      ensures r.Some? ==>
        var f := OrderSubmission(m).value;
        && r.value == Stored(f.orderId, BuildCustomId(ApproveAction, f.orderId), BuildCustomId(RejectAction, f.orderId), editOk)
        && pendingOrders == old(pendingOrders)[f.orderId :=
             OrderData(f.orderId, f.discordUsername, f.rank, f.purchaseType, m.embeds[0], m.id, m.channelId, now)]
        && orderMessages == old(orderMessages)[f.orderId := MessageRef(m.id, m.channelId)]
    {
      if m.authorIsBot || m.channelId != OrderChannelId {
        return None;
      }
      if !(|m.embeds| > 0 && m.embeds[0].title.Some? && m.embeds[0].title.value != ""
           && Contains(m.embeds[0].title.value, OrderTitleMarker)) {
        return None;
      }
      var embed := m.embeds[0];
      var fields := ExtractOrderFields(embed);
      if fields.None? {
        return None;
      }
      var f := fields.value;
      Store(f.orderId, OrderData(f.orderId, f.discordUsername, f.rank, f.purchaseType, embed, m.id, m.channelId, now),
            MessageRef(m.id, m.channelId));
      // message.edit({ components: [row] }): when it throws, the catch skips the timer
      r := Some(Stored(f.orderId, BuildCustomId(ApproveAction, f.orderId), BuildCustomId(RejectAction, f.orderId), editOk));
    }

    /** `pendingOrders.set(orderId, orderData); orderMessages.set(orderId, message);`. */
    method Store(orderId: string, data: OrderData, msg: MessageRef)
      requires Valid()
      modifies this
      ensures Valid()
      ensures pendingOrders == old(pendingOrders)[orderId := data] && orderMessages == old(orderMessages)[orderId := msg]
    {
      pendingOrders := pendingOrders[orderId := data];
      orderMessages := orderMessages[orderId := msg];
    }

    /** The timer body: drop the order only while it is still pending and the message delete succeeds. */
    method AutoDelete(orderId: string, deleteOk: bool) returns (removed: bool)
      requires Valid()
      modifies this
      ensures Valid()
      ensures removed <==> orderId in old(pendingOrders) && deleteOk
      ensures removed ==> pendingOrders == old(pendingOrders) - {orderId} && orderMessages == old(orderMessages) - {orderId}
      ensures !removed ==> pendingOrders == old(pendingOrders) && orderMessages == old(orderMessages)
    {
      removed := false;
      if orderId in pendingOrders {
        if deleteOk {
          Delete(orderId);
          removed := true;
        }
      }
    }

    /** `pendingOrders.delete(orderId); orderMessages.delete(orderId);`. */
    method Delete(orderId: string)
      requires Valid()
      modifies this
      ensures Valid()
      ensures pendingOrders == old(pendingOrders) - {orderId} && orderMessages == old(orderMessages) - {orderId}
    {
      pendingOrders := pendingOrders - {orderId};
      orderMessages := orderMessages - {orderId};
    }

    /** The `./approved` handler. */
    method HandleApprovedCommand(m: Message, members: seq<Member>, fx: Effects) returns (o: Outcome)
      requires Valid()
      modifies this
      ensures Valid()
      ensures o == CommandOutcome(m, old(pendingOrders), members, fx)
      ensures RemovedBy(o).None? ==> pendingOrders == old(pendingOrders) && orderMessages == old(orderMessages)
      ensures RemovedBy(o).Some? ==>
        var id := RemovedBy(o).value;
        pendingOrders == old(pendingOrders) - {id} && orderMessages == old(orderMessages) - {id}
    {
      if m.authorIsBot || !StartsWith(m.content, "./approved") {
        return Ignored;
      }
      var args := Split(m.content, ' ');
      if |args| < 2 {
        return Usage;
      }
      var orderId := args[1];
      if orderId !in pendingOrders {
        return NotFound;
      }
      var orderData := pendingOrders[orderId];
      if !fx.membersFetched {
        return Failed(orderId);
      }
      var targetUser := FindTargetUser(members, orderData.discordUsername);
      if targetUser.Some? {
        if !fx.dmSent && !fx.channelSent {
          return Failed(orderId);     // the DM threw and so did the channel mention
        }
      } else if !fx.replySent {
        return Failed(orderId);       // the "user not found" reply threw
      }
      if orderId in orderMessages && !fx.messageEdited {
        return Failed(orderId);
      }
      Delete(orderId);
      o := Approved(orderId, targetUser);
    }

    /** The `interactionCreate` handler for the approve and reject buttons. */
    method HandleButton(i: Interaction, members: seq<Member>, fx: Effects) returns (o: Outcome)
      requires Valid()
      modifies this
      ensures Valid()
      ensures o == ButtonOutcome(i, old(pendingOrders), members, fx)
      ensures RemovedBy(o).Some? ==> '_' !in RemovedBy(o).value
      ensures RemovedBy(o).None? ==> pendingOrders == old(pendingOrders) && orderMessages == old(orderMessages)
      ensures RemovedBy(o).Some? ==>
        var id := RemovedBy(o).value;
        pendingOrders == old(pendingOrders) - {id} && orderMessages == old(orderMessages) - {id}
    {
      if !i.isButton {
        return Ignored;
      }
      var (action, parsed) := SplitCustomId(i.customId);
      if parsed.None? || parsed.value !in pendingOrders {
        return NotFound;
      }
      var orderId := parsed.value;
      var orderData := pendingOrders[orderId];
      if action == ApproveAction {
        if !fx.membersFetched {
          return Failed(orderId);
        }
        var targetUser := FindTargetUser(members, orderData.discordUsername);
        if targetUser.None? {
          if !fx.replySent {
            return Failed(orderId);     // the "user not found" reply threw
          }
          return UserNotFound(orderId, orderData.discordUsername);
        }
        if !fx.dmSent && !fx.channelSent {
          return Failed(orderId);
        }
        if !fx.messageEdited {
          return Failed(orderId);
        }
        Delete(orderId);
        o := Approved(orderId, targetUser);
      } else if action == RejectAction {
        if !fx.messageEdited {
          return Failed(orderId);
        }
        Delete(orderId);
        o := Rejected(orderId);
      } else {
        o := Ignored;
      }
    }
  }

  /** The buttons put on a stored order lead the intended reading back to that order; as written, only an id without '_' comes back. */
  lemma StoredButtonsFindOrder(s: Stored)
    requires s.approveId == BuildCustomId(ApproveAction, s.orderId)
    requires s.rejectId == BuildCustomId(RejectAction, s.orderId)
    ensures ParseCustomId(s.approveId) == (ApproveAction, Some(s.orderId))
    ensures ParseCustomId(s.rejectId) == (RejectAction, Some(s.orderId))
    ensures SplitCustomId(s.approveId) == (ApproveAction, Some(s.orderId)) <==> '_' !in s.orderId
    ensures SplitCustomId(s.rejectId) == (RejectAction, Some(s.orderId)) <==> '_' !in s.orderId
  {
    SplitCustomIdRoundTrip(ApproveAction, s.orderId);
    SplitCustomIdRoundTrip(RejectAction, s.orderId);
    ParseCustomIdRoundTrip(ApproveAction, s.orderId);
    ParseCustomIdRoundTrip(RejectAction, s.orderId);
  }
}
