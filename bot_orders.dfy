/**
 * bot.js: the `pendingOrders` Map and the handlers that change it —
 * `processWebhookOrder`, `handleApprovalCommand`,
 * `handleRejectionCommand` — with `handleOrdersCommand` listing it and
 * the `messageCreate` dispatch choosing between them.
 */
module BotOrders {
  import opened Wrappers
  import opened Text
  import opened Platform
  import opened BotExtraction
  import opened BotUsers

  // ---------------------------------------------------------------- dispatch

  const CommandPrefix: string := "./"

  datatype Route = WebhookOrder | ApproveCommand | RejectCommand | OrdersCommand | PingCommand | HelpCommand | NoRoute

  /** `message.author.bot && message.webhookId`: a bot author with a (non-empty) webhook id. */
  predicate IsWebhookMessage(m: Message) {
    m.authorIsBot && m.webhookId.Some? && m.webhookId.value != ""
  }

  /** The `messageCreate` handler's choice of what to run for a message. */
  function Dispatch(m: Message): (r: Route)
    ensures r == WebhookOrder <==> IsWebhookMessage(m)
    ensures r != WebhookOrder && r != NoRoute ==> StartsWith(m.content, CommandPrefix)
    ensures r == ApproveCommand <==> !IsWebhookMessage(m) && StartsWith(m.content, "./approved")
    ensures r == RejectCommand <==>
      !IsWebhookMessage(m) && !StartsWith(m.content, "./approved") && StartsWith(m.content, "./rejected")
    ensures r == OrdersCommand <==> !IsWebhookMessage(m) && m.content == "./orders"
    ensures r == PingCommand <==> !IsWebhookMessage(m) && m.content == "./ping"
    ensures r == HelpCommand <==> !IsWebhookMessage(m) && m.content == "./help"
  {
    ExactCommandsAreNotDecisions();
    if IsWebhookMessage(m) then WebhookOrder
    else if StartsWith(m.content, "./approved") then ApproveCommand
    else if StartsWith(m.content, "./rejected") then RejectCommand
    else if m.content == "./orders" then OrdersCommand
    else if m.content == "./ping" then PingCommand
    else if m.content == "./help" then HelpCommand
    else NoRoute
  }

  /** None of `./orders`, `./ping` and `./help` starts with `./approved` or `./rejected`. */
  lemma ExactCommandsAreNotDecisions()
    ensures !StartsWith("./orders", "./approved") && !StartsWith("./orders", "./rejected")
    ensures !StartsWith("./ping", "./approved") && !StartsWith("./ping", "./rejected")
    ensures !StartsWith("./help", "./approved") && !StartsWith("./help", "./rejected")
  {
    assert "./approved"[2] == 'a' && "./rejected"[2] == 'r';
    assert "./orders"[2] == 'o' && "./ping"[2] == 'p' && "./help"[2] == 'h';
    assert !StartsWith("./ping", "./approved") && !StartsWith("./help", "./approved");
  }

  // ---------------------------------------------------------- insertion order

  /** No key occurs twice. */
  ghost predicate Distinct(keys: seq<string>) {
    forall i, j :: 0 <= i < j < |keys| ==> keys[i] != keys[j]
  }

  /** The insertion order after `Map.set(k, _)`: a new key goes last, an existing one keeps its place. */
  function SetKey(keys: seq<string>, k: string): (r: seq<string>)
    ensures forall x :: x in r <==> x in keys || x == k
    ensures Distinct(keys) ==> Distinct(r)
    ensures |keys| <= |r| && r[..|keys|] == keys
    ensures |r| == if k in keys then |keys| else |keys| + 1
    ensures k !in keys ==> r[|keys|] == k
  {
    if k in keys then keys else keys + [k]
  }

  /** The insertion order after `Map.delete(k)`: `k` gone, the others in their order. */
  function DeleteKey(keys: seq<string>, k: string): (r: seq<string>)
    ensures forall x :: x in r <==> x in keys && x != k
    ensures Distinct(keys) ==> Distinct(r)
    ensures k !in keys ==> r == keys
  {
    if keys == [] then []
    else
      assert keys == [keys[0]] + keys[1..];
      var rest := DeleteKey(keys[1..], k);
      if keys[0] == k then rest
      else
        assert Distinct(keys) ==> Distinct([keys[0]] + rest) by {
          if Distinct(keys) {
            assert keys[0] !in keys[1..];
            DistinctCons(keys[0], rest);
          }
        }
        [keys[0]] + rest
  }

  /** Deleting a key that occurs once, at `i`, closes the gap and keeps the other keys in order. */
  lemma {:induction false} DeleteKeyAt(keys: seq<string>, k: string, i: nat)
    requires Distinct(keys) && i < |keys| && keys[i] == k
    ensures DeleteKey(keys, k) == keys[..i] + keys[i + 1..]
  {
    assert keys == [keys[0]] + keys[1..];
    if i == 0 {
      assert k !in keys[1..];
    } else {
      var tail := keys[1..];
      assert Distinct(tail) by {
        forall a, b | 0 <= a < b < |tail| ensures tail[a] != tail[b] {
          assert tail[a] == keys[a + 1] && tail[b] == keys[b + 1];
        }
      }
      assert tail[i - 1] == k;
      DeleteKeyAt(tail, k, i - 1);
      assert keys[0] != k;
      assert keys[..i] == [keys[0]] + tail[..i - 1];
      assert keys[i + 1..] == tail[i..];
    }
  }

  lemma DistinctCons(x: string, rest: seq<string>)
    requires x !in rest && Distinct(rest)
    ensures Distinct([x] + rest)
  {
    var s := [x] + rest;
    forall i, j | 0 <= i < j < |s| ensures s[i] != s[j] {
      assert s[j] == rest[j - 1];
      if i > 0 {
        assert s[i] == rest[i - 1];
      }
    }
  }

  /** Distinct keys: as many keys as there are elements. */
  lemma {:induction false} DistinctKeysCount(keys: seq<string>)
    requires Distinct(keys)
    ensures |(set k | k in keys)| == |keys|
  {
    if keys != [] {
      var tail := keys[1..];
      assert Distinct(tail) by {
        forall i, j | 0 <= i < j < |tail| ensures tail[i] != tail[j] {
          assert tail[i] == keys[i + 1] && tail[j] == keys[j + 1];
        }
      }
      DistinctKeysCount(tail);
      var tailSet := set k | k in tail;
      assert keys[0] !in tail by {
        forall j | 0 <= j < |tail| ensures tail[j] != keys[0] { assert tail[j] == keys[j + 1]; }
      }
      assert (set k | k in keys) == {keys[0]} + tailSet by {
        assert keys == [keys[0]] + tail;
      }
      assert |{keys[0]} + tailSet| == 1 + |tailSet|;
    }
  }

  // ------------------------------------------------------------------- orders

  /** One entry of `pendingOrders`; `timestamp` is the time of insertion, given as a number. */
  datatype PendingOrder = PendingOrder(
    discordUsername: string,
    messageId: string,
    channelId: string,
    timestamp: int,
    originalEmbed: Embed)

  /** The order id and the buyer name `processWebhookOrder` reads from a message, when it stores one. */
  function ParseWebhookOrder(m: Message): (r: Option<(string, string)>)
    ensures r.Some? <==>
      |m.embeds| > 0
      && ExtractOrderId(m.embeds[0].fields) !in {None, Some("")}
      && ExtractDiscordUsername(m.embeds[0].fields) !in {None, Some("")}
    ensures r.Some? ==> r.value.0 != "" && '`' !in r.value.0 && IsTrimmed(r.value.0)
    ensures r.Some? ==> r.value.1 != "" && '`' !in r.value.1 && IsTrimmed(r.value.1)
    ensures r.Some? ==> r.value == (ExtractOrderId(m.embeds[0].fields).value, ExtractDiscordUsername(m.embeds[0].fields).value)
  {
    if |m.embeds| == 0 then None
    else
      var fields := m.embeds[0].fields;
      match (ExtractOrderId(fields), ExtractDiscordUsername(fields))
      case (Some(id), Some(name)) => if id != "" && name != "" then Some((id, name)) else None
      case _ => None
  }

  datatype Decision = Approve | Reject

  /** What an approve or reject command comes to. */
  datatype Outcome =
    | NoPermission                                        // MESSAGES.NO_PERMISSION
    | Usage                                               // MESSAGES.INVALID_COMMAND
    | OrderNotFound(orderId: string)                      // MESSAGES.ORDER_NOT_FOUND
    | UserNotFound(orderId: string, username: string)     // "User not found" reply; the order is dropped
    | Notified(decision: Decision, orderId: string, user: Member)  // DM sent, reply sent, order dropped
    | Failed(orderId: string)                             // a call threw: "Error approving/rejecting order."

  /** The order an outcome removes from the store, if any. */
  function RemovedBy(o: Outcome): Option<string> {
    match o
    case UserNotFound(id, _) => Some(id)
    case Notified(_, id, _) => Some(id)
    case _ => None
  }

  /** `args = content.split(' ')`; the order id is `args[1]`. */
  function CommandOrderId(content: string): Option<string> {
    var args := Split(content, ' ');
    if |args| < 2 then None else Some(args[1])
  }

  /**
   * `handleApprovalCommand` / `handleRejectionCommand` against the store
   * `orders`: the permission check, the argument count, the lookup, the
   * user search, then the DM and the reply, each of which may throw.
   */
  function DecisionOutcome(decision: Decision, isAdmin: bool, content: string,
                           orders: map<string, PendingOrder>, guilds: seq<Guild>, fx: Effects): Outcome
  {
    if !isAdmin then NoPermission
    else match CommandOrderId(content)
      case None => Usage
      case Some(id) =>
        if id !in orders then OrderNotFound(id)
        else match FindUserByUsername(guilds, orders[id].discordUsername)
          case None =>
            if fx.replySent then UserNotFound(id, orders[id].discordUsername) else Failed(id)
          case Some(user) =>
            if fx.dmSent && fx.replySent then Notified(decision, id, user) else Failed(id)
  }

  /**
   * When a command drops an order: exactly when the caller is an admin,
   * the command names a pending order, the reply goes out, and either no
   * member matches the buyer or the DM to the matched member goes out.
   */
  lemma DecisionRemovesExactly(decision: Decision, isAdmin: bool, content: string,
                               orders: map<string, PendingOrder>, guilds: seq<Guild>, fx: Effects, id: string)
    ensures RemovedBy(DecisionOutcome(decision, isAdmin, content, orders, guilds, fx)) == Some(id) <==>
      && isAdmin
      && CommandOrderId(content) == Some(id)
      && id in orders
      && fx.replySent
      && (FindUserByUsername(guilds, orders[id].discordUsername).None? || fx.dmSent)
  {
  }

  /** A command on an order the store does not hold reports it missing (or is refused earlier) and removes nothing. */
  lemma DecisionOnMissingOrder(decision: Decision, isAdmin: bool, content: string,
                               orders: map<string, PendingOrder>, guilds: seq<Guild>, fx: Effects)
    requires CommandOrderId(content).Some? && CommandOrderId(content).value !in orders
    ensures RemovedBy(DecisionOutcome(decision, isAdmin, content, orders, guilds, fx)).None?
    ensures isAdmin ==> DecisionOutcome(decision, isAdmin, content, orders, guilds, fx) == OrderNotFound(CommandOrderId(content).value)
  {
  }

  /** Repeating a command that dropped an order finds nothing the second time. */
  lemma RepeatedDecisionNotFound(d1: Decision, d2: Decision, content: string,
                                 orders: map<string, PendingOrder>, guilds: seq<Guild>, fx1: Effects, fx2: Effects)
    requires RemovedBy(DecisionOutcome(d1, true, content, orders, guilds, fx1)).Some?
    ensures var id := RemovedBy(DecisionOutcome(d1, true, content, orders, guilds, fx1)).value;
      DecisionOutcome(d2, true, content, orders - {id}, guilds, fx2) == OrderNotFound(id)
  {
  }

  /** One line of the `./orders` listing. */
  datatype OrderLine = OrderLine(orderId: string, discordUsername: string, timestamp: int)

  datatype Listing =
    | ListingRefused                                  // MESSAGES.NO_PERMISSION
    | NoPendingOrders                                 // MESSAGES.NO_PENDING_ORDERS
    | Listed(lines: seq<OrderLine>, total: nat)       // the embed: one line per order, "Total: n orders"

  /** What the `messageCreate` handler did with a message. */
  datatype Handled =
    | OrderProcessed(stored: Option<string>)           // processWebhookOrder, with the id it stored
    | Decided(decision: Decision, outcome: Outcome)    // ./approved or ./rejected
    | OrdersListed(listing: Listing)                   // ./orders
    | Other(route: Route)                              // ./ping, ./help, or nothing

  /**
   * The `./orders` reply for a store: refused for non-admins, the empty
   * notice on an empty map, else line `i` for the `i`-th key in
   * insertion order and the map size as total.
   */
  ghost predicate ListingOf(r: Listing, isAdmin: bool, orders: map<string, PendingOrder>, keys: seq<string>) {
    && (!isAdmin ==> r == ListingRefused)
    && (isAdmin && |orders| == 0 ==> r == NoPendingOrders)
    && (isAdmin && |orders| > 0 ==>
         && r.Listed? && r.total == |orders| && |r.lines| == |keys|
         && forall i :: 0 <= i < |keys| ==>
              (keys[i] in orders && r.lines[i] == OrderLine(keys[i], orders[keys[i]].discordUsername, orders[keys[i]].timestamp)))
  }

  /** bot.js's module-level `pendingOrders` Map, with its keys in insertion order. */
  class PendingOrders {
    var orders: map<string, PendingOrder>
    var keys: seq<string>

    ghost predicate Valid()
      reads this
    {
      Distinct(keys) && forall k :: k in orders <==> k in keys
    }

    constructor ()
      ensures Valid() && orders == map[] && keys == []
    {
      orders := map[];
      keys := [];
    }

    /**
     * `processWebhookOrder`: store the order under its id when the first
     * embed yields a non-empty id and buyer name. `Map.set` overwrites an
     * order already stored under the same id and keeps its place.
     */
    method ProcessWebhookOrder(m: Message, now: int) returns (stored: Option<string>)
      requires Valid()
      modifies this
      ensures Valid()
      ensures stored.Some? <==> ParseWebhookOrder(m).Some?
      ensures stored.None? ==> orders == old(orders) && keys == old(keys)
      ensures stored.Some? ==>
        var (id, name) := ParseWebhookOrder(m).value;
        && stored.value == id
        && orders == old(orders)[id := PendingOrder(name, m.id, m.channelId, now, m.embeds[0])]
        && keys == SetKey(old(keys), id)
    {
      stored := None;
      if |m.embeds| > 0 {
        var embed := m.embeds[0];
        var orderId := ExtractOrderId(embed.fields);
        var discordUsername := ExtractDiscordUsername(embed.fields);
        if orderId.Some? && orderId.value != "" && discordUsername.Some? && discordUsername.value != "" {
          orders := orders[orderId.value := PendingOrder(discordUsername.value, m.id, m.channelId, now, embed)];
          keys := SetKey(keys, orderId.value);
          stored := Some(orderId.value);
        }
      }
    }

    /**
     * The body shared by the approval and the rejection command, up to
     * the delete: the checks, the lookup, the user search, the DM and the
     * reply, each of which may end the command early.
     */
    method Evaluate(decision: Decision, isAdmin: bool, content: string, guilds: seq<Guild>, fx: Effects)
      returns (o: Outcome)
      ensures o == DecisionOutcome(decision, isAdmin, content, orders, guilds, fx)
    {
      if !isAdmin {
        return NoPermission;
      }
      var args := Split(content, ' ');
      if |args| < 2 {
        return Usage;
      }
      var orderId := args[1];
      assert CommandOrderId(content) == Some(orderId);
      if orderId !in orders {
        return OrderNotFound(orderId);
      }
      var info := orders[orderId];
      var user := FindUserByUsername(guilds, info.discordUsername);
      ghost var expected := DecisionOutcome(decision, isAdmin, content, orders, guilds, fx);
      assert user.None? ==> expected == (if fx.replySent then UserNotFound(orderId, info.discordUsername) else Failed(orderId));
      assert user.Some? ==> expected == (if fx.dmSent && fx.replySent then Notified(decision, orderId, user.value) else Failed(orderId));
      if user.Some? {
        if !fx.dmSent {
          return Failed(orderId);       // user.send threw
        }
        // the edit of the original message and its deletion timer are caught and ignored
        if !fx.replySent {
          return Failed(orderId);       // the confirmation reply threw before the delete
        }
        o := Notified(decision, orderId, user.value);
      } else {
        if !fx.replySent {
          return Failed(orderId);
        }
        o := UserNotFound(orderId, info.discordUsername);
      }
    }

    /** The shared body: evaluate the command, then drop the order it removes. */
    method Decide(decision: Decision, isAdmin: bool, content: string, guilds: seq<Guild>, fx: Effects)
      returns (o: Outcome)
      requires Valid()
      modifies this
      ensures Valid()
      ensures o == DecisionOutcome(decision, isAdmin, content, old(orders), guilds, fx)
      ensures RemovedBy(o).None? ==> orders == old(orders) && keys == old(keys)
      ensures RemovedBy(o).Some? ==>
        var id := RemovedBy(o).value;
        id in old(orders) && orders == old(orders) - {id} && keys == DeleteKey(old(keys), id)
    {
      o := Evaluate(decision, isAdmin, content, guilds, fx);
      if RemovedBy(o).Some? {
        var id := RemovedBy(o).value;
        DecisionRemovesExactly(decision, isAdmin, content, orders, guilds, fx, id);
        Delete(id);
      }
    }

    /** `pendingOrders.delete(orderId)`. */
    method Delete(orderId: string)
      requires Valid()
      modifies this
      ensures Valid()
      ensures orders == old(orders) - {orderId} && keys == DeleteKey(old(keys), orderId)
    {
      orders, keys := orders - {orderId}, DeleteKey(keys, orderId);
    }

    /** `handleApprovalCommand`. */
    method HandleApprovalCommand(isAdmin: bool, content: string, guilds: seq<Guild>, fx: Effects)
      returns (o: Outcome)
      requires Valid()
      modifies this
      ensures Valid()
      ensures o == DecisionOutcome(Approve, isAdmin, content, old(orders), guilds, fx)
      ensures RemovedBy(o).None? ==> orders == old(orders) && keys == old(keys)
      ensures RemovedBy(o).Some? ==>
        var id := RemovedBy(o).value;
        id in old(orders) && orders == old(orders) - {id} && keys == DeleteKey(old(keys), id)
    {
      o := Decide(Approve, isAdmin, content, guilds, fx);
    }

    /** `handleRejectionCommand`: the same transitions; only the DM and reply texts differ. */
    method HandleRejectionCommand(isAdmin: bool, content: string, guilds: seq<Guild>, fx: Effects)
      returns (o: Outcome)
      requires Valid()
      modifies this
      ensures Valid()
      ensures o == DecisionOutcome(Reject, isAdmin, content, old(orders), guilds, fx)
      ensures RemovedBy(o).None? ==> orders == old(orders) && keys == old(keys)
      ensures RemovedBy(o).Some? ==>
        var id := RemovedBy(o).value;
        id in old(orders) && orders == old(orders) - {id} && keys == DeleteKey(old(keys), id)
    {
      o := Decide(Reject, isAdmin, content, guilds, fx);
    }

    /**
     * The `messageCreate` handler: a webhook message goes to order
     * processing and nothing else; otherwise the approve and reject
     * commands may change the store and every other route leaves it as it is.
     */
    method OnMessageCreate(m: Message, isAdmin: bool, guilds: seq<Guild>, fx: Effects, now: int)
      returns (h: Handled)
      requires Valid()
      modifies this
      ensures Valid()
      ensures Dispatch(m) == WebhookOrder ==> h == OrderProcessed(if ParseWebhookOrder(m).Some? then Some(ParseWebhookOrder(m).value.0) else None)
      ensures Dispatch(m) == ApproveCommand ==> h == Decided(Approve, DecisionOutcome(Approve, isAdmin, m.content, old(orders), guilds, fx))
      ensures Dispatch(m) == RejectCommand ==> h == Decided(Reject, DecisionOutcome(Reject, isAdmin, m.content, old(orders), guilds, fx))
      ensures h.Decided? ==> (RemovedBy(h.outcome).None? <==> orders == old(orders) && keys == old(keys))
      ensures h.Decided? && RemovedBy(h.outcome).Some? ==>
        orders == old(orders) - {RemovedBy(h.outcome).value} && keys == DeleteKey(old(keys), RemovedBy(h.outcome).value)
      ensures Dispatch(m) == WebhookOrder && ParseWebhookOrder(m).Some? ==>
        var (id, name) := ParseWebhookOrder(m).value;
        && orders == old(orders)[id := PendingOrder(name, m.id, m.channelId, now, m.embeds[0])]
        && keys == SetKey(old(keys), id)
      ensures Dispatch(m) == WebhookOrder && ParseWebhookOrder(m).None? ==> orders == old(orders) && keys == old(keys)
      ensures Dispatch(m) == OrdersCommand ==> h.OrdersListed? && ListingOf(h.listing, isAdmin, orders, keys)
      ensures Dispatch(m) in {PingCommand, HelpCommand, NoRoute} ==> h == Other(Dispatch(m))
      ensures Dispatch(m) !in {WebhookOrder, ApproveCommand, RejectCommand} ==> orders == old(orders) && keys == old(keys)
    {
      var route := Dispatch(m);
      if route == WebhookOrder {
        var stored := ProcessWebhookOrder(m, now);
        h := OrderProcessed(stored);
      } else if route == ApproveCommand {
        var o := HandleApprovalCommand(isAdmin, m.content, guilds, fx);
        h := Decided(Approve, o);
      } else if route == RejectCommand {
        var o := HandleRejectionCommand(isAdmin, m.content, guilds, fx);
        h := Decided(Reject, o);
      } else if route == OrdersCommand {
        var l := ListOrders(isAdmin);
        h := OrdersListed(l);
      } else {
        h := Other(route);
      }
    }

    /** `handleOrdersCommand`: one line per pending order, in insertion order, and the total. */
    method ListOrders(isAdmin: bool) returns (r: Listing)
      requires Valid()
      ensures !isAdmin ==> r == ListingRefused
      ensures isAdmin && |orders| == 0 ==> r == NoPendingOrders
      ensures isAdmin && |orders| > 0 ==> r.Listed? && r.total == |orders| && |r.lines| == |orders|
      ensures r.Listed? ==> forall i :: 0 <= i < |r.lines| ==>
        r.lines[i].orderId in orders
        && r.lines[i].discordUsername == orders[r.lines[i].orderId].discordUsername
        && r.lines[i].timestamp == orders[r.lines[i].orderId].timestamp
      ensures r.Listed? ==> forall k :: k in orders <==> exists i :: 0 <= i < |r.lines| && r.lines[i].orderId == k
      ensures r.Listed? ==> forall i, j :: 0 <= i < j < |r.lines| ==> r.lines[i].orderId != r.lines[j].orderId
      ensures r.Listed? ==> |r.lines| == |keys| && forall i :: 0 <= i < |r.lines| ==> r.lines[i].orderId == keys[i]
      ensures ListingOf(r, isAdmin, orders, keys)
    {
      if !isAdmin {
        return ListingRefused;
      }
      DistinctKeysCount(keys);
      assert orders.Keys == set k | k in keys;
      if |orders| == 0 {
        return NoPendingOrders;
      }
      var ks, os := keys, orders;
      var lines := seq(|ks|, i requires 0 <= i < |ks| && ks[i] in os =>
        OrderLine(ks[i], os[ks[i]].discordUsername, os[ks[i]].timestamp));
      assert forall k :: k in orders ==> exists i :: 0 <= i < |lines| && lines[i].orderId == k by {
        forall k | k in orders ensures exists i :: 0 <= i < |lines| && lines[i].orderId == k {
          var i :| 0 <= i < |keys| && keys[i] == k;
          assert lines[i].orderId == k;
        }
      }
      r := Listed(lines, |orders|);
    }
  }
}
