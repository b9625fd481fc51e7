/**
 * index.js: the button custom ids, built as `approve_<id>` /
 * `reject_<id>` and read back by the `interactionCreate` handler.
 */
module CustomIds {
  import opened Wrappers
  import opened Text

  const ApproveAction: string := "approve"
  const RejectAction: string := "reject"

  /** `${action}_${orderId}`. */
  function BuildCustomId(action: string, orderId: string): string {
    action + "_" + orderId
  }

  /**
   * `const [action, orderId] = customId.split('_')` as written: the
   * second piece of the split, or `undefined` when there is none.
   */
  function SplitCustomId(customId: string): (r: (string, Option<string>))
    ensures '_' !in r.0 && (r.1.Some? ==> '_' !in r.1.value)
    ensures r.1.None? <==> '_' !in customId
  {
    var parts := Split(customId, '_');
    (parts[0], if |parts| >= 2 then Some(parts[1]) else None)
  }

  /** As written, the round trip recovers the order id exactly when the id holds no '_'. */
  lemma SplitCustomIdRoundTrip(action: string, orderId: string)
    requires '_' !in action
    ensures SplitCustomId(BuildCustomId(action, orderId)) == (action, Some(orderId)) <==> '_' !in orderId
  {
    if '_' !in orderId {
      assert BuildCustomId(action, orderId) == Join([action, orderId], '_');
      SplitJoin([action, orderId], '_');
    }
  }

  /** Every "ORD_" id loses its suffix: the button for "ORD_123" looks up "ORD". */
  lemma SplitCustomIdLosesOrdSuffix()
    ensures SplitCustomId(BuildCustomId(ApproveAction, "ORD_123")) == (ApproveAction, Some("ORD"))
  {
    var parts := ["approve", "ORD", "123"];
    assert BuildCustomId(ApproveAction, "ORD_123") == Join(parts, '_');
    SplitJoin(parts, '_');
  }

  /** The intended reading: the action before the first '_', the order id after it. */
  function ParseCustomId(customId: string): (r: (string, Option<string>))
    ensures '_' !in r.0
    ensures r.1.None? <==> '_' !in customId
    ensures r.1.Some? ==> BuildCustomId(r.0, r.1.value) == customId
    ensures r.1.None? ==> r.0 == customId
  {
    if '_' !in customId then (customId, None)
    else
      var i := IndexOf(customId, '_');
      assert customId == customId[..i] + "_" + customId[i + 1..];
      (customId[..i], Some(customId[i + 1..]))
  }

  /** The intended reading recovers every order id, underscores included. */
  lemma ParseCustomIdRoundTrip(action: string, orderId: string)
    requires '_' !in action
    ensures ParseCustomId(BuildCustomId(action, orderId)) == (action, Some(orderId))
  {
    var s := BuildCustomId(action, orderId);
    assert s[|action|] == '_';
    var i := IndexOf(s, '_');
    assert forall k :: 0 <= k < |action| ==> s[k] == action[k];
    assert i == |action|;
    assert s[..i] == action;
    assert s[i + 1..] == orderId;
  }

  /** For ids without '_' the corrected reading agrees with the code as written. */
  lemma ReadingsAgreeWithoutUnderscore(action: string, orderId: string)
    requires '_' !in action && '_' !in orderId
    ensures SplitCustomId(BuildCustomId(action, orderId)) == ParseCustomId(BuildCustomId(action, orderId))
  {
    SplitCustomIdRoundTrip(action, orderId);
    ParseCustomIdRoundTrip(action, orderId);
  }
}
