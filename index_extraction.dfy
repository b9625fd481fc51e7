/**
 * index.js: recognising an order message in the order channel and
 * reading its fields with `embed.fields?.find(...)`.
 */
module IndexExtraction {
  import opened Wrappers
  import opened Text
  import opened Seqs
  import opened Platform

  /** The configured order channel (the placeholder the file ships with). */
  const OrderChannelId: string := "YOUR_ORDER_CHANNEL_ID_HERE"

  /** The word "order" in Bengali, which order embeds carry in their title. */
  const OrderTitleMarker: string := "অর্ডার"

  const Unknown: string := "Unknown"

  /** Not from a bot, in the order channel, and the first embed's title mentions an order. */
  predicate IsOrderMessage(m: Message) {
    && !m.authorIsBot
    && m.channelId == OrderChannelId
    && |m.embeds| > 0
    && m.embeds[0].title.Some? && m.embeds[0].title.value != ""
    && Contains(m.embeds[0].title.value, OrderTitleMarker)
  }

  predicate NamesOrderId(f: Field) { Contains(f.name, "Order ID") }

  predicate NamesBuyer(f: Field) {
    Contains(f.name, "Discord") || Contains(f.name, "Username") || Contains(f.name, "User")
  }

  predicate NamesRank(f: Field) { Contains(f.name, "Rank") }

  predicate NamesPurchase(f: Field) { Contains(f.name, "Purchase") }

  /** `field?.value || 'Unknown'`: a missing field or an empty value falls back to "Unknown". */
  function ValueOrUnknown(f: Option<Field>): (r: string)
    ensures r != ""
    ensures r != Unknown ==> f.Some? && r == f.value.value
    ensures f.Some? && f.value.value != "" ==> r == f.value.value
    ensures f.None? || f.value.value == "" ==> r == Unknown
  {
    if f.Some? && f.value.value != "" then f.value.value else Unknown
  }

  /** The order as the handler stores it, before the message-specific parts. */
  datatype OrderFields = OrderFields(orderId: string, discordUsername: string, rank: string, purchaseType: string)

  /** The first field named "Order ID" holds the id; only a non-empty id, backticks removed and trimmed, makes an order. */
  function ExtractOrderFields(embed: Embed): (r: Option<OrderFields>)
    ensures r.Some? ==>
      exists i :: 0 <= i < |embed.fields| && NamesOrderId(embed.fields[i])
        && (forall j :: 0 <= j < i ==> !NamesOrderId(embed.fields[j]))
        && r.value.orderId == StripBackticks(embed.fields[i].value)
    ensures r.None? <==> (forall f :: f in embed.fields ==> !NamesOrderId(f))
                         || StripBackticks(Find(embed.fields, NamesOrderId).value.value) == ""
    ensures r.Some? ==> r.value.orderId != "" && '`' !in r.value.orderId && IsTrimmed(r.value.orderId)
    ensures r.Some? ==> r.value.discordUsername != "" && r.value.rank != "" && r.value.purchaseType != ""
  {
    match Find(embed.fields, NamesOrderId)
    case None => None
    case Some(idField) =>
      var orderId := StripBackticks(idField.value);
      if orderId == "" then None
      else
        Some(OrderFields(
          orderId,
          ValueOrUnknown(Find(embed.fields, NamesBuyer)),
          ValueOrUnknown(Find(embed.fields, NamesRank)),
          ValueOrUnknown(Find(embed.fields, NamesPurchase))))
  }

  /** Only the message-level gate and the id decide whether a message becomes an order. */
  function OrderSubmission(m: Message): (r: Option<OrderFields>)
    ensures r.Some? ==> IsOrderMessage(m)
    ensures IsOrderMessage(m) ==> r == ExtractOrderFields(m.embeds[0])
  {
    if IsOrderMessage(m) then ExtractOrderFields(m.embeds[0]) else None
  }

  /** With no field naming the buyer, the buyer is "Unknown"; the same holds for rank and purchase type. */
  lemma UnknownDefaults(embed: Embed)
    requires ExtractOrderFields(embed).Some?
    ensures (forall f :: f in embed.fields ==> !NamesBuyer(f)) ==> ExtractOrderFields(embed).value.discordUsername == Unknown
    ensures (forall f :: f in embed.fields ==> !NamesRank(f)) ==> ExtractOrderFields(embed).value.rank == Unknown
    ensures (forall f :: f in embed.fields ==> !NamesPurchase(f)) ==> ExtractOrderFields(embed).value.purchaseType == Unknown
  {
  }

  /**
   * The buyer is the value of the first field whose name mentions
   * "Discord", "Username" or "User", kept as it is (no backtick removal,
   * no trim); an empty value there gives "Unknown", whatever later
   * fields hold.
   */
  lemma {:induction false} BuyerFromFirstNamedField(embed: Embed, i: nat)
    requires ExtractOrderFields(embed).Some?
    requires i < |embed.fields| && NamesBuyer(embed.fields[i])
    requires forall j :: 0 <= j < i ==> !NamesBuyer(embed.fields[j])
    ensures ExtractOrderFields(embed).value.discordUsername ==
      if embed.fields[i].value == "" then Unknown else embed.fields[i].value
  {
    FindFirst(embed.fields, NamesBuyer, i);
  }

  /** Rank and purchase type are the values of the first fields naming them, or "Unknown" when those values are empty. */
  lemma {:induction false} DetailsFromFirstNamedFields(embed: Embed, i: nat, j: nat)
    requires ExtractOrderFields(embed).Some?
    requires i < |embed.fields| && NamesRank(embed.fields[i])
    requires forall k :: 0 <= k < i ==> !NamesRank(embed.fields[k])
    requires j < |embed.fields| && NamesPurchase(embed.fields[j])
    requires forall k :: 0 <= k < j ==> !NamesPurchase(embed.fields[k])
    ensures ExtractOrderFields(embed).value.rank ==
      if embed.fields[i].value == "" then Unknown else embed.fields[i].value
    ensures ExtractOrderFields(embed).value.purchaseType ==
      if embed.fields[j].value == "" then Unknown else embed.fields[j].value
  {
    FindFirst(embed.fields, NamesRank, i);
    FindFirst(embed.fields, NamesPurchase, j);
  }

  /** "Username" contains "User", so the buyer test is "Discord" or "User". */
  lemma NamesBuyerSimplifies(f: Field)
    ensures NamesBuyer(f) <==> Contains(f.name, "Discord") || Contains(f.name, "User")
  {
    if Contains(f.name, "Username") {
      var i: nat :| OccursAt(f.name, "Username", i);
      assert f.name[i..i + 4] == f.name[i..i + 8][..4];
      assert OccursAt(f.name, "User", i);
    }
  }
}
