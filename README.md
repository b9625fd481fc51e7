# Order-approval bot: a Dafny model of its order handling

The bot watches a Discord channel for webhook-posted purchase notifications.
It reads an order id and the buyer's Discord name out of the notification's
embed and keeps the order pending in memory. Administrators later approve or
reject it, the buyer is looked up among the guild members and sent a DM, and
the pending entry is dropped. The repository holds two near-duplicate
variants, `bot.js` and `index.js`. This project models, for both:

- the field extraction (`extractOrderId`, `extractDiscordUsername`, and the
  `fields.find` reads of index.js), as recursive functions over the ordered
  field list, with the `ORD_[\w]+` pattern, backtick removal and `trim`
  written out (`bot_extraction.dfy`, `index_extraction.dfy`, `text.dfy`);
- the member lookup: bot.js's exact match over all guilds as a function
  (`bot_users.dfy`), and index.js's case-insensitive substring loop as a
  method with a loop proved against a first-match function (`member_match.dfy`);
- the pending-order stores as classes: bot.js's single `Map` with its keys in
  insertion order (`PendingOrders`, `bot_orders.dfy`) and index.js's two Maps
  `pendingOrders` / `orderMessages` (`OrderTracker`, `index_orders.dfy`),
  with every handler that inserts or deletes as a method;
- the button custom ids of index.js (`custom_ids.dfy`).

Every platform call whose outcome decides whether an entry stays or goes is
an input. The guild member lists, the permission check, and whether the DM,
the channel mention, the reply, the message edit or the message delete
succeeds are all parameters (`Platform.Effects`, `Platform.Guild.fetched`).
Each handler is specified by a function of the old store and these inputs
(`BotOrders.DecisionOutcome`, `IndexOrders.CommandOutcome`,
`IndexOrders.ButtonOutcome`). Its method states the new store in terms of
that function and keeps the class invariant: keys in step with the map for
bot.js, and equal key sets of the two Maps for index.js.

Behaviour worth noting, which the model keeps as the code has it:

- bot.js's `Map.set` overwrites an order already stored under the same id
  (bot.js:78). A second notification is not dropped.
- The member search tests tag, username and display name together for each
  member in turn (bot.js:327-331). It does not try the tag across all
  members first, so a display-name match of an earlier member beats a tag
  match of a later one.
- An approve or reject whose DM or reply throws leaves the order pending
  (bot.js:179, 214-217). Removal is not unconditional.
- index.js's `./approved` has no permission check (index.js:111-125). Its
  buyer name is stored raw, without backtick removal or trim (index.js:47).

## Model

| member | source | states |
|---|---|---|
| Text.Contains | bot.js:115 | `includes` holds exactly when the substring occurs at some index |
| Text.ContainsEmpty | index.js:145-146 | every string includes the empty string |
| Text.Split | bot.js:151 | `split(sep)`: at least one part, no part holds the separator, joining the parts with the separator gives the input back, one part exactly when the separator is absent |
| Text.SplitJoin | index.js:222 | splitting a join of separator-free parts returns those parts |
| Text.RemoveChars | bot.js:320 | the global character-class `replace` keeps exactly the characters outside the class, never lengthens the string, returns a string with none of them unchanged and one made only of them as empty |
| Text.RemoveCharsAppend | bot.js:320 | the `replace` works piece by piece, so the kept characters stay in their order, repeats included |
| Text.RemoveCharsAround | bot.js:320 | class characters before and after a string that has none of them are all removed and the string is kept |
| Text.RemoveCharsSingle | bot.js:320 | one character is dropped when it is in the class and kept otherwise |
| Text.Trim | bot.js:122 | `trim` yields a slice of the input with no white space at either end, cut only where the input had white space |
| Text.StripBackticks | bot.js:133 | the clean-up of field values leaves no backtick and no surrounding white space |
| Seqs.FirstIndex | index.js:37 | the index `find` stops at: the element satisfies the test and none before it does; none exactly when no element does |
| Seqs.Find | index.js:42-46 | `find` returns the first element satisfying the test, `undefined` only when none does |
| BotExtraction.MatchOrderId | bot.js:116 | `/(ORD_[\w]+)/` matches exactly when the pattern occurs; the result is the leftmost occurrence extended greedily, "ORD_" plus a maximal non-empty word run, with no backtick and no surrounding space |
| BotExtraction.MatchImpliesContainsPrefix | bot.js:115-117 | a value with a pattern match is non-empty and includes "ORD_", so the `includes` guard never hides a match |
| BotExtraction.OrderIdShapeIsClean | bot.js:115-121 | an id of the shape "ORD_" plus word characters has no backtick and no surrounding white space |
| BotExtraction.ExtractOrderId | bot.js:111-126 | null exactly when no field has a pattern match in its value or "Order"/"🆔" in its name; otherwise the id is backtick-free and trimmed |
| BotExtraction.ExtractOrderIdFirstMatch | bot.js:114-124 | the first field with a value match or an order-marking name decides: its match, else its value stripped of backticks and trimmed |
| BotExtraction.BacktickedOrderId | bot.js:116-117 | the value "\`ORD_AB12\`" yields "ORD_AB12" |
| BotExtraction.UserByName | bot.js:131-135 | the first loop finds nothing exactly when no field name has "Discord", "👤" or "Username"; otherwise it returns such a field's cleaned value |
| BotExtraction.UserByValue | bot.js:137-141 | the second loop finds nothing exactly when no value contains '#' or, lower-cased, "discord"; otherwise it returns such a value cleaned |
| BotExtraction.ExtractDiscordUsername | bot.js:128-144 | null exactly when no field qualifies by name or by value; a result is backtick-free and trimmed |
| BotExtraction.UserNameFieldWins | bot.js:131-135 | the first field named for the user decides, even when a field whose value looks like a name comes earlier |
| BotExtraction.UserValueFallback | bot.js:137-143 | with no field named for the user, the first value with '#' or "discord" decides |
| BotExtraction.TypicalWebhookEmbed | bot.js:111-144 | fields 🆔 Order = "\`ORD_AB12\`", 👤 Discord = "alice#0001", 📦 Product give id "ORD_AB12" and buyer "alice#0001" |
| BotUsers.CleanUsername | bot.js:320 | the cleaned name holds none of `` ` * _ ~ \| `` and no surrounding white space, only characters of the input, and is the markup-free string cut only where it had white space |
| BotUsers.CleanUsernameIdentity | bot.js:320 | a name with no markup character and no surrounding white space is left as it is |
| BotUsers.CleanAroundMarkup | bot.js:320 | markup characters before and after a clean name are removed and the name is kept |
| BotUsers.CleanBoldName | bot.js:320 | "\*\*alice\*\*" cleans to "alice" |
| BotUsers.FindInGuilds | bot.js:323-342 | a returned member is in a guild whose fetch succeeded and matches exactly; null exactly when no member of a fetched guild matches |
| BotUsers.FindUserByUsername | bot.js:318-347 | a returned member matches the cleaned name exactly in a fetched guild |
| BotUsers.FindInGuildsFirst | bot.js:323-336 | guilds in cache order, members in cache order: the first match of the first fetched guild that has one is returned |
| BotUsers.UnderscoreNamesNeverFound | bot.js:320-331 | the cleaning removes '_', so a member whose tag, username and display name all contain '_' is never found |
| BotOrders.Dispatch | bot.js:43-66 | a message goes to order processing exactly when it is a bot-authored webhook message; otherwise to approval exactly when it starts with "./approved", to rejection exactly when it starts with "./rejected" and not "./approved", and to `./orders`, `./ping`, `./help` exactly when it equals that text |
| BotOrders.SetKey | bot.js:78 | `Map.set` order: the old keys keep their places, a new key goes last, an existing key adds nothing; still without repeats |
| BotOrders.DeleteKey | bot.js:217 | `Map.delete` order: exactly the key is gone, an absent key changes nothing, still without repeats |
| BotOrders.DeleteKeyAt | bot.js:217 | deleting the key at position `i` closes the gap: the keys before and after it keep their order |
| BotOrders.DistinctKeysCount | bot.js:354-368 | distinct keys are as many as the set they form, so the listing's line count is the map size |
| BotOrders.ParseWebhookOrder | bot.js:72-77 | an order is taken exactly when there is an embed and both the id and the buyer name of its first embed are present and non-empty; the pair is then those two values, backtick-free and trimmed |
| BotOrders.DecisionRemovesExactly | bot.js:146-229 | a command drops the order exactly when the caller is an admin, the second token names a pending order, the reply goes out, and either no member matches or the DM goes out |
| BotOrders.DecisionOnMissingOrder | bot.js:156-161 | a command naming an absent id removes nothing and, from an admin, reports it not found |
| BotOrders.RepeatedDecisionNotFound | bot.js:216-223 | after a command drops an order, the same command again reports it not found |
| BotOrders.PendingOrders.constructor | bot.js:32 | the store starts empty |
| BotOrders.PendingOrders.ProcessWebhookOrder | bot.js:70-109 | stores the parsed order under its id, overwriting an entry with the same id and keeping its place; otherwise nothing changes |
| BotOrders.PendingOrders.Decide | bot.js:163-228 | the new store is the old one minus the id exactly when the outcome removes it; nothing else changes |
| BotOrders.PendingOrders.Delete | bot.js:223 | removes the key from the map and from the insertion order |
| BotOrders.PendingOrders.HandleApprovalCommand | bot.js:146-229 | outcome as `DecisionOutcome`; no permission, too few tokens, absent id and a throwing DM or reply leave the store unchanged; otherwise exactly that id is removed |
| BotOrders.PendingOrders.HandleRejectionCommand | bot.js:231-316 | the same transitions as approval, with the rejection outcome |
| BotOrders.PendingOrders.OnMessageCreate | bot.js:43-66 | a webhook message stores its parsed order exactly as `processWebhookOrder` does, or changes nothing; `./approved` and `./rejected` give their command's outcome and drop exactly the order it removes; `./orders` gives the listing of the store; `./ping`, `./help` and anything else leave the store unchanged |
| BotOrders.PendingOrders.ListOrders | bot.js:349-371 | refused for non-admins; "no pending orders" on an empty map; otherwise line `i` is the `i`-th key in insertion order with its buyer and timestamp, and the total is the map size |
| IndexExtraction.ValueOrUnknown | index.js:47 | `value \|\| 'Unknown'`: a present non-empty value comes back as it is; a missing field or an empty value gives "Unknown" |
| IndexExtraction.ExtractOrderFields | index.js:36-54 | the id is the first "Order ID" field's value without backticks, trimmed; no order exactly when there is no such field or that value cleans to empty; buyer, rank and purchase type are never empty |
| IndexExtraction.OrderSubmission | index.js:31-40 | a message becomes an order only when it is not from a bot, is in the order channel and its first embed's title contains "অর্ডার"; such a message yields exactly the fields read from its first embed |
| IndexExtraction.UnknownDefaults | index.js:47-54 | with no matching field, the buyer, rank and purchase type are "Unknown" |
| IndexExtraction.BuyerFromFirstNamedField | index.js:42-47 | the buyer is the raw value of the first field naming Discord/Username/User, or "Unknown" when that value is empty |
| IndexExtraction.DetailsFromFirstNamedFields | index.js:50-54 | rank and purchase type are the raw values of the first fields naming "Rank" and "Purchase", or "Unknown" when those values are empty |
| IndexExtraction.NamesBuyerSimplifies | index.js:42-46 | the "Username" test is subsumed by the "User" test |
| CustomIds.SplitCustomId | index.js:222 | as written, the action and the id read back contain no '_', and the id is missing exactly when the custom id has no '_' |
| CustomIds.SplitCustomIdRoundTrip | index.js:78 | as written, `approve_<id>` reads back as the id exactly when the id has no '_' |
| CustomIds.SplitCustomIdLosesOrdSuffix | index.js:222 | as written, the button of order "ORD_123" reads back the id "ORD" |
| CustomIds.ParseCustomId | index.js:222 | corrected: the action has no '_', the id is missing exactly when there is no '_', and action, '_' and id rebuild the custom id |
| CustomIds.ParseCustomIdRoundTrip | index.js:78-83 | corrected: every `approve_<id>` / `reject_<id>` reads back its action and its whole id |
| CustomIds.ReadingsAgreeWithoutUnderscore | index.js:222 | for ids without '_' the corrected reading and the code as written agree |
| MemberMatch.FindTargetUser | index.js:137-150 | the loop picks the first member in cache order that matches exactly or by lower-cased containment, and none exactly when no member does |
| MemberMatch.EmptyNameMatchesFirst | index.js:145-146 | an empty stored name matches the first member |
| MemberMatch.ExactImpliesLenient | index.js:142-146 | every member bot.js's test accepts is accepted by index.js's test |
| MemberMatch.CaseInsensitiveExample | index.js:145-146 | "ALICE" matches a member whose username is "alice" |
| IndexOrders.MissingOrderUntouched | index.js:121-125 | the command and the buttons, under either reading of the custom id, only ever remove an order that is pending |
| IndexOrders.UnderscoreOrdersOutliveButtons | index.js:222-230 | as written, no button press ever removes an order whose id contains '_' |
| IndexOrders.OrdButtonReportsNotFound | index.js:222-230 | as written, the approve and reject buttons of order "ORD_123" look up "ORD" and, with no such order, report it processed and change nothing |
| IndexOrders.CommandAndButtonDifferOnUnknownBuyer | index.js:175-207 | with every call succeeding and no member matching, `./approved <id>` approves and removes the order; the approve button leaves it pending, as written for ids without '_' and as intended for every id |
| IndexOrders.RejectButtonNeedsNoLookup | index.js:327-353 | the reject button removes a pending order whatever the member list, once the message edit succeeds: as written for ids without '_', as intended for every id |
| IndexOrders.StoredButtonsFindOrder | index.js:77-83 | the custom ids put on a stored order read back as that order under the corrected reading, and as written exactly when the id has no '_' |
| IndexOrders.OrderTracker.constructor | index.js:15-16 | both Maps start empty |
| IndexOrders.OrderTracker.OnOrderMessage | index.js:29-108 | an order message adds the same id to both Maps, overwriting; its buttons are `approve_<id>` and `reject_<id>`; the timer is armed only if the edit succeeds; anything else changes nothing |
| IndexOrders.OrderTracker.AutoDelete | index.js:91-102 | the timer removes the order from both Maps exactly when it is still pending and the delete succeeds |
| IndexOrders.OrderTracker.Delete | index.js:206-207 | removes the id from both Maps |
| IndexOrders.OrderTracker.HandleApprovedCommand | index.js:111-216 | outcome as `CommandOutcome`; both Maps lose exactly the approved id, whether or not a member was found, and are otherwise unchanged |
| IndexOrders.OrderTracker.HandleButton | index.js:219-368 | outcome as `ButtonOutcome`, reading the custom id with `split('_')` as written; approve with no member found, an unknown action and an id not found leave both Maps unchanged, a failing "user not found" reply counts as a failure; approve and reject remove exactly the id read, which never contains '_' |

## Left out

- The discord.js client, login, event registration and the process-level error handlers: framework plumbing.
- Reply texts, embeds, colours, footers, button styles and the help text: each reply is an `Outcome` variant, not a string.
- `setTimeout` scheduling: only index.js's auto-delete body (index.js:91-102) touches a store, and it is `OrderTracker.AutoDelete`. The other timers delete chat messages only (bot.js:93-99, 200-207, 287-294; index.js:196-202, 303-309, 343-349).
- The "new order received" notification of bot.js (bot.js:89-103): it does not touch the store.
- Clocks and locale: `new Date()` is the `now` parameter; `toLocaleString`, `toLocaleTimeString` and the ping latency are not modelled.
- BotOrders.PendingOrders.ListOrders: lines carry the stored timestamp number instead of its `toLocaleTimeString` rendering.
- `./ping` and `./help`: dispatched by `BotOrders.Dispatch`, their replies are not modelled.
- Channel and message fetches, edits, deletes, DMs and member fetches: each is a success flag. A missing `message.guild` in index.js counts as a failed member fetch.
- The confirmation replies sent after an order is removed (index.js:209, 315-318, 355-358): the Maps are already updated when they run, so their failure changes no state and is not modelled.
- Interleaving across `await` points, such as two approvals of one order at once: the model is sequential.
- `toLowerCase` is modelled for ASCII letters only.
- Strings are sequences of Unicode scalar values, while JavaScript strings are UTF-16. `includes`, `split` and `trim` agree on well-formed text.
- A missing `embed.fields` array is treated as an empty one: both files give the same result for the two.
- `ORDER_CHANNEL_ID` in index.js is the placeholder constant the file ships with.

## Findings

| source | as written | input that shows it | evidently intended | confidence | as-written member | corrected member |
|---|---|---|---|---|---|---|
| index.js:222 | `const [action, orderId] = customId.split('_')` keeps only the text between the first and second '_' as the order id | the approve button of order `ORD_123` has custom id `approve_ORD_123` (index.js:78) and reads back `ORD`, so the lookup at index.js:223 misses and the button reports the order as already processed | split at the first '_' only, so the whole id after it comes back | high (not executed; every id the usage text shows has the `ORD_` form) | CustomIds.SplitCustomIdLosesOrdSuffix | CustomIds.ParseCustomIdRoundTrip |

`OrderTracker.HandleButton` keeps the split as written, so its button presses
never remove an order whose id contains '_' (`UnderscoreOrdersOutliveButtons`).
The corrected reading is `CustomIds.ParseCustomId`; `IndexOrders.ButtonOutcomeIntended`
is the button handler with it, and `RejectButtonNeedsNoLookup`,
`CommandAndButtonDifferOnUnknownBuyer` and `StoredButtonsFindOrder` state what
it does for every id.
