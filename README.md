# DexBot event relay — verified model of its event-mapping logic

DexBot relays events from a Twitch channel to two places: replies in the Twitch chat
(cheers, subscriptions, gifted subscriptions) and log embeds in a Discord channel
(moderation actions seen on Twitch PubSub). Almost all of `index.js` is SDK wiring; this
project models the deterministic logic inside its handlers:

- **Gift-count ledger** (`GiftLedger`): the `giftCounts` map shared by `onCommunitySub` and
  `onSubGift`. A community gift credits the gifter with its count and is thanked once;
  each individual gift of that batch uses up one unit of credit silently; an individual
  gift with no credit left is thanked on its own. The map is a class field (`GiftCounter`)
  updated by two methods, each tied to a pure step function (`CommunitySub`, `SubGift`);
  sequences of handler calls are modelled by `Run`, and the lemmas about runs state
  non-negativity, that other gifters are untouched, exact accounting of credit, no double
  thanking and the mass-gift-then-individuals round trip.
- **Moderation formatter** (`ModEvents`): `(action, args, userName)` to at most one embed
  (title, colour, ordered fields) for `timeout`, `ban`, `unban`, `untimeout` and `vip`.
  Destructuring past the end of `args` gives `undefined`, rendered as the text
  `undefined`, and a missing or empty reason becomes `Reason not provided.`.
  `untimeout` produces the very same embed as `unban` (label "Unban", text "un-banned"),
  as the code does.
- **Chat replies** (`Replies`, `Decimal`): the five reply templates, each with a parser
  that reads the event's fields back; each reply function's contract states that the
  reply names its user and its number (bits, gift count, months) exactly. Numbers are unbounded
  integers rendered in plain decimal, which is what a template literal prints for an
  integral Number up to 2^53 in magnitude.
- **Token expiry** (`Tokens`): the null-preserving conversion between the stored
  `expiryTimestamp` and the `Date` given to the auth provider (`index.js` lines 17 and 26),
  including the Date range (values beyond ±8.64e15 ms give an invalid Date) and the JSON
  encoder's writing of NaN as null.

Some descriptions of the bot differ from what `index.js` does; the model follows the code:
the ban embed's title is "New Chat Event" (the word "Ban" is the first field's label,
not the title); the VIP colour is `0xe281aa`, not a success tone; the ledger has no floor
of its own — an entry stays non-negative only because community counts are non-negative
(the individual-gift handler decrements only a positive entry); a host event is not
handled by this `index.js`.

## Model

| member | source | states |
|---|---|---|
| GiftLedger.CommunitySub | index.js:181-186 | the gifter's entry becomes its previous value (0 if absent) plus count, the key set gains the gifter, every other entry is unchanged, and exactly one thank-you naming gifter and count is replied |
| GiftLedger.SubGift | index.js:189-199 | silence exactly when the gifter's count is positive, and then that count drops by one; otherwise the ledger is unchanged (an absent entry stays absent) and the reply thanks gifter and recipient; other entries and the key set never change |
| GiftLedger.Run | index.js:180-199 | a sequence of handler calls yields one reply slot per event |
| GiftLedger.RunKeepsNonNegative | index.js:182-193 | from a non-negative ledger and non-negative community counts, every entry stays at least 0 after any sequence of gift events |
| GiftLedger.RunLeavesOthers | index.js:182-193 | a user who is not the gifter of any event keeps their entry, or its absence, through the run |
| GiftLedger.Accounting | index.js:180-199 | the final count of a user is the initial count plus their community-gift totals minus the number of their individual gifts that got no reply |
| GiftLedger.SilencedWithinCredit | index.js:180-199 | from a non-negative ledger and non-negative community counts, the individual gifts left without their own thank-you never exceed the gifter's initial credit plus their community-gift totals (that a gift is silent exactly when credit remained is ReplyAt) |
| GiftLedger.RunAppend | index.js:180-199 | handling two batches in turn is handling their concatenation: ledgers thread through and replies concatenate |
| GiftLedger.ReplyAt | index.js:184-198 | the reply to the i-th event is its handler's reply in the ledger left by the earlier events: a batch thank-you for a community gift; for an individual gift silence iff credit remained, else a thank-you naming gifter and recipient |
| GiftLedger.Drain | index.js:191-193 | while credit lasts, k individual gifts lower the gifter's entry by exactly k and are all silent |
| GiftLedger.MassGiftThenIndividuals | index.js:181-199 | a community gift of N followed by N individual gifts from the same gifter returns the count to its prior value (0 for a new gifter) and sends only the one batch thank-you |
| GiftLedger.UncreditedGiftThanked | index.js:191-198 | an individual gift from a gifter without an entry is thanked and leaves the ledger identical |
| GiftLedger.GiftCounter.constructor | index.js:180 | the ledger starts empty |
| GiftLedger.GiftCounter.OnCommunitySub | index.js:181-187 | the in-place update of the map and the reply equal CommunitySub of the old map; non-negativity is preserved for a non-negative count |
| GiftLedger.GiftCounter.OnSubGift | index.js:189-199 | the in-place update of the map and the reply equal SubGift of the old map; non-negativity is preserved |
| ModEvents.ParseAction | index.js:63-143 | a recognised action string is the name of the action returned; every other string names no action |
| ModEvents.ActionNameRoundTrip | index.js:63-143 | each action's name is recognised as that action |
| ModEvents.FormatModAction | index.js:62-156 | an embed is produced iff the action is one of the five; titles, colours 0xff9600 / 0xff0000 / 0x00ff7f / 0xe281aa and field labels Timeout+Reason, Ban+Reason, Unban, Unban, VIP per action |
| ModEvents.ReasonOrPlaceholder | index.js:64-112 | for timeout and ban the Reason field is the reason verbatim when present and non-empty and the placeholder otherwise, and the first field is the summary built from target, duration (timeout only) and moderator |
| ModEvents.UntimeoutLoggedAsUnban | index.js:115-141 | untimeout gives exactly the unban embed, with the "Unban" label and "un-banned" text |
| ModEvents.VipIgnoresModerator | index.js:143-155 | vip gives the branded title, colour 0xe281aa and one "VIP" field naming the target as granted VIP by the broadcaster; the moderator's name does not matter |
| ModEvents.BanExample | index.js:89-102 | a ban of alice by mod1 for spamming logs "alice was banned by mod1." and "spamming" in red under "New Chat Event" |
| ModEvents.BanWithoutReasonExample | index.js:103-111 | a ban with no reason or an empty one logs the placeholder |
| Replies.Cheer | index.js:160 | the cheer reply text; for a user name without spaces it determines the user and the bit count (ParseCheer reads them back) |
| Replies.MassGift | index.js:184 | the community-gift reply text; for a gifter name without spaces it determines the gifter and the gifted count |
| Replies.SingleGift | index.js:195 | the single-gift reply text; for a gifter name without spaces it determines the gifter and the recipient |
| Replies.NewSub | index.js:202 | the new-subscriber reply text; any user name is read back from it |
| Replies.Resub | index.js:208 | the resubscription reply text; for a user name without spaces it determines the user and the months |
| Decimal.IntToString | index.js:184 | how `${n}` prints an integral Number (also at lines 160 and 208): a leading minus exactly for a negative number, then decimal digits; IntRoundTrip inverts it |
| Decimal.IntRoundTrip | index.js:184 | an interpolated integer is read back as the same integer |
| Tokens.NewDate | index.js:17 | a Date made from a timestamp is valid, and holds that timestamp iff it lies in the Date range |
| Tokens.LoadExpiry | index.js:17 | a null timestamp gives no expiry, any other one the Date made from it |
| Tokens.GetTime | index.js:26 | `getTime()` of a valid Date is NaN or a millisecond count within the Date range |
| Tokens.SaveExpiry | index.js:26 | no expiry gives null, a Date gives its time value |
| Tokens.Load | index.js:13-17 | start-up copies both tokens and has an expiry iff the stored timestamp is not null |
| Tokens.JsonNumber | index.js:28 | the encoder writes NaN (and a missing value) as null and a finite time value as itself |
| Tokens.OnRefresh | index.js:18-28 | the written record holds both new tokens, and a null timestamp iff there is no expiry or the Date is invalid |
| Tokens.ExpiryRoundTrip | index.js:17-26 | null maps to null both ways; a stored timestamp in range, loaded and saved again, is the same timestamp |
| Tokens.OutOfRangeExpiryBecomesNull | index.js:17-26 | a timestamp beyond the Date range loads as an invalid Date and is written back as null |
| Tokens.RefreshThenLoad | index.js:13-28 | credentials written on refresh are read back unchanged at the next start-up, except that an invalid Date comes back as no expiry |
| Tokens.NullExpiryPreserved | index.js:17-26 | a record with a null expiry survives load and save with null, not 0 or a date |

## Left out

- The `RefreshableAuthProvider` and `StaticAuthProvider` objects themselves (lines 13-16) and the construction and connection of the Twitch chat, PubSub, API and Discord clients, `registerUserListener`, `getUserByName` and `channels.fetch` (lines 35-60): foreign SDK calls and asynchronous I/O. The token record the auth providers are built from is modelled by `Tokens.Load`.
- Sending: `logChannel.send` and `chatClient.action` are replaced by returning the embed or the reply; a failed send is not modelled.
- Reading and writing `tokens.json` and the JSON text produced by `JSON.parse`/`JSON.stringify` (lines 10, 28); only the expiry mapping and the encoder's NaN-to-null rule are modelled. Stored timestamps are whole numbers; fractional ones are not modelled.
- `console.log` calls and `setTimestamp()`: they only read the wall clock or write to the console.
- The `!myd` command (lines 164-177): its non-broadcaster branch depends on `Math.random`.
- Callback registration and event-loop ordering: each handler is one atomic call, and `Run` takes the order of arrival as given.
- The channel argument of every handler: replies go to the originating channel and the channel has no other effect.
- Anonymous gifts: `subInfo.gifter` may be undefined in the chat library and would then be a map key of its own; the model takes the gifter to be a name.
- Decimal.IntToString, Decimal.IntRoundTrip: counts, bits and months are unbounded integers; the code's Numbers are exact only up to 2^53 in magnitude (beyond that, addition rounds and `String()` prints at most 17 significant digits, with exponent form from 1e21), so the model, including the ledger arithmetic of CommunitySub, SubGift and Drain, matches the code only up to 2^53.
- Replies.Cheer, Replies.MassGift, Replies.SingleGift, Replies.Resub: the read-back guarantee is stated for user names without spaces (as Twitch names are); a name containing the template's own wording could make a reply ambiguous.
