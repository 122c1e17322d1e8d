# VPN storefront bot: order and catalog core in Dafny

This project models the core of a Telegram bot that sells VPN plans. The bot lists the
plan catalog as an inline keyboard and shows a plan's details. It turns a "Buy" press
into an order row in a remote table store, lists a user's orders, answers free text with a
keyword classifier, and forwards media to an operator.

The model has five modules:

- `Js` (js.dfy) holds the JavaScript value semantics the handlers rely on:
  - optional values and the truthiness behind `a || b`;
  - `Number.prototype.toString()` on naturals and `slice(-k)`;
  - `startsWith`, `includes` and ASCII `toLowerCase`;
  - `join` on a separator, and `split` on one character to read the messages back.
- `Models` (models.dfy), after db/models.js:
  - the `vpn_plans` and `orders` tables are the class `Database`, whose fields are the two
    row sequences, a millisecond clock and a reachability flag;
  - inserts and updates are methods that reassign the tables;
  - selects are functions over them.
  - The store's constraints are the invariant `Valid()`: the `id` column is the primary key
    of both tables, and no row's timestamp is ahead of the clock.
  - `.single()` fails with no rows or with several rows, and an insert fails on a null or
    duplicate id.
- `ConfigHandler` (config_handler.dfy), after handlers/configHandler.js:
  - the null and `[]` fallbacks of the lookups;
  - the price format;
  - the catalog keyboard, built by a loop;
  - the plan-detail message and keyboard.
- `OrderHandler` (order_handler.dfy), after handlers/orderHandler.js:
  - the clock-derived order id;
  - the record handed to the store;
  - `handleOrder`, and the order-list reply of `getUserOrders`.
- `MessageHandler` (message_handler.dfy), after handlers/messageHandler.js:
  - the first-match keyword classifier and the `/` test;
  - the callback triggers, with JavaScript `RegExp.prototype.exec` semantics: leftmost
    match, unanchored, and `.` refusing line terminators;
  - the media reply and the username display.

The store's clock is the `clock` field. It serves both as `Date.now()` in `handleOrder` and
as `new Date()` in the store methods. Locale date rendering is a function parameter.

Two points of the code shape the model:

- The callback data is `view_<id>` and `buy_<id>`, with an underscore, as
  handlers/configHandler.js:57,64 builds it.
- Creating an order is split between the handler `handleOrder`, which builds the record,
  and the store method `createOrder`, which normalises and inserts it. The model keeps that
  split.

## Model

| member | source | states |
|---|---|---|
| Models.NormalisationRules | db/models.js:97-107 | userid, configid, configname and configdetails each take the snake_case input when it is truthy, else the flat one; id, username and price are copied; status is the input status or "pending"; createdat is the clock, whatever the input carries |
| Models.ReinsertIsIdentity | db/models.js:97-107 | re-inserting a stored row in its flat-named form reproduces the row (normalisation is idempotent) |
| Models.Database.CreateOrder | db/models.js:95-120 | succeeds exactly when the store is reachable and the id is present and unused; then appends the normalised row stamped with the clock and returns it; otherwise the table is unchanged and the error says why; keeps the primary key |
| Models.PlanById | db/models.js:30-43 | `.single()` on the id: a result is a stored plan with that id; NoRows exactly when no plan has it; otherwise ManyRows |
| Models.PlanByIdFinds | db/models.js:30-43 | with distinct ids, every stored plan is found by its own id |
| Models.Database.GetConfigById | db/models.js:30-43 | an unreachable store fails; a reachable one answers `.single()` over the plans |
| Models.Database.GetConfigByIdFinds | db/models.js:30-43 | on a valid reachable store every stored plan is found by its id |
| Models.Database.GetAllConfigs | db/models.js:11-23 | fails exactly when unreachable; otherwise returns a permutation of the plans in ascending price |
| Models.SortBy | db/models.js:15 | the ordering clause: the result is sorted by the key and a permutation of the input (also line 132) |
| Models.NewestFirst | db/models.js:132 | the descending createdat order: the same rows as a permutation, each no older than the next |
| Models.OrdersOfUser | db/models.js:131 | the `.eq('userid', …)` filter keeps exactly the user's rows |
| Models.Database.GetOrdersByUser | db/models.js:127-140 | fails exactly when unreachable; otherwise holds exactly the rows whose userid is the given id, as a permutation of them, newest createdat first |
| Models.OrderById | db/models.js:147-160 | `.single()` on the order id, with NoRows exactly when no row has it |
| Models.OrderByIdFinds | db/models.js:147-160 | with distinct ids, every stored order is found by its own id |
| Models.Database.GetOrderById | db/models.js:147-160 | an unreachable store fails; a reachable one answers `.single()` over the orders |
| Models.Database.GetOrderByIdFinds | db/models.js:147-160 | on a valid reachable store every stored order is found by its id |
| Models.Database.GetOrderByReferenceId | db/models.js:167-170 | answers exactly as the lookup by order id |
| Models.WithStatus | db/models.js:181-185 | the update payload rewrites status and createdat on every row with the id and leaves the other rows as they were |
| Models.StatusUpdateKeepsSnapshot | db/models.js:181-185 | an update changes only status and createdat, and only on the matching row |
| Models.StatusUpdateRefreshesTimestamp | db/models.js:183 | an update never moves a timestamp backwards and never past the clock |
| Models.Database.UpdateOrderStatus | db/models.js:178-194 | an unreachable store changes nothing; otherwise the table becomes the updated table, the result is the first updated row or None when nothing matched, and the primary key still holds |
| Models.PaymentSubStatusRoundTrip | db/models.js:205-208 | the status `"paid:" + s` reads back as s, and "pending" is not a paid status |
| Models.Database.UpdatePaymentStatus | db/models.js:203-222 | the same update with status `"paid:" + paymentStatus`; the payment id has no effect |
| Models.FirstWithId | db/models.js:193 | `data[0]` after an update: a row with the id, or None exactly when no row has it (also line 221) |
| Models.Database.CreateConfig | db/models.js:50-62 | inserts a plan exactly when reachable and its id is unused, keeping the primary key |
| Models.Database.UpdateConfig | db/models.js:70-83 | patches every plan with the id; returns the first updated plan, present exactly when a plan had the id |
| ConfigHandler.ConfigOrNull | handlers/configHandler.js:9-16 | any store failure becomes null, a found plan passes through |
| ConfigHandler.ConfigsOrEmpty | handlers/configHandler.js:22-29 | a store failure becomes the empty catalog |
| ConfigHandler.ConfigLookupOutcome | handlers/configHandler.js:9-16 | through the handler a plan is found exactly when the store is reachable and holds a plan with the id, and then it is that plan |
| ConfigHandler.FormatCents | handlers/configHandler.js:51 | `toFixed(2)` of cents/100: whole units in digits, a point, exactly two digits (also line 94) |
| ConfigHandler.FormatCentsRoundTrip | handlers/configHandler.js:51 | the cents read back from the formatted price (also line 94) |
| ConfigHandler.FormatCents1999 | handlers/configHandler.js:51 | 1999 cents show as "19.99" |
| ConfigHandler.FormatCents999 | handlers/configHandler.js:51 | 999 cents show as "9.99" |
| ConfigHandler.FormatCents5 | handlers/configHandler.js:51 | 5 cents show as "0.05" |
| ConfigHandler.BuildConfigKeyboard | handlers/configHandler.js:39-68 | an empty catalog gives the single `no_plans` button; otherwise exactly two rows per plan in catalog order: the title button (`name - $price`, `view_<id>`), then View Details (`view_<id>`) and Buy Now (`buy_<id>`) |
| ConfigHandler.ConfigKeyboard | handlers/configHandler.js:35-68 | getConfigKeyboard lays out the fetched catalog, empty on a store failure |
| ConfigHandler.CatalogActionsNamePlans | handlers/configHandler.js:54-65 | every button of row r names plan r/2; only the second button of an odd row buys |
| ConfigHandler.BasicPlanKeyboard | handlers/configHandler.js:46-68 | the one-plan catalog Basic at 999 cents gives exactly the rows ("Basic - $9.99", view_p1) and (View Details view_p1, Buy Now buy_p1) |
| ConfigHandler.Description | handlers/configHandler.js:101 | the plan's details when truthy, else the fixed sentence; never empty |
| ConfigHandler.LocationsLine | handlers/configHandler.js:102 | present exactly for a non-empty location list, which it joins with ", " |
| ConfigHandler.DetailLines | handlers/configHandler.js:97-104 | the detail message has eight lines |
| ConfigHandler.DetailTextReadsBack | handlers/configHandler.js:97-104 | split on newlines, the message gives back the name, the formatted price, the description and the locations line in place |
| ConfigHandler.DetailKeyboard | handlers/configHandler.js:107-110 | two rows: `buy_<id>`, then `show_plans` |
| ConfigHandler.GetPlanDetails | handlers/configHandler.js:82-112 | an unknown plan gives the not-found text over the full catalog keyboard; a found plan gives its detail text and keyboard |
| OrderHandler.OrderId | handlers/orderHandler.js:36 | "ORDER-" followed by one to six digits |
| OrderHandler.OrderIdDigits | handlers/orderHandler.js:36 | from 10^5 ms on, the id carries exactly the six low-order digits of the clock |
| OrderHandler.OrderIdCollision | handlers/orderHandler.js:36 | two clock readings give the same id exactly when they agree modulo 10^6 |
| OrderHandler.OrderIdRepeats | handlers/orderHandler.js:36 | the id repeats every 10^6 ms |
| OrderHandler.OrderUsername | handlers/orderHandler.js:40 | the username, else the first name, else "Unknown"; never empty |
| OrderHandler.PlanDetailsOrDefault | handlers/orderHandler.js:19 | the plan's details, else "VPN Plan" |
| OrderHandler.OrderSnapshotsPlan | handlers/orderHandler.js:36-47 | the stored row carries the clock-derived id, the sender's decimal id and display name, the plan's id, name, details (or "VPN Plan") and price, status "pending" and the clock as creation time (also line 19) |
| OrderHandler.OrderOwnerReadsBack | handlers/orderHandler.js:39 | the stored user id reads back as the sender's numeric id |
| OrderHandler.OrderDetailsReadBack | handlers/orderHandler.js:23-32 | split on newlines, the confirmation gives back the plan's name, details and formatted price under the header |
| OrderHandler.PlaceOrder | handlers/orderHandler.js:36-68 | with the id free, the row is appended and the confirmation is the reply; with the id taken, nothing is stored and the reply is the apology |
| OrderHandler.HandleOrder | handlers/orderHandler.js:10-73 | a null lookup replies "VPN plan not found." and stores nothing; otherwise as PlaceOrder |
| OrderHandler.RepeatedOrderId | handlers/orderHandler.js:36-49 | ordering again 10^6 ms later reuses the id: the second order is refused with the apology and the first stays the only row |
| OrderHandler.ConfirmedOrder | handlers/orderHandler.js:37-49 | ordering the Basic plan stores configid p1, name Basic, price 999, status pending; updating the status leaves it "confirmed" |
| OrderHandler.OrdersReply | handlers/orderHandler.js:80-123 | a failed fetch gives the apology, no orders give "You have no orders yet.", otherwise the header and the entries joined by blank lines |
| OrderHandler.UserOrdersReply | handlers/orderHandler.js:80-87 | an unreachable store gives the apology; a user without rows gets "You have no orders yet." |
| OrderHandler.EntryFallbacks | handlers/orderHandler.js:109-116 | an entry shows the order id, the stored name or "Unknown Plan", the stored price or 0, the stored status or "pending", and the rendered date (also lines 91-93) |
| OrderHandler.EntryIgnoresCatalog | handlers/orderHandler.js:96-106 | an entry does not depend on the catalog: the re-read branch is dead (also line 91) |
| OrderHandler.OrdersReplySnoc | handlers/orderHandler.js:119 | entries appear in the order the store returns them, separated by a blank line (also line 90) |
| OrderHandler.OrderEntryReadsBack | handlers/orderHandler.js:112-116 | split on newlines, an entry gives back its first four lines |
| MessageHandler.KeywordTests | handlers/messageHandler.js:298-306 | each intent's keyword set is the disjunction of `includes` tests |
| MessageHandler.Classify | handlers/messageHandler.js:298-311 | the first intent in chain order whose keywords occur; no earlier intent's keywords occur; Other when none do |
| MessageHandler.TextMessageReply | handlers/messageHandler.js:295-311 | no keyword reply exactly for text starting with "/"; otherwise the reply to the class of the lower-cased text (also line 261) |
| MessageHandler.ClassifierIgnoresCase | handlers/messageHandler.js:295 | texts equal up to letter case get the same answer |
| MessageHandler.UpperCaseAnsweredAlike | handlers/messageHandler.js:295 | an upper-cased text gets the same answer as the text |
| MessageHandler.PayCoversPayment | handlers/messageHandler.js:300 | the payment keywords match exactly when "pay" occurs |
| MessageHandler.PayBeatsHelp | handlers/messageHandler.js:300 | text with "pay" and "help" and no FAQ keyword gets the payment reply (also line 304) |
| MessageHandler.IntentButtonData | handlers/messageHandler.js:299-307 | each classifier reply's button carries its intent's callback data |
| MessageHandler.TakeLine | handlers/messageHandler.js:217 | a greedy `.+` takes the longest prefix free of line terminators (also line 242) |
| MessageHandler.RegexCapture | handlers/messageHandler.js:217-218 | a capture is non-empty and a single line (also lines 242-243) |
| MessageHandler.CaptureAfterPrefix | handlers/messageHandler.js:217-218 | the prefix followed by a non-empty single-line id captures the id (also lines 242-243) |
| MessageHandler.CaptureNeedsPrefix | handlers/messageHandler.js:217 | data without the prefix is not captured (also line 242) |
| MessageHandler.RouteCallback | handlers/messageHandler.js:217-257 | handlers are tried in registration order: a view capture wins, then "show_plans", then a buy capture, then "no_plans" and "error_plans", each both necessary and sufficient given that the earlier ones fail; the data is unhandled exactly when none matches, and no show_faq/payment/download/support handler exists |
| MessageHandler.RouteInvertsData | handlers/messageHandler.js:217-257 | the router recovers every callback it handles from its data, given single-line ids and bought ids without "view_" |
| MessageHandler.BuyOfViewIdOpensDetails | handlers/messageHandler.js:217 | for every single-line id, the buy data of plan "view_" + id routes to the details of plan id (also line 242) |
| MessageHandler.InfoButtonsUnhandled | handlers/messageHandler.js:299-305 | the callback data of the FAQ, payment, download and support buttons (IntentButtonData) reaches no handler |
| MessageHandler.RouteIntendedInvertsData | handlers/messageHandler.js:217-257 | the corrected router recovers every sendable callback from its data |
| MessageHandler.CatalogButtonsRoute | handlers/configHandler.js:54-65 | under the corrected router, each catalog button reaches the view or buy handler of its own plan |
| MessageHandler.DetailButtonsRoute | handlers/configHandler.js:107-110 | under the corrected router, the detail buttons reach buy of the plan and the catalog |
| MessageHandler.IntentButtonsRoute | handlers/messageHandler.js:299-307 | under the corrected router every classifier button reaches its handler |
| MessageHandler.ForwardMedia | handlers/messageHandler.js:11-54 | the user is thanked naming the media kind on every path; without an operator id nothing is delivered; otherwise the notice, then the forward, stopping at the first failure |
| MessageHandler.MediaThanksNamesKind | handlers/messageHandler.js:57-66 | the thanks differ exactly when the media kinds differ (also lines 20, 49, 52) |
| MessageHandler.UsernameDisplay | handlers/messageHandler.js:33 | "@" and the username when truthy, else "Not set" (also line 278) |
| MessageHandler.UsernameDisplayReadsBack | handlers/messageHandler.js:33 | the displayed name reads back as the username when truthy, and as none otherwise (also line 278) |

## Left out

- index.js is not part of this model. It holds environment checks, the health endpoint,
  launch and webhook setup, and signal handlers.
- The remote store's client and transport are replaced by the in-memory `Database`. A
  failure is the `online` flag; timeouts, partial failures and concurrent writers are not
  modelled.
- The Telegram transport is left out: `answerCbQuery`, `editMessageText`, `reply`, Markdown
  parse mode, and the dispatch of a routed callback to the handler it names. A keyboard is a
  sequence of rows of (text, callback data) buttons.
- The operator messages are left out: the order notice, and the user-info text of the text
  and media handlers. Only the username line's display rule is modelled, and the media
  handler keeps only its order of deliveries.
- The `/start`, `/help`, `/plans`, `/orders`, `/faq`, `/payment`, `/support` and
  `/download` commands are left out. They send fixed texts or call the modelled operations.
- `console` logging is left out.
- `toISOString` and `toLocaleDateString` are left out. Dates are naturals, and the rendered
  date is the parameter `localeDate`.
- The `try`/`catch` paths that the model cannot reach are left out. The handlers catch
  store exceptions through `getConfigById` and `getAllConfigs`, so the error keyboard
  (`error_plans`), the detail-error text and the bot-wide `catch` are never produced.
- `Promise.all` in `getUserOrders` is modelled as a plain map. Its per-order step does no
  I/O.
- ConfigHandler.FormatCents: models `toFixed(2)` on integer cents with exact division. Negative
  prices are not modelled. From about 2^46 dollars (some 7·10^15 cents) the floating-point
  `/ 100` can round differently from integer division, and from 10^21 dollars (10^23 cents)
  `toFixed` switches to exponent form; neither is modelled.
- MessageHandler.Classify: lower-cases ASCII letters only. `toLowerCase` also maps other
  Unicode letters.
- Models.SortBy: keeps rows with equal keys in table order. The store leaves their order
  open.
- Models.Database.UpdateConfig: the patch never changes a plan's id.
- OrderHandler.UserOrdersReply: its contract states the error and empty cases. The
  non-empty text is stated by OrdersReply, EntryFallbacks and OrdersReplySnoc.
- MessageHandler.CaptureAfterPrefix: requires the id to be a single line. A plan id holding
  a line break is captured only up to it, as `.` stops there.

## Findings

| source | as written | input that shows it | evidently intended | confidence | as-written member | corrected member |
|---|---|---|---|---|---|---|
| handlers/messageHandler.js:217,242 | the trigger `/view_(.+)/` is unanchored and registered before `/buy_(.+)/`, so it also fires inside buy data | the Buy Now button of a plan with id "view_1" sends "buy_view_1", which opens the details of plan "1" (any id after "view_" likewise) | buy data orders the plan it names (triggers anchored at the start) | low (needs a plan id holding "view_"); not executed | MessageHandler.BuyOfViewIdOpensDetails | MessageHandler.RouteIntendedInvertsData |
| handlers/messageHandler.js:299-305 | the classifier's buttons send show_faq, show_payment, show_download and show_support, but no action handler is registered for them | the text "faq" gets a "View FAQ" button whose press reaches no handler | each button opens the section its reply announces | medium; not executed | MessageHandler.InfoButtonsUnhandled | MessageHandler.IntentButtonsRoute |
