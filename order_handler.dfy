/** Ordering, after handlers/orderHandler.js: the order id derived from the clock, the
    record handed to the store, the confirmation message, and the list of a user's orders. */
module OrderHandler {
  import opened Js
  import opened Models
  import opened ConfigHandler

  /** The sender of an update: a numeric Telegram id and two optional names. */
  datatype User = User(id: nat, username: Option<string>, first_name: Option<string>)

  // ---------------------------------------------------------------------------
  // Order ids

  /** `"ORDER-" + Date.now().toString().slice(-6)`. */
  function OrderId(now: nat): (id: string)
    ensures StartsWith(id, "ORDER-") && 7 <= |id| <= 12
    ensures AllDigits(id[6..])
  {
    var digits := SliceLast(Decimal(now), 6);
    SliceLastDigits(Decimal(now), 6);
    assert ("ORDER-" + digits)[..6] == "ORDER-";
    assert ("ORDER-" + digits)[6..] == digits;
    "ORDER-" + digits
  }

  lemma SliceLastDigits(s: string, k: nat)
    requires AllDigits(s)
    ensures AllDigits(SliceLast(s, k))
  {
    var r := SliceLast(s, k);
    forall i | 0 <= i < |r| ensures IsDigit(r[i]) {
      assert r[i] == s[|s| - |r| + i];
    }
  }

  lemma Pow10Six()
    ensures Pow10(5) == 100000 && Pow10(6) == 1000000
  {
    assert Pow10(1) == 10;
    assert Pow10(2) == 100;
    assert Pow10(3) == 1000;
    assert Pow10(4) == 10000;
  }

  /** Past the first 10^5 milliseconds of the epoch the id carries exactly the six low-order
      digits of the clock. */
  lemma OrderIdDigits(now: nat)
    requires now >= 100000
    ensures OrderId(now) == "ORDER-" + LowDigits(now, 6)
  {
    Pow10Six();
    DecimalSuffix(now, 6);
  }

  /** Two clock readings give the same id exactly when they agree modulo 10^6: the scheme
      collides. */
  lemma OrderIdCollision(t1: nat, t2: nat)
    requires t1 >= 100000 && t2 >= 100000
    ensures OrderId(t1) == OrderId(t2) <==> t1 % 1000000 == t2 % 1000000
  {
    OrderIdDigits(t1);
    OrderIdDigits(t2);
    Pow10Six();
    LowDigitsAgree(t1, t2, 6);
    assert OrderId(t1)[6..] == LowDigits(t1, 6);
    assert OrderId(t2)[6..] == LowDigits(t2, 6);
  }

  /** In particular the id repeats every 10^6 milliseconds (about 16.7 minutes). */
  lemma OrderIdRepeats(t: nat)
    requires t >= 100000
    ensures OrderId(t + 1000000) == OrderId(t)
  {
    var later := t + 1000000;
    assert later % 1000000 == t % 1000000 by {
      DivModUnique(later, 1000000, t / 1000000 + 1, t % 1000000);
    }
    OrderIdCollision(t, later);
  }

  // ---------------------------------------------------------------------------
  // The order record

  /** The name stored with the order: the username, else the first name, else "Unknown". */
  function OrderUsername(from: User): (r: string)
    ensures r != ""
    ensures Truthy(from.username) ==> r == from.username.value
    ensures !Truthy(from.username) && Truthy(from.first_name) ==> r == from.first_name.value
    ensures !Truthy(from.username) && !Truthy(from.first_name) ==> r == "Unknown"
  {
    OrElse(Or(from.username, from.first_name), "Unknown")
  }

  /** The plan details copied into the order: the plan's details, else "VPN Plan". */
  function PlanDetailsOrDefault(p: Plan): (r: string)
    ensures r != ""
    ensures Truthy(p.details) ==> r == p.details.value
    ensures !Truthy(p.details) ==> r == "VPN Plan"
  {
    OrElse(p.details, "VPN Plan")
  }

  /** The object handleOrder passes to createOrder for `from` ordering `plan` at clock `now`. */
  function OrderRequest(from: User, plan: Plan, now: nat): OrderInput {
    OrderInput(
      id := Some(OrderId(now)),
      user_id := None,
      userid := Some(Decimal(from.id)),
      username := Some(OrderUsername(from)),
      config_id := None,
      configid := Some(plan.id),
      config_name := None,
      configname := Some(plan.name),
      config_details := None,
      configdetails := Some(PlanDetailsOrDefault(plan)),
      price := Some(plan.price),
      status := Some("pending"),
      createdat := None)
  }

  /** The stored row is a snapshot of the plan at ordering time: its id, name, details (or
      "VPN Plan") and price, the user's decimal id and display name, status "pending" and the
      clock as creation time. */
  lemma OrderSnapshotsPlan(from: User, plan: Plan, now: nat)
    ensures var row := OrderRowOf(OrderId(now), OrderRequest(from, plan, now), now);
      && row.id == OrderId(now)
      && row.userid == Some(Decimal(from.id))
      && row.username == Some(OrderUsername(from))
      && row.configid == Some(plan.id)
      && row.configname == Some(plan.name)
      && row.configdetails == Some(PlanDetailsOrDefault(plan))
      && row.price == Some(plan.price)
      && row.status == "pending"
      && row.createdat == now
  {
    NormalisationRules(OrderId(now), OrderRequest(from, plan, now), now);
  }

  /** The user id stored with the order reads back as the sender's numeric id. */
  lemma OrderOwnerReadsBack(from: User, plan: Plan, now: nat)
    ensures var row := OrderRowOf(OrderId(now), OrderRequest(from, plan, now), now);
      row.userid.Some? && AllDigits(row.userid.value) && DecimalValue(row.userid.value) == from.id
  {
    DecimalRoundTrip(from.id);
  }

  // ---------------------------------------------------------------------------
  // handleOrder

  const PlanMissingReply: string := "VPN plan not found."
  const OrderFailedReply: string := "Sorry, there was an error processing your order. Please try again later."

  const OrderHeader: string := "📦 Order Details:"
  const PaymentPrompt: string := "To complete your order, please send the payment to:"
  const PaymentPlaceholder: string := "[Your Payment Details Here]"
  const ScreenshotPrompt: string := "After payment, send a screenshot of the payment to confirm your order."

  /** The confirmation message, line by line. */
  function OrderDetailsLines(plan: Plan): (lines: seq<string>)
    ensures |lines| == 10
  {
    [ OrderHeader,
      "    ",
      "Name: " + plan.name,
      "Details: " + PlanDetailsOrDefault(plan),
      "Price: $" + FormatCents(plan.price),
      "",
      PaymentPrompt,
      PaymentPlaceholder,
      "",
      ScreenshotPrompt ]
  }

  function OrderDetailsText(plan: Plan): string {
    Join(OrderDetailsLines(plan), "\n")
  }

  lemma OrderLabelsAreSingleLines()
    ensures '\n' !in OrderHeader && '\n' !in "    "
    ensures '\n' !in "Name: " && '\n' !in "Details: " && '\n' !in "Price: $"
    ensures '\n' !in "VPN Plan"
  {
  }

  /** The lines carrying the order's data are single lines when the plan's texts are. */
  lemma OrderDataLinesAreSingleLines(plan: Plan)
    requires '\n' !in plan.name
    requires plan.details.Some? ==> '\n' !in plan.details.value
    ensures forall i :: 0 <= i < 5 ==> '\n' !in OrderDetailsLines(plan)[i]
  {
    var lines := OrderDetailsLines(plan);
    OrderLabelsAreSingleLines();
    PriceIsSingleLine(plan.price);
    assert '\n' !in PlanDetailsOrDefault(plan);
    forall i | 0 <= i < 5 ensures '\n' !in lines[i] {
      assert i in {0, 1, 2, 3, 4};
    }
  }

  /** The confirmation message reads back line by line: the plan's name, its details (or
      "VPN Plan") and its price formatted from the cents, under the fixed header. */
  lemma OrderDetailsReadBack(plan: Plan)
    requires '\n' !in plan.name
    requires plan.details.Some? ==> '\n' !in plan.details.value
    ensures var lines := SplitOn(OrderDetailsText(plan), '\n');
      && |lines| > 5
      && lines[0] == OrderHeader && lines[1] == "    "
      && lines[2] == "Name: " + plan.name
      && lines[3] == "Details: " + PlanDetailsOrDefault(plan)
      && lines[4] == "Price: $" + FormatCents(plan.price)
  {
    OrderDataLinesAreSingleLines(plan);
    assert "\n" == ['\n'];
    var lines := OrderDetailsLines(plan);
    SplitJoinPrefix(lines, 5, '\n');
    var split := SplitOn(OrderDetailsText(plan), '\n');
    assert forall i :: 0 <= i < 5 ==> split[i] == split[..5][i] == lines[..5][i];
  }

  /** The second half of handleOrder, once the plan is found: stores the order under the
      clock-derived id and replies with the confirmation; when the store refuses the insert
      (the id already taken, or the store unreachable) the reply is the apology and nothing
      is stored. */
  method PlaceOrder(db: Database, from: User, plan: Plan) returns (reply: string)
    requires db.Valid() && db.online
    modifies db`orders
    ensures db.Valid()
    ensures var row := OrderRowOf(OrderId(db.clock), OrderRequest(from, plan, db.clock), db.clock);
      if OrdersWithId(old(db.orders), OrderId(db.clock)) == [] then
        db.orders == old(db.orders) + [row] && reply == OrderDetailsText(plan)
      else
        db.orders == old(db.orders) && reply == OrderFailedReply
  {
    var created := db.CreateOrder(OrderRequest(from, plan, db.clock));
    if created.Err? {
      return OrderFailedReply;
    }
    reply := OrderDetailsText(plan);
  }

  /** handleOrder: looks the plan up; when the lookup yields null (the plan is missing or the
      store unreachable), replies that the plan was not found and stores nothing; otherwise
      places the order. */
  method HandleOrder(db: Database, from: User, configId: string) returns (reply: string)
    requires db.Valid()
    modifies db`orders
    ensures db.Valid()
    ensures var plan := ConfigOrNull(old(db.GetConfigById(configId)));
      && (plan.None? ==> reply == PlanMissingReply && db.orders == old(db.orders))
      && (plan.Some? ==>
            var row := OrderRowOf(OrderId(db.clock), OrderRequest(from, plan.value, db.clock), db.clock);
            if OrdersWithId(old(db.orders), OrderId(db.clock)) == [] then
              db.orders == old(db.orders) + [row] && reply == OrderDetailsText(plan.value)
            else
              db.orders == old(db.orders) && reply == OrderFailedReply)
  {
    var plan := ConfigOrNull(db.GetConfigById(configId));
    if plan.None? {
      return PlanMissingReply;
    }
    reply := PlaceOrder(db, from, plan.value);
  }

  /** Ordering a stored plan again once the clock has moved on by 10^6 milliseconds from
      the first order: the id is taken, so the store refuses the insert. */
  method OrderAgainLater(db: Database, from: User, plan: Plan) returns (reply: string)
    requires db.Valid() && db.online && db.plans == [plan]
    requires |db.orders| == 1 && db.clock >= 100000 && db.orders[0].id == OrderId(db.clock)
    modifies db`orders, db`clock
    ensures reply == OrderFailedReply && db.orders == old(db.orders)
  {
    var t := db.clock;
    db.Tick(1000000);
    OrderIdRepeats(t);
    assert OrdersWithId(db.orders, OrderId(db.clock)) != [] by {
      assert db.orders[0] in db.orders;
    }
    db.GetConfigByIdFinds(0);
    reply := HandleOrder(db, from, plan.id);
  }

  /** A plan ordered 10^6 milliseconds after a first order of it gets the first order's id:
      the store refuses the second insert and the user reads the apology. */
  method RepeatedOrderId(from: User, plan: Plan, t: nat) returns (first: string, second: string, rows: seq<OrderRow>)
    requires t >= 100000
    ensures first == OrderDetailsText(plan)
    ensures second == OrderFailedReply
    ensures |rows| == 1 && rows[0].id == OrderId(t) && rows[0].createdat == t
  {
    var db := StoreWith(plan, t);
    var placed;
    placed, first := FirstOrder(db, from, plan);
    second := OrderAgainLater(db, from, plan);
    rows := db.orders;
  }

  /** The Basic plan (999 cents) ordered and then confirmed: the stored order snapshots the
      plan as pending, and the status update leaves it confirmed. */
  method ConfirmedOrder(from: User, basic: Plan, t: nat) returns (placed: OrderRow, confirmed: Option<OrderRow>)
    requires basic.id == "p1" && basic.name == "Basic" && basic.price == 999
    ensures placed.configid == Some("p1") && placed.configname == Some("Basic")
    ensures placed.price == Some(999) && placed.status == "pending"
    ensures confirmed.Some? && confirmed.value.id == placed.id && confirmed.value.status == "confirmed"
  {
    var db := StoreWith(basic, t);
    var reply;
    placed, reply := FirstOrder(db, from, basic);
    OrderSnapshotsPlan(from, basic, t);
    confirmed := Confirm(db, placed.id);
  }

  /** A fresh reachable store at time t whose catalog holds just the plan. */
  method StoreWith(plan: Plan, t: nat) returns (db: Database)
    ensures fresh(db) && db.Valid() && db.online
    ensures db.plans == [plan] && db.orders == [] && db.clock == t
  {
    db := new Database(t);
    var stored := db.CreateConfig(plan);
  }

  /** handleOrder on a reachable store holding just the plan and no orders yet. */
  method FirstOrder(db: Database, from: User, plan: Plan) returns (placed: OrderRow, reply: string)
    requires db.Valid() && db.online && db.plans == [plan] && db.orders == []
    modifies db`orders
    ensures db.Valid() && db.orders == [placed] && reply == OrderDetailsText(plan)
    ensures placed == OrderRowOf(OrderId(db.clock), OrderRequest(from, plan, db.clock), db.clock)
  {
    db.GetConfigByIdFinds(0);
    reply := HandleOrder(db, from, plan.id);
    placed := db.orders[0];
  }

  /** updateOrderStatus(id, "confirmed") on a reachable store holding the order. */
  method Confirm(db: Database, id: string) returns (confirmed: Option<OrderRow>)
    requires db.Valid() && db.online && |db.orders| > 0 && db.orders[0].id == id
    modifies db`orders
    ensures confirmed.Some? && confirmed.value.id == id && confirmed.value.status == "confirmed"
  {
    var updated := db.UpdateOrderStatus(id, "confirmed");
    assert db.orders[0].id == id;
    confirmed := updated.value;
  }

  // ---------------------------------------------------------------------------
  // getUserOrders

  const OrdersFailedReply: string := "Sorry, there was an error retrieving your orders. Please try again later."
  const NoOrdersReply: string := "You have no orders yet."
  const OrdersHeading: string := "Your Orders:\n\n"

  /** The shown product and price of an order. The catalog is consulted through `lookup`
      only when the stored name, after its fallback, is empty. */
  function ProductAndPrice(order: OrderRow, lookup: string -> Option<Plan>): (string, string) {
    var configName := OrElse(order.configname, "Unknown Plan");
    var price := if order.price.Some? then order.price.value else 0;
    var configPrice := "$" + FormatCents(price);
    // the lookup is pure, so asking it up front changes nothing
    var found := if Truthy(order.configid) then lookup(order.configid.value) else None;
    if configName == "" then
      match found
      case Some(plan) => (plan.name, "$" + FormatCents(plan.price))
      case None => (configName, configPrice)
    else (configName, configPrice)
  }

  /** The lines of one order's entry in the list; `localeDate` renders a timestamp. */
  function OrderEntryLines(order: OrderRow, lookup: string -> Option<Plan>, localeDate: nat -> string): (lines: seq<string>)
    ensures |lines| == 5
  {
    var (product, price) := ProductAndPrice(order, lookup);
    [ "🔹 Order: " + order.id,
      "Product: " + product,
      "Price: " + price,
      "Status: " + OrElse(Some(order.status), "pending"),
      "Date: " + localeDate(order.createdat) ]
  }

  function OrderEntry(order: OrderRow, lookup: string -> Option<Plan>, localeDate: nat -> string): string {
    Join(OrderEntryLines(order, lookup, localeDate), "\n")
  }

  function OrderEntries(orders: seq<OrderRow>, lookup: string -> Option<Plan>, localeDate: nat -> string): (r: seq<string>)
    ensures |r| == |orders|
    ensures forall i :: 0 <= i < |orders| ==> r[i] == OrderEntry(orders[i], lookup, localeDate)
  {
    seq(|orders|, i requires 0 <= i < |orders| => OrderEntry(orders[i], lookup, localeDate))
  }

  /** The reply of getUserOrders to the result of fetching the user's orders. */
  function OrdersReply(fetched: Result<seq<OrderRow>, StoreError>, lookup: string -> Option<Plan>,
                       localeDate: nat -> string): (reply: string)
    ensures fetched.Err? ==> reply == OrdersFailedReply
    ensures fetched == Ok([]) ==> reply == NoOrdersReply
    ensures fetched.Ok? && fetched.value != [] ==>
      reply == OrdersHeading + Join(OrderEntries(fetched.value, lookup, localeDate), "\n\n")
  {
    match fetched
    case Err(_) => OrdersFailedReply
    case Ok(orders) =>
      if |orders| == 0 then NoOrdersReply
      else OrdersHeading + Join(OrderEntries(orders, lookup, localeDate), "\n\n")
  }

  /** The catalog as getUserOrders would consult it: getConfigById with null for failures. */
  function CatalogLookup(online: bool, plans: seq<Plan>): string -> Option<Plan> {
    id => ConfigOrNull(FetchPlan(online, plans, id))
  }

  /** getUserOrders: the reply listing the sender's orders, newest first. */
  function UserOrdersReply(db: Database, from: User, localeDate: nat -> string): (reply: string)
    reads db`orders, db`plans, db`online
    ensures !db.online ==> reply == OrdersFailedReply
    ensures db.online && OrdersOfUser(db.orders, Decimal(from.id)) == [] ==> reply == NoOrdersReply
  {
    var fetched := db.GetOrdersByUser(Decimal(from.id));
    assert fetched.Ok? ==> |fetched.value| == |OrdersOfUser(db.orders, Decimal(from.id))| by {
      if fetched.Ok? {
        assert |multiset(fetched.value)| == |multiset(OrdersOfUser(db.orders, Decimal(from.id)))|;
      }
    }
    OrdersReply(fetched, CatalogLookup(db.online, db.plans), localeDate)
  }

  /** The fallback on the stored name never leaves it empty, so the catalog is never
      consulted: an entry depends on the order alone. */
  lemma EntryIgnoresCatalog(order: OrderRow, lookup1: string -> Option<Plan>, lookup2: string -> Option<Plan>,
                            localeDate: nat -> string)
    ensures OrderEntry(order, lookup1, localeDate) == OrderEntry(order, lookup2, localeDate)
  {
    assert ProductAndPrice(order, lookup1) == ProductAndPrice(order, lookup2);
  }

  /** The shown product is the stored name or "Unknown Plan", the price the stored cents or
      zero, the status the stored one or "pending". */
  lemma EntryFallbacks(order: OrderRow, lookup: string -> Option<Plan>, localeDate: nat -> string)
    ensures var lines := OrderEntryLines(order, lookup, localeDate);
      && lines[0] == "🔹 Order: " + order.id
      && lines[1] == "Product: " + (if Truthy(order.configname) then order.configname.value else "Unknown Plan")
      && lines[2] == "Price: $" + FormatCents(if order.price.Some? then order.price.value else 0)
      && lines[3] == "Status: " + (if order.status != "" then order.status else "pending")
      && lines[4] == "Date: " + localeDate(order.createdat)
  {
    var cents := if order.price.Some? then order.price.value else 0;
    StoredProductAndPrice(order, lookup);
    PriceLabel(FormatCents(cents));
  }

  /** The stored name (or "Unknown Plan") and the stored price (or zero) are what is shown. */
  lemma StoredProductAndPrice(order: OrderRow, lookup: string -> Option<Plan>)
    ensures ProductAndPrice(order, lookup)
         == (if Truthy(order.configname) then order.configname.value else "Unknown Plan",
             "$" + FormatCents(if order.price.Some? then order.price.value else 0))
  {
  }

  lemma PriceLabel(amount: string)
    ensures "Price: " + ("$" + amount) == "Price: $" + amount
  {
  }

  /** Entries are listed in the order the store returns them, separated by a blank line: one
      more order appends a blank line and its entry. */
  lemma OrdersReplySnoc(orders: seq<OrderRow>, order: OrderRow, lookup: string -> Option<Plan>,
                        localeDate: nat -> string)
    requires orders != []
    ensures OrdersReply(Ok(orders + [order]), lookup, localeDate)
         == OrdersReply(Ok(orders), lookup, localeDate) + "\n\n" + OrderEntry(order, lookup, localeDate)
  {
    var entries := OrderEntries(orders, lookup, localeDate);
    var entry := OrderEntry(order, lookup, localeDate);
    assert OrderEntries(orders + [order], lookup, localeDate) == entries + [entry];
    JoinSnoc(entries, entry, "\n\n");
    var joined := Join(entries, "\n\n");
    assert OrdersReply(Ok(orders), lookup, localeDate) == OrdersHeading + joined;
    assert OrdersReply(Ok(orders + [order]), lookup, localeDate) == OrdersHeading + (joined + "\n\n" + entry);
    ConcatAssoc(OrdersHeading, joined, "\n\n", entry);
  }

  /** The first four lines of an entry read back from the message when the stored texts are
      single lines (the rendered date may hold anything). */
  lemma OrderEntryReadsBack(order: OrderRow, lookup: string -> Option<Plan>, localeDate: nat -> string)
    requires '\n' !in order.id && '\n' !in order.status
    requires order.configname.Some? ==> '\n' !in order.configname.value
    ensures var lines := SplitOn(OrderEntry(order, lookup, localeDate), '\n');
      |lines| > 4 && lines[..4] == OrderEntryLines(order, lookup, localeDate)[..4]
  {
    var lines := OrderEntryLines(order, lookup, localeDate);
    EntryFallbacks(order, lookup, localeDate);
    PriceIsSingleLine(if order.price.Some? then order.price.value else 0);
    assert '\n' !in "🔹 Order: " && '\n' !in "Product: " && '\n' !in "Price: $" && '\n' !in "Status: ";
    assert '\n' !in "Unknown Plan" && '\n' !in "pending";
    assert "Price: $" + FormatCents(if order.price.Some? then order.price.value else 0) == lines[2];
    forall i | 0 <= i < 4 ensures '\n' !in lines[i] {
      assert i in {0, 1, 2, 3};
    }
    assert "\n" == ['\n'];
    SplitJoinPrefix(lines, 4, '\n');
  }
}
