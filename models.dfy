/** The two remote tables behind the bot, `vpn_plans` and `orders`, and the operations of
    db/models.js over them. The remote store is held in memory by the class Database; its
    clock stands for `new Date()` and its `online` flag for the reachability of the store. */
module Models {
  import opened Js

  /** A row of `vpn_plans`. Prices are integer cents. */
  datatype Plan = Plan(
    id: string,
    name: string,
    price: nat,
    details: Option<string>,
    locations: Option<seq<string>>)

  /** The fields an administrative update may overwrite on a plan; absent fields are kept. */
  datatype PlanPatch = PlanPatch(
    name: Option<string>,
    price: Option<nat>,
    details: Option<Option<string>>,
    locations: Option<Option<seq<string>>>)

  /** A row of `orders`, under the table's own column names. `createdat` is the clock value
      of the last write to the row. */
  datatype OrderRow = OrderRow(
    id: string,
    userid: Option<string>,
    username: Option<string>,
    configid: Option<string>,
    configname: Option<string>,
    configdetails: Option<string>,
    price: Option<nat>,
    status: string,
    createdat: nat)

  /** The object a caller hands to createOrder. Four columns may arrive under a snake_case
      or a flat name, and any field may be missing. */
  datatype OrderInput = OrderInput(
    id: Option<string>,
    user_id: Option<string>,
    userid: Option<string>,
    username: Option<string>,
    config_id: Option<string>,
    configid: Option<string>,
    config_name: Option<string>,
    configname: Option<string>,
    config_details: Option<string>,
    configdetails: Option<string>,
    price: Option<nat>,
    status: Option<string>,
    createdat: Option<nat>)

  /** The failures the store reports. */
  datatype StoreError =
    | Unavailable   // the store could not be reached
    | NoRows        // `.single()` matched no row
    | ManyRows      // `.single()` matched more than one row
    | NullId        // insert without a primary key
    | DuplicateId   // insert whose primary key is already taken

  // ---------------------------------------------------------------------------
  // Row construction

  /** The row createOrder writes for an input carrying primary key `id`, at clock `now`. */
  function OrderRowOf(id: string, input: OrderInput, now: nat): OrderRow {
    OrderRow(
      id := id,
      userid := Or(input.user_id, input.userid),
      username := input.username,
      configid := Or(input.config_id, input.configid),
      configname := Or(input.config_name, input.configname),
      configdetails := Or(input.config_details, input.configdetails),
      price := input.price,
      status := OrElse(input.status, "pending"),
      createdat := now)
  }

  /** A coalesced column: the snake_case value when it is truthy, otherwise the flat one. */
  predicate Coalesced(column: Option<string>, snake: Option<string>, flat: Option<string>) {
    (Truthy(snake) ==> column == snake) && (!Truthy(snake) ==> column == flat)
  }

  /** The normalisation rules of createOrder: each doubly named column holds exactly one of
      its two inputs, the snake_case one winning when truthy; id, username and price are
      copied; status defaults to "pending"; the timestamp comes from the clock alone. */
  lemma NormalisationRules(id: string, input: OrderInput, now: nat)
    ensures var row := OrderRowOf(id, input, now);
      && Coalesced(row.userid, input.user_id, input.userid)
      && Coalesced(row.configid, input.config_id, input.configid)
      && Coalesced(row.configname, input.config_name, input.configname)
      && Coalesced(row.configdetails, input.config_details, input.configdetails)
      && row.id == id && row.username == input.username && row.price == input.price
      && (Truthy(input.status) ==> row.status == input.status.value)
      && (!Truthy(input.status) ==> row.status == "pending")
      && row.createdat == now
      && forall t :: OrderRowOf(id, input.(createdat := t), now) == row
  {
  }

  /** A stored row, handed back in its flat-named form, is stored again unchanged: the
      normalisation is the identity on rows already in canonical shape. */
  function AsInput(row: OrderRow): OrderInput {
    OrderInput(Some(row.id), None, row.userid, row.username, None, row.configid,
               None, row.configname, None, row.configdetails, row.price, Some(row.status), None)
  }

  lemma ReinsertIsIdentity(row: OrderRow)
    requires row.status != ""
    ensures OrderRowOf(row.id, AsInput(row), row.createdat) == row
  {
  }

  // ---------------------------------------------------------------------------
  // Filters (`.eq(column, value)`)

  function PlansWithId(plans: seq<Plan>, id: string): (r: seq<Plan>)
    ensures forall p :: p in r <==> p in plans && p.id == id
    ensures (forall p :: p in plans ==> p.id != id) ==> r == []
  {
    if plans == [] then []
    else (if plans[0].id == id then [plans[0]] else []) + PlansWithId(plans[1..], id)
  }

  function OrdersWithId(rows: seq<OrderRow>, id: string): (r: seq<OrderRow>)
    ensures forall o :: o in r <==> o in rows && o.id == id
    ensures (forall o :: o in rows ==> o.id != id) ==> r == []
  {
    if rows == [] then []
    else (if rows[0].id == id then [rows[0]] else []) + OrdersWithId(rows[1..], id)
  }

  function OrdersOfUser(rows: seq<OrderRow>, userId: string): (r: seq<OrderRow>)
    ensures forall o :: o in r <==> o in rows && o.userid == Some(userId)
    ensures multiset(r) <= multiset(rows)
  {
    if rows == [] then []
    else
      assert rows == [rows[0]] + rows[1..];
      (if rows[0].userid == Some(userId) then [rows[0]] else []) + OrdersOfUser(rows[1..], userId)
  }

  ghost predicate PlanIdsUnique(plans: seq<Plan>) {
    forall i, j :: 0 <= i < j < |plans| ==> plans[i].id != plans[j].id
  }

  ghost predicate OrderIdsUnique(rows: seq<OrderRow>) {
    forall i, j :: 0 <= i < j < |rows| ==> rows[i].id != rows[j].id
  }

  lemma {:induction false} PlansWithIdUnique(plans: seq<Plan>, k: nat)
    requires PlanIdsUnique(plans) && k < |plans|
    ensures PlansWithId(plans, plans[k].id) == [plans[k]]
  {
    var id := plans[k].id;
    if k == 0 {
      forall p | p in plans[1..] ensures p.id != id {
        var j :| 0 <= j < |plans[1..]| && plans[1..][j] == p;
        assert plans[j + 1] == p;
      }
    } else {
      assert PlanIdsUnique(plans[1..]);
      PlansWithIdUnique(plans[1..], k - 1);
    }
  }

  lemma {:induction false} OrdersWithIdUnique(rows: seq<OrderRow>, k: nat)
    requires OrderIdsUnique(rows) && k < |rows|
    ensures OrdersWithId(rows, rows[k].id) == [rows[k]]
  {
    var id := rows[k].id;
    if k == 0 {
      forall o | o in rows[1..] ensures o.id != id {
        var j :| 0 <= j < |rows[1..]| && rows[1..][j] == o;
        assert rows[j + 1] == o;
      }
    } else {
      assert OrderIdsUnique(rows[1..]);
      OrdersWithIdUnique(rows[1..], k - 1);
    }
  }

  /** `.eq('id', id).single()` on the plans table. */
  function PlanById(plans: seq<Plan>, id: string): (r: Result<Plan, StoreError>)
    ensures r.Ok? ==> r.value in plans && r.value.id == id
    ensures r == Err(NoRows) <==> forall p :: p in plans ==> p.id != id
    ensures r.Err? ==> r.error == NoRows || r.error == ManyRows
  {
    var matches := PlansWithId(plans, id);
    if |matches| == 0 then Err(NoRows)
    else
      assert matches[0] in matches;
      if |matches| == 1 then Ok(matches[0]) else Err(ManyRows)
  }

  /** In a catalog with distinct ids, looking a plan up by its id finds exactly that plan. */
  lemma PlanByIdFinds(plans: seq<Plan>, k: nat)
    requires PlanIdsUnique(plans) && k < |plans|
    ensures PlanById(plans, plans[k].id) == Ok(plans[k])
  {
    PlansWithIdUnique(plans, k);
  }

  /** `.eq('id', id).single()` on the orders table. */
  function OrderById(rows: seq<OrderRow>, id: string): (r: Result<OrderRow, StoreError>)
    ensures r.Ok? ==> r.value in rows && r.value.id == id
    ensures r == Err(NoRows) <==> forall o :: o in rows ==> o.id != id
    ensures r.Err? ==> r.error == NoRows || r.error == ManyRows
  {
    var matches := OrdersWithId(rows, id);
    if |matches| == 0 then Err(NoRows)
    else
      assert matches[0] in matches;
      if |matches| == 1 then Ok(matches[0]) else Err(ManyRows)
  }

  /** With distinct order ids, looking an order up by its id finds exactly that order. */
  lemma OrderByIdFinds(rows: seq<OrderRow>, k: nat)
    requires OrderIdsUnique(rows) && k < |rows|
    ensures OrderById(rows, rows[k].id) == Ok(rows[k])
  {
    OrdersWithIdUnique(rows, k);
  }

  // ---------------------------------------------------------------------------
  // Ordering (`.order(column, { ascending })`)

  ghost predicate SortedBy<T>(s: seq<T>, key: T -> int) {
    forall i, j :: 0 <= i < j < |s| ==> key(s[i]) <= key(s[j])
  }

  function InsertBy<T>(x: T, s: seq<T>, key: T -> int): (r: seq<T>)
    requires SortedBy(s, key)
    ensures SortedBy(r, key)
    ensures multiset(r) == multiset(s) + multiset{x}
  {
    if s == [] || key(x) <= key(s[0]) then [x] + s
    else
      var rest := InsertBy(x, s[1..], key);
      assert s == [s[0]] + s[1..];
      HeadBelowInsert(x, s, rest, key);
      [s[0]] + rest
  }

  /** The head of a sorted sequence stays below every element of its tail with x inserted,
      when x itself is above the head. */
  lemma HeadBelowInsert<T>(x: T, s: seq<T>, rest: seq<T>, key: T -> int)
    requires s != [] && SortedBy(s, key) && key(s[0]) < key(x)
    requires multiset(rest) == multiset(s[1..]) + multiset{x}
    ensures forall j :: 0 <= j < |rest| ==> key(s[0]) <= key(rest[j])
  {
    forall j | 0 <= j < |rest| ensures key(s[0]) <= key(rest[j]) {
      var y := rest[j];
      assert y in multiset(rest);
      if y != x {
        assert y in multiset(s[1..]);
        var k :| 0 <= k < |s[1..]| && s[1..][k] == y;
        assert s[k + 1] == y;
      }
    }
  }

  /** A stable insertion sort on an integer key; the store leaves the order of rows with
      equal keys open, and the model keeps them in table order. */
  function SortBy<T>(s: seq<T>, key: T -> int): (r: seq<T>)
    ensures SortedBy(r, key)
    ensures multiset(r) == multiset(s)
  {
    if s == [] then []
    else
      assert s == [s[0]] + s[1..];
      InsertBy(s[0], SortBy(s[1..], key), key)
  }

  function PriceKey(p: Plan): int {
    p.price
  }

  function NewestFirstKey(o: OrderRow): int {
    -(o.createdat as int)
  }

  /** The descending `createdat` ordering: the same rows, newest first. */
  function NewestFirst(rows: seq<OrderRow>): (r: seq<OrderRow>)
    ensures multiset(r) == multiset(rows)
    ensures forall o :: o in r <==> o in rows
    ensures forall i, j :: 0 <= i < j < |r| ==> r[i].createdat >= r[j].createdat
  {
    var sorted := SortBy(rows, NewestFirstKey);
    assert forall i, j :: 0 <= i < j < |sorted| ==> NewestFirstKey(sorted[i]) <= NewestFirstKey(sorted[j]);
    assert forall o :: o in sorted <==> o in multiset(rows);
    sorted
  }

  // ---------------------------------------------------------------------------
  // Status updates

  /** The update payload `{ status, createdat }` applied to every row whose id matches. */
  function WithStatus(rows: seq<OrderRow>, id: string, status: string, now: nat): (r: seq<OrderRow>)
    ensures |r| == |rows|
    ensures forall i :: 0 <= i < |rows| ==>
      r[i] == if rows[i].id == id then rows[i].(status := status, createdat := now) else rows[i]
  {
    seq(|rows|, i requires 0 <= i < |rows| =>
      if rows[i].id == id then rows[i].(status := status, createdat := now) else rows[i])
  }

  /** A status update rewrites only `status` and `createdat`, and only on the matching row:
      ids, owners and the snapshot of the plan stay as they were. */
  lemma StatusUpdateKeepsSnapshot(rows: seq<OrderRow>, id: string, status: string, now: nat, k: nat)
    requires k < |rows|
    ensures var r := WithStatus(rows, id, status, now);
      && r[k].id == rows[k].id && r[k].userid == rows[k].userid && r[k].username == rows[k].username
      && r[k].configid == rows[k].configid && r[k].configname == rows[k].configname
      && r[k].configdetails == rows[k].configdetails && r[k].price == rows[k].price
      && (rows[k].id == id ==> r[k].status == status && r[k].createdat == now)
      && (rows[k].id != id ==> r[k] == rows[k])
  {
  }

  /** With every timestamp at most `now`, an update never moves a timestamp backwards. */
  lemma StatusUpdateRefreshesTimestamp(rows: seq<OrderRow>, id: string, status: string, now: nat)
    requires forall i :: 0 <= i < |rows| ==> rows[i].createdat <= now
    ensures var r := WithStatus(rows, id, status, now);
      forall i :: 0 <= i < |rows| ==> rows[i].createdat <= r[i].createdat <= now
  {
  }

  /** The status written by updatePaymentStatus. */
  function PaidStatus(paymentStatus: string): string {
    "paid:" + paymentStatus
  }

  /** How a consumer reads a payment sub-status back out of the composite status. */
  function PaymentSubStatus(status: string): (r: Option<string>)
    ensures r.Some? <==> StartsWith(status, "paid:")
  {
    if StartsWith(status, "paid:") then Some(status[5..]) else None
  }

  lemma PaymentSubStatusRoundTrip(paymentStatus: string)
    ensures PaymentSubStatus(PaidStatus(paymentStatus)) == Some(paymentStatus)
    ensures PaymentSubStatus("pending") == None
  {
    assert PaidStatus(paymentStatus)[..5] == "paid:";
    assert PaidStatus(paymentStatus)[5..] == paymentStatus;
    assert "pending"[..5] != "paid:" by {
      assert "pending"[1] == 'e';
    }
  }

  /** The first row `.select()` returns after an update, when any row matched. */
  function FirstWithId(rows: seq<OrderRow>, id: string): (r: Option<OrderRow>)
    ensures r.Some? ==> r.value in rows && r.value.id == id
    ensures r.None? ==> forall o :: o in rows ==> o.id != id
  {
    var matches := OrdersWithId(rows, id);
    if matches == [] then None else Some(matches[0])
  }

  /** The plan as an administrative update leaves it. */
  function Patched(p: Plan, patch: PlanPatch): Plan {
    Plan(
      p.id,
      if patch.name.Some? then patch.name.value else p.name,
      if patch.price.Some? then patch.price.value else p.price,
      if patch.details.Some? then patch.details.value else p.details,
      if patch.locations.Some? then patch.locations.value else p.locations)
  }

  function PatchedWhere(plans: seq<Plan>, id: string, patch: PlanPatch): (r: seq<Plan>)
    ensures |r| == |plans|
    ensures forall i :: 0 <= i < |plans| ==>
      r[i] == if plans[i].id == id then Patched(plans[i], patch) else plans[i]
  {
    seq(|plans|, i requires 0 <= i < |plans| =>
      if plans[i].id == id then Patched(plans[i], patch) else plans[i])
  }

  /** The catalog lookup as the store answers it: unreachable, or `.single()` over the plans. */
  function FetchPlan(online: bool, plans: seq<Plan>, id: string): (r: Result<Plan, StoreError>)
    ensures !online ==> r == Err(Unavailable)
  {
    if !online then Err(Unavailable) else PlanById(plans, id)
  }

  // ---------------------------------------------------------------------------
  // The store

  class Database {
    var plans: seq<Plan>       // table vpn_plans, in insertion order
    var orders: seq<OrderRow>  // table orders, in insertion order
    var clock: nat             // the current time, in milliseconds
    var online: bool           // whether the remote store answers

    /** The table constraints (primary keys) and the clock never lagging behind a row. */
    ghost predicate Valid()
      reads this
    {
      && PlanIdsUnique(plans)
      && OrderIdsUnique(orders)
      && forall i :: 0 <= i < |orders| ==> orders[i].createdat <= clock
    }

    constructor (now: nat)
      ensures Valid()
      ensures plans == [] && orders == [] && clock == now && online
    {
      plans, orders, clock, online := [], [], now, true;
    }

    /** Time passes. */
    method Tick(elapsed: nat)
      requires Valid()
      modifies this`clock
      ensures Valid()
      ensures clock == old(clock) + elapsed
    {
      clock := clock + elapsed;
    }

    /** The store becomes reachable or unreachable. */
    method SetOnline(up: bool)
      requires Valid()
      modifies this`online
      ensures Valid()
      ensures online == up
    {
      online := up;
    }

    /** configsModel.getAllConfigs: every plan, cheapest first. */
    function GetAllConfigs(): (r: Result<seq<Plan>, StoreError>)
      reads this`plans, this`online
      ensures r.Err? <==> !online
      ensures r.Err? ==> r.error == Unavailable
      ensures r.Ok? ==> multiset(r.value) == multiset(plans)
      ensures r.Ok? ==> forall i, j :: 0 <= i < j < |r.value| ==> r.value[i].price <= r.value[j].price
    {
      if !online then Err(Unavailable)
      else
        var sorted := SortBy(plans, PriceKey);
        assert forall i, j :: 0 <= i < j < |sorted| ==> PriceKey(sorted[i]) <= PriceKey(sorted[j]);
        Ok(sorted)
    }

    /** configsModel.getConfigById: fails unless exactly one plan has the id. */
    function GetConfigById(configId: string): (r: Result<Plan, StoreError>)
      reads this`plans, this`online
      ensures !online ==> r == Err(Unavailable)
      ensures online ==> r == PlanById(plans, configId)
    {
      FetchPlan(online, plans, configId)
    }

    /** Under the primary-key constraint, a reachable store finds every stored plan by its id. */
    lemma GetConfigByIdFinds(k: nat)
      requires Valid() && online && k < |plans|
      ensures GetConfigById(plans[k].id) == Ok(plans[k])
    {
      PlanByIdFinds(plans, k);
    }

    /** configsModel.createConfig: inserts a plan; its id is the primary key. */
    method CreateConfig(plan: Plan) returns (r: Result<Plan, StoreError>)
      requires Valid()
      modifies this`plans
      ensures Valid()
      ensures r.Ok? <==> online && PlansWithId(old(plans), plan.id) == []
      ensures r.Ok? ==> r.value == plan && plans == old(plans) + [plan]
      ensures r.Err? ==> plans == old(plans)
      ensures r.Err? ==> r.error == if !online then Unavailable else DuplicateId
    {
      if !online {
        return Err(Unavailable);
      }
      if PlansWithId(plans, plan.id) != [] {
        return Err(DuplicateId);
      }
      forall i | 0 <= i < |plans| ensures plans[i].id != plan.id {
        assert plans[i] in plans;
      }
      plans := plans + [plan];
      r := Ok(plan);
    }

    /** configsModel.updateConfig: patches the plan with the given id and returns the first
        updated row, if any row matched. Orders are not touched. */
    method UpdateConfig(configId: string, patch: PlanPatch) returns (r: Result<Option<Plan>, StoreError>)
      requires Valid()
      modifies this`plans
      ensures Valid()
      ensures !online ==> r == Err(Unavailable) && plans == old(plans)
      ensures online ==> plans == PatchedWhere(old(plans), configId, patch)
      ensures online ==> r.Ok? && (r.value.Some? <==> exists p :: p in old(plans) && p.id == configId)
      ensures online && r.value.Some? ==> r.value.value.id == configId && r.value.value in plans
    {
      if !online {
        return Err(Unavailable);
      }
      var before := plans;
      plans := PatchedWhere(plans, configId, patch);
      assert forall i :: 0 <= i < |plans| ==> plans[i].id == before[i].id;
      var matches := PlansWithId(plans, configId);
      if matches == [] {
        forall p | p in before ensures p.id != configId {
          var i :| 0 <= i < |before| && before[i] == p;
          assert plans[i] in plans;
        }
        r := Ok(None);
      } else {
        r := Ok(Some(matches[0]));
        var i :| 0 <= i < |plans| && plans[i] == matches[0];
        assert before[i] in before;
      }
    }

    /** ordersModel.createOrder: normalises the input into a row stamped with the clock and
        inserts it; the id column is the primary key. */
    method CreateOrder(input: OrderInput) returns (r: Result<OrderRow, StoreError>)
      requires Valid()
      modifies this`orders
      ensures Valid()
      ensures r.Ok? <==> online && input.id.Some? && OrdersWithId(old(orders), input.id.value) == []
      ensures r.Ok? ==> r.value == OrderRowOf(input.id.value, input, clock)
      ensures r.Ok? ==> orders == old(orders) + [r.value]
      ensures r.Err? ==> orders == old(orders)
      ensures r.Err? ==> r.error == if !online then Unavailable else if input.id.None? then NullId else DuplicateId
    {
      if !online {
        return Err(Unavailable);
      }
      if input.id.None? {
        return Err(NullId);
      }
      var id := input.id.value;
      if OrdersWithId(orders, id) != [] {
        return Err(DuplicateId);
      }
      forall i | 0 <= i < |orders| ensures orders[i].id != id {
        assert orders[i] in orders;
      }
      var row := OrderRowOf(id, input, clock);
      orders := orders + [row];
      r := Ok(row);
    }

    /** ordersModel.getOrdersByUser: the user's orders, most recently touched first. */
    function GetOrdersByUser(userId: string): (r: Result<seq<OrderRow>, StoreError>)
      reads this`orders, this`online
      ensures r.Err? <==> !online
      ensures r.Err? ==> r.error == Unavailable
      ensures r.Ok? ==> forall o :: o in r.value <==> o in orders && o.userid == Some(userId)
      ensures r.Ok? ==> multiset(r.value) == multiset(OrdersOfUser(orders, userId))
      ensures r.Ok? ==> forall i, j :: 0 <= i < j < |r.value| ==> r.value[i].createdat >= r.value[j].createdat
    {
      if !online then Err(Unavailable)
      else
        Ok(NewestFirst(OrdersOfUser(orders, userId)))
    }

    /** ordersModel.getOrderById: fails unless exactly one order has the id. */
    function GetOrderById(orderId: string): (r: Result<OrderRow, StoreError>)
      reads this`orders, this`online
      ensures !online ==> r == Err(Unavailable)
      ensures online ==> r == OrderById(orders, orderId)
    {
      if !online then Err(Unavailable) else OrderById(orders, orderId)
    }

    /** Under the primary-key constraint, a reachable store finds every stored order by its id. */
    lemma GetOrderByIdFinds(k: nat)
      requires Valid() && online && k < |orders|
      ensures GetOrderById(orders[k].id) == Ok(orders[k])
    {
      OrderByIdFinds(orders, k);
    }

    /** ordersModel.getOrderByReferenceId: the reference id is the order id. */
    function GetOrderByReferenceId(referenceId: string): (r: Result<OrderRow, StoreError>)
      reads this`orders, this`online
      ensures r == GetOrderById(referenceId)
    {
      GetOrderById(referenceId)
    }

    /** ordersModel.updateOrderStatus: replaces the status of the matching row and refreshes
        its timestamp; the result is the first updated row, or None when no row matched. */
    method UpdateOrderStatus(orderId: string, status: string) returns (r: Result<Option<OrderRow>, StoreError>)
      requires Valid()
      modifies this`orders
      ensures Valid()
      ensures !online ==> r == Err(Unavailable) && orders == old(orders)
      ensures online ==> orders == WithStatus(old(orders), orderId, status, clock)
      ensures online ==> r == Ok(FirstWithId(orders, orderId))
    {
      if !online {
        return Err(Unavailable);
      }
      orders := WithStatus(orders, orderId, status, clock);
      r := Ok(FirstWithId(orders, orderId));
    }

    /** ordersModel.updatePaymentStatus: the same update with the status "paid:" + paymentStatus;
        the payment id is accepted and ignored. */
    method UpdatePaymentStatus(orderId: string, paymentStatus: string, paymentId: Option<string>)
      returns (r: Result<Option<OrderRow>, StoreError>)
      requires Valid()
      modifies this`orders
      ensures Valid()
      ensures !online ==> r == Err(Unavailable) && orders == old(orders)
      ensures online ==> orders == WithStatus(old(orders), orderId, PaidStatus(paymentStatus), clock)
      ensures online ==> r == Ok(FirstWithId(orders, orderId))
    {
      r := UpdateOrderStatus(orderId, PaidStatus(paymentStatus));
    }
  }
}
