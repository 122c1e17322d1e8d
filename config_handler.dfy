/** Catalog presentation, after handlers/configHandler.js: lookups that never fail, the
    catalog keyboard, the price format, and the plan-detail message. A keyboard is a
    sequence of rows of (label, callback data) buttons. */
module ConfigHandler {
  import opened Js
  import opened Models

  /** An inline-keyboard button: the text shown and the callback data sent back. */
  datatype Button = Button(text: string, action: string)

  type Keyboard = seq<seq<Button>>

  // ---------------------------------------------------------------------------
  // Lookups with fallbacks

  /** getConfigById: any store failure, a missing plan included, becomes null. */
  function ConfigOrNull(fetched: Result<Plan, StoreError>): (r: Option<Plan>)
    ensures r.Some? <==> fetched.Ok?
    ensures r.Some? ==> r.value == fetched.value
  {
    match fetched
    case Ok(plan) => Some(plan)
    case Err(_) => None
  }

  /** getAllConfigs: a store failure becomes the empty catalog. */
  function ConfigsOrEmpty(fetched: Result<seq<Plan>, StoreError>): (r: seq<Plan>)
    ensures fetched.Ok? ==> r == fetched.value
    ensures fetched.Err? ==> r == []
  {
    match fetched
    case Ok(plans) => plans
    case Err(_) => []
  }

  /** Through the handler, a plan is found exactly when the store is reachable and holds a
      plan with that id, and then it is that plan; every other outcome reads as null. */
  lemma ConfigLookupOutcome(online: bool, plans: seq<Plan>, id: string)
    requires PlanIdsUnique(plans)
    ensures ConfigOrNull(FetchPlan(online, plans, id)).Some? <==> online && exists p :: p in plans && p.id == id
    ensures forall p :: online && p in plans && p.id == id ==> ConfigOrNull(FetchPlan(online, plans, id)) == Some(p)
  {
    if online && exists p :: p in plans && p.id == id {
      var p :| p in plans && p.id == id;
      var k :| 0 <= k < |plans| && plans[k] == p;
      PlanByIdFinds(plans, k);
      forall q | q in plans && q.id == id ensures q == p {
        var j :| 0 <= j < |plans| && plans[j] == q;
        assert j == k;
      }
    }
  }

  // ---------------------------------------------------------------------------
  // Prices

  /** `(Number(price) / 100).toFixed(2)` for a price in integer cents: the whole units in
      shortest decimal form, a point, and exactly two digits of cents. */
  function FormatCents(cents: nat): (s: string)
    ensures |s| >= 4 && s[|s| - 3] == '.'
    ensures AllDigits(s[..|s| - 3]) && AllDigits(s[|s| - 2..])
    ensures s[0] == '0' ==> cents < 100
  {
    var s := Decimal(cents / 100) + "." + LowDigits(cents, 2);
    assert s[..|s| - 3] == Decimal(cents / 100);
    assert s[|s| - 2..] == LowDigits(cents, 2);
    s
  }

  /** Reads a formatted price back into cents. */
  function ParseCents(s: string): nat
    requires |s| >= 4 && AllDigits(s[..|s| - 3]) && AllDigits(s[|s| - 2..])
  {
    DecimalValue(s[..|s| - 3]) * 100 + DecimalValue(s[|s| - 2..])
  }

  /** The price format loses nothing: the cents can be read back from the text. */
  lemma FormatCentsRoundTrip(cents: nat)
    ensures ParseCents(FormatCents(cents)) == cents
  {
    var s := FormatCents(cents);
    assert s[..|s| - 3] == Decimal(cents / 100);
    assert s[|s| - 2..] == LowDigits(cents, 2);
    DecimalRoundTrip(cents / 100);
    LowDigitsValue(cents, 2);
    assert Pow10(2) == 100;
  }

  lemma FormatCents1999()
    ensures FormatCents(1999) == "19.99"
  {
    assert 1999 / 100 == 19 && 1999 / 10 == 199 && 199 % 10 == 9 && 1999 % 10 == 9;
    assert Decimal(1) == "1";
    assert Decimal(19) == "19";
    assert LowDigits(199, 1) == "9";
    assert LowDigits(1999, 2) == "99";
  }

  lemma FormatCents999()
    ensures FormatCents(999) == "9.99"
  {
    assert 999 / 100 == 9 && 999 / 10 == 99 && 99 % 10 == 9 && 999 % 10 == 9;
    assert Decimal(9) == "9";
    assert LowDigits(99, 1) == "9";
    assert LowDigits(999, 2) == "99";
  }

  lemma FormatCents5()
    ensures FormatCents(5) == "0.05"
  {
    assert 5 / 100 == 0 && 5 / 10 == 0 && 5 % 10 == 5;
    assert Decimal(0) == "0";
    assert LowDigits(0, 1) == "0";
    assert LowDigits(5, 2) == "05";
  }

  // ---------------------------------------------------------------------------
  // The catalog keyboard

  /** The full-width button naming a plan and its price; it opens the plan's details. */
  function TitleButton(p: Plan): Button {
    Button(p.name + " - $" + FormatCents(p.price), "view_" + p.id)
  }

  /** The row of two buttons under each title: view the details, or buy. */
  function ActionRow(p: Plan): seq<Button> {
    [Button("ℹ️ View Details", "view_" + p.id), Button("💳 Buy Now", "buy_" + p.id)]
  }

  const NoPlansKeyboard: Keyboard := [[Button("No VPN plans available", "no_plans")]]

  /** The layout of the catalog keyboard: for an empty catalog the single fallback button,
      otherwise two rows per plan, in catalog order. */
  ghost predicate CatalogLayout(configs: seq<Plan>, keyboard: Keyboard) {
    if configs == [] then keyboard == NoPlansKeyboard
    else
      && |keyboard| == 2 * |configs|
      && forall k :: 0 <= k < |configs| ==>
           && keyboard[2 * k] == [TitleButton(configs[k])]
           && keyboard[2 * k + 1] == ActionRow(configs[k])
  }

  /** The body of getConfigKeyboard: the empty-catalog fallback, or the rows built by
      pushing two rows for each plan in turn. */
  method BuildConfigKeyboard(configs: seq<Plan>) returns (keyboard: Keyboard)
    ensures CatalogLayout(configs, keyboard)
  {
    if |configs| == 0 {
      return NoPlansKeyboard;
    }
    var buttons: Keyboard := [];
    for i := 0 to |configs|
      invariant |buttons| == 2 * i
      invariant forall k :: 0 <= k < i ==>
        buttons[2 * k] == [TitleButton(configs[k])] && buttons[2 * k + 1] == ActionRow(configs[k])
    {
      buttons := buttons + [[TitleButton(configs[i])]];
      buttons := buttons + [ActionRow(configs[i])];
    }
    keyboard := buttons;
  }

  /** getConfigKeyboard: fetches the catalog (empty when the store fails) and lays it out. */
  method ConfigKeyboard(db: Database) returns (keyboard: Keyboard)
    ensures CatalogLayout(ConfigsOrEmpty(db.GetAllConfigs()), keyboard)
  {
    var configs := ConfigsOrEmpty(db.GetAllConfigs());
    keyboard := BuildConfigKeyboard(configs);
  }

  /** Every button of a non-empty catalog keyboard names a plan of the catalog: its action
      is `view_<id>` or `buy_<id>` for that plan, and the buy action sits only in the second
      row of the plan's pair. */
  lemma CatalogActionsNamePlans(configs: seq<Plan>, keyboard: Keyboard, r: nat, c: nat)
    requires CatalogLayout(configs, keyboard) && configs != []
    requires r < |keyboard| && c < |keyboard[r]|
    ensures var p := configs[r / 2];
      keyboard[r][c].action == (if r % 2 == 1 && c == 1 then "buy_" else "view_") + p.id
  {
    var k := r / 2;
    assert r == 2 * k || r == 2 * k + 1;
  }

  /** The example catalog of one plan priced 999 cents. */
  lemma BasicPlanKeyboard(keyboard: Keyboard)
    requires CatalogLayout([Plan("p1", "Basic", 999, None, None)], keyboard)
    ensures keyboard == [
      [Button("Basic - $9.99", "view_p1")],
      [Button("ℹ️ View Details", "view_p1"), Button("💳 Buy Now", "buy_p1")]]
  {
    var p := Plan("p1", "Basic", 999, None, None);
    BasicPlanButtons(p);
    assert keyboard[2 * 0] == [TitleButton(p)];
    assert keyboard[2 * 0 + 1] == ActionRow(p);
    assert keyboard == [keyboard[0], keyboard[1]];
  }

  lemma BasicPlanButtons(p: Plan)
    requires p.id == "p1" && p.name == "Basic" && p.price == 999
    ensures TitleButton(p) == Button("Basic - $9.99", "view_p1")
    ensures ActionRow(p) == [Button("ℹ️ View Details", "view_p1"), Button("💳 Buy Now", "buy_p1")]
  {
    FormatCents999();
    assert p.name + " - $" + FormatCents(p.price) == "Basic - $9.99";
    assert "view_" + p.id == "view_p1";
    assert "buy_" + p.id == "buy_p1";
  }

  // ---------------------------------------------------------------------------
  // Plan details

  const PlanNotFoundText: string := "Plan not found. Please try another option."

  const DetailsHeader: string := "📋 VPN Plan Details"
  const NoDetailsText: string := "No additional " + "details available."
  const PurchasePrompt: string := "To purchase this plan, " + "click the button below:"

  /** The description line's value: the plan's details, or a fixed sentence when absent. */
  function Description(p: Plan): (r: string)
    ensures r != ""
    ensures Truthy(p.details) ==> r == p.details.value
  {
    OrElse(p.details, NoDetailsText)
  }

  /** The locations line: present only for a non-empty list, joined with ", ". */
  function LocationsLine(p: Plan): (r: string)
    ensures r != "" <==> p.locations.Some? && |p.locations.value| > 0
    ensures r != "" ==> r == "📍 Locations: " + Join(p.locations.value, ", ")
  {
    if p.locations.Some? && |p.locations.value| > 0 then "📍 Locations: " + Join(p.locations.value, ", ")
    else ""
  }

  /** The lines of the plan-detail message, top to bottom. */
  function DetailLines(p: Plan): (lines: seq<string>)
    ensures |lines| == 8
  {
    [ DetailsHeader,
      "",
      "🔒 Name: " + p.name,
      "💰 Price: $" + FormatCents(p.price),
      "📝 Description: " + Description(p),
      LocationsLine(p),
      "",
      PurchasePrompt ]
  }

  /** The plan-detail message. */
  function DetailText(p: Plan): string {
    Join(DetailLines(p), "\n")
  }

  /** A plan whose texts are single lines. */
  predicate SingleLinePlan(p: Plan) {
    && '\n' !in p.name
    && (p.details.Some? ==> '\n' !in p.details.value)
    && (p.locations.Some? ==> forall i :: 0 <= i < |p.locations.value| ==> '\n' !in p.locations.value[i])
  }

  lemma PriceIsSingleLine(cents: nat)
    ensures '\n' !in FormatCents(cents)
  {
    var price := FormatCents(cents);
    forall k | 0 <= k < |price| ensures price[k] != '\n' {
      if k < |price| - 3 {
        assert price[k] == price[..|price| - 3][k];
      } else if k > |price| - 3 {
        assert price[k] == price[|price| - 2..][k - (|price| - 2)];
      }
    }
  }

  lemma HeaderIsSingleLine()
    ensures '\n' !in DetailsHeader
  {
  }

  lemma PromptIsSingleLine()
    ensures '\n' !in PurchasePrompt
  {
  }

  lemma NoDetailsIsSingleLine()
    ensures '\n' !in NoDetailsText
  {
  }

  lemma LabelsAreSingleLines()
    ensures '\n' !in "🔒 Name: " && '\n' !in "💰 Price: $"
    ensures '\n' !in "📝 Description: " && '\n' !in "📍 Locations: "
  {
  }

  lemma DetailLinesAreSingleLines(p: Plan)
    requires SingleLinePlan(p)
    ensures forall i :: 0 <= i < |DetailLines(p)| ==> '\n' !in DetailLines(p)[i]
  {
    var lines := DetailLines(p);
    PriceIsSingleLine(p.price);
    HeaderIsSingleLine();
    PromptIsSingleLine();
    NoDetailsIsSingleLine();
    LabelsAreSingleLines();
    if p.locations.Some? && |p.locations.value| > 0 {
      JoinAvoids(p.locations.value, ", ", '\n');
    }
    assert '\n' !in Description(p);
    assert '\n' !in LocationsLine(p);
    forall i | 0 <= i < |lines| ensures '\n' !in lines[i] {
      assert i in {0, 1, 2, 3, 4, 5, 6, 7};
    }
  }

  /** The detail message reads back line by line: the name, the price formatted from the
      cents, the description (with its fallback), the locations line (empty when there are
      no locations), between the fixed header and footer. */
  lemma DetailTextReadsBack(p: Plan)
    requires SingleLinePlan(p)
    ensures var lines := SplitOn(DetailText(p), '\n');
      && |lines| == 8
      && lines[0] == DetailsHeader && lines[1] == ""
      && lines[2] == "🔒 Name: " + p.name
      && lines[3] == "💰 Price: $" + FormatCents(p.price)
      && lines[4] == "📝 Description: " + Description(p)
      && lines[5] == LocationsLine(p)
      && lines[6] == ""
  {
    DetailLinesAreSingleLines(p);
    assert "\n" == ['\n'];
    SplitJoin(DetailLines(p), '\n');
  }

  const BackToPlansButton: Button := Button("« Back to All Plans", "show_plans")

  /** The detail keyboard: buy this plan, or go back to the catalog. */
  function DetailKeyboard(p: Plan): (keyboard: Keyboard)
    ensures |keyboard| == 2 && |keyboard[0]| == 1 && |keyboard[1]| == 1
    ensures keyboard[0][0].action == "buy_" + p.id
    ensures keyboard[1][0].action == "show_plans"
  {
    [[Button("💳 Purchase This Plan", "buy_" + p.id)], [BackToPlansButton]]
  }

  /** getPlanDetails: the detail message and keyboard of the plan, or, when the lookup
      yields null, the not-found text over the full catalog keyboard. */
  method GetPlanDetails(db: Database, configId: string) returns (text: string, keyboard: Keyboard)
    ensures var plan := ConfigOrNull(db.GetConfigById(configId));
      && (plan.None? ==> text == PlanNotFoundText && CatalogLayout(ConfigsOrEmpty(db.GetAllConfigs()), keyboard))
      && (plan.Some? ==> text == DetailText(plan.value) && keyboard == DetailKeyboard(plan.value))
  {
    var plan := ConfigOrNull(db.GetConfigById(configId));
    if plan.None? {
      text := PlanNotFoundText;
      keyboard := ConfigKeyboard(db);
      return;
    }
    text := DetailText(plan.value);
    keyboard := DetailKeyboard(plan.value);
  }
}
