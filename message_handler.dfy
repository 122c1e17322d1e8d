/** Inbound routing, after handlers/messageHandler.js: the keyword classifier answering plain
    text, the routing of inline-button callback data to the handlers registered for it, the
    reply to forwarded media, and the way a username is displayed. */
module MessageHandler {
  import opened Js
  import opened Models
  import opened ConfigHandler

  // ---------------------------------------------------------------------------
  // Keyword classifier for text that is not a command

  /** What a plain text message is taken to be about. */
  datatype Intent = Faq | Payment | Download | Support | Plans | Other

  /** The keywords of each intent, as the classifier tests them. */
  function Keywords(intent: Intent): seq<string> {
    match intent
    case Faq => ["faq", "question"]
    case Payment => ["payment", "pay"]
    case Download => ["download", "client", "app"]
    case Support => ["support", "help"]
    case Plans => ["plan", "price", "config"]
    case Other => []
  }

  /** The position of an intent in the classifier's chain of tests. */
  function Rank(intent: Intent): nat {
    match intent
    case Faq => 0
    case Payment => 1
    case Download => 2
    case Support => 3
    case Plans => 4
    case Other => 5
  }

  /** The text holds one of the words. */
  predicate Mentions(text: string, words: seq<string>) {
    exists k :: 0 <= k < |words| && Contains(text, words[k])
  }

  /** Mentioning an intent's keywords is the disjunction of `includes` tests. */
  lemma KeywordTests(text: string)
    ensures Mentions(text, Keywords(Faq)) <==> Contains(text, "faq") || Contains(text, "question")
    ensures Mentions(text, Keywords(Payment)) <==> Contains(text, "payment") || Contains(text, "pay")
    ensures Mentions(text, Keywords(Download)) <==>
      Contains(text, "download") || Contains(text, "client") || Contains(text, "app")
    ensures Mentions(text, Keywords(Support)) <==> Contains(text, "support") || Contains(text, "help")
    ensures Mentions(text, Keywords(Plans)) <==>
      Contains(text, "plan") || Contains(text, "price") || Contains(text, "config")
    ensures !Mentions(text, Keywords(Other))
  {
    var faq, payment, download, support, plans := Keywords(Faq), Keywords(Payment), Keywords(Download),
      Keywords(Support), Keywords(Plans);
    assert faq[0] == "faq" && faq[1] == "question";
    assert payment[0] == "payment" && payment[1] == "pay";
    assert download[0] == "download" && download[1] == "client" && download[2] == "app";
    assert support[0] == "support" && support[1] == "help";
    assert plans[0] == "plan" && plans[1] == "price" && plans[2] == "config";
  }

  /** The classifier on the lower-cased text: the first intent in the chain one of whose
      keywords occurs in the text, or Other when none does. */
  function Classify(lowerText: string): (intent: Intent)
    ensures intent != Other ==> Mentions(lowerText, Keywords(intent))
    ensures forall earlier: Intent :: Rank(earlier) < Rank(intent) ==> !Mentions(lowerText, Keywords(earlier))
  {
    KeywordTests(lowerText);
    if Contains(lowerText, "faq") || Contains(lowerText, "question") then Faq
    else if Contains(lowerText, "payment") || Contains(lowerText, "pay") then Payment
    else if Contains(lowerText, "download") || Contains(lowerText, "client") || Contains(lowerText, "app") then Download
    else if Contains(lowerText, "support") || Contains(lowerText, "help") then Support
    else if Contains(lowerText, "plan") || Contains(lowerText, "price") || Contains(lowerText, "config") then Plans
    else Other
  }

  /** A reply: its text and its inline keyboard (empty when it has none). */
  datatype Reply = Reply(text: string, keyboard: Keyboard)

  /** The reply to each intent: a link to the matching section, one button, or the
      default thank-you message. */
  function IntentReply(intent: Intent): Reply {
    match intent
    case Faq => Reply("Here are our frequently asked questions:", [[Button("View FAQ", "show_faq")]])
    case Payment => Reply("Here is our payment information:", [[Button("Payment Info", "show_payment")]])
    case Download => Reply("Here are our VPN client download links:", [[Button("Download Links", "show_download")]])
    case Support => Reply("Here's how to contact our support team:", [[Button("Contact Support", "show_support")]])
    case Plans => Reply("Here are our available VPN plans:", [[Button("View Plans", "show_plans")]])
    case Other => Reply(DefaultReplyText, [])
  }

  const DefaultReplyText: string :=
    "Thank you for your message. Our support team has been notified and will get back to you soon. Use /help to see all available commands."

  /** The text handler: a text starting with "/" is a command and gets no keyword reply;
      any other text is answered after classifying its lower-cased form. */
  function TextMessageReply(text: string): (r: Option<Reply>)
    ensures r.None? <==> StartsWith(text, "/")
    ensures r.Some? ==> r.value == IntentReply(Classify(Lower(text)))
  {
    if StartsWith(text, "/") then None else Some(IntentReply(Classify(Lower(text))))
  }

  lemma LowerCharSlash(c: char)
    ensures LowerChar(c) == '/' <==> c == '/'
  {
  }

  /** The classifier ignores case: two texts equal up to the case of their letters get the
      same answer. */
  lemma ClassifierIgnoresCase(a: string, b: string)
    requires Lower(a) == Lower(b)
    ensures TextMessageReply(a) == TextMessageReply(b)
  {
    if |a| > 0 {
      LowerCharSlash(a[0]);
      LowerCharSlash(b[0]);
      assert Lower(a)[0] == Lower(b)[0];
      assert StartsWith(a, "/") <==> a[0] == '/';
      assert StartsWith(b, "/") <==> b[0] == '/';
    }
  }

  /** In particular shouting changes nothing. */
  lemma UpperCaseAnsweredAlike(text: string)
    ensures TextMessageReply(Upper(text)) == TextMessageReply(text)
  {
    LowerOfUpper(text);
    ClassifierIgnoresCase(Upper(text), text);
  }

  /** "payment" is never needed as a keyword: every text containing it contains "pay". */
  lemma PayCoversPayment(lowerText: string)
    ensures Mentions(lowerText, Keywords(Payment)) <==> Contains(lowerText, "pay")
  {
    if Contains(lowerText, "payment") {
      assert StartsWith("payment", "pay");
      ContainsPrefixOf(lowerText, "payment", "pay");
    }
    if Contains(lowerText, "pay") {
      assert Contains(lowerText, Keywords(Payment)[1]);
    }
  }

  /** Payment comes before support: a text mentioning both "pay" and "help", and nothing
      about the FAQ, is answered with the payment information. */
  lemma PayBeatsHelp(text: string)
    requires !StartsWith(text, "/")
    requires Contains(Lower(text), "pay") && Contains(Lower(text), "help")
    requires !Mentions(Lower(text), Keywords(Faq))
    ensures TextMessageReply(text) == Some(IntentReply(Payment))
  {
    PayCoversPayment(Lower(text));
    assert Contains(Lower(text), Keywords(Faq)[0]) ==> Mentions(Lower(text), Keywords(Faq));
    assert Contains(Lower(text), Keywords(Faq)[1]) ==> Mentions(Lower(text), Keywords(Faq));
  }

  // ---------------------------------------------------------------------------
  // Callback data

  /** The callbacks the bot answers, and those its own buttons send. */
  datatype Callback =
    | ViewPlan(planId: string)
    | ShowPlans
    | BuyPlan(planId: string)
    | NoPlans
    | ErrorPlans
    | ShowFaq
    | ShowPayment
    | ShowDownload
    | ShowSupport
    | Unhandled

  /** The callback data a button carries for each callback. */
  function CallbackData(c: Callback): string {
    match c
    case ViewPlan(id) => "view_" + id
    case ShowPlans => "show_plans"
    case BuyPlan(id) => "buy_" + id
    case NoPlans => "no_plans"
    case ErrorPlans => "error_plans"
    case ShowFaq => "show_faq"
    case ShowPayment => "show_payment"
    case ShowDownload => "show_download"
    case ShowSupport => "show_support"
    case Unhandled => ""
  }

  /** The callbacks the bot's buttons can carry: a plan callback names a plan. */
  predicate Sendable(c: Callback) {
    !c.Unhandled? && ((c.ViewPlan? || c.BuyPlan?) ==> c.planId != "")
  }

  /** The callback a classifier reply's button carries. */
  function IntentCallback(intent: Intent): Callback {
    match intent
    case Faq => ShowFaq
    case Payment => ShowPayment
    case Download => ShowDownload
    case Support => ShowSupport
    case Plans => ShowPlans
    case Other => Unhandled
  }

  /** Each classifier reply with a button carries the callback of its intent. */
  lemma IntentButtonData(intent: Intent)
    requires intent != Other
    ensures |IntentReply(intent).keyboard| == 1 && |IntentReply(intent).keyboard[0]| == 1
    ensures IntentReply(intent).keyboard[0][0].action == CallbackData(IntentCallback(intent))
  {
  }

  // ---------------------------------------------------------------------------
  // Regular-expression triggers

  /** The characters `.` does not match in a JavaScript regular expression. */
  predicate IsLineTerminator(c: char) {
    c == '\n' || c == '\r' || c == '\U{2028}' || c == '\U{2029}'
  }

  predicate SingleLine(s: string) {
    forall i :: 0 <= i < |s| ==> !IsLineTerminator(s[i])
  }

  /** The longest prefix of s free of line terminators: what a greedy `.+` or `.*` takes. */
  function TakeLine(s: string): (r: string)
    ensures r <= s && SingleLine(r)
    ensures |r| < |s| ==> IsLineTerminator(s[|r|])
    decreases |s|
  {
    if s == [] || IsLineTerminator(s[0]) then [] else [s[0]] + TakeLine(s[1..])
  }

  lemma {:induction false} TakeLineWhole(s: string)
    requires SingleLine(s)
    ensures TakeLine(s) == s
    decreases |s|
  {
    if s != [] {
      TakeLineWhole(s[1..]);
      assert [s[0]] + s[1..] == s;
    }
  }

  /** `/<prefix>(.+)/` matches at the start of s. */
  predicate MatchesAt(s: string, prefix: string) {
    StartsWith(s, prefix) && |s| > |prefix| && !IsLineTerminator(s[|prefix|])
  }

  /** `/<prefix>(.+)/.exec(data)`, as the callback trigger runs it: the group captured at the
      leftmost position where the pattern matches, or None when it matches nowhere. The
      pattern is not anchored. */
  function RegexCapture(data: string, prefix: string): (r: Option<string>)
    ensures r.Some? ==> r.value != [] && SingleLine(r.value)
    decreases |data|
  {
    if MatchesAt(data, prefix) then Some(TakeLine(data[|prefix|..]))
    else if data == [] then None
    else RegexCapture(data[1..], prefix)
  }

  /** The capture of data made of the prefix and a single-line id is the id. */
  lemma CaptureAfterPrefix(prefix: string, id: string)
    requires id != [] && SingleLine(id)
    ensures RegexCapture(prefix + id, prefix) == Some(id)
  {
    var data := prefix + id;
    assert data[..|prefix|] == prefix;
    assert data[|prefix|..] == id;
    assert data[|prefix|] == id[0];
    TakeLineWhole(id);
  }

  /** Data that does not contain the prefix is not captured. */
  lemma {:induction false} CaptureNeedsPrefix(data: string, prefix: string)
    requires !Contains(data, prefix)
    ensures RegexCapture(data, prefix) == None
    decreases |data|
  {
    if data != [] {
      CaptureNeedsPrefix(data[1..], prefix);
    }
  }

  /** The registered callback handlers in registration order: the first that matches the data
      answers it: `/view_(.+)/`, "show_plans", `/buy_(.+)/`, "no_plans", "error_plans". The
      `show_*` data of the classifier's buttons has no handler. */
  function RouteCallback(data: string): (c: Callback)
    ensures c.ViewPlan? <==> RegexCapture(data, "view_").Some?
    ensures c.ViewPlan? ==> Some(c.planId) == RegexCapture(data, "view_")
    ensures RegexCapture(data, "view_").None? ==>
      && (data == "show_plans" ==> c == ShowPlans)
      && (data != "show_plans" && RegexCapture(data, "buy_").Some? ==> c == BuyPlan(RegexCapture(data, "buy_").value))
      && (data != "show_plans" && RegexCapture(data, "buy_").None? ==>
            && (data == "no_plans" ==> c == NoPlans)
            && (data == "error_plans" ==> c == ErrorPlans))
    ensures c.BuyPlan? ==> Some(c.planId) == RegexCapture(data, "buy_") && data != "show_plans"
    ensures c.ShowPlans? ==> data == "show_plans"
    ensures c.NoPlans? ==> data == "no_plans"
    ensures c.ErrorPlans? ==> data == "error_plans"
    ensures c.Unhandled? <==>
      && RegexCapture(data, "view_").None? && RegexCapture(data, "buy_").None?
      && data != "show_plans" && data != "no_plans" && data != "error_plans"
    ensures !c.ShowFaq? && !c.ShowPayment? && !c.ShowDownload? && !c.ShowSupport?
  {
    match RegexCapture(data, "view_")
    case Some(id) => ViewPlan(id)
    case None =>
      if data == "show_plans" then ShowPlans
      else
        match RegexCapture(data, "buy_")
        case Some(id) => BuyPlan(id)
        case None =>
          if data == "no_plans" then NoPlans
          else if data == "error_plans" then ErrorPlans
          else Unhandled
  }

  /** Fixed data without a 'v' or a 'b' passes both regular-expression handlers. */
  lemma NoPlanCapture(data: string)
    requires 'v' !in data && 'b' !in data
    ensures RegexCapture(data, "view_") == None && RegexCapture(data, "buy_") == None
  {
    NotContainsWithoutHead(data, "view_");
    NotContainsWithoutHead(data, "buy_");
    CaptureNeedsPrefix(data, "view_");
    CaptureNeedsPrefix(data, "buy_");
  }

  /** "buy_" + id holds "view_" only where id does. */
  lemma BuyDataWithoutView(id: string)
    requires !Contains(id, "view_")
    ensures !Contains("buy_" + id, "view_")
  {
    if Contains("buy_" + id, "view_") {
      ContainsSkip("buy_", id, "view_");
    }
  }

  /** The router inverts the encoding for the callbacks it handles, provided plan ids are
      single lines and a bought plan's id does not itself hold "view_". */
  lemma RouteInvertsData(c: Callback)
    requires Sendable(c)
    requires !c.ShowFaq? && !c.ShowPayment? && !c.ShowDownload? && !c.ShowSupport?
    requires (c.ViewPlan? || c.BuyPlan?) ==> SingleLine(c.planId)
    requires c.BuyPlan? ==> !Contains(c.planId, "view_")
    ensures RouteCallback(CallbackData(c)) == c
  {
    match c
    case ViewPlan(id) =>
      CaptureAfterPrefix("view_", id);
    case BuyPlan(id) =>
      BuyDataWithoutView(id);
      CaptureNeedsPrefix("buy_" + id, "view_");
      CaptureAfterPrefix("buy_", id);
      assert ("buy_" + id)[0] == 'b';
    case ShowPlans =>
      NoPlanCapture("show_plans");
    case NoPlans =>
      NoPlanCapture("no_plans");
    case ErrorPlans =>
      NoPlanCapture("error_plans");
  }

  /** The unanchored view trigger fires inside buy data: the buy button of a plan whose id
      is "view_" followed by another id opens the details of that other id instead of
      ordering. */
  lemma BuyOfViewIdOpensDetails(id: string)
    requires id != [] && SingleLine(id)
    ensures CallbackData(BuyPlan("view_" + id)) == "buy_" + ("view_" + id)
    ensures RouteCallback("buy_" + ("view_" + id)) == ViewPlan(id)
  {
    var data := "buy_" + ("view_" + id);
    assert data[4..] == "view_" + id;
    CaptureSkipsHead(data, "view_");
    CaptureSkipsHead(data[1..], "view_");
    assert data[1..][1..] == data[2..];
    CaptureSkipsHead(data[2..], "view_");
    assert data[2..][1..] == data[3..];
    CaptureSkipsHead(data[3..], "view_");
    assert data[3..][1..] == data[4..];
    CaptureAfterPrefix("view_", id);
  }

  /** Where the data's first character is not the prefix's, the capture is the one found
      further on. */
  lemma CaptureSkipsHead(data: string, prefix: string)
    requires data != [] && prefix != [] && data[0] != prefix[0]
    ensures RegexCapture(data, prefix) == RegexCapture(data[1..], prefix)
  {
    HeadsDiffer(data, prefix);
  }

  /** The buttons of the classifier's replies, except "View Plans", reach no handler. */
  lemma InfoButtonsUnhandled(intent: Intent)
    requires intent != Plans && intent != Other
    ensures RouteCallback(CallbackData(IntentCallback(intent))) == Unhandled
  {
    var data := CallbackData(IntentCallback(intent));
    assert 'v' !in data && 'b' !in data by {
      match intent
      case Faq =>
      case Payment =>
      case Download =>
      case Support =>
    }
    assert data != "show_plans" && data != "no_plans" && data != "error_plans" by {
      assert data[0] == 's' && data[6] != 'l';
    }
    FixedDataUnhandled(data);
  }

  /** Data without a 'v' or a 'b' that no exact-match handler names is dropped. */
  lemma FixedDataUnhandled(data: string)
    requires 'v' !in data && 'b' !in data
    requires data != "show_plans" && data != "no_plans" && data != "error_plans"
    ensures RouteCallback(data) == Unhandled
  {
    NoPlanCapture(data);
  }

  /** The routing the buttons evidently rely on: plan callbacks by an anchored prefix, and a
      handler for every callback the bot's own buttons send. */
  function RouteCallbackIntended(data: string): (c: Callback)
    ensures (c.ViewPlan? || c.BuyPlan?) ==> c.planId != ""
  {
    if StartsWith(data, "view_") && |data| > 5 then ViewPlan(data[5..])
    else if data == "show_plans" then ShowPlans
    else if StartsWith(data, "buy_") && |data| > 4 then BuyPlan(data[4..])
    else if data == "no_plans" then NoPlans
    else if data == "error_plans" then ErrorPlans
    else if data == "show_faq" then ShowFaq
    else if data == "show_payment" then ShowPayment
    else if data == "show_download" then ShowDownload
    else if data == "show_support" then ShowSupport
    else Unhandled
  }

  /** The intended router inverts the encoding for every callback a button can carry, with
      no condition on the plan ids. */
  lemma RouteIntendedInvertsData(c: Callback)
    requires Sendable(c)
    ensures RouteCallbackIntended(CallbackData(c)) == c
  {
    match c
    case ViewPlan(id) =>
      assert ("view_" + id)[..5] == "view_";
      assert ("view_" + id)[5..] == id;
    case BuyPlan(id) =>
      var data := "buy_" + id;
      assert data[0] == 'b';
      assert data[..4] == "buy_";
      assert data[4..] == id;
    case ShowPlans =>
      HeadsDiffer("show_plans", "view_");
    case NoPlans =>
      HeadsDiffer("no_plans", "view_");
      HeadsDiffer("no_plans", "buy_");
    case ErrorPlans =>
      HeadsDiffer("error_plans", "view_");
      HeadsDiffer("error_plans", "buy_");
    case ShowFaq =>
      HeadsDiffer("show_faq", "view_");
      HeadsDiffer("show_faq", "buy_");
    case ShowPayment =>
      HeadsDiffer("show_payment", "view_");
      HeadsDiffer("show_payment", "buy_");
    case ShowDownload =>
      HeadsDiffer("show_download", "view_");
      HeadsDiffer("show_download", "buy_");
    case ShowSupport =>
      HeadsDiffer("show_support", "view_");
      HeadsDiffer("show_support", "buy_");
  }

  /** Every button of a catalog keyboard reaches the plan it was built for. */
  lemma CatalogButtonsRoute(configs: seq<Plan>, keyboard: Keyboard, r: nat, c: nat)
    requires CatalogLayout(configs, keyboard) && configs != []
    requires r < |keyboard| && c < |keyboard[r]|
    requires configs[r / 2].id != ""
    ensures var id := configs[r / 2].id;
      RouteCallbackIntended(keyboard[r][c].action) == if r % 2 == 1 && c == 1 then BuyPlan(id) else ViewPlan(id)
  {
    CatalogActionsNamePlans(configs, keyboard, r, c);
    var id := configs[r / 2].id;
    if r % 2 == 1 && c == 1 {
      RouteIntendedInvertsData(BuyPlan(id));
    } else {
      RouteIntendedInvertsData(ViewPlan(id));
    }
  }

  /** The detail keyboard's buttons order the plan and go back to the catalog. */
  lemma DetailButtonsRoute(p: Plan)
    requires p.id != ""
    ensures RouteCallbackIntended(DetailKeyboard(p)[0][0].action) == BuyPlan(p.id)
    ensures RouteCallbackIntended(DetailKeyboard(p)[1][0].action) == ShowPlans
  {
    RouteIntendedInvertsData(BuyPlan(p.id));
    RouteIntendedInvertsData(ShowPlans);
  }

  /** Every button of a classifier reply reaches a handler once they all exist. */
  lemma IntentButtonsRoute(intent: Intent)
    requires intent != Other
    ensures var keyboard := IntentReply(intent).keyboard;
      |keyboard| == 1 && |keyboard[0]| == 1 && RouteCallbackIntended(keyboard[0][0].action) == IntentCallback(intent)
  {
    IntentButtonData(intent);
    RouteIntendedInvertsData(IntentCallback(intent));
  }

  // ---------------------------------------------------------------------------
  // Media

  /** The kinds of media forwarded to the operator. */
  datatype Media = Photo | Document | Video | Audio | Voice | Sticker | Location | Contact

  /** The name each media handler passes on. */
  function MediaTypeName(m: Media): string {
    match m
    case Photo => "photo"
    case Document => "document"
    case Video => "video"
    case Audio => "audio"
    case Voice => "voice message"
    case Sticker => "sticker"
    case Location => "location"
    case Contact => "contact"
  }

  function MediaThanks(mediaType: string): string {
    "Thank you for your " + mediaType + ". Our team will review it shortly."
  }

  /** A delivery to the operator. */
  datatype AdminDelivery = UserInfoNotice | ForwardedOriginal

  /** The media handler: without an operator id configured nothing is delivered; otherwise the
      notice about the sender is sent, then the original message is forwarded, the first
      failure ending the attempt. `noticeSent` and `forwardSent` say whether each delivery
      succeeds. The user is thanked the same way on every path. */
  method ForwardMedia(media: Media, adminId: Option<string>, noticeSent: bool, forwardSent: bool)
    returns (delivered: seq<AdminDelivery>, reply: string)
    ensures reply == MediaThanks(MediaTypeName(media))
    ensures !Truthy(adminId) ==> delivered == []
    ensures Truthy(adminId) && !noticeSent ==> delivered == []
    ensures Truthy(adminId) && noticeSent ==>
      delivered == if forwardSent then [UserInfoNotice, ForwardedOriginal] else [UserInfoNotice]
  {
    var mediaType := MediaTypeName(media);
    delivered := [];
    if !Truthy(adminId) {
      return delivered, MediaThanks(mediaType);
    }
    if !noticeSent {
      return delivered, MediaThanks(mediaType);
    }
    delivered := delivered + [UserInfoNotice];
    if !forwardSent {
      return delivered, MediaThanks(mediaType);
    }
    delivered := delivered + [ForwardedOriginal];
    reply := MediaThanks(mediaType);
  }

  /** The thanks name the media kind, and different kinds are thanked differently. */
  lemma MediaThanksNamesKind(m1: Media, m2: Media)
    ensures MediaThanks(MediaTypeName(m1)) == MediaThanks(MediaTypeName(m2)) <==> m1 == m2
  {
    if MediaThanks(MediaTypeName(m1)) == MediaThanks(MediaTypeName(m2)) {
      var a, b := MediaTypeName(m1), MediaTypeName(m2);
      var pre, post := "Thank you for your ", ". Our team will review it shortly.";
      assert MediaThanks(a) == pre + a + post;
      assert MediaThanks(b) == pre + b + post;
      assert |a| == |b|;
      assert a == MediaThanks(a)[|pre|..|pre| + |a|];
      assert b == MediaThanks(b)[|pre|..|pre| + |b|];
    }
  }

  // ---------------------------------------------------------------------------
  // Usernames

  /** How a username is shown to the operator: "@" and the name, or "Not set". */
  function UsernameDisplay(username: Option<string>): (r: string)
    ensures Truthy(username) ==> r == "@" + username.value
    ensures !Truthy(username) ==> r == "Not set"
  {
    if Truthy(username) then "@" + username.value else "Not set"
  }

  /** Reading a displayed username back. */
  function ParseUsernameDisplay(s: string): Option<string> {
    if StartsWith(s, "@") then Some(s[1..]) else None
  }

  /** The display loses nothing but the difference between a missing and an empty name. */
  lemma UsernameDisplayReadsBack(username: Option<string>)
    ensures ParseUsernameDisplay(UsernameDisplay(username)) == if Truthy(username) then username else None
  {
    if Truthy(username) {
      assert ("@" + username.value)[1..] == username.value;
    } else {
      assert "Not set"[0] != '@';
    }
  }
}
