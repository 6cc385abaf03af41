/** `PostPaymentView`: validate a payment notification, then record the order, its
    single item and the buyer's new customer record, run the tier engine, and answer
    with the number of the buyer's first customer record whose level 4 is open. */
module Payment {
  import opened Options
  import opened Decimal
  import opened PyValues
  import opened Customers
  import opened SequenceCodes
  import opened TierEngine

  const RequiredKeys: seq<string> := ["payment_mode", "payment_status", "payment_reference", "product"]

  /** `check_required_key_exists`: scans the required keys in order and fails at
      the first one missing from the request. */
  function KeysPresent(required: seq<string>, keys: set<string>): (ok: bool)
    ensures ok <==> forall i :: 0 <= i < |required| ==> required[i] in keys
  {
    if required == [] then true
    else if required[0] !in keys then false
    else KeysPresent(required[1..], keys)
  }

  datatype Product = Product(active: bool, hsnCode: string)

  type Products = map<string, Product>

  /** `check_product_exists`: an active product with that uid. */
  predicate ProductActive(products: Products, v: Value) {
    v.Str? && v.s in products && products[v.s].active
  }

  /** A product is found exactly when some active product has the requested uid. */
  lemma ProductActiveIffExists(products: Products, v: Value)
    ensures ProductActive(products, v) <==> exists u :: u in products && Str(u) == v && products[u].active
  {
    if ProductActive(products, v) {
      assert v.s in products && Str(v.s) == v;
    }
  }

  datatype PaymentError = MissingDetails | PaymentFailed | ProductNotFound

  /** All four required keys are in the request. */
  predicate HasRequired(req: Request) {
    "payment_mode" in req && "payment_status" in req && "payment_reference" in req && "product" in req
  }

  lemma RequiredKeysNamed(req: Request)
    ensures (forall i :: 0 <= i < |RequiredKeys| ==> RequiredKeys[i] in req.Keys) <==> HasRequired(req)
  {
    assert RequiredKeys[0] == "payment_mode" && RequiredKeys[1] == "payment_status";
    assert RequiredKeys[2] == "payment_reference" && RequiredKeys[3] == "product";
  }

  /** The three checks of `post`, in the source's order; the first failing one wins. */
  function Gate(req: Request, products: Products): (e: Option<PaymentError>)
    ensures e == Some(MissingDetails) <==> !HasRequired(req)
    ensures e == Some(PaymentFailed) <==> HasRequired(req) && req["payment_status"] != Str("success")
    ensures e == Some(ProductNotFound) <==>
      HasRequired(req) && req["payment_status"] == Str("success") && !ProductActive(products, req["product"])
    ensures e == None <==>
      HasRequired(req) && req["payment_status"] == Str("success") && ProductActive(products, req["product"])
  {
    RequiredKeysNamed(req);
    if !KeysPresent(RequiredKeys, req.Keys) then Some(MissingDetails)
    else if req["payment_status"] != Str("success") then Some(PaymentFailed)
    else if !ProductActive(products, req["product"]) then Some(ProductNotFound)
    else None
  }

  datatype Order = Order(
    number: string,
    orderedBy: UserId,
    paymentDate: Time,
    paymentMode: Value,
    paymentStatus: Value,
    paymentReference: Value,
    status: string,
    kind: string,
    customer: Option<Id>)

  datatype OrderItem = OrderItem(number: string, order: nat, product: string, hsnCode: string, quantity: nat)

  /** The persistent state the view reads and writes. `referredBy` holds, per user,
      the `referred_by` of that user's registration. */
  datatype Store = Store(
    settings: Settings,
    products: Products,
    referredBy: map<UserId, Option<Id>>,
    customers: Table,
    orders: seq<Order>,
    items: seq<OrderItem>)

  /** What the view takes from outside: the clock, the database's next customer id
      and generated uid, the Silver plan's uid and `PRIMARY_LEG_COUNT`. */
  datatype Env = Env(now: Time, newId: Id, newUid: string, silverPlan: string, p: int)

  datatype Response = Rejected(error: PaymentError) | Saved(customerNumber: string)

  datatype Outcome = Outcome(response: Response, store: Store)

  /** The customer record `update_customer_details` creates. */
  function NewCustomer(user: UserId, env: Env, referrer: Option<Id>, number: string): Customer {
    Customer(env.newUid, number, user, referrer, false, env.silverPlan, Some(env.now),
             Pending, Pending, Pending, Pending, None)
  }

  /** The table once the new customer is added. */
  function Joined(t: Table, user: UserId, env: Env, referrer: Option<Id>, number: string): Table {
    t[env.newId := NewCustomer(user, env, referrer, number)]
  }

  /** What the source needs once the gates pass: the three settings pairs, the
      buyer's registration, a fresh and larger id for the new customer, intact
      referrer links, and an engine run that finds every referrer it dereferences. */
  predicate Admissible(s: Store, user: UserId, env: Env) {
    CanIssue(s.settings, OrderNumber) && CanIssue(s.settings, OrderItemNumber) &&
    CanIssue(s.settings, CustomerNumber) &&
    user in s.referredBy &&
    (forall i :: i in s.customers ==> i < env.newId) &&
    Linked(s.customers) &&
    (s.referredBy[user].Some? ==> s.referredBy[user].value in s.customers) &&
    Ready(Joined(s.customers, user, env, s.referredBy[user], ""), user)
  }

  /** `create_order`: a new order numbered from the order counter. */
  function CreateOrder(s: Store, req: Request, user: UserId, env: Env): (r: Store)
    requires CanIssue(s.settings, OrderNumber) && Gate(req, s.products).None?
    ensures |r.orders| == |s.orders| + 1 && r.orders[..|s.orders|] == s.orders
    ensures r.orders[|s.orders|].number == Issue(s.settings, OrderNumber).code
    ensures r.settings == Issue(s.settings, OrderNumber).settings
    ensures r.products == s.products && r.referredBy == s.referredBy && r.customers == s.customers && r.items == s.items
  {
    var issued := Issue(s.settings, OrderNumber);
    var order := Order(issued.code, user, env.now, req["payment_mode"], req["payment_status"],
                       req["payment_reference"], "yet_to_be_couriered", "customer", None);
    s.(settings := issued.settings, orders := s.orders + [order])
  }

  /** `create_order_details`: one item for the paid product, numbered from the
      order-item counter. */
  function CreateOrderItem(s: Store, req: Request, order: nat): (r: Store)
    requires CanIssue(s.settings, OrderItemNumber) && Gate(req, s.products).None?
    ensures |r.items| == |s.items| + 1 && r.items[..|s.items|] == s.items
    ensures r.items[|s.items|].number == Issue(s.settings, OrderItemNumber).code
    ensures r.settings == Issue(s.settings, OrderItemNumber).settings
    ensures r.products == s.products && r.referredBy == s.referredBy && r.customers == s.customers && r.orders == s.orders
  {
    var issued := Issue(s.settings, OrderItemNumber);
    var uid := req["product"].s;
    var item := OrderItem(issued.code, order, uid, s.products[uid].hsnCode, 1);
    s.(settings := issued.settings, items := s.items + [item])
  }

  /** `update_customer_details`: the new customer, numbered from the customer counter
      and referred by whoever referred the buyer, is attached to the order. */
  function UpdateCustomerDetails(s: Store, user: UserId, env: Env, order: nat): (r: Store)
    requires CanIssue(s.settings, CustomerNumber) && user in s.referredBy && order < |s.orders|
    ensures r.customers == Joined(s.customers, user, env, s.referredBy[user], Issue(s.settings, CustomerNumber).code)
    ensures |r.orders| == |s.orders| && r.orders[order].customer == Some(env.newId)
    ensures forall i :: 0 <= i < |s.orders| && i != order ==> r.orders[i] == s.orders[i]
    ensures r.settings == Issue(s.settings, CustomerNumber).settings
    ensures r.products == s.products && r.referredBy == s.referredBy && r.items == s.items
  {
    var issued := Issue(s.settings, CustomerNumber);
    var customer := NewCustomer(user, env, s.referredBy[user], issued.code);
    s.(settings := issued.settings,
       customers := s.customers[env.newId := customer],
       orders := s.orders[order := s.orders[order].(customer := Some(env.newId))])
  }

  /** The buyer's records whose level 4 is still open. */
  function OpenCustomersOf(t: Table, user: UserId): set<Id> {
    set i | i in t && t[i].user == user && !t[i].level4.completed
  }

  /** The lowest-id record of the buyer whose level 4 is still open, if any. */
  function FirstOpenCustomer(t: Table, user: UserId): (m: Option<Id>)
    ensures m.None? <==> OpenCustomersOf(t, user) == {}
    ensures m.Some? ==>
      m.value in OpenCustomersOf(t, user) && forall i :: i in OpenCustomersOf(t, user) ==> m.value <= i
  {
    if OpenCustomersOf(t, user) == {} then None else Some(MinId(OpenCustomersOf(t, user)))
  }

  /** The settings pairs a successful call draws from do not interfere. */
  lemma SettingsStayIssuable(s: Settings)
    requires CanIssue(s, OrderNumber) && CanIssue(s, OrderItemNumber) && CanIssue(s, CustomerNumber)
    ensures var s1 := Issue(s, OrderNumber).settings;
      var s2 := Issue(s1, OrderItemNumber).settings;
      CanIssue(s1, OrderItemNumber) && CanIssue(s1, CustomerNumber) && CanIssue(s2, CustomerNumber) &&
      Counter(s1, OrderItemNumber) == Counter(s, OrderItemNumber) &&
      Counter(s2, CustomerNumber) == Counter(s, CustomerNumber)
  {
  }

  /** Only the tier flags, the number and nothing the engine looks at depend on the
      customer number, so the engine's preconditions hold whatever number is issued. */
  lemma ReadyAnyNumber(t: Table, user: UserId, env: Env, referrer: Option<Id>, number: string)
    requires Ready(Joined(t, user, env, referrer, ""), user)
    ensures Ready(Joined(t, user, env, referrer, number), user)
  {
    var u := Joined(t, user, env, referrer, "");
    var v := Joined(t, user, env, referrer, number);
    assert FreshCustomersOf(u, user) == FreshCustomersOf(v, user);
    assert PayingCustomer(u, user) == PayingCustomer(v, user);
    var payer := PayingCustomer(u, user).value;
    ChainOkSameShape(u, v, u[payer].referrer.value, 1);
  }

  /** Nobody refers to the customer just created, so the engine leaves it as created
      and its level 4 stays open. */
  lemma NewcomerStaysOpen(t: Table, user: UserId, env: Env, referrer: Option<Id>, number: string)
    requires Linked(t) && env.newId !in t && (referrer.Some? ==> referrer.value in t)
    requires Ready(Joined(t, user, env, referrer, number), user)
    ensures var final := UpdateReferrerLevel(Joined(t, user, env, referrer, number), user, env.p, env.now);
      final[env.newId] == NewCustomer(user, env, referrer, number) &&
      env.newId in OpenCustomersOf(final, user)
  {
    var u := Joined(t, user, env, referrer, number);
    assert forall i :: i in u ==> u[i].referrer != Some(env.newId);
    UnreferencedUntouched(u, user, env.p, env.now, env.newId);
  }

  /** The customer number the successful call issues: the third counter drawn. */
  function IssuedCustomerNumber(s: Settings): string
    requires CanIssue(s, OrderNumber) && CanIssue(s, OrderItemNumber) && CanIssue(s, CustomerNumber)
  {
    SettingsStayIssuable(s);
    Issue(Issue(Issue(s, OrderNumber).settings, OrderItemNumber).settings, CustomerNumber).code
  }

  /** The stored state after the three records are written, before the engine runs. */
  function Recorded(s: Store, req: Request, user: UserId, env: Env): (r: Store)
    requires Gate(req, s.products).None? && Admissible(s, user, env)
    ensures r.customers == Joined(s.customers, user, env, s.referredBy[user], IssuedCustomerNumber(s.settings))
    ensures Ready(r.customers, user)
  {
    SettingsStayIssuable(s.settings);
    ReadyAnyNumber(s.customers, user, env, s.referredBy[user], IssuedCustomerNumber(s.settings));
    var s1 := CreateOrder(s, req, user, env);
    var s2 := CreateOrderItem(s1, req, |s.orders|);
    UpdateCustomerDetails(s2, user, env, |s.orders|)
  }

  /** `post` */
  function PostPayment(s: Store, req: Request, user: UserId, env: Env): (o: Outcome)
    requires Gate(req, s.products).None? ==> Admissible(s, user, env)
    ensures o.response.Rejected? <==> Gate(req, s.products).Some?
    ensures Gate(req, s.products).Some? ==> o == Outcome(Rejected(Gate(req, s.products).value), s)
  {
    match Gate(req, s.products)
    case Some(e) => Outcome(Rejected(e), s)
    case None =>
      var r := Recorded(s, req, user, env);
      NewcomerStaysOpen(s.customers, user, env, s.referredBy[user], IssuedCustomerNumber(s.settings));
      var final := UpdateReferrerLevel(r.customers, user, env.p, env.now);
      Outcome(Saved(final[FirstOpenCustomer(final, user).value].number), r.(customers := final))
  }

  // ---------------------------------------------------------------------------
  // What a successful call does

  lemma PostPaymentIsRecordedThenEngine(s: Store, req: Request, user: UserId, env: Env)
    requires Gate(req, s.products).None? && Admissible(s, user, env)
    ensures var r := Recorded(s, req, user, env);
      var final := UpdateReferrerLevel(r.customers, user, env.p, env.now);
      PostPayment(s, req, user, env).store == r.(customers := final) &&
      FirstOpenCustomer(final, user).Some? &&
      PostPayment(s, req, user, env).response == Saved(final[FirstOpenCustomer(final, user).value].number)
  {
    var r := Recorded(s, req, user, env);
    var final := UpdateReferrerLevel(r.customers, user, env.p, env.now);
    NewcomerStaysOpen(s.customers, user, env, s.referredBy[user], IssuedCustomerNumber(s.settings));
    assert env.newId in OpenCustomersOf(final, user);
    assert PostPayment(s, req, user, env) == Outcome(Saved(final[FirstOpenCustomer(final, user).value].number), r.(customers := final));
  }

  /** A successful call appends one order and one item, numbered from their counters,
      and gives the order to the new customer. */
  lemma PostPaymentRecords(s: Store, req: Request, user: UserId, env: Env)
    requires Gate(req, s.products).None? && Admissible(s, user, env)
    ensures var r := Recorded(s, req, user, env);
      |r.orders| == |s.orders| + 1 && r.orders[..|s.orders|] == s.orders &&
      r.orders[|s.orders|] == Order(s.settings["order_number_text"] + IntToDecimal(Counter(s.settings, OrderNumber)),
                                    user, env.now, req["payment_mode"], Str("success"), req["payment_reference"],
                                    "yet_to_be_couriered", "customer", Some(env.newId)) &&
      |r.items| == |s.items| + 1 && r.items[..|s.items|] == s.items &&
      r.items[|s.items|] == OrderItem(s.settings["order_item_number_text"] + IntToDecimal(Counter(s.settings, OrderItemNumber)),
                                      |s.orders|, req["product"].s, s.products[req["product"].s].hsnCode, 1) &&
      r.products == s.products && r.referredBy == s.referredBy
  {
    SettingsStayIssuable(s.settings);
    var s1 := CreateOrder(s, req, user, env);
    var s2 := CreateOrderItem(s1, req, |s.orders|);
    var r := UpdateCustomerDetails(s2, user, env, |s.orders|);
    assert r.orders[..|s.orders|] == s2.orders[..|s.orders|];
  }

  /** Each of the three counters a successful call draws from advances by exactly one;
      every other setting is left as it was. */
  lemma PostPaymentCounters(s: Store, req: Request, user: UserId, env: Env)
    requires Gate(req, s.products).None? && Admissible(s, user, env)
    ensures var r := PostPayment(s, req, user, env).store.settings;
      r.Keys == s.settings.Keys &&
      CanIssue(r, OrderNumber) && Counter(r, OrderNumber) == Counter(s.settings, OrderNumber) + 1 &&
      CanIssue(r, OrderItemNumber) && Counter(r, OrderItemNumber) == Counter(s.settings, OrderItemNumber) + 1 &&
      CanIssue(r, CustomerNumber) && Counter(r, CustomerNumber) == Counter(s.settings, CustomerNumber) + 1 &&
      forall key :: key in s.settings && key !in {OrderNumber.sequence, OrderItemNumber.sequence, CustomerNumber.sequence} ==>
        r[key] == s.settings[key]
  {
    PostPaymentIsRecordedThenEngine(s, req, user, env);
    SettingsStayIssuable(s.settings);
  }

  /** The new customer's number is the customer prefix followed by the counter. */
  lemma IssuedCustomerNumberForm(s: Settings)
    requires CanIssue(s, OrderNumber) && CanIssue(s, OrderItemNumber) && CanIssue(s, CustomerNumber)
    ensures IssuedCustomerNumber(s) == s["customer_number_text"] + IntToDecimal(Counter(s, CustomerNumber))
  {
    SettingsStayIssuable(s);
  }

  /** After a successful call the table is the engine's run over the table with the
      new customer added; the new customer itself ends as it was created. */
  lemma PostPaymentCustomers(s: Store, req: Request, user: UserId, env: Env)
    requires Gate(req, s.products).None? && Admissible(s, user, env)
    ensures var number := IssuedCustomerNumber(s.settings);
      var joined := Joined(s.customers, user, env, s.referredBy[user], number);
      Ready(joined, user) &&
      PostPayment(s, req, user, env).store.customers == UpdateReferrerLevel(joined, user, env.p, env.now) &&
      PostPayment(s, req, user, env).store.customers[env.newId] == NewCustomer(user, env, s.referredBy[user], number)
  {
    var number := IssuedCustomerNumber(s.settings);
    PostPaymentIsRecordedThenEngine(s, req, user, env);
    ReadyAnyNumber(s.customers, user, env, s.referredBy[user], number);
    NewcomerStaysOpen(s.customers, user, env, s.referredBy[user], number);
  }

  /** The answer names the buyer's lowest-id customer record whose level 4 is open
      once the engine has run; that record exists, because the new one qualifies. */
  lemma PostPaymentResponse(s: Store, req: Request, user: UserId, env: Env)
    requires Gate(req, s.products).None? && Admissible(s, user, env)
    ensures var o := PostPayment(s, req, user, env);
      var open := OpenCustomersOf(o.store.customers, user);
      env.newId in open &&
      exists m :: m in open && (forall i :: i in open ==> m <= i) && o.response == Saved(o.store.customers[m].number)
  {
    PostPaymentIsRecordedThenEngine(s, req, user, env);
    PostPaymentCustomers(s, req, user, env);
  }

  /** When none of the buyer's records had level 4 open, the new one is the only
      open record after the engine: a completed level 4 is never cleared. */
  lemma OnlyNewcomerOpen(t: Table, user: UserId, env: Env, referrer: Option<Id>, number: string)
    requires Linked(t) && env.newId !in t && (referrer.Some? ==> referrer.value in t)
    requires Ready(Joined(t, user, env, referrer, number), user) && OpenCustomersOf(t, user) == {}
    ensures OpenCustomersOf(UpdateReferrerLevel(Joined(t, user, env, referrer, number), user, env.p, env.now), user) == {env.newId}
  {
    var joined := Joined(t, user, env, referrer, number);
    var final := UpdateReferrerLevel(joined, user, env.p, env.now);
    NewcomerStaysOpen(t, user, env, referrer, number);
    forall i | i in OpenCustomersOf(final, user)
      ensures i == env.newId
    {
      if i != env.newId {
        EngineKeepsUser(joined, user, env.p, env.now, i);
        assert i in t && t[i].user == user;
        assert i !in OpenCustomersOf(t, user);
        assert joined[i] == t[i] && t[i].level4.completed;
        EngineKeepsFlag(joined, user, env.p, env.now, i, 4);
      }
    }
  }

  /** A buyer without any customer record with level 4 open is answered with the
      number of the record just created. */
  lemma PostPaymentFirstPurchase(s: Store, req: Request, user: UserId, env: Env)
    requires Gate(req, s.products).None? && Admissible(s, user, env)
    requires OpenCustomersOf(s.customers, user) == {}
    ensures PostPayment(s, req, user, env).response ==
      Saved(s.settings["customer_number_text"] + IntToDecimal(Counter(s.settings, CustomerNumber)))
  {
    var number := IssuedCustomerNumber(s.settings);
    PostPaymentIsRecordedThenEngine(s, req, user, env);
    ReadyAnyNumber(s.customers, user, env, s.referredBy[user], number);
    OnlyNewcomerOpen(s.customers, user, env, s.referredBy[user], number);
    NewcomerStaysOpen(s.customers, user, env, s.referredBy[user], number);
    IssuedCustomerNumberForm(s.settings);
  }
}
