/**
 The restaurant order board: restaurants post surplus orders, NGOs confirm a
 pick-up, and an order can be marked unavailable or removed. The board is a
 list of order records whose only changing field is the status.
 */
module Orders {
  import opened Common
  import opened Text

  datatype Status = Available | ConfirmedByNgo | Unavailable

  /** The status as the board stores and shows it; only Available reads "Available". */
  function StatusText(s: Status): (text: string)
    ensures text == "Available" <==> s == Available
  {
    match s
    case Available => "Available"
    case ConfirmedByNgo => "Confirmed by NGO"
    case Unavailable => "Unavailable"
  }

  /** Comparing the stored strings is comparing the statuses. */
  lemma StatusTextInjective(s: Status, t: Status)
    ensures StatusText(s) == StatusText(t) <==> s == t
  {
    if s != t {
      assert StatusText(s)[..2] != StatusText(t)[..2] || |StatusText(s)| != |StatusText(t)|;
    }
  }

  /** The values of the "Post an order" form; `today` is the formatted posting date. */
  datatype OrderForm = OrderForm(
    name: string, item: string, qty: string, pickupBy: string, location: string,
    contact: string, notes: string, price: nat, today: string)

  datatype Order = Order(
    restaurant: string, item: string, qty: string, pickupBy: string, location: string,
    contact: string, notes: string, price: Price, status: Status, datePosted: string)

  /**
   "Post Order": refused unless the restaurant name, item, location and
   contact are non-blank after strip() (the quantity is not required); a
   posted order has every text field stripped, is Available, and is free
   exactly when the suggested price is 0.
   */
  function NewOrder(f: OrderForm): (r: Option<Order>)
    ensures r.Some? <==> !AllSpace(f.name) && !AllSpace(f.item) && !AllSpace(f.location) && !AllSpace(f.contact)
    ensures r.Some? ==> r.value.status == Available
    ensures r.Some? ==> (r.value.price == Free <==> f.price == 0) && (f.price > 0 ==> r.value.price.amount == f.price)
    ensures r.Some? ==>
      && r.value.restaurant == Strip(f.name) && r.value.item == Strip(f.item)
      && r.value.qty == Strip(f.qty) && r.value.pickupBy == Strip(f.pickupBy)
      && r.value.location == Strip(f.location) && r.value.contact == Strip(f.contact)
      && r.value.notes == Strip(f.notes) && r.value.datePosted == f.today
  {
    if Strip(f.name) == "" || Strip(f.item) == "" || Strip(f.location) == "" || Strip(f.contact) == "" then None
    else
      Some(Order(
        restaurant := Strip(f.name), item := Strip(f.item), qty := Strip(f.qty),
        pickupBy := Strip(f.pickupBy), location := Strip(f.location), contact := Strip(f.contact),
        notes := Strip(f.notes), price := if f.price > 0 then Rupees(f.price) else Free,
        status := Available, datePosted := f.today))
  }

  /** The board after "Post Order". */
  function PostTo(orders: seq<Order>, f: OrderForm): (r: seq<Order>)
    ensures NewOrder(f).None? ==> r == orders
    ensures NewOrder(f).Some? ==> |r| == |orders| + 1 && r[..|orders|] == orders && r[|orders|] == NewOrder(f).value
    ensures forall k :: |orders| <= k < |r| ==> r[k].status == Available
  {
    match NewOrder(f)
    case None => orders
    case Some(o) => orders + [o]
  }

  /** "Confirm (NGO pick-up)" on order `i`: only an Available order becomes Confirmed by NGO. */
  function ConfirmAt(orders: seq<Order>, i: nat): (r: seq<Order>)
    requires i < |orders|
    ensures orders[i].status == Available ==> |r| == |orders| && r[i] == orders[i].(status := ConfirmedByNgo)
    ensures orders[i].status == Available ==> forall j :: 0 <= j < |r| && j != i ==> r[j] == orders[j]
    ensures orders[i].status != Available ==> r == orders
  {
    if orders[i].status == Available then orders[i := orders[i].(status := ConfirmedByNgo)] else orders
  }

  /** "Mark unavailable" on order `i`: from any status, nothing else touched. */
  function MarkUnavailableAt(orders: seq<Order>, i: nat): (r: seq<Order>)
    requires i < |orders|
    ensures |r| == |orders| && r[i] == orders[i].(status := Unavailable)
    ensures forall j :: 0 <= j < |r| && j != i ==> r[j] == orders[j]
  {
    orders[i := orders[i].(status := Unavailable)]
  }

  /** Confirming changes the board exactly when the order was Available. */
  lemma ConfirmChangesIff(orders: seq<Order>, i: nat)
    requires i < |orders|
    ensures ConfirmAt(orders, i) != orders <==> orders[i].status == Available
  {
    if orders[i].status == Available {
      assert ConfirmAt(orders, i)[i].status != orders[i].status;
    }
  }

  /** Marking unavailable twice is marking it once, and so is confirming. */
  lemma Idempotent(orders: seq<Order>, i: nat)
    requires i < |orders|
    ensures MarkUnavailableAt(MarkUnavailableAt(orders, i), i) == MarkUnavailableAt(orders, i)
    ensures ConfirmAt(ConfirmAt(orders, i), i) == ConfirmAt(orders, i)
  {
  }

  /**
   Confirmed by NGO is not final: marking unavailable afterwards overrides it,
   while confirming an unavailable order does nothing.
   */
  lemma UnavailableOverridesConfirm(orders: seq<Order>, i: nat)
    requires i < |orders|
    ensures MarkUnavailableAt(ConfirmAt(orders, i), i) == MarkUnavailableAt(orders, i)
    ensures ConfirmAt(MarkUnavailableAt(orders, i), i) == MarkUnavailableAt(orders, i)
  {
  }

  /** One button press on the board. */
  datatype OrderAction =
    | Post(form: OrderForm)
    | Confirm(index: nat)
    | MarkUnavailable(index: nat)
    | Remove(index: nat)

  /** The buttons exist only for orders on the board. */
  predicate Applicable(orders: seq<Order>, a: OrderAction) {
    match a
    case Post(_) => true
    case Confirm(i) => i < |orders|
    case MarkUnavailable(i) => i < |orders|
    case Remove(i) => i < |orders|
  }

  /**
   The board after one press: a post grows it by one accepted order, a removal
   shrinks it by one, the status buttons keep its length, and any order past
   the old end is a freshly posted Available one.
   */
  function Step(orders: seq<Order>, a: OrderAction): (r: seq<Order>)
    requires Applicable(orders, a)
    ensures a.Post? ==> |r| == |orders| + (if NewOrder(a.form).Some? then 1 else 0)
    ensures a.Remove? ==> |r| == |orders| - 1
    ensures a.Confirm? || a.MarkUnavailable? ==> |r| == |orders|
    ensures forall k :: |orders| <= k < |r| ==> r[k].status == Available
  {
    match a
    case Post(f) => PostTo(orders, f)
    case Confirm(i) => ConfirmAt(orders, i)
    case MarkUnavailable(i) => MarkUnavailableAt(orders, i)
    case Remove(i) => RemoveAt(orders, i)
  }

  predicate Runnable(orders: seq<Order>, actions: seq<OrderAction>)
    decreases |actions|
  {
    actions == [] || (Applicable(orders, actions[0]) && Runnable(Step(orders, actions[0]), actions[1..]))
  }

  /** The board after a sequence of presses; each press adds at most one order. */
  function Run(orders: seq<Order>, actions: seq<OrderAction>): (r: seq<Order>)
    requires Runnable(orders, actions)
    ensures |r| <= |orders| + |actions|
    decreases |actions|
  {
    if actions == [] then orders else Run(Step(orders, actions[0]), actions[1..])
  }

  /** Where the order at position `j` stands after the action, if it is still on the board. */
  function Track(a: OrderAction, j: nat): Option<nat> {
    match a
    case Remove(i) => if j < i then Some(j) else if j == i then None else Some(j - 1)
    case _ => Some(j)
  }

  /** One action keeps every surviving order's fields but the status, and never makes it Available again. */
  lemma StepPreserves(orders: seq<Order>, a: OrderAction, j: nat)
    requires Applicable(orders, a) && j < |orders| && Track(a, j).Some?
    ensures Track(a, j).value < |Step(orders, a)|
    ensures Step(orders, a)[Track(a, j).value] == orders[j].(status := Step(orders, a)[Track(a, j).value].status)
    ensures orders[j].status != Available ==> Step(orders, a)[Track(a, j).value].status != Available
  {
    match a
    case Post(f) =>
      if NewOrder(f).Some? { assert PostTo(orders, f)[j] == PostTo(orders, f)[..|orders|][j]; }
    case Confirm(i) =>
    case MarkUnavailable(i) =>
    case Remove(i) =>
  }

  /** Where the order at position `j` stands after the actions, if it is still on the board. */
  function TrackRun(orders: seq<Order>, actions: seq<OrderAction>, j: nat): (k: Option<nat>)
    requires Runnable(orders, actions) && j < |orders|
    ensures k.Some? ==> k.value < |Run(orders, actions)|
    decreases |actions|
  {
    if actions == [] then Some(j)
    else
      match Track(actions[0], j)
      case None => None
      case Some(j') =>
        StepPreserves(orders, actions[0], j);
        TrackRun(Step(orders, actions[0]), actions[1..], j')
  }

  /** Without a removal every order survives a run, at its own position. */
  lemma {:induction false} TrackRunKeepsIndex(orders: seq<Order>, actions: seq<OrderAction>, j: nat)
    requires Runnable(orders, actions) && j < |orders|
    requires forall n :: 0 <= n < |actions| ==> !actions[n].Remove?
    ensures TrackRun(orders, actions, j) == Some(j)
    decreases |actions|
  {
    if actions != [] {
      assert !actions[0].Remove?;
      StepPreserves(orders, actions[0], j);
      TrackRunKeepsIndex(Step(orders, actions[0]), actions[1..], j);
    }
  }

  /**
   Only posting writes Available: once an order has left Available, no run of
   posts, confirmations, unavailable marks and removals brings it back, and
   no action ever changes an order's other fields.
   */
  lemma {:induction false} LeftAvailableNeverReturns(orders: seq<Order>, actions: seq<OrderAction>, j: nat)
    requires Runnable(orders, actions) && j < |orders| && TrackRun(orders, actions, j).Some?
    ensures var after := Run(orders, actions); var k := TrackRun(orders, actions, j).value;
      after[k] == orders[j].(status := after[k].status)
      && (orders[j].status != Available ==> after[k].status != Available)
    decreases |actions|
  {
    if actions != [] {
      var j' := Track(actions[0], j).value;
      StepPreserves(orders, actions[0], j);
      LeftAvailableNeverReturns(Step(orders, actions[0]), actions[1..], j');
    }
  }
}
