/**
 * The product page's cart logic: the quantity counter, the add-on groups
 * built from the fetched menu item, and `handleAddToCart`, which refuses an
 * inactive product or a missing required group, merges into a line with the
 * same product and an identical selection, or appends a new line.
 */
module ProductCart {
  import opened Wrappers
  import opened Seqs
  import opened Selection
  import opened Pricing

  /** `incrementQuantity`: no upper bound. */
  function Increment(quantity: int): (r: int)
    ensures r > quantity
  {
    quantity + 1
  }

  /** `decrementQuantity`: one less, but never below 1. */
  function Decrement(quantity: int): (r: int)
    ensures r >= 1
    ensures r <= quantity || quantity < 1
    ensures quantity > 1 ==> r == quantity - 1
  {
    if quantity > 1 then quantity - 1 else 1
  }

  /** From any valid quantity, `-` undoes `+`, and `+` undoes `-` above 1. */
  lemma QuantityStepsUndo(quantity: int)
    requires quantity >= 1
    ensures Decrement(Increment(quantity)) == quantity
    ensures quantity > 1 ==> Increment(Decrement(quantity)) == quantity
    ensures Decrement(1) == 1
  {
  }

  // ----- Add-on groups built from the fetched menu item -----

  /** An entry of the menu item's `menuItemOptions`. */
  datatype ServerOption = ServerOption(id: OptionId, name: string, price: int)

  /** An entry of the menu item's `typesWithOptions`; a missing option list is `None`. */
  datatype ServerType = ServerType(id: GroupId, name: string, menuItemOptions: Option<seq<ServerOption>>)

  function OptionsOf(t: ServerType): seq<ServerOption> {
    t.menuItemOptions.GetOr([])
  }

  function ToAddonOption(o: ServerOption): AddonOption {
    AddonOption(o.id, o.name, o.price)
  }

  function ToAddonGroup(t: ServerType): AddonGroup {
    var options := OptionsOf(t);
    AddonGroup(t.id, t.name, "multiple", false, seq(|options|, i requires 0 <= i < |options| => ToAddonOption(options[i])))
  }

  /**
   * `transformedAddons`: one group per fetched type, in order, with the
   * type's id and name as title, every group multiple-choice and optional,
   * and each option keeping its id, name and price.
   */
  function TransformAddons(types: Option<seq<ServerType>>): (r: seq<AddonGroup>)
    ensures types.None? ==> r == []
    ensures types.Some? ==> |r| == |types.value|
    ensures forall g | g in r :: g.kind == "multiple" && !g.required
    ensures types.Some? ==> forall i | 0 <= i < |r| ::
      && r[i].id == types.value[i].id
      && r[i].title == types.value[i].name
      && |r[i].options| == |OptionsOf(types.value[i])|
      && forall k | 0 <= k < |r[i].options| ::
           var o := OptionsOf(types.value[i])[k];
           r[i].options[k].id == o.id && r[i].options[k].name == o.name && r[i].options[k].price == o.price
  {
    match types
    case None => []
    case Some(ts) => seq(|ts|, i requires 0 <= i < |ts| => ToAddonGroup(ts[i]))
  }

  // ----- The cart -----

  /** A cart line: the product's fields, the quantity, a copy of the selection, the line total and when it was added. */
  datatype CartLine = CartLine(product: Product, quantity: int, selection: Selection, totalPrice: int, timestamp: int)

  function LineQuantity(line: CartLine): int {
    line.quantity
  }

  /** `cartCount`: the cart's lines' quantities added up. */
  function CartCount(cart: seq<CartLine>): (r: int)
    ensures cart == [] ==> r == 0
    ensures (forall i | 0 <= i < |cart| :: cart[i].quantity >= 0) ==> r >= 0
    ensures (forall i | 0 <= i < |cart| :: cart[i].quantity >= 1) ==> r >= |cart|
  {
    SumOf(cart, LineQuantity)
  }

  /** The merge test: the same product id and a selection that serialises identically. */
  predicate SameItem(line: CartLine, p: Product, sel: Selection) {
    line.product.id == p.id && line.selection == sel
  }

  /** `cart.findIndex(...)`: the first line to merge into, if any. */
  function FindLine(cart: seq<CartLine>, p: Product, sel: Selection): (r: Option<nat>)
    ensures r.Some? ==> r.value < |cart| && SameItem(cart[r.value], p, sel)
    ensures r.Some? ==> forall j | 0 <= j < r.value :: !SameItem(cart[j], p, sel)
    ensures r.None? ==> forall j | 0 <= j < |cart| :: !SameItem(cart[j], p, sel)
    decreases |cart|
  {
    if cart == [] then None
    else if SameItem(cart[0], p, sel) then Some(0)
    else
      match FindLine(cart[1..], p, sel)
      case None => None
      case Some(i) => Some(i + 1)
  }

  /** `requiredAddons.filter(addon => !selectedAddons[addon.id])`: required groups without an entry. */
  function MissingRequired(groups: seq<AddonGroup>, sel: Selection): (r: seq<AddonGroup>)
    ensures forall g | g in r :: g in groups && g.required && g.id !in sel
    ensures forall g | g in groups && g.required && g.id !in sel :: g in r
    ensures IsSubsequence(r, groups)
  {
    Filter(groups, (g: AddonGroup) => g.required && g.id !in sel)
  }

  function Titles(groups: seq<AddonGroup>): (r: seq<string>)
    ensures |r| == |groups|
  {
    seq(|groups|, i requires 0 <= i < |groups| => groups[i].title)
  }

  /** What `handleAddToCart` did: the two warnings, or where the item went. */
  datatype AddOutcome = Unavailable | MissingChoices(titles: seq<string>) | Merged(index: nat) | Appended

  predicate Added(outcome: AddOutcome) {
    outcome.Merged? || outcome.Appended?
  }

  /**
   * The checks in their order: an inactive product is refused first, then
   * a missing required choice; otherwise the first line with the same
   * product and selection is merged into, and without one a line is appended.
   */
  function OutcomeOfAdd(cart: seq<CartLine>, p: Product, sel: Selection, groups: seq<AddonGroup>): (r: AddOutcome)
    ensures r.Unavailable? <==> !p.isActive
    ensures r.MissingChoices? <==> p.isActive && MissingRequired(groups, sel) != []
    ensures r.MissingChoices? ==> |r.titles| == |MissingRequired(groups, sel)| > 0
    ensures r.Merged? ==> r.index < |cart| && SameItem(cart[r.index], p, sel)
    ensures r.Merged? ==> forall j | 0 <= j < r.index :: !SameItem(cart[j], p, sel)
    ensures r.Appended? ==> forall j | 0 <= j < |cart| :: !SameItem(cart[j], p, sel)
  {
    if !p.isActive then Unavailable
    else if MissingRequired(groups, sel) != [] then MissingChoices(Titles(MissingRequired(groups, sel)))
    else
      match FindLine(cart, p, sel)
      case Some(i) => Merged(i)
      case None => Appended
  }

  /** A merged line: the quantities added, the total recomputed as new quantity times unit price. */
  function MergeInto(line: CartLine, p: Product, quantity: int, sel: Selection, groups: seq<AddonGroup>): CartLine {
    var newQuantity := line.quantity + quantity;
    line.(quantity := newQuantity, totalPrice := newQuantity * UnitPrice(p, sel, groups))
  }

  function NewLine(p: Product, quantity: int, sel: Selection, groups: seq<AddonGroup>, timestamp: int): CartLine {
    CartLine(p, quantity, sel, TotalPrice(Some(p), quantity, sel, groups), timestamp)
  }

  /** `updatedCart`, or the cart as it was when a warning was shown. */
  function CartAfterAdd(cart: seq<CartLine>, p: Product, quantity: int, sel: Selection, groups: seq<AddonGroup>, timestamp: int): (r: seq<CartLine>)
    ensures !Added(OutcomeOfAdd(cart, p, sel, groups)) ==> r == cart
    ensures Added(OutcomeOfAdd(cart, p, sel, groups)) ==> exists k | 0 <= k < |r| :: SameItem(r[k], p, sel)
    ensures |cart| <= |r| <= |cart| + 1
  {
    match OutcomeOfAdd(cart, p, sel, groups)
    case Merged(i) =>
      var r := cart[i := MergeInto(cart[i], p, quantity, sel, groups)];
      assert SameItem(r[i], p, sel);
      r
    case Appended =>
      var r := cart + [NewLine(p, quantity, sel, groups, timestamp)];
      assert SameItem(r[|cart|], p, sel);
      r
    case _ => cart
  }

  /** An inactive product is refused whatever was chosen, and the cart stays as it was. */
  lemma InactiveProductRefused(cart: seq<CartLine>, p: Product, quantity: int, sel: Selection, groups: seq<AddonGroup>, timestamp: int)
    requires !p.isActive
    ensures OutcomeOfAdd(cart, p, sel, groups) == Unavailable
    ensures CartAfterAdd(cart, p, quantity, sel, groups, timestamp) == cart
  {
  }

  /** A required group with no entry is refused, its title is in the warning, and the cart stays as it was. */
  lemma MissingRequiredRefused(cart: seq<CartLine>, p: Product, quantity: int, sel: Selection, groups: seq<AddonGroup>, timestamp: int, g: AddonGroup)
    requires p.isActive
    requires g in groups && g.required && g.id !in sel
    ensures OutcomeOfAdd(cart, p, sel, groups).MissingChoices?
    ensures g.title in OutcomeOfAdd(cart, p, sel, groups).titles
    ensures CartAfterAdd(cart, p, quantity, sel, groups, timestamp) == cart
  {
    var missing := MissingRequired(groups, sel);
    assert g in missing;
    var k :| 0 <= k < |missing| && missing[k] == g;
    assert Titles(missing)[k] == g.title;
  }

  /**
   * A merge keeps the cart's length and every other line; the merged
   * line's quantity grows by the added quantity and its total is what
   * `calculateTotalPrice` gives at the new quantity.
   */
  lemma MergeChangesOnlyThatLine(cart: seq<CartLine>, p: Product, quantity: int, sel: Selection, groups: seq<AddonGroup>, timestamp: int, i: nat)
    requires OutcomeOfAdd(cart, p, sel, groups) == Merged(i)
    ensures i < |cart| && SameItem(cart[i], p, sel)
    ensures var after := CartAfterAdd(cart, p, quantity, sel, groups, timestamp);
      && |after| == |cart|
      && (forall j | 0 <= j < |cart| && j != i :: after[j] == cart[j])
      && after[i].quantity == cart[i].quantity + quantity
      && after[i].totalPrice == TotalPrice(Some(p), after[i].quantity, sel, groups)
      && after[i].(quantity := cart[i].quantity, totalPrice := cart[i].totalPrice) == cart[i]
  {
    TotalIsQuantityTimesUnitPrice(p, cart[i].quantity + quantity, sel, groups);
  }

  /** Without a matching line, exactly one line is appended, carrying the quantity, the selection and the computed total. */
  lemma AppendAddsOneLine(cart: seq<CartLine>, p: Product, quantity: int, sel: Selection, groups: seq<AddonGroup>, timestamp: int)
    requires p.isActive && MissingRequired(groups, sel) == []
    requires forall j | 0 <= j < |cart| :: !SameItem(cart[j], p, sel)
    ensures var after := CartAfterAdd(cart, p, quantity, sel, groups, timestamp);
      && |after| == |cart| + 1
      && after[..|cart|] == cart
      && after[|cart|].product == p && after[|cart|].quantity == quantity && after[|cart|].selection == sel
      && after[|cart|].totalPrice == TotalPrice(Some(p), quantity, sel, groups)
  {
    assert FindLine(cart, p, sel).None?;
  }

  /** Every successful add raises the item count by exactly the added quantity. */
  lemma AddRaisesCountByQuantity(cart: seq<CartLine>, p: Product, quantity: int, sel: Selection, groups: seq<AddonGroup>, timestamp: int)
    requires Added(OutcomeOfAdd(cart, p, sel, groups))
    ensures CartCount(CartAfterAdd(cart, p, quantity, sel, groups, timestamp)) == CartCount(cart) + quantity
  {
    match OutcomeOfAdd(cart, p, sel, groups)
    case Merged(i) =>
      SumOfUpdate(cart, i, MergeInto(cart[i], p, quantity, sel, groups), LineQuantity);
    case Appended =>
      SumOfSnoc(cart, NewLine(p, quantity, sel, groups, timestamp), LineQuantity);
  }

  /**
   * Adding the same product with the same selection twice, first as a new
   * line, leaves one line whose quantity is the sum of the two quantities.
   */
  lemma AddingTwiceMerges(cart: seq<CartLine>, p: Product, q1: int, q2: int, sel: Selection, groups: seq<AddonGroup>, t1: int, t2: int)
    requires OutcomeOfAdd(cart, p, sel, groups) == Appended
    ensures var once := CartAfterAdd(cart, p, q1, sel, groups, t1);
      && OutcomeOfAdd(once, p, sel, groups) == Merged(|cart|)
      && var twice := CartAfterAdd(once, p, q2, sel, groups, t2);
      && |twice| == |cart| + 1
      && twice[|cart|].quantity == q1 + q2
      && twice[..|cart|] == cart
  {
    var once := CartAfterAdd(cart, p, q1, sel, groups, t1);
    assert forall j | 0 <= j < |cart| :: once[j] == cart[j];
    assert SameItem(once[|cart|], p, sel);
    var found := FindLine(once, p, sel);
    assert found == Some(|cart|);
  }

  /** The fetched groups are never required, so the required-group check never refuses them. */
  lemma FetchedGroupsNeverMissing(types: Option<seq<ServerType>>, sel: Selection)
    ensures MissingRequired(TransformAddons(types), sel) == []
    ensures forall g | g in TransformAddons(types) :: ModeOf(g.kind) == Multiple
  {
    var r := MissingRequired(TransformAddons(types), sel);
    if r != [] {
      assert false;
    }
  }

  /**
   * The state of the product page: the fetched product and add-on groups,
   * the selection, the quantity counter and the cart. Its handlers update
   * these fields in place, as the page's `set...` calls do.
   */
  class ProductView {
    var product: Option<Product>
    var addons: seq<AddonGroup>
    var selection: Selection
    var quantity: int
    var cart: seq<CartLine>

    ghost predicate Valid()
      reads this
    {
      quantity >= 1 && WellFormed(selection)
    }

    /** The page once its product and add-on groups are loaded: nothing chosen, quantity 1, an empty cart. */
    constructor (product: Option<Product>, addons: seq<AddonGroup>)
      ensures Valid()
      ensures this.product == product && this.addons == addons
      ensures selection == map[] && quantity == 1 && cart == []
    {
      this.product := product;
      this.addons := addons;
      selection := map[];
      quantity := 1;
      cart := [];
    }

    method IncrementQuantity()
      requires Valid()
      modifies this`quantity
      ensures Valid()
      ensures quantity == Increment(old(quantity))
    {
      quantity := quantity + 1;
    }

    method DecrementQuantity()
      requires Valid()
      modifies this`quantity
      ensures Valid()
      ensures quantity == Decrement(old(quantity))
    {
      quantity := if quantity > 1 then quantity - 1 else 1;
    }

    /** `handleAddonSelect(addonId, optionId, type)`. */
    method SelectOption(group: GroupId, option: OptionId, kind: string)
      requires Valid()
      modifies this`selection
      ensures Valid()
      ensures selection == SelectAddon(old(selection), group, option, ModeOf(kind))
    {
      selection := SelectAddon(selection, group, option, ModeOf(kind));
    }

    /**
     * `handleAddToCart`, with the clock reading as a parameter. The cart
     * becomes `CartAfterAdd` of the old cart and the quantity returns to 1
     * after a successful add; a refused add changes nothing.
     */
    method AddToCart(timestamp: int) returns (outcome: AddOutcome)
      requires Valid()
      requires product.Some?
      modifies this`cart, this`quantity
      ensures Valid()
      ensures outcome == OutcomeOfAdd(old(cart), product.value, selection, addons)
      ensures cart == CartAfterAdd(old(cart), product.value, old(quantity), selection, addons, timestamp)
      ensures quantity == if Added(outcome) then 1 else old(quantity)
    {
      var p := product.value;
      if !p.isActive {
        return Unavailable;
      }
      var missing := MissingRequired(addons, selection);
      if missing != [] {
        return MissingChoices(Titles(missing));
      }
      var total := CalculateTotalPrice(product, quantity, selection, addons);
      var line := CartLine(p, quantity, selection, total, timestamp);
      var index := FindLine(cart, p, selection);
      if index.Some? {
        var i := index.value;
        var newQuantity := cart[i].quantity + quantity;
        var surcharges := SelectionChargeOf(addons, selection, 1);
        cart := cart[i := cart[i].(quantity := newQuantity, totalPrice := newQuantity * (p.price + surcharges))];
        outcome := Merged(i);
      } else {
        cart := cart + [line];
        outcome := Appended;
      }
      quantity := 1;
    }
  }
}
