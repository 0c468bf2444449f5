/**
 * The product page's price computation: the base price plus the surcharge
 * of every chosen add-on option, each counted once per unit of quantity.
 * Prices are whole minor units (piastres).
 */
module Pricing {
  import opened Wrappers
  import opened Selection

  datatype AddonOption = AddonOption(id: OptionId, name: string, price: int)

  /** An entry of `addonsData`; `kind` is the `type` string passed on to `handleAddonSelect`. */
  datatype AddonGroup = AddonGroup(id: GroupId, title: string, kind: string, required: bool, options: seq<AddonOption>)

  /** The fields of the page's product record that the cart logic reads. */
  datatype Product = Product(id: int, name: string, price: int, isActive: bool)

  /** `options.find(opt => opt.id === id)`: the first option carrying that id, if any. */
  function FindOption(options: seq<AddonOption>, id: OptionId): (r: Option<AddonOption>)
    ensures r.Some? ==> r.value in options && r.value.id == id
    ensures r.None? <==> forall o | o in options :: o.id != id
    ensures r.Some? ==> exists i | 0 <= i < |options| :: options[i] == r.value && forall j | 0 <= j < i :: options[j].id != id
    decreases |options|
  {
    if options == [] then None
    else if options[0].id == id then Some(options[0])
    else
      var r := FindOption(options[1..], id);
      assert r.Some? ==> exists i | 0 <= i < |options| :: options[i] == r.value && forall j | 0 <= j < i :: options[j].id != id by {
        if r.Some? {
          var i :| 0 <= i < |options[1..]| && options[1..][i] == r.value && forall j | 0 <= j < i :: options[1..][j].id != id;
          assert options[i + 1] == r.value;
          forall j | 0 <= j < i + 1 ensures options[j].id != id {
            if j > 0 { assert options[j] == options[1..][j - 1]; }
          }
        }
      }
      r
  }

  /** What one group adds for an option id at the given multiplier: its matching option's price, or nothing. */
  function GroupCharge(group: AddonGroup, id: OptionId, multiplier: int): int {
    match FindOption(group.options, id)
    case Some(option) => option.price * multiplier
    case None => 0
  }

  /** The inner `addonsData.forEach`: what one option id adds, summed over every group that offers it. */
  function OptionCharge(groups: seq<AddonGroup>, id: OptionId, multiplier: int): int
    decreases |groups|
  {
    if groups == [] then 0
    else OptionCharge(groups[..|groups| - 1], id, multiplier) + GroupCharge(groups[|groups| - 1], id, multiplier)
  }

  /** The middle `optionIds.forEach`: what one group's chosen ids add. */
  function ListCharge(groups: seq<AddonGroup>, ids: seq<OptionId>, multiplier: int): int
    decreases |ids|
  {
    if ids == [] then 0
    else ListCharge(groups, ids[..|ids| - 1], multiplier) + OptionCharge(groups, ids[|ids| - 1], multiplier)
  }

  /** Some key of a non-empty key set. */
  lemma PickKey(keys: set<GroupId>) returns (x: GroupId)
    requires keys != {}
    ensures x in keys
  {
    if forall k :: k !in keys {
      assert false;
    }
    x :| x in keys;
  }

  /** A largest key of a non-empty key set exists. */
  lemma {:induction false} LargestKeyExists(keys: set<GroupId>)
    requires keys != {}
    ensures exists k :: k in keys && forall j | j in keys :: j <= k
    decreases keys
  {
    var x := PickKey(keys);
    if keys != {x} {
      LargestKeyExists(keys - {x});
      var m :| m in keys - {x} && forall j | j in keys - {x} :: j <= m;
      var k := if x <= m then m else x;
      forall j | j in keys ensures j <= k {
        if j != x { assert j in keys - {x}; }
      }
    } else {
      assert forall j | j in keys :: j <= x;
    }
  }

  lemma {:induction false} SmallestKeyExists(keys: set<GroupId>)
    requires keys != {}
    ensures exists k :: k in keys && forall j | j in keys :: k <= j
    decreases keys
  {
    var x := PickKey(keys);
    if keys != {x} {
      SmallestKeyExists(keys - {x});
      var m :| m in keys - {x} && forall j | j in keys - {x} :: m <= j;
      var k := if m <= x then m else x;
      forall j | j in keys ensures k <= j {
        if j != x { assert j in keys - {x}; }
      }
    } else {
      assert forall j | j in keys :: x <= j;
    }
  }

  function LargestKey(keys: set<GroupId>): (k: GroupId)
    requires keys != {}
    ensures k in keys && forall j | j in keys :: j <= k
  {
    LargestKeyExists(keys);
    var k :| k in keys && forall j | j in keys :: j <= k; k
  }

  /** The first of the keys in `Object.values` order, which for integer-like keys is ascending. */
  function SmallestKey(keys: set<GroupId>): (k: GroupId)
    requires keys != {}
    ensures k in keys && forall j | j in keys :: k <= j
  {
    SmallestKeyExists(keys);
    var k :| k in keys && forall j | j in keys :: k <= j; k
  }

  /**
   * The outer `Object.values(selectedAddons).forEach`: what the whole
   * selection adds, group by group in ascending key order (the last group
   * is the one with the largest key).
   */
  function SelectionCharge(groups: seq<AddonGroup>, sel: Selection, multiplier: int): int
    decreases sel.Keys
  {
    if sel == map[] then 0
    else
      var last := LargestKey(sel.Keys);
      SelectionCharge(groups, sel - {last}, multiplier) + ListCharge(groups, sel[last], multiplier)
  }

  /** `calculateTotalPrice`: 0 without a product, else the base price and every chosen surcharge, each times the quantity. */
  function TotalPrice(product: Option<Product>, quantity: int, sel: Selection, groups: seq<AddonGroup>): int {
    match product
    case None => 0
    case Some(p) => p.price * quantity + SelectionCharge(groups, sel, quantity)
  }

  /** The price of one unit: the base price plus the surcharges of the chosen options. */
  function UnitPrice(p: Product, sel: Selection, groups: seq<AddonGroup>): int {
    p.price + SelectionCharge(groups, sel, 1)
  }

  lemma Distribute(q: int, a: int, b: int)
    ensures q * a + q * b == q * (a + b)
  {
  }

  lemma GroupChargeLinear(group: AddonGroup, id: OptionId, q: int)
    ensures GroupCharge(group, id, q) == q * GroupCharge(group, id, 1)
  {
    match FindOption(group.options, id)
    case Some(option) =>
      assert GroupCharge(group, id, q) == option.price * q;
    case None =>
  }

  lemma {:induction false} OptionChargeLinear(groups: seq<AddonGroup>, id: OptionId, q: int)
    ensures OptionCharge(groups, id, q) == q * OptionCharge(groups, id, 1)
    decreases |groups|
  {
    if groups != [] {
      var init, g := groups[..|groups| - 1], groups[|groups| - 1];
      assert groups[..|groups| - 1] == init;
      OptionChargeLinear(init, id, q);
      GroupChargeLinear(g, id, q);
      Distribute(q, OptionCharge(init, id, 1), GroupCharge(g, id, 1));
    }
  }

  lemma {:induction false} ListChargeLinear(groups: seq<AddonGroup>, ids: seq<OptionId>, q: int)
    ensures ListCharge(groups, ids, q) == q * ListCharge(groups, ids, 1)
    decreases |ids|
  {
    if ids != [] {
      var init, id := ids[..|ids| - 1], ids[|ids| - 1];
      ListChargeLinear(groups, init, q);
      OptionChargeLinear(groups, id, q);
      Distribute(q, ListCharge(groups, init, 1), OptionCharge(groups, id, 1));
    }
  }

  /** Charging each option at quantity `q` is charging the whole selection once, `q` times. */
  lemma {:induction false} SelectionChargeLinear(groups: seq<AddonGroup>, sel: Selection, q: int)
    ensures SelectionCharge(groups, sel, q) == q * SelectionCharge(groups, sel, 1)
    decreases sel.Keys
  {
    if sel != map[] {
      var last := LargestKey(sel.Keys);
      SelectionChargeLinear(groups, sel - {last}, q);
      ListChargeLinear(groups, sel[last], q);
      Distribute(q, SelectionCharge(groups, sel - {last}, 1), ListCharge(groups, sel[last], 1));
    }
  }

  /** The total is the quantity times the unit price, so a line's total can be recomputed from its quantity. */
  lemma TotalIsQuantityTimesUnitPrice(p: Product, quantity: int, sel: Selection, groups: seq<AddonGroup>)
    ensures TotalPrice(Some(p), quantity, sel, groups) == quantity * UnitPrice(p, sel, groups)
  {
    SelectionChargeLinear(groups, sel, quantity);
    assert p.price * quantity == quantity * p.price;
    Distribute(quantity, p.price, SelectionCharge(groups, sel, 1));
  }

  /** With nothing chosen the total is the base price times the quantity. */
  lemma EmptySelectionCostsBasePrice(p: Product, quantity: int, groups: seq<AddonGroup>)
    ensures TotalPrice(Some(p), quantity, map[], groups) == p.price * quantity
  {
  }

  /** An option id that no group offers adds nothing. */
  lemma {:induction false} UnknownOptionAddsNothing(groups: seq<AddonGroup>, id: OptionId, q: int)
    requires forall g, o | g in groups && o in g.options :: o.id != id
    ensures OptionCharge(groups, id, q) == 0
    decreases |groups|
  {
    if groups != [] {
      var init := groups[..|groups| - 1];
      assert forall g | g in init :: g in groups;
      UnknownOptionAddsNothing(init, id, q);
    }
  }

  /** With non-negative prices and quantity, no total is negative. */
  lemma {:induction false} TotalNonNegative(product: Option<Product>, quantity: nat, sel: Selection, groups: seq<AddonGroup>)
    requires product.Some? ==> product.value.price >= 0
    requires forall g, o | g in groups && o in g.options :: o.price >= 0
    ensures TotalPrice(product, quantity, sel, groups) >= 0
  {
    if product.Some? {
      SelectionChargeNonNegative(groups, sel, quantity);
    }
  }

  lemma {:induction false} SelectionChargeNonNegative(groups: seq<AddonGroup>, sel: Selection, q: nat)
    requires forall g, o | g in groups && o in g.options :: o.price >= 0
    ensures SelectionCharge(groups, sel, q) >= 0
    decreases sel.Keys
  {
    if sel != map[] {
      var last := LargestKey(sel.Keys);
      SelectionChargeNonNegative(groups, sel - {last}, q);
      ListChargeNonNegative(groups, sel[last], q);
    }
  }

  lemma {:induction false} ListChargeNonNegative(groups: seq<AddonGroup>, ids: seq<OptionId>, q: nat)
    requires forall g, o | g in groups && o in g.options :: o.price >= 0
    ensures ListCharge(groups, ids, q) >= 0
    decreases |ids|
  {
    if ids != [] {
      ListChargeNonNegative(groups, ids[..|ids| - 1], q);
      OptionChargeNonNegative(groups, ids[|ids| - 1], q);
    }
  }

  lemma {:induction false} OptionChargeNonNegative(groups: seq<AddonGroup>, id: OptionId, q: nat)
    requires forall g, o | g in groups && o in g.options :: o.price >= 0
    ensures OptionCharge(groups, id, q) >= 0
    decreases |groups|
  {
    if groups != [] {
      var init, g := groups[..|groups| - 1], groups[|groups| - 1];
      assert forall h | h in init :: h in groups;
      OptionChargeNonNegative(init, id, q);
      GroupChargeNonNegative(g, id, q);
    }
  }

  lemma GroupChargeNonNegative(group: AddonGroup, id: OptionId, q: nat)
    requires forall o | o in group.options :: o.price >= 0
    ensures GroupCharge(group, id, q) >= 0
  {
    match FindOption(group.options, id)
    case Some(option) =>
      assert option.price >= 0;
    case None =>
  }

  /** Base price 50, quantity 2 and one chosen option of price 10 cost (50 + 10) * 2 = 120. */
  lemma WorkedExample()
    ensures TotalPrice(Some(Product(1, "meal", 50, true)), 2, map[3 := [7]],
                       [AddonGroup(3, "extras", "multiple", false, [AddonOption(7, "cheese", 10)])]) == 120
  {
    var groups := [AddonGroup(3, "extras", "multiple", false, [AddonOption(7, "cheese", 10)])];
    var sel: Selection := map[3 := [7]];
    assert LargestKey(sel.Keys) == 3;
    assert sel - {3} == map[];
    assert [7][..0] == [];
    assert groups[..0] == [];
    assert OptionCharge(groups, 7, 2) == 20;
    assert ListCharge(groups, [7], 2) == 20;
  }

  /**
   * The three nested `forEach` loops of `calculateTotalPrice` (and of the
   * `reduce` that recomputes a merged cart line): groups in ascending key
   * order, each group's ids in order, every add-on group for each id.
   */
  method SelectionChargeOf(groups: seq<AddonGroup>, sel: Selection, multiplier: int) returns (charge: int)
    ensures charge == SelectionCharge(groups, sel, multiplier)
  {
    charge := 0;
    var rest := sel;
    ghost var done: Selection := map[];
    while rest != map[]
      invariant rest.Keys !! done.Keys
      invariant forall g | g in sel :: g in done || g in rest
      invariant forall g | g in done :: g in sel && done[g] == sel[g]
      invariant forall g | g in rest :: g in sel && rest[g] == sel[g]
      invariant forall d, r | d in done && r in rest :: d < r
      invariant charge == SelectionCharge(groups, done, multiplier)
      decreases rest.Keys
    {
      var key := SmallestKey(rest.Keys);
      var optionIds := rest[key];
      var add := ListChargeOf(groups, optionIds, multiplier);
      charge := charge + add;
      AppendLargerKey(groups, done, key, optionIds, multiplier);
      done := done[key := optionIds];
      rest := rest - {key};
    }
    forall g | g in sel ensures g in done {
      assert g !in rest;
    }
    assert done.Keys == sel.Keys;
    assert done == sel;
  }

  /** The middle loop: every chosen id of one group, in order. */
  method ListChargeOf(groups: seq<AddonGroup>, ids: seq<OptionId>, multiplier: int) returns (charge: int)
    ensures charge == ListCharge(groups, ids, multiplier)
  {
    charge := 0;
    for i := 0 to |ids|
      invariant charge == ListCharge(groups, ids[..i], multiplier)
    {
      assert ids[..i + 1][..i] == ids[..i];
      var add := OptionChargeOf(groups, ids[i], multiplier);
      charge := charge + add;
    }
    assert ids[..|ids|] == ids;
  }

  /** The inner loop: every group that offers the id adds its option's price. */
  method OptionChargeOf(groups: seq<AddonGroup>, id: OptionId, multiplier: int) returns (charge: int)
    ensures charge == OptionCharge(groups, id, multiplier)
  {
    charge := 0;
    for j := 0 to |groups|
      invariant charge == OptionCharge(groups[..j], id, multiplier)
    {
      assert groups[..j + 1][..j] == groups[..j];
      var option := FindOption(groups[j].options, id);
      if option.Some? {
        charge := charge + option.value.price * multiplier;
      }
    }
    assert groups[..|groups|] == groups;
  }

  /** Adding a group whose key is above every present key adds that group's charge last. */
  lemma AppendLargerKey(groups: seq<AddonGroup>, done: Selection, key: GroupId, ids: seq<OptionId>, multiplier: int)
    requires forall d | d in done :: d < key
    ensures SelectionCharge(groups, done[key := ids], multiplier) == SelectionCharge(groups, done, multiplier) + ListCharge(groups, ids, multiplier)
  {
    var m := done[key := ids];
    var last := LargestKey(m.Keys);
    assert key in m.Keys && key <= last;
    assert last == key || last in done;
    assert m - {key} == done;
  }

  /** `calculateTotalPrice`, with its running `total`. */
  method CalculateTotalPrice(product: Option<Product>, quantity: int, sel: Selection, groups: seq<AddonGroup>) returns (total: int)
    ensures total == TotalPrice(product, quantity, sel, groups)
    ensures product.Some? ==> total == quantity * UnitPrice(product.value, sel, groups)
  {
    if product.None? {
      return 0;
    }
    var surcharges := SelectionChargeOf(groups, sel, quantity);
    total := product.value.price * quantity + surcharges;
    TotalIsQuantityTimesUnitPrice(product.value, quantity, sel, groups);
  }
}
