/**
 * The home page's product list and quick-add cart. Every handler replaces
 * a whole list with a new one built by `map`, `filter` or a spread, so each
 * is a function from the old list to the new one.
 */
module Home {
  import opened Seqs
  import opened Text

  /** A product of the menu as the home page keeps it; `ingredients` is what its search looks into. */
  datatype Product = Product(id: int, name: string, description: string, ingredients: seq<string>, price: int, isActive: bool)

  /** A cart entry: the product's fields spread into the line, plus a quantity. */
  datatype CartItem = CartItem(product: Product, quantity: int)

  function ItemQuantity(item: CartItem): int {
    item.quantity
  }

  /** The badge on the cart button: `cart.reduce((total, item) => total + item.quantity, 0)`. */
  function CartCount(cart: seq<CartItem>): (r: int)
    ensures cart == [] ==> r == 0
    ensures (forall i | 0 <= i < |cart| :: cart[i].quantity >= 1) ==> r >= |cart|
  {
    SumOf(cart, ItemQuantity)
  }

  predicate HasLine(cart: seq<CartItem>, id: int) {
    exists i :: 0 <= i < |cart| && cart[i].product.id == id
  }

  ghost predicate UniqueIds(cart: seq<CartItem>) {
    forall i, j :: 0 <= i < j < |cart| ==> cart[i].product.id != cart[j].product.id
  }

  /** One more of every line with the given product id; other lines as they are. */
  function BumpLine(id: int): CartItem -> CartItem {
    (item: CartItem) => if item.product.id == id then item.(quantity := item.quantity + 1) else item
  }

  /**
   * `handleAddToCart(product)`: an inactive product is refused; a product
   * already in the cart gets one more; any other is appended with quantity 1.
   */
  function QuickAdd(cart: seq<CartItem>, p: Product): (r: seq<CartItem>)
    ensures !p.isActive ==> r == cart
    ensures |r| == |cart| + (if p.isActive && !HasLine(cart, p.id) then 1 else 0)
    ensures forall i | 0 <= i < |cart| :: r[i].product == cart[i].product
    ensures HasLine(r, p.id) <==> p.isActive || HasLine(cart, p.id)
  {
    if !p.isActive then cart
    else if HasLine(cart, p.id) then Map(cart, BumpLine(p.id))
    else
      var r := cart + [CartItem(p, 1)];
      assert r[|cart|].product == p;
      r
  }

  /** An inactive product never enters the cart. */
  lemma InactiveNotAdded(cart: seq<CartItem>, p: Product)
    requires !p.isActive
    ensures QuickAdd(cart, p) == cart
    ensures CartCount(QuickAdd(cart, p)) == CartCount(cart)
  {
  }

  /** With the product's line at index k, only that line changes, and only its quantity, by one. */
  lemma QuickAddBumpsOnlyItsLine(cart: seq<CartItem>, p: Product, k: nat)
    requires UniqueIds(cart)
    requires p.isActive && k < |cart| && cart[k].product.id == p.id
    ensures QuickAdd(cart, p) == cart[k := cart[k].(quantity := cart[k].quantity + 1)]
  {
    var r := QuickAdd(cart, p);
    var e := cart[k := cart[k].(quantity := cart[k].quantity + 1)];
    assert |r| == |e|;
    forall i | 0 <= i < |r| ensures r[i] == e[i] {
      if i != k {
        assert cart[i].product.id != p.id by {
          if i < k { assert cart[i].product.id != cart[k].product.id; }
          else { assert cart[k].product.id != cart[i].product.id; }
        }
      }
    }
  }

  /** A product not yet in the cart is appended at the end with quantity 1. */
  lemma QuickAddAppendsNewLine(cart: seq<CartItem>, p: Product)
    requires p.isActive
    requires forall i | 0 <= i < |cart| :: cart[i].product.id != p.id
    ensures QuickAdd(cart, p) == cart + [CartItem(p, 1)]
  {
  }

  /** Each accepted add raises the item count by exactly one, and ids stay unique. */
  lemma QuickAddCountsOne(cart: seq<CartItem>, p: Product)
    requires UniqueIds(cart) && p.isActive
    ensures CartCount(QuickAdd(cart, p)) == CartCount(cart) + 1
    ensures UniqueIds(QuickAdd(cart, p))
  {
    if HasLine(cart, p.id) {
      var k :| 0 <= k < |cart| && cart[k].product.id == p.id;
      QuickAddBumpsOnlyItsLine(cart, p, k);
      SumOfUpdate(cart, k, cart[k].(quantity := cart[k].quantity + 1), ItemQuantity);
    } else {
      SumOfSnoc(cart, CartItem(p, 1), ItemQuantity);
    }
  }

  // ----- Search -----

  predicate IngredientMatches(ingredients: seq<string>, term: string) {
    exists k :: 0 <= k < |ingredients| && Contains(Lower(ingredients[k]), Lower(term))
  }

  /** The search test: the lower-cased name, description or any ingredient contains the lower-cased term. */
  predicate Matches(p: Product, term: string) {
    || Contains(Lower(p.name), Lower(term))
    || Contains(Lower(p.description), Lower(term))
    || IngredientMatches(p.ingredients, term)
  }

  function MatchesTerm(term: string): Product -> bool {
    (p: Product) => Matches(p, term)
  }

  /**
   * The search effect: an empty term shows every product; any other term
   * shows, in their order, exactly the products that match it.
   */
  function SearchProducts(products: seq<Product>, term: string): (r: seq<Product>)
    ensures term == "" ==> r == products
    ensures IsSubsequence(r, products)
    ensures forall p | p in r :: Matches(p, term)
    ensures forall p | p in products && Matches(p, term) :: p in r
    ensures forall p {:trigger multiset(r)[p]} | p in products && Matches(p, term) :: multiset(r)[p] == multiset(products)[p]
  {
    if term == "" then
      EmptyTermMatchesAll(products);
      products
    else Filter(products, MatchesTerm(term))
  }

  /** The empty-term shortcut agrees with the filter: every product contains the empty term. */
  lemma EmptyTermMatchesAll(products: seq<Product>)
    ensures Filter(products, MatchesTerm("")) == products
    ensures forall p | p in products :: Matches(p, "")
  {
    forall p | p in products ensures Matches(p, "") {
      ContainsEmpty(Lower(p.name));
    }
    FilterKeepsAll(products, MatchesTerm(""));
  }

  /** Searching the search's result again changes nothing. */
  lemma SearchIdempotent(products: seq<Product>, term: string)
    ensures SearchProducts(SearchProducts(products, term), term) == SearchProducts(products, term)
  {
    if term != "" {
      FilterIdempotent(products, MatchesTerm(term));
    }
  }

  // ----- Status and deletion -----

  /** `product.id === productId ? { ...product, isActive: !product.isActive } : product`. */
  function FlipActive(id: int): Product -> Product {
    (p: Product) => if p.id == id then p.(isActive := !p.isActive) else p
  }

  /**
   * `handleToggleActive`'s list update: the products with the id have
   * `isActive` flipped, and nothing else about any product changes.
   */
  function ToggleActive(products: seq<Product>, id: int): (r: seq<Product>)
    ensures |r| == |products|
    ensures forall i | 0 <= i < |r| :: r[i].isActive != products[i].isActive <==> products[i].id == id
    ensures forall i | 0 <= i < |r| :: r[i].(isActive := products[i].isActive) == products[i]
  {
    Map(products, FlipActive(id))
  }

  /** Toggling the same product twice gives back the list. */
  lemma ToggleActiveTwice(products: seq<Product>, id: int)
    ensures ToggleActive(ToggleActive(products, id), id) == products
  {
    var r := ToggleActive(ToggleActive(products, id), id);
    forall i | 0 <= i < |r| ensures r[i] == products[i] {
      assert r[i].(isActive := products[i].isActive) == products[i];
    }
  }

  /**
   * The page flips the product in both `products` and `filteredProducts`;
   * flipping the shown list gives what searching the flipped list would,
   * because the search never looks at `isActive`.
   */
  lemma ToggleKeepsSearchConsistent(products: seq<Product>, id: int, term: string)
    ensures ToggleActive(SearchProducts(products, term), id) == SearchProducts(ToggleActive(products, id), term)
  {
    if term != "" {
      forall p ensures MatchesTerm(term)(FlipActive(id)(p)) == MatchesTerm(term)(p) {
        var q := FlipActive(id)(p);
        assert q.name == p.name && q.description == p.description && q.ingredients == p.ingredients;
      }
      FilterMapCommute(products, FlipActive(id), MatchesTerm(term));
    }
  }

  function IdIsNot(id: int): Product -> bool {
    (p: Product) => p.id != id
  }

  /** The local update after a delete: the products with the id are gone, the rest keep their order. */
  function DeleteProduct(products: seq<Product>, id: int): (r: seq<Product>)
    ensures IsSubsequence(r, products)
    ensures forall p | p in r :: p.id != id
    ensures forall p | p in products && p.id != id :: p in r
    ensures forall p {:trigger multiset(r)[p]} | p in products && p.id != id :: multiset(r)[p] == multiset(products)[p]
  {
    Filter(products, IdIsNot(id))
  }

  /** Deleting from the full list and searching again shows what deleting from the shown list would. */
  lemma DeleteKeepsSearchConsistent(products: seq<Product>, id: int, term: string)
    ensures SearchProducts(DeleteProduct(products, id), term) == DeleteProduct(SearchProducts(products, term), id)
  {
    if term != "" {
      FilterCommute(products, IdIsNot(id), MatchesTerm(term));
    }
  }
}
