/**
 * The list actions of the console app (JsonWorker/DataManager.cs,
 * HandleAction): each filter is a `Where` over the product list with
 * the line the user typed, each sort an `OrderBy` or
 * `OrderByDescending` by one field, and the remaining cases choose the
 * next menu.  The user's lines are parameters; the culture-sensitive
 * string order of the name and category sorts is the parameter
 * `textLe`, taken to be a total preorder.
 */
module Manager {
  import opened Common
  import opened Numbers
  import opened Products
  import opened Sequences

  /** The menu actions (Utils/Enums.cs). */
  datatype ActionType =
    | FileInput | ConsoleInput
    | FilterById | FilterByName | FilterByPrice | FilterByReviews | FilterByCategory | FilterByQuantity | FilterByDiscount
    | SortById | SortByName | SortByPrice | SortByReviews | SortByCategory | SortByQuantity
    | SetDiscountTrue | SetDiscountFalse
    | SortByIdAscending | SortByIdDescending
    | SortByNameAlphabetical | SortByNameAlphabeticalReverse
    | SortByPriceAscending | SortByPriceDescending
    | SortByReviewsAscending | SortByReviewsDescending
    | SortByCategoryAscending | SortByCategoryDescending
    | SortByQuantityAscending | SortByQuantityDescending
    | SetInitialData | ShowData | SaveToExistingFile | SaveToNewFile

  /** Which menu (JsonWorker/Templates.cs) the panel shows next, with the two actions of a sort submenu. */
  datatype Menu =
    | InputTypeItems
    | WorkTypeItems
    | DiscountTypeItems
    | SortByNumberItems(sortKey: string, firstType: ActionType, secondType: ActionType)
    | SortByStringItems(sortKey: string, firstType: ActionType, secondType: ActionType)

  /** `s.Contains(sub)` with ordinal comparison: sub occurs somewhere in s. */
  predicate Contains(s: string, sub: string) {
    (|sub| <= |s| && s[..|sub|] == sub) || (s != [] && Contains(s[1..], sub))
  }

  predicate OccursAt(s: string, sub: string, i: nat) {
    i + |sub| <= |s| && s[i..i + |sub|] == sub
  }

  lemma {:induction false} ContainsIff(s: string, sub: string)
    ensures Contains(s, sub) <==> exists i: nat :: OccursAt(s, sub, i)
  {
    if |sub| <= |s| && s[..|sub|] == sub {
      assert OccursAt(s, sub, 0);
    }
    if s != [] {
      ContainsIff(s[1..], sub);
      if exists i: nat :: OccursAt(s[1..], sub, i) {
        var i: nat :| OccursAt(s[1..], sub, i);
        assert s[i + 1..i + 1 + |sub|] == s[1..][i..i + |sub|];
        assert OccursAt(s, sub, i + 1);
      }
      if exists i: nat :: OccursAt(s, sub, i) {
        var i: nat :| OccursAt(s, sub, i);
        if i > 0 {
          assert s[1..][i - 1..i - 1 + |sub|] == s[i..i + |sub|];
          assert OccursAt(s[1..], sub, i - 1);
        }
      }
    } else {
      if exists i: nat :: OccursAt(s, sub, i) {
        var i: nat :| OccursAt(s, sub, i);
        assert |sub| == 0;
      }
    }
  }

  /** Some review contains the text. */
  predicate AnyContains(reviews: seq<string>, text: string) {
    reviews != [] && (Contains(reviews[0], text) || AnyContains(reviews[1..], text))
  }

  lemma {:induction false} AnyContainsIff(reviews: seq<string>, text: string)
    ensures AnyContains(reviews, text) <==> exists k :: 0 <= k < |reviews| && Contains(reviews[k], text)
  {
    if reviews != [] {
      AnyContainsIff(reviews[1..], text);
      if exists k :: 0 <= k < |reviews| && Contains(reviews[k], text) {
        var k :| 0 <= k < |reviews| && Contains(reviews[k], text);
        if k > 0 { assert reviews[1..][k - 1] == reviews[k]; }
      }
    }
  }

  /** The category a category filter asks for: the typed text in double quotes, as the stored text has them. */
  function QuotedInput(input: string): (q: string)
    ensures |q| == |input| + 2 && q[0] == '"' && q[|q| - 1] == '"' && q[1..|q| - 1] == input
  {
    "\"" + input + "\""
  }

  function HasId(id: int): Product -> bool { (p: Product) => p.id == id }
  function NameContains(input: string): Product -> bool { (p: Product) => p.name.Some? && Contains(p.name.value, input) }
  function PriceAtLeast(bound: int): Product -> bool { (p: Product) => p.price >= bound as real }
  function PriceAtMost(bound: int): Product -> bool { (p: Product) => p.price <= bound as real }
  function ReviewContains(input: string): Product -> bool { (p: Product) => p.reviews.Some? && AnyContains(p.reviews.value, input) }
  function InCategory(input: string): Product -> bool { (p: Product) => p.category.Some? && p.category.value == QuotedInput(input) }
  function QuantityAtLeast(bound: int): Product -> bool { (p: Product) => p.quantityInStock >= bound }
  function Discounted(): Product -> bool { (p: Product) => p.isDiscounted }
  function NotDiscounted(): Product -> bool { (p: Product) => !p.isDiscounted }

  /** FilterById: the products with the typed id; the list as it was when the text is not an Int32. */
  function ById(products: seq<Product>, input: string): (r: seq<Product>)
    ensures |r| <= |products|
    ensures TryParseInt(input).Some? ==> forall k :: 0 <= k < |r| ==> r[k].id == TryParseInt(input).value
  {
    match TryParseInt(input)
    case Some(id) => Filter(products, HasId(id))
    case None => products
  }

  /** FilterByName: the products whose name contains the typed text. */
  function ByName(products: seq<Product>, input: string): (r: seq<Product>)
    ensures |r| <= |products|
    ensures forall k :: 0 <= k < |r| ==> r[k].name.Some? && Contains(r[k].name.value, input)
  {
    Filter(products, NameContains(input))
  }

  /** FilterByPrice: first the minimum, then the maximum, each skipped when its line is not an Int32. */
  function ByPrice(products: seq<Product>, minInput: string, maxInput: string): (r: seq<Product>)
    ensures |r| <= |products|
    ensures TryParseInt(maxInput).Some? ==> forall k :: 0 <= k < |r| ==> r[k].price <= TryParseInt(maxInput).value as real
  {
    var atLeast := match TryParseInt(minInput)
      case Some(m) => Filter(products, PriceAtLeast(m))
      case None => products;
    match TryParseInt(maxInput)
    case Some(m) => Filter(atLeast, PriceAtMost(m))
    case None => atLeast
  }

  /** FilterByReviews: the products with a review that contains the typed text. */
  function ByReviews(products: seq<Product>, input: string): (r: seq<Product>)
    ensures |r| <= |products|
    ensures forall k :: 0 <= k < |r| ==> r[k].reviews.Some? && AnyContains(r[k].reviews.value, input)
  {
    Filter(products, ReviewContains(input))
  }

  /** FilterByCategory: the products whose category is the typed text in double quotes. */
  function ByCategory(products: seq<Product>, input: string): (r: seq<Product>)
    ensures |r| <= |products|
    ensures forall k :: 0 <= k < |r| ==> r[k].category == Some(QuotedInput(input))
  {
    Filter(products, InCategory(input))
  }

  /** FilterByQuantity: a minimum only. */
  function ByQuantity(products: seq<Product>, minInput: string): (r: seq<Product>)
    ensures |r| <= |products|
    ensures TryParseInt(minInput).Some? ==> forall k :: 0 <= k < |r| ==> r[k].quantityInStock >= TryParseInt(minInput).value
  {
    match TryParseInt(minInput)
    case Some(m) => Filter(products, QuantityAtLeast(m))
    case None => products
  }

  /** A missing value (null) is below every value, as the default comparer of a nullable key has it. */
  function NullFirst<K>(a: Option<K>, b: Option<K>, le: (K, K) -> bool): bool {
    a.None? || (b.Some? && le(a.value, b.value))
  }

  function ReviewCount(p: Product): Option<int> {
    if p.reviews.Some? then Some(|p.reviews.value|) else None
  }

  function IntLe(): (int, int) -> bool { (a: int, b: int) => a <= b }

  function IdOrder(): (Product, Product) -> bool { (p: Product, q: Product) => p.id <= q.id }
  function NameOrder(textLe: (string, string) -> bool): (Product, Product) -> bool { (p: Product, q: Product) => NullFirst(p.name, q.name, textLe) }
  function PriceOrder(): (Product, Product) -> bool { (p: Product, q: Product) => p.price <= q.price }
  function ReviewsOrder(): (Product, Product) -> bool { (p: Product, q: Product) => NullFirst(ReviewCount(p), ReviewCount(q), IntLe()) }
  function CategoryOrder(textLe: (string, string) -> bool): (Product, Product) -> bool { (p: Product, q: Product) => NullFirst(p.category, q.category, textLe) }
  function QuantityOrder(): (Product, Product) -> bool { (p: Product, q: Product) => p.quantityInStock <= q.quantityInStock }

  /** The sections of HandleAction's switch an action falls in. */
  datatype Section = Initialization | Filtering | Submenus | Sorting | Output | Unhandled

  function SectionOf(action: ActionType): Section {
    match action
    case FileInput | ConsoleInput => Initialization
    case FilterById | FilterByName | FilterByPrice | FilterByReviews | FilterByCategory | FilterByQuantity
      | SetDiscountTrue | SetDiscountFalse => Filtering
    case FilterByDiscount | SortById | SortByName | SortByPrice | SortByReviews | SortByCategory | SortByQuantity => Submenus
    case SortByIdAscending | SortByIdDescending | SortByNameAlphabetical | SortByNameAlphabeticalReverse
      | SortByPriceAscending | SortByPriceDescending | SortByReviewsAscending | SortByReviewsDescending
      | SortByCategoryAscending | SortByCategoryDescending | SortByQuantityAscending | SortByQuantityDescending => Sorting
    case ShowData | SaveToExistingFile | SaveToNewFile => Output
    case SetInitialData => Unhandled
  }

  /** The sort actions: OrderBy or OrderByDescending by one field. */
  predicate IsSort(action: ActionType) { SectionOf(action) == Sorting }

  /** The filter actions, the two discount choices among them. */
  predicate IsFilter(action: ActionType) { SectionOf(action) == Filtering }

  /** The order a sort action puts the products in: OrderByDescending is OrderBy by the reverse order. */
  function KeyOrder(action: ActionType, textLe: (string, string) -> bool): (Product, Product) -> bool
    requires IsSort(action)
  {
    match action
    case SortByIdAscending => IdOrder()
    case SortByIdDescending => Flip(IdOrder())
    case SortByNameAlphabetical => NameOrder(textLe)
    case SortByNameAlphabeticalReverse => Flip(NameOrder(textLe))
    case SortByPriceAscending => PriceOrder()
    case SortByPriceDescending => Flip(PriceOrder())
    case SortByReviewsAscending => ReviewsOrder()
    case SortByReviewsDescending => Flip(ReviewsOrder())
    case SortByCategoryAscending => CategoryOrder(textLe)
    case SortByCategoryDescending => Flip(CategoryOrder(textLe))
    case SortByQuantityAscending => QuantityOrder()
    case SortByQuantityDescending => Flip(QuantityOrder())
  }

  /** The list actions HandleAction takes; the input, show and save actions are console and file I/O. */
  predicate IsListAction(action: ActionType) {
    SectionOf(action) != Initialization && SectionOf(action) != Output
  }

  /** The actions that open a submenu (the discount choice and the six sort submenus). */
  predicate IsMenuChoice(action: ActionType) { SectionOf(action) == Submenus }

  /**
   * The product list after a filter action; `firstInput` and `secondInput`
   * are the lines the user typed (only FilterByPrice reads the second).
   */
  function Filtered(products: seq<Product>, action: ActionType, firstInput: string, secondInput: string): seq<Product>
    requires IsFilter(action)
  {
    match action
    case FilterById => ById(products, firstInput)
    case FilterByName => ByName(products, firstInput)
    case FilterByPrice => ByPrice(products, firstInput, secondInput)
    case FilterByReviews => ByReviews(products, firstInput)
    case FilterByCategory => ByCategory(products, firstInput)
    case FilterByQuantity => ByQuantity(products, firstInput)
    case SetDiscountTrue => Filter(products, Discounted())
    case SetDiscountFalse => Filter(products, NotDiscounted())
  }

  /** The product list after a list action: filtered, sorted, or as it was. */
  function Apply(products: seq<Product>, action: ActionType, firstInput: string, secondInput: string,
                 textLe: (string, string) -> bool): (r: seq<Product>)
    requires IsListAction(action)
    ensures |r| <= |products|
    ensures IsSort(action) ==> multiset(r) == multiset(products)
    ensures !IsFilter(action) && !IsSort(action) ==> r == products
  {
    match SectionOf(action)
    case Filtering => Filtered(products, action, firstInput, secondInput)
    case Sorting => SortBy(products, KeyOrder(action, textLe))
    case _ => products
  }

  /** The submenu a menu choice opens, with the sort key in its title and its two actions. */
  function Submenu(action: ActionType): Menu
    requires IsMenuChoice(action)
  {
    match action
    case FilterByDiscount => DiscountTypeItems
    case SortById => SortByNumberItems("Id", SortByIdAscending, SortByIdDescending)
    case SortByName => SortByStringItems("Name", SortByNameAlphabetical, SortByNameAlphabeticalReverse)
    case SortByPrice => SortByNumberItems("Price", SortByPriceAscending, SortByIdDescending)
    case SortByReviews => SortByNumberItems("Reviews count", SortByReviewsAscending, SortByReviewsDescending)
    case SortByCategory => SortByStringItems("Category", SortByCategoryAscending, SortByCategoryDescending)
    case SortByQuantity => SortByNumberItems("Product quantity", SortByQuantityAscending, SortByQuantityDescending)
  }

  /**
   * The menu after a list action: a menu choice opens its submenu, a
   * sort or a discount choice returns to the work menu, and the text
   * filters (and SetInitialData, which has no case and throws) leave it.
   */
  function NextMenu(action: ActionType, groups: Menu): (menu: Menu)
    requires IsListAction(action)
    ensures menu != groups ==> IsSort(action) || IsMenuChoice(action) || action.SetDiscountTrue? || action.SetDiscountFalse?
    ensures IsSort(action) ==> menu == WorkTypeItems
  {
    match SectionOf(action)
    case Submenus => Submenu(action)
    case Sorting => WorkTypeItems
    case Filtering => if action.SetDiscountTrue? || action.SetDiscountFalse? then WorkTypeItems else groups
    case _ => groups
  }

  // ---------------------------------------------------------------- filters

  /** FilterById keeps exactly the products with the typed id, in order; unparsable text keeps everything. */
  lemma ByIdKeeps(products: seq<Product>, input: string, p: Product)
    ensures TryParseInt(input).None? ==> ById(products, input) == products
    ensures TryParseInt(input).Some? ==>
      (p in ById(products, input) <==> p in products && p.id == TryParseInt(input).value)
    ensures IsSubsequence(ById(products, input), products)
  {
    if TryParseInt(input).Some? {
      FilterMembers(products, HasId(TryParseInt(input).value), p);
      FilterIsSubsequence(products, HasId(TryParseInt(input).value));
    } else {
      SubsequenceOfItself(products);
    }
  }

  lemma {:induction false} SubsequenceOfItself<T>(xs: seq<T>)
    ensures IsSubsequence(xs, xs)
  {
    if xs != [] {
      SubsequenceOfItself(xs[1..]);
    }
  }

  /** FilterByName keeps the products whose name is there and contains the text. */
  lemma ByNameKeeps(products: seq<Product>, input: string, p: Product)
    ensures p in ByName(products, input) <==>
      p in products && p.name.Some? && exists i: nat :: OccursAt(p.name.value, input, i)
  {
    FilterMembers(products, NameContains(input), p);
    if p.name.Some? {
      ContainsIff(p.name.value, input);
    }
  }

  /** FilterByReviews keeps the products with a review list in which some review contains the text. */
  lemma ByReviewsKeeps(products: seq<Product>, input: string, p: Product)
    ensures p in ByReviews(products, input) <==>
      p in products && p.reviews.Some? && exists k :: 0 <= k < |p.reviews.value| && Contains(p.reviews.value[k], input)
  {
    FilterMembers(products, ReviewContains(input), p);
    if p.reviews.Some? {
      AnyContainsIff(p.reviews.value, input);
    }
  }

  /** FilterByCategory keeps the products whose category is the typed text in quotes. */
  lemma ByCategoryKeeps(products: seq<Product>, input: string, p: Product)
    ensures p in ByCategory(products, input) <==> p in products && p.category == Some("\"" + input + "\"")
  {
    FilterMembers(products, InCategory(input), p);
  }

  /** A price filter with both bounds is one filter by the price range; with one bound, a filter by that bound. */
  lemma ByPriceBounds(products: seq<Product>, minInput: string, maxInput: string, p: Product)
    ensures var lo, hi := TryParseInt(minInput), TryParseInt(maxInput);
      p in ByPrice(products, minInput, maxInput) <==>
        p in products && (lo.Some? ==> p.price >= lo.value as real) && (hi.Some? ==> p.price <= hi.value as real)
  {
    var lo, hi := TryParseInt(minInput), TryParseInt(maxInput);
    var atLeast := if lo.Some? then Filter(products, PriceAtLeast(lo.value)) else products;
    if lo.Some? {
      FilterMembers(products, PriceAtLeast(lo.value), p);
    }
    if hi.Some? {
      FilterMembers(atLeast, PriceAtMost(hi.value), p);
    }
  }

  /** FilterByQuantity keeps the products with at least the typed quantity; unparsable text keeps everything. */
  lemma ByQuantityKeeps(products: seq<Product>, minInput: string, p: Product)
    ensures TryParseInt(minInput).None? ==> ByQuantity(products, minInput) == products
    ensures TryParseInt(minInput).Some? ==>
      (p in ByQuantity(products, minInput) <==> p in products && p.quantityInStock >= TryParseInt(minInput).value)
  {
    if TryParseInt(minInput).Some? {
      FilterMembers(products, QuantityAtLeast(TryParseInt(minInput).value), p);
    }
  }

  /** The two discount choices split the list: every product is kept by exactly one of them. */
  lemma DiscountSplits(products: seq<Product>, firstInput: string, secondInput: string, textLe: (string, string) -> bool)
    ensures var yes, no := Apply(products, SetDiscountTrue, firstInput, secondInput, textLe),
                           Apply(products, SetDiscountFalse, firstInput, secondInput, textLe);
      && multiset(yes) + multiset(no) == multiset(products)
      && (forall p :: p in yes ==> p.isDiscounted)
      && (forall p :: p in no ==> !p.isDiscounted)
  {
    assert SectionOf(SetDiscountTrue) == Filtering && SectionOf(SetDiscountFalse) == Filtering;
    var yes, no := Filter(products, Discounted()), Filter(products, NotDiscounted());
    assert Apply(products, SetDiscountTrue, firstInput, secondInput, textLe) == yes;
    assert Apply(products, SetDiscountFalse, firstInput, secondInput, textLe) == no;
    FilterSplits(products, Discounted(), NotDiscounted());
    forall p | p in yes ensures p.isDiscounted {
      FilterMembers(products, Discounted(), p);
    }
    forall p | p in no ensures !p.isDiscounted {
      FilterMembers(products, NotDiscounted(), p);
    }
  }

  /** A filter, with any typed text that parses or not, whose test is `keep`. */
  lemma {:induction false} FilterOrKeep(products: seq<Product>, keep: Option<Product -> bool>)
    ensures var r := if keep.Some? then Filter(products, keep.value) else products;
      IsSubsequence(r, products)
      && (if keep.Some? then Filter(r, keep.value) else r) == r
  {
    if keep.Some? {
      FilterIsSubsequence(products, keep.value);
      FilterIdempotent(products, keep.value);
    } else {
      SubsequenceOfItself(products);
    }
  }

  /** The price is within every bound whose line parsed. */
  predicate PriceInRange(q: Product, minInput: string, maxInput: string) {
    && (TryParseInt(minInput).Some? ==> q.price >= TryParseInt(minInput).value as real)
    && (TryParseInt(maxInput).Some? ==> q.price <= TryParseInt(maxInput).value as real)
  }

  /** The one test the two price filters amount to; None when neither line parsed. */
  function PriceRange(minInput: string, maxInput: string): Option<Product -> bool> {
    var lo, hi := TryParseInt(minInput), TryParseInt(maxInput);
    if lo.Some? && hi.Some? then Some((q: Product) => q.price >= lo.value as real && q.price <= hi.value as real)
    else if lo.Some? then Some(PriceAtLeast(lo.value))
    else if hi.Some? then Some(PriceAtMost(hi.value))
    else None
  }

  /** The price filter is the single filter by the bounds that parsed. */
  lemma ByPriceIsOneFilter(products: seq<Product>, minInput: string, maxInput: string)
    ensures var keep := PriceRange(minInput, maxInput);
      && ByPrice(products, minInput, maxInput) == (if keep.Some? then Filter(products, keep.value) else products)
      && forall q :: keep.Some? ==> (keep.value(q) == PriceInRange(q, minInput, maxInput))
  {
    var lo, hi := TryParseInt(minInput), TryParseInt(maxInput);
    if lo.Some? && hi.Some? {
      FilterTwice(products, PriceAtLeast(lo.value), PriceAtMost(hi.value), PriceRange(minInput, maxInput).value);
    }
  }

  /**
   * Every filter action returns an order-preserving subsequence of the
   * list, and running it again with the same text returns the same list.
   */
  lemma FiltersShrinkOnce(products: seq<Product>, action: ActionType, firstInput: string, secondInput: string,
                          textLe: (string, string) -> bool)
    requires IsFilter(action)
    ensures var r := Apply(products, action, firstInput, secondInput, textLe);
      IsSubsequence(r, products) && Apply(r, action, firstInput, secondInput, textLe) == r
  {
    var r := Apply(products, action, firstInput, secondInput, textLe);
    match action
    case FilterById =>
      var id := TryParseInt(firstInput);
      FilterOrKeep(products, if id.Some? then Some(HasId(id.value)) else None);
    case FilterByName => FilterOrKeep(products, Some(NameContains(firstInput)));
    case FilterByPrice =>
      ByPriceIsOneFilter(products, firstInput, secondInput);
      ByPriceIsOneFilter(r, firstInput, secondInput);
      FilterOrKeep(products, PriceRange(firstInput, secondInput));
    case FilterByReviews => FilterOrKeep(products, Some(ReviewContains(firstInput)));
    case FilterByCategory => FilterOrKeep(products, Some(InCategory(firstInput)));
    case FilterByQuantity =>
      var m := TryParseInt(firstInput);
      FilterOrKeep(products, if m.Some? then Some(QuantityAtLeast(m.value)) else None);
    case SetDiscountTrue => FilterOrKeep(products, Some(Discounted()));
    case SetDiscountFalse => FilterOrKeep(products, Some(NotDiscounted()));
  }

  // ---------------------------------------------------------------- sorts

  lemma NullFirstIsTotalPreorder<K(!new)>(le: (K, K) -> bool, order: (Product, Product) -> bool, key: Product -> Option<K>)
    requires TotalPreorder(le)
    requires forall p, q :: order(p, q) == NullFirst(key(p), key(q), le)
    ensures TotalPreorder(order)
  {
  }

  /** Every key order is a total preorder, given that the text order is one. */
  lemma KeyOrderIsTotalPreorder(action: ActionType, textLe: (string, string) -> bool)
    requires IsSort(action) && TotalPreorder(textLe)
    ensures TotalPreorder(KeyOrder(action, textLe))
  {
    assert TotalPreorder(IdOrder()) && TotalPreorder(PriceOrder()) && TotalPreorder(QuantityOrder());
    NullFirstIsTotalPreorder(textLe, NameOrder(textLe), (p: Product) => p.name);
    NullFirstIsTotalPreorder(textLe, CategoryOrder(textLe), (p: Product) => p.category);
    assert TotalPreorder(IntLe());
    NullFirstIsTotalPreorder(IntLe(), ReviewsOrder(), ReviewCount);
    FlipIsTotalPreorder(IdOrder());
    FlipIsTotalPreorder(NameOrder(textLe));
    FlipIsTotalPreorder(PriceOrder());
    FlipIsTotalPreorder(ReviewsOrder());
    FlipIsTotalPreorder(CategoryOrder(textLe));
    FlipIsTotalPreorder(QuantityOrder());
  }

  /**
   * Every sort action returns the same products, each as often as
   * before, ordered by its key (ascending or descending), with products
   * of equal keys in their old order.
   */
  lemma SortsPermuteAndOrder(products: seq<Product>, action: ActionType, firstInput: string, secondInput: string,
                             textLe: (string, string) -> bool, tie: Product -> bool)
    requires IsSort(action) && TotalPreorder(textLe)
    requires forall a, b :: tie(a) && tie(b) ==> KeyOrder(action, textLe)(a, b)
    ensures var r := Apply(products, action, firstInput, secondInput, textLe);
      && multiset(r) == multiset(products)
      && Sorted(r, KeyOrder(action, textLe))
      && Filter(r, tie) == Filter(products, tie)
  {
    var order := KeyOrder(action, textLe);
    assert Apply(products, action, firstInput, secondInput, textLe) == SortBy(products, order);
    KeyOrderIsTotalPreorder(action, textLe);
    SortBySorted(products, order);
    SortByIsStable(products, order, tie);
  }

  /** The id sort, ascending: each product's id is at most the next one's. */
  lemma SortByIdAscendingOrders(products: seq<Product>, firstInput: string, secondInput: string, textLe: (string, string) -> bool)
    ensures var r := Apply(products, SortByIdAscending, firstInput, secondInput, textLe);
      multiset(r) == multiset(products) && forall i, j :: 0 <= i < j < |r| ==> r[i].id <= r[j].id
  {
    assert SectionOf(SortByIdAscending) == Sorting;
    assert Apply(products, SortByIdAscending, firstInput, secondInput, textLe) == SortBy(products, IdOrder());
    assert TotalPreorder(IdOrder());
    SortBySorted(products, IdOrder());
  }

  /** The id sort, descending: each product's id is at least the next one's. */
  lemma SortByIdDescendingOrders(products: seq<Product>, firstInput: string, secondInput: string, textLe: (string, string) -> bool)
    ensures var r := Apply(products, SortByIdDescending, firstInput, secondInput, textLe);
      && r == SortBy(products, Flip(IdOrder()))
      && multiset(r) == multiset(products) && forall i, j :: 0 <= i < j < |r| ==> r[i].id >= r[j].id
  {
    assert SectionOf(SortByIdDescending) == Sorting;
    assert KeyOrder(SortByIdDescending, textLe) == Flip(IdOrder());
    assert TotalPreorder(IdOrder());
    FlipIsTotalPreorder(IdOrder());
    SortBySorted(products, Flip(IdOrder()));
  }

  /**
   * The descending choice of the price submenu is wired to the
   * descending id sort: picking it orders the list by id, not by price.
   */
  lemma PriceSubmenuDescendingSortsById(products: seq<Product>, groups: Menu, firstInput: string, secondInput: string,
                                        textLe: (string, string) -> bool)
    ensures var menu := NextMenu(SortByPrice, groups);
      && menu.SortByNumberItems? && menu.firstType == SortByPriceAscending && menu.secondType == SortByIdDescending
      && var r := Apply(products, menu.secondType, firstInput, secondInput, textLe);
         forall i, j :: 0 <= i < j < |r| ==> r[i].id >= r[j].id
  {
    assert SectionOf(SortByPrice) == Submenus;
    assert NextMenu(SortByPrice, groups) == SortByNumberItems("Price", SortByPriceAscending, SortByIdDescending);
    SortByIdDescendingOrders(products, firstInput, secondInput, textLe);
  }

  /** The actions that open a submenu leave the list alone and show a sort submenu or the discount choice. */
  lemma MenuActionsKeepList(products: seq<Product>, action: ActionType, groups: Menu, firstInput: string, secondInput: string,
                            textLe: (string, string) -> bool)
    requires IsMenuChoice(action)
    ensures Apply(products, action, firstInput, secondInput, textLe) == products
    ensures NextMenu(action, groups).SortByNumberItems? || NextMenu(action, groups).SortByStringItems?
      || NextMenu(action, groups) == DiscountTypeItems
  {
  }

  /** The console app's state: the current product list and the menu shown next. */
  class DataManager {
    var products: seq<Product>
    var groups: Menu

    /** The state the app starts in: no products, the input menu. */
    constructor()
      ensures products == [] && groups == InputTypeItems
    {
      products := [];
      groups := InputTypeItems;
    }

    /**
     * HandleAction for a list action.  False for SetInitialData, which
     * has no case and throws ArgumentOutOfRangeException.
     */
    method HandleAction(action: ActionType, firstInput: string, secondInput: string,
                        textLe: (string, string) -> bool) returns (ok: bool)
      requires IsListAction(action)
      modifies this
      ensures ok == !action.SetInitialData?
      ensures products == Apply(old(products), action, firstInput, secondInput, textLe)
      ensures groups == NextMenu(action, old(groups))
    {
      match SectionOf(action) {
        case Filtering =>
          ApplyFilter(action, firstInput, secondInput);
        case Submenus =>
          OpenSubmenu(action);
        case Sorting =>
          SortProducts(action, textLe);
        case Unhandled =>
          return false;
      }
      return true;
    }

    /** The filter cases: the list through the filter, and the work menu after a discount choice. */
    method ApplyFilter(action: ActionType, firstInput: string, secondInput: string)
      requires IsFilter(action)
      modifies this
      ensures products == Filtered(old(products), action, firstInput, secondInput)
      ensures groups == if action.SetDiscountTrue? || action.SetDiscountFalse? then WorkTypeItems else old(groups)
    {
      match action {
        case FilterById =>
          FilterByIdInput(firstInput);
        case FilterByName =>
          products := Filter(products, NameContains(firstInput));
        case FilterByPrice =>
          FilterByPriceInputs(firstInput, secondInput);
        case FilterByReviews =>
          products := Filter(products, ReviewContains(firstInput));
        case FilterByCategory =>
          products := Filter(products, InCategory(firstInput));
        case FilterByQuantity =>
          FilterByQuantityInput(firstInput);
        case SetDiscountTrue =>
          products := Filter(products, Discounted());
          groups := WorkTypeItems;
        case SetDiscountFalse =>
          products := Filter(products, NotDiscounted());
          groups := WorkTypeItems;
      }
    }

    /** The submenu cases: the list is left, the submenu shown. */
    method OpenSubmenu(action: ActionType)
      requires IsMenuChoice(action)
      modifies this
      ensures products == old(products) && groups == Submenu(action)
    {
      match action {
        case FilterByDiscount =>
          groups := DiscountTypeItems;
        case SortById =>
          groups := SortByNumberItems("Id", SortByIdAscending, SortByIdDescending);
        case SortByName =>
          groups := SortByStringItems("Name", SortByNameAlphabetical, SortByNameAlphabeticalReverse);
        case SortByPrice =>
          groups := SortByNumberItems("Price", SortByPriceAscending, SortByIdDescending);
        case SortByReviews =>
          groups := SortByNumberItems("Reviews count", SortByReviewsAscending, SortByReviewsDescending);
        case SortByCategory =>
          groups := SortByStringItems("Category", SortByCategoryAscending, SortByCategoryDescending);
        case SortByQuantity =>
          groups := SortByNumberItems("Product quantity", SortByQuantityAscending, SortByQuantityDescending);
      }
    }

    /** A sort case: OrderBy or OrderByDescending by the action's key, then the work menu. */
    method SortProducts(action: ActionType, textLe: (string, string) -> bool)
      requires IsSort(action)
      modifies this
      ensures products == SortBy(old(products), KeyOrder(action, textLe)) && groups == WorkTypeItems
    {
      products := SortBy(products, KeyOrder(action, textLe));
      groups := WorkTypeItems;
    }

    /** The FilterById case: the typed id, when it parses as an Int32. */
    method FilterByIdInput(input: string)
      modifies this
      ensures products == ById(old(products), input) && groups == old(groups)
    {
      var parsed := TryParseInt(input);
      if parsed.Some? {
        products := Filter(products, HasId(parsed.value));
      }
    }

    /** The FilterByPrice case: the minimum line, then the maximum line, each when it parses. */
    method FilterByPriceInputs(minInput: string, maxInput: string)
      modifies this
      ensures products == ByPrice(old(products), minInput, maxInput) && groups == old(groups)
    {
      var minPrice := TryParseInt(minInput);
      if minPrice.Some? {
        products := Filter(products, PriceAtLeast(minPrice.value));
      }
      var maxPrice := TryParseInt(maxInput);
      if maxPrice.Some? {
        products := Filter(products, PriceAtMost(maxPrice.value));
      }
    }

    /** The FilterByQuantity case: the typed minimum, when it parses. */
    method FilterByQuantityInput(input: string)
      modifies this
      ensures products == ByQuantity(old(products), input) && groups == old(groups)
    {
      var minQuantity := TryParseInt(input);
      if minQuantity.Some? {
        products := Filter(products, QuantityAtLeast(minQuantity.value));
      }
    }
  }
}
