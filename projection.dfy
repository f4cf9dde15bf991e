/**
 * What ConvertNodeToProducts (JsonLib/JsonParser.cs) computes from the
 * parse tree: one Product per dictionary child of the root list, with a
 * default for every field that is missing or has the wrong node type.
 * The loop that computes it is the method Parser.ConvertNodeToProducts.
 */
module Projection {
  import opened Common
  import opened Numbers
  import opened Nodes
  import opened Products
  import opened Sequences

  /** Every index in `cs` names a node of the arena. */
  predicate InArena(nodes: seq<Node>, cs: seq<NodeRef>) {
    forall k :: 0 <= k < |cs| ==> cs[k] < |nodes|
  }

  /**
   * A stored key is the key token's text, quotes included, so the bare
   * field name the projector asks for matches the key written as
   * `"name"` in the document.
   */
  function Quoted(name: string): (q: string)
    ensures |q| == |name| + 2 && q[0] == '"' && q[|q| - 1] == '"' && q[1..|q| - 1] == name
  {
    "\"" + name + "\""
  }

  /** dictionaryNode[name]: the node stored under the field name, None when there is none. */
  function Field(nodes: seq<Node>, dict: NodeRef, name: string): (r: Option<Node>)
    requires Ordered(nodes) && dict < |nodes| && nodes[dict].DictionaryNode?
    ensures r.Some? <==> nodes[dict].entries.Some? && Quoted(name) in nodes[dict].entries.value
    ensures r.Some? ==> var v := nodes[dict].entries.value[Quoted(name)]; v < |nodes| && r.value == nodes[v]
  {
    assert NodeOrdered(nodes, dict);
    match Get(nodes[dict], Quoted(name))
    case None => None
    case Some(v) => Some(nodes[v])
  }

  predicate IsNumber(f: Option<Node>) { f.Some? && f.value.NumberNode? }
  predicate IsString(f: Option<Node>) { f.Some? && f.value.StringNode? }
  predicate IsBoolean(f: Option<Node>) { f.Some? && f.value.BooleanNode? }

  /** `(field as NumberNode)?.Data ?? 0`. */
  function NumberOrZero(f: Option<Node>): real {
    if IsNumber(f) then f.value.number else 0.0
  }

  /** `(field as StringNode)?.ToString()`. */
  function TextOrNull(f: Option<Node>): Option<string> {
    if IsString(f) then Some(StringText(f.value)) else None
  }

  /** `(bool)((field as BooleanNode)?.Data ?? false)`: the JSON null reads as false. */
  function FlagOrFalse(f: Option<Node>): bool {
    IsBoolean(f) && f.value.flag == Some(true)
  }

  /** The texts of the string children among `cs`, in order; other children are skipped. */
  function StringTexts(nodes: seq<Node>, cs: seq<NodeRef>): (r: seq<string>)
    requires InArena(nodes, cs)
    ensures |r| <= |cs|
  {
    if cs == [] then []
    else
      var before := StringTexts(nodes, cs[..|cs| - 1]);
      var last := nodes[cs[|cs| - 1]];
      if last.StringNode? then before + [StringText(last)] else before
  }

  /** A text is a review exactly when some string child has it. */
  lemma {:induction false} StringTextsMembers(nodes: seq<Node>, cs: seq<NodeRef>, t: string)
    requires InArena(nodes, cs)
    ensures t in StringTexts(nodes, cs) <==>
      exists j :: 0 <= j < |cs| && nodes[cs[j]].StringNode? && StringText(nodes[cs[j]]) == t
  {
    if cs != [] {
      var init := cs[..|cs| - 1];
      StringTextsMembers(nodes, init, t);
      if exists j :: 0 <= j < |init| && nodes[init[j]].StringNode? && StringText(nodes[init[j]]) == t {
        var j :| 0 <= j < |init| && nodes[init[j]].StringNode? && StringText(nodes[init[j]]) == t;
        assert cs[j] == init[j];
      }
      if exists j :: 0 <= j < |cs| && nodes[cs[j]].StringNode? && StringText(nodes[cs[j]]) == t {
        var j :| 0 <= j < |cs| && nodes[cs[j]].StringNode? && StringText(nodes[cs[j]]) == t;
        if j < |init| { assert init[j] == cs[j]; }
      }
    }
  }

  /** When every child is a string, the reviews are their texts one for one, in order. */
  lemma {:induction false} StringTextsOfStrings(nodes: seq<Node>, cs: seq<NodeRef>)
    requires InArena(nodes, cs)
    requires forall k :: 0 <= k < |cs| ==> nodes[cs[k]].StringNode?
    ensures |StringTexts(nodes, cs)| == |cs|
    ensures forall k :: 0 <= k < |cs| ==> StringTexts(nodes, cs)[k] == StringText(nodes[cs[k]])
  {
    if cs != [] {
      StringTextsOfStrings(nodes, cs[..|cs| - 1]);
    }
  }

  /** The test `child is StringNode` on an index of the arena. */
  function IsStringRef(nodes: seq<Node>): NodeRef -> bool {
    (r: NodeRef) => r < |nodes| && nodes[r].StringNode?
  }

  /** The texts of the string nodes `ss`, one for one and in order. */
  function TextsOf(nodes: seq<Node>, ss: seq<NodeRef>): (ts: seq<string>)
    requires forall k :: 0 <= k < |ss| ==> ss[k] < |nodes| && nodes[ss[k]].StringNode?
    ensures |ts| == |ss|
    ensures forall k :: 0 <= k < |ss| ==> ts[k] == StringText(nodes[ss[k]])
  {
    seq(|ss|, k requires 0 <= k < |ss| => StringText(nodes[ss[k]]))
  }

  /**
   * The reviews are the texts of exactly the string children, in child
   * order and each once: the children filtered by `is StringNode`, then
   * read one for one.
   */
  lemma {:induction false} StringTextsAreStringChildren(nodes: seq<Node>, cs: seq<NodeRef>)
    requires InArena(nodes, cs)
    ensures StringTexts(nodes, cs) == TextsOf(nodes, Filter(cs, IsStringRef(nodes)))
  {
    if cs != [] {
      var init, last := cs[..|cs| - 1], cs[|cs| - 1];
      StringTextsAreStringChildren(nodes, init);
      assert init + [last] == cs;
      FilterAppend(init, [last], IsStringRef(nodes));
      var before := Filter(init, IsStringRef(nodes));
      if nodes[last].StringNode? {
        assert Filter([last], IsStringRef(nodes)) == [last];
        assert Filter(cs, IsStringRef(nodes)) == before + [last];
      } else {
        assert Filter([last], IsStringRef(nodes)) == [];
        assert Filter(cs, IsStringRef(nodes)) == before;
      }
    }
  }

  /** The reviews of a product: the string children of its "reviews" list, or none. */
  function ReviewsOf(nodes: seq<Node>, dict: NodeRef): (r: seq<string>)
    requires Ordered(nodes) && dict < |nodes| && nodes[dict].DictionaryNode?
    ensures var f := Field(nodes, dict, "reviews");
      if f.Some? && f.value.ListNode? && f.value.items.Some? then |r| <= |f.value.items.value| else r == []
  {
    var f := Field(nodes, dict, "reviews");
    assert NodeOrdered(nodes, dict);
    if f.Some? && f.value.ListNode? && f.value.items.Some? then
      var v := nodes[dict].entries.value[Quoted("reviews")];
      assert NodeOrdered(nodes, v);
      StringTexts(nodes, f.value.items.value)
    else []
  }

  /**
   * When the "reviews" field is a list with data, the reviews are the
   * texts of its string children, in order; every other child is skipped.
   */
  lemma ReviewsAreStringChildren(nodes: seq<Node>, dict: NodeRef)
    requires Ordered(nodes) && dict < |nodes| && nodes[dict].DictionaryNode?
    ensures var f := Field(nodes, dict, "reviews");
      f.Some? && f.value.ListNode? && f.value.items.Some? ==>
        && InArena(nodes, f.value.items.value)
        && ReviewsOf(nodes, dict) == TextsOf(nodes, Filter(f.value.items.value, IsStringRef(nodes)))
  {
    var f := Field(nodes, dict, "reviews");
    if f.Some? && f.value.ListNode? && f.value.items.Some? {
      var v := nodes[dict].entries.value[Quoted("reviews")];
      assert NodeOrdered(nodes, v);
      StringTextsAreStringChildren(nodes, f.value.items.value);
    }
  }

  /**
   * The Product built from one dictionary.  Id and quantity are the
   * number rounded to the nearest integer (a tie to the even one), price
   * the number itself, and each is 0 when the field is missing or not a
   * number; name and category are the string's text (quotes kept) or
   * null; the discount flag is false unless the field is the literal
   * true; the reviews list is always there.
   */
  function ProductOf(nodes: seq<Node>, dict: NodeRef): (p: Product)
    requires Ordered(nodes) && dict < |nodes| && nodes[dict].DictionaryNode?
    ensures var f := Field(nodes, dict, "product_id");
      p.id == if IsNumber(f) then RoundHalfEven(f.value.number) else 0
    ensures var f := Field(nodes, dict, "product_name");
      p.name == if IsString(f) then Some(StringText(f.value)) else None
    ensures var f := Field(nodes, dict, "category");
      p.category == if IsString(f) then Some(StringText(f.value)) else None
    ensures var f := Field(nodes, dict, "price");
      p.price == if IsNumber(f) then f.value.number else 0.0
    ensures var f := Field(nodes, dict, "quantity_in_stock");
      p.quantityInStock == if IsNumber(f) then RoundHalfEven(f.value.number) else 0
    ensures var f := Field(nodes, dict, "is_discounted");
      p.isDiscounted <==> IsBoolean(f) && f.value.flag == Some(true)
    ensures p.reviews == Some(ReviewsOf(nodes, dict))
  {
    Product(
      RoundHalfEven(NumberOrZero(Field(nodes, dict, "product_id"))),
      TextOrNull(Field(nodes, dict, "product_name")),
      TextOrNull(Field(nodes, dict, "category")),
      NumberOrZero(Field(nodes, dict, "price")),
      RoundHalfEven(NumberOrZero(Field(nodes, dict, "quantity_in_stock"))),
      FlagOrFalse(Field(nodes, dict, "is_discounted")),
      Some(ReviewsOf(nodes, dict)))
  }

  /** A dictionary with none of the fields gives the all-default product. */
  lemma EmptyDictionaryDefaults(nodes: seq<Node>, dict: NodeRef)
    requires Ordered(nodes) && dict < |nodes| && nodes[dict].DictionaryNode? && nodes[dict].entries == Some(map[])
    ensures ProductOf(nodes, dict) == Product(0, None, None, 0.0, 0, false, Some([]))
  {
  }

  /** The dictionary children among `cs`, in order. */
  function Dictionaries(nodes: seq<Node>, cs: seq<NodeRef>): (ds: seq<NodeRef>)
    requires InArena(nodes, cs)
    ensures InArena(nodes, ds)
    ensures forall k :: 0 <= k < |ds| ==> nodes[ds[k]].DictionaryNode?
    ensures |ds| <= |cs|
  {
    if cs == [] then []
    else
      var before := Dictionaries(nodes, cs[..|cs| - 1]);
      var last := cs[|cs| - 1];
      if nodes[last].DictionaryNode? then before + [last] else before
  }

  /** The test `child is DictionaryNode` on an index of the arena. */
  function IsDictRef(nodes: seq<Node>): NodeRef -> bool {
    (r: NodeRef) => r < |nodes| && nodes[r].DictionaryNode?
  }

  /**
   * The dictionary children are exactly the children that pass
   * `is DictionaryNode`, in child order and each once.
   */
  lemma {:induction false} DictionariesAreDictionaryChildren(nodes: seq<Node>, cs: seq<NodeRef>)
    requires InArena(nodes, cs)
    ensures Dictionaries(nodes, cs) == Filter(cs, IsDictRef(nodes))
  {
    if cs != [] {
      var init, last := cs[..|cs| - 1], cs[|cs| - 1];
      DictionariesAreDictionaryChildren(nodes, init);
      assert init + [last] == cs;
      FilterAppend(init, [last], IsDictRef(nodes));
      if nodes[last].DictionaryNode? {
        assert Filter([last], IsDictRef(nodes)) == [last];
      } else {
        assert Filter([last], IsDictRef(nodes)) == [];
      }
    }
  }

  /** The products of the children `cs`: one per dictionary child, in order. */
  function ProductsOf(nodes: seq<Node>, cs: seq<NodeRef>): (r: seq<Product>)
    requires Ordered(nodes) && InArena(nodes, cs)
    ensures |r| == |Dictionaries(nodes, cs)|
  {
    if cs == [] then []
    else
      var before := ProductsOf(nodes, cs[..|cs| - 1]);
      var last := cs[|cs| - 1];
      if nodes[last].DictionaryNode? then before + [ProductOf(nodes, last)] else before
  }

  /** The k-th product comes from the k-th dictionary child; every other child is skipped. */
  lemma {:induction false} ProductsFollowDictionaries(nodes: seq<Node>, cs: seq<NodeRef>)
    requires Ordered(nodes) && InArena(nodes, cs)
    ensures |ProductsOf(nodes, cs)| == |Dictionaries(nodes, cs)|
    ensures forall k :: 0 <= k < |ProductsOf(nodes, cs)| ==>
      ProductsOf(nodes, cs)[k] == ProductOf(nodes, Dictionaries(nodes, cs)[k])
  {
    if cs != [] {
      ProductsFollowDictionaries(nodes, cs[..|cs| - 1]);
    }
  }

  /**
   * The whole projection: nothing when the cursor is not a list (or its
   * Data is not a list), otherwise the products of its children.
   */
  function Project(nodes: seq<Node>, cur: Option<NodeRef>): (r: seq<Product>)
    requires Ordered(nodes) && (cur.Some? ==> cur.value < |nodes|)
    ensures !(cur.Some? && nodes[cur.value].ListNode? && nodes[cur.value].items.Some?) ==> r == []
  {
    if cur.Some? && nodes[cur.value].ListNode? && nodes[cur.value].items.Some? then
      assert NodeOrdered(nodes, cur.value);
      ProductsOf(nodes, nodes[cur.value].items.value)
    else []
  }

  /** A root list of dictionaries gives exactly one product per child, in child order. */
  lemma ProjectListOfDictionaries(nodes: seq<Node>, root: NodeRef)
    requires Ordered(nodes) && root < |nodes| && nodes[root].ListNode? && nodes[root].items.Some?
    requires var cs := nodes[root].items.value;
      forall k :: 0 <= k < |cs| ==> cs[k] < |nodes| && nodes[cs[k]].DictionaryNode?
    ensures var cs := nodes[root].items.value;
      |Project(nodes, Some(root))| == |cs| &&
      forall k :: 0 <= k < |cs| ==> Project(nodes, Some(root))[k] == ProductOf(nodes, cs[k])
  {
    var cs := nodes[root].items.value;
    assert NodeOrdered(nodes, root);
    AllDictionaries(nodes, cs);
    ProductsFollowDictionaries(nodes, cs);
  }

  lemma {:induction false} AllDictionaries(nodes: seq<Node>, cs: seq<NodeRef>)
    requires InArena(nodes, cs)
    requires forall k :: 0 <= k < |cs| ==> nodes[cs[k]].DictionaryNode?
    ensures Dictionaries(nodes, cs) == cs
  {
    if cs != [] {
      AllDictionaries(nodes, cs[..|cs| - 1]);
      assert cs[..|cs| - 1] + [cs[|cs| - 1]] == cs;
    }
  }
}
