/**
 * WriteJson (JsonLib/JsonParser.cs): the products printed as a JSON
 * array by a fixed template.  The console output is modelled as the
 * sequence of lines it consists of; a Console.Write followed by the next
 * newline makes one line.  How a price (a double) is printed with the
 * invariant culture is the parameter `priceText`.
 */
module JsonWriter {
  import opened Common
  import opened Numbers
  import opened Products

  const Tab2: string := "  "
  const Tab4: string := "    "

  /** HandleLastElementEnding: a comma after every element but the last, then the line ends. */
  function Ending(currentIndex: int, lastIndex: int): (s: string)
    ensures s == "," <==> currentIndex != lastIndex
    ensures s == "" <==> currentIndex == lastIndex
  {
    if currentIndex != lastIndex then "," else ""
  }

  /** A null string interpolates as nothing. */
  function OrEmpty(s: Option<string>): string {
    if s.Some? then s.value else ""
  }

  /** WriteKeyValuePair: the line `    "key": value,`. */
  function KeyValueLine(key: string, value: Option<string>): string {
    Tab4 + "\"" + key + "\"" + ": " + OrEmpty(value) + ","
  }

  /** One line per review, indented six spaces, with a comma on every line but the last. */
  function ReviewLines(reviews: seq<string>): (lines: seq<string>)
    ensures |lines| == |reviews|
    ensures forall j :: 0 <= j < |reviews| ==>
      lines[j] == Tab2 + Tab4 + reviews[j] + (if j < |reviews| - 1 then "," else "")
  {
    seq(|reviews|, j requires 0 <= j < |reviews| => Tab2 + Tab4 + reviews[j] + Ending(j, |reviews| - 1))
  }

  /** The reviews entry: `[]` on the same line when there are no reviews at all, else a bracketed block. */
  function ReviewsBlock(reviews: Option<seq<string>>): (lines: seq<string>)
    ensures reviews.None? ==> lines == [Tab4 + "\"reviews\": []"]
    ensures reviews.Some? ==> && |lines| == |reviews.value| + 2
                              && lines[0] == Tab4 + "\"reviews\": ["
                              && lines[1..|lines| - 1] == ReviewLines(reviews.value)
                              && lines[|lines| - 1] == Tab4 + "]"
  {
    match reviews
    case None => [Tab4 + "\"reviews\": []"]
    case Some(rs) => [Tab4 + "\"reviews\": ["] + ReviewLines(rs) + [Tab4 + "]"]
  }

  /** The six scalar lines of a product. */
  function FieldLines(p: Product, priceText: real -> string): (lines: seq<string>)
    ensures |lines| == 6
    ensures forall j :: 0 <= j < 6 ==> |lines[j]| > 0 && lines[j][|lines[j]| - 1] == ','
  {
    [ KeyValueLine("product_id", Some(IntToString(p.id))),
      KeyValueLine("product_name", p.name),
      KeyValueLine("category", p.category),
      KeyValueLine("price", Some(priceText(p.price))),
      KeyValueLine("quantity_in_stock", Some(IntToString(p.quantityInStock))),
      Tab4 + "\"is_discounted\": " + (if p.isDiscounted then "true" else "false") + "," ]
  }

  /** The object of the product at position i, the last position being `last`. */
  function ProductLines(p: Product, i: int, last: int, priceText: real -> string): (lines: seq<string>)
    ensures |lines| >= 9
    ensures lines[0] == Tab2 + "{"
    ensures lines[|lines| - 1] == Tab2 + "}" + (if i != last then "," else "")
  {
    [Tab2 + "{"] + FieldLines(p, priceText) + ReviewsBlock(p.reviews) + [Tab2 + "}" + Ending(i, last)]
  }

  /**
   * The template of one product's object: after `  {` the six scalar
   * lines `    "key": value,`, then the reviews entry, then `  }`.
   */
  lemma ProductLinesTemplate(p: Product, i: int, last: int, priceText: real -> string)
    ensures var lines := ProductLines(p, i, last, priceText);
      && lines[1..7] == [
           Tab4 + "\"product_id\": " + IntToString(p.id) + ",",
           Tab4 + "\"product_name\": " + OrEmpty(p.name) + ",",
           Tab4 + "\"category\": " + OrEmpty(p.category) + ",",
           Tab4 + "\"price\": " + priceText(p.price) + ",",
           Tab4 + "\"quantity_in_stock\": " + IntToString(p.quantityInStock) + ",",
           Tab4 + "\"is_discounted\": " + (if p.isDiscounted then "true" else "false") + ","]
      && lines[7..|lines| - 1] == ReviewsBlock(p.reviews)
  {
    var lines := ProductLines(p, i, last, priceText);
    var fields, reviews := FieldLines(p, priceText), ReviewsBlock(p.reviews);
    assert lines == [Tab2 + "{"] + fields + reviews + [Tab2 + "}" + Ending(i, last)];
    assert lines[1..7] == fields;
    assert lines[7..|lines| - 1] == reviews;
    FieldLinesText(p, priceText);
  }

  /** The six scalar lines, spelled out. */
  lemma FieldLinesText(p: Product, priceText: real -> string)
    ensures FieldLines(p, priceText) == [
      Tab4 + "\"product_id\": " + IntToString(p.id) + ",",
      Tab4 + "\"product_name\": " + OrEmpty(p.name) + ",",
      Tab4 + "\"category\": " + OrEmpty(p.category) + ",",
      Tab4 + "\"price\": " + priceText(p.price) + ",",
      Tab4 + "\"quantity_in_stock\": " + IntToString(p.quantityInStock) + ",",
      Tab4 + "\"is_discounted\": " + (if p.isDiscounted then "true" else "false") + ","]
  {
    KeyValueLineText("product_id", Some(IntToString(p.id)), "\"product_id\": ");
    KeyValueLineText("product_name", p.name, "\"product_name\": ");
    KeyValueLineText("category", p.category, "\"category\": ");
    KeyValueLineText("price", Some(priceText(p.price)), "\"price\": ");
    KeyValueLineText("quantity_in_stock", Some(IntToString(p.quantityInStock)), "\"quantity_in_stock\": ");
  }

  /** The line WriteKeyValuePair prints, read as one quoted key followed by `": "`. */
  lemma KeyValueLineText(key: string, value: Option<string>, quotedKey: string)
    requires quotedKey == "\"" + key + "\": "
    ensures KeyValueLine(key, value) == Tab4 + quotedKey + OrEmpty(value) + ","
  {
    assert "\"" + key + "\"" + ": " == quotedKey;
  }

  /** The objects of all products, one block of lines each. */
  function ProductBlocks(products: seq<Product>, priceText: real -> string): (blocks: seq<seq<string>>)
    ensures |blocks| == |products|
    ensures forall k :: 0 <= k < |products| ==> blocks[k] == ProductLines(products[k], k, |products| - 1, priceText)
  {
    seq(|products|, k requires 0 <= k < |products| => ProductLines(products[k], k, |products| - 1, priceText))
  }

  /** The blocks written one after the other. */
  function Flatten<T>(blocks: seq<seq<T>>): seq<T> {
    if blocks == [] then [] else Flatten(blocks[..|blocks| - 1]) + blocks[|blocks| - 1]
  }

  /** Where block i starts: the lines of the blocks before it. */
  function Offset<T>(blocks: seq<seq<T>>, i: nat): nat
    requires i <= |blocks|
  {
    if i == 0 then 0 else Offset(blocks, i - 1) + |blocks[i - 1]|
  }

  /** The whole output: `[`, every product in order, `]`. */
  function JsonLines(products: seq<Product>, priceText: real -> string): (lines: seq<string>)
    ensures |lines| >= 2 && lines[0] == "[" && lines[|lines| - 1] == "]"
  {
    Framed("[", ProductBlocks(products, priceText), "]")
  }

  /** The blocks written one after the other between an opening and a closing line. */
  function Framed<T>(open: T, blocks: seq<seq<T>>, close: T): (lines: seq<T>)
    ensures |lines| >= 2 && lines[0] == open && lines[|lines| - 1] == close
  {
    [open] + Flatten(blocks) + [close]
  }

  lemma {:induction false} FlattenLength<T>(blocks: seq<seq<T>>)
    ensures |Flatten(blocks)| == Offset(blocks, |blocks|)
  {
    if blocks != [] {
      var init := blocks[..|blocks| - 1];
      FlattenLength(init);
      OffsetOfPrefix(blocks, |blocks| - 1);
    }
  }

  /** The offsets of a prefix's blocks are those of the whole. */
  lemma {:induction false} OffsetOfPrefix<T>(blocks: seq<seq<T>>, n: nat)
    requires n <= |blocks|
    ensures forall i :: 0 <= i <= n ==> Offset(blocks[..n], i) == Offset(blocks, i)
  {
    forall i | 0 <= i <= n ensures Offset(blocks[..n], i) == Offset(blocks, i) {
      OffsetAt(blocks, n, i);
    }
  }

  lemma {:induction false} OffsetAt<T>(blocks: seq<seq<T>>, n: nat, i: nat)
    requires i <= n <= |blocks|
    ensures Offset(blocks[..n], i) == Offset(blocks, i)
  {
    if i > 0 {
      OffsetAt(blocks, n, i - 1);
    }
  }

  lemma {:induction false} OffsetGrows<T>(blocks: seq<seq<T>>, i: nat, j: nat)
    requires i <= j <= |blocks|
    ensures Offset(blocks, i) <= Offset(blocks, j)
    decreases j
  {
    if i < j {
      OffsetGrows(blocks, i, j - 1);
    }
  }

  /** Block i occupies the lines from its offset to the next block's offset. */
  lemma {:induction false} FlattenBlock<T>(blocks: seq<seq<T>>, i: nat)
    requires i < |blocks|
    ensures Offset(blocks, i + 1) <= |Flatten(blocks)|
    ensures Flatten(blocks)[Offset(blocks, i)..Offset(blocks, i + 1)] == blocks[i]
  {
    var n := |blocks|;
    var init := blocks[..n - 1];
    FlattenLength(blocks);
    FlattenLength(init);
    OffsetOfPrefix(blocks, n - 1);
    OffsetGrows(blocks, i + 1, n);
    assert Flatten(blocks) == Flatten(init) + blocks[n - 1];
    if i < n - 1 {
      FlattenBlock(init, i);
      assert init[i] == blocks[i];
      SliceOfPrefix(Flatten(init), blocks[n - 1], Offset(blocks, i), Offset(blocks, i + 1));
    } else {
      SliceOfSuffix(Flatten(init), blocks[n - 1]);
    }
  }

  lemma SliceOfPrefix<T>(a: seq<T>, b: seq<T>, lo: nat, hi: nat)
    requires lo <= hi <= |a|
    ensures (a + b)[lo..hi] == a[lo..hi]
  {
  }

  lemma SliceOfMiddle<T>(a: seq<T>, b: seq<T>, c: seq<T>, lo: nat, hi: nat)
    requires lo <= hi <= |b|
    ensures (a + b + c)[|a| + lo..|a| + hi] == b[lo..hi]
  {
  }

  lemma SliceOfSuffix<T>(a: seq<T>, b: seq<T>)
    ensures (a + b)[|a|..|a| + |b|] == b
  {
  }

  /** How many lines a product takes: 9 with null reviews, 10 plus one per review otherwise. */
  function LineCount(p: Product): nat {
    if p.reviews.None? then 9 else 10 + |p.reviews.value|
  }

  lemma ProductLinesCount(p: Product, i: int, last: int, priceText: real -> string)
    ensures |ProductLines(p, i, last, priceText)| == LineCount(p)
  {
  }

  /** `block` occurs in `lines` starting at line `start`. */
  ghost predicate LinesAt<T>(lines: seq<T>, start: nat, block: seq<T>) {
    start + |block| <= |lines| && lines[start..start + |block|] == block
  }

  /** Line k of a block that occurs at `start` is line start + k. */
  lemma LineOf<T>(lines: seq<T>, start: nat, block: seq<T>, k: nat)
    requires LinesAt(lines, start, block) && k < |block|
    ensures lines[start + k] == block[k]
  {
    assert lines[start..start + |block|][k] == lines[start + k];
  }

  /** Where a + b occurs, a occurs, and b right after it. */
  lemma LinesAtSplit<T>(lines: seq<T>, start: nat, a: seq<T>, b: seq<T>)
    requires LinesAt(lines, start, a + b)
    ensures LinesAt(lines, start, a) && LinesAt(lines, start + |a|, b)
  {
    var whole := lines[start..start + |a| + |b|];
    assert lines[start..start + |a|] == whole[..|a|];
    assert lines[start + |a|..start + |a| + |b|] == whole[|a|..];
  }

  /** Product i is printed as its own block right after the blocks before it, one line below the opening `[`. */
  lemma ProductBlockPosition(products: seq<Product>, i: nat, priceText: real -> string)
    requires i < |products|
    ensures LinesAt(JsonLines(products, priceText), 1 + Offset(ProductBlocks(products, priceText), i),
                    ProductLines(products[i], i, |products| - 1, priceText))
  {
    FramedBlock("[", ProductBlocks(products, priceText), "]", i);
  }

  /** The block of product i is LineCount lines long, so the next one starts that much later. */
  lemma ProductBlockLength(products: seq<Product>, i: nat, priceText: real -> string)
    requires i < |products|
    ensures Offset(ProductBlocks(products, priceText), i + 1)
         == Offset(ProductBlocks(products, priceText), i) + LineCount(products[i])
  {
    ProductLinesCount(products[i], i, |products| - 1, priceText);
  }

  /** The lines the first n products take together. */
  function TotalLines(products: seq<Product>, n: nat): nat
    requires n <= |products|
  {
    if n == 0 then 0 else TotalLines(products, n - 1) + LineCount(products[n - 1])
  }

  /** The output is the two bracket lines plus the lines of every product. */
  lemma JsonLinesCount(products: seq<Product>, priceText: real -> string)
    ensures |JsonLines(products, priceText)| == 2 + TotalLines(products, |products|)
  {
    var blocks := ProductBlocks(products, priceText);
    forall k | 0 <= k < |products| ensures |blocks[k]| == LineCount(products[k]) {
      ProductLinesCount(products[k], k, |products| - 1, priceText);
    }
    FlattenLength(blocks);
    OffsetIsTotal(blocks, products, |products|);
  }

  /** Blocks of the products' line counts start where the counts of the products before them add up to. */
  lemma {:induction false} OffsetIsTotal<T>(blocks: seq<seq<T>>, products: seq<Product>, n: nat)
    requires n <= |products| == |blocks|
    requires forall k :: 0 <= k < |products| ==> |blocks[k]| == LineCount(products[k])
    ensures Offset(blocks, n) == TotalLines(products, n)
  {
    if n > 0 {
      OffsetIsTotal(blocks, products, n - 1);
    }
  }

  /** Block i of framed blocks sits one line below the opening line, after the blocks before it. */
  lemma FramedBlock<T>(open: T, blocks: seq<seq<T>>, close: T, i: nat)
    requires i < |blocks|
    ensures Offset(blocks, i + 1) == Offset(blocks, i) + |blocks[i]|
    ensures LinesAt(Framed(open, blocks, close), 1 + Offset(blocks, i), blocks[i])
  {
    FlattenBlock(blocks, i);
    SliceOfMiddle([open], Flatten(blocks), [close], Offset(blocks, i), Offset(blocks, i + 1));
  }

  /** Null reviews and an empty review list print differently. */
  lemma NullAndEmptyReviewsDiffer()
    ensures ReviewsBlock(None) != ReviewsBlock(Some([]))
    ensures ReviewsBlock(Some([])) == [Tab4 + "\"reviews\": [", Tab4 + "]"]
  {
    assert |ReviewsBlock(None)| == 1;
  }

  /** Appending the next block after a head and the blocks before it: the loop step of WriteJson. */
  lemma FlattenStep<T>(blocks: seq<seq<T>>, i: nat, head: seq<T>, output: seq<T>, block: seq<T>)
    requires i < |blocks| && block == blocks[i]
    requires output == head + Flatten(blocks[..i])
    ensures output + block == head + Flatten(blocks[..i + 1])
  {
    assert blocks[..i + 1][..i] == blocks[..i];
  }

  /** The block WriteJson assembles for a product is that product's lines. */
  lemma BlockIsProductLines(p: Product, i: int, last: int, priceText: real -> string, block: seq<string>)
    requires block == [Tab2 + "{"] + FieldLines(p, priceText) + ReviewsBlock(p.reviews) + [Tab2 + "}" + Ending(i, last)]
    ensures block == ProductLines(p, i, last, priceText)
  {
  }

  /** The reviews part of WriteJson: `reviews: [` and then `]` or the inner loop over the reviews. */
  method WriteReviews(reviews: Option<seq<string>>) returns (lines: seq<string>)
    ensures lines == ReviewsBlock(reviews)
  {
    var opening := Tab4 + "\"reviews\": [";
    if reviews.None? {
      assert opening + "]" == Tab4 + "\"reviews\": []";
      return [opening + "]"];
    }
    var rs := reviews.value;
    lines := [opening];
    var lastReviewIndex := |rs| - 1;
    for j := 0 to |rs|
      invariant lines == [opening] + ReviewLines(rs)[..j]
    {
      lines := lines + [Tab2 + Tab4 + rs[j] + Ending(j, lastReviewIndex)];
      assert ReviewLines(rs)[..j + 1] == ReviewLines(rs)[..j] + [ReviewLines(rs)[j]];
    }
    assert ReviewLines(rs)[..|rs|] == ReviewLines(rs);
    lines := lines + [Tab4 + "]"];
  }

  /** WriteJson: the loop over the products, each printed as one object. */
  method WriteJson(products: seq<Product>, priceText: real -> string) returns (output: seq<string>)
    ensures output == JsonLines(products, priceText)
  {
    ghost var blocks := ProductBlocks(products, priceText);
    output := ["["];
    var lastProductIndex := |products| - 1;
    for i := 0 to |products|
      invariant output == ["["] + Flatten(blocks[..i])
    {
      var product := products[i];
      var reviews := WriteReviews(product.reviews);
      var block := [Tab2 + "{"] + FieldLines(product, priceText) + reviews + [Tab2 + "}" + Ending(i, lastProductIndex)];
      BlockIsProductLines(product, i, lastProductIndex, priceText, block);
      FlattenStep(blocks, i, ["["], output, block);
      output := output + block;
    }
    assert blocks[..|products|] == blocks;
    output := output + ["]"];
  }
}
