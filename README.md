# JsonWork in Dafny

This project models the core of JsonWork, a small C# console application that reads a list of products written as JSON, filters and sorts it through an arrow-key menu, and writes it back as JSON. Everything modelled is proved by the Dafny verifier.

The model covers three parts.

**The JSON library** (`JsonLib`).
- The tree-building scanner `ParseJson` walks the input buffer once. It keeps the static fields `_node` (the current node), `_currentIndex` and `_currentLetter`.
  - `[` and `{` attach a new container and descend into it.
  - `]` and `}` pop to the parent.
  - `"`, a digit and `t`/`f`/`n` read a whole token and attach a leaf.
- The terminator scan `GetRightIndex` finds the end of a string or a number. Its escape test looks back one character only.
- The parse-tree nodes: `ListNode`, `DictionaryNode` with its pending-key slot, `StringNode`, `BooleanNode` (which also stands for `null`) and `NumberNode`.
- The projector `ConvertNodeToProducts` turns the tree into `Product` records. Every missing or wrong-typed field gets a default.
- The writer `WriteJson` prints the products in a fixed template.

**The menu panel** (`JsonWorker/DataPanel.cs`). A jagged grid of `Selected` flags, one group per row. The arrow keys move the selection, with bounds checks and column clamping.

**The list actions** (`JsonWorker/DataManager.cs`, `HandleAction`).
- Each filter is a LINQ `Where` over the product list, driven by the line the user typed.
- Each sort is an `OrderBy` or `OrderByDescending` by one field.
- The menu choices open the next submenu.

How the model is built:
- The scanner appears twice.
  - `JsonParser` first states one step of the scan as functions on values: the arena of nodes, the cursor and the index.
  - The class `JsonParser.Parser` then holds the source's static fields. Its methods (`UpdateNode`, `SwitchToParent`, `ParseIndependentStructures`, `ParseValue`, `ParseDependentStructures`, `GetRightIndex`, `ParseJson`, `ConvertNodeToProducts`, `ReadJson`) perform the same steps in place. Each method's postcondition ties the new state to the step function applied to the old state.
- Nodes live in an arena `Nodes.NodeStore`. A parent, a list item or a dictionary value is an index into it. The arena is `Ordered`: a parent comes before its children.
- Every scan step keeps `TreeShape`:
  - the arena is ordered;
  - there is a cursor exactly when some node exists;
  - the cursor is a container unless the document is a single leaf;
  - every parent link points at a container.
- Each .NET exception is an `Err` value of `Common.JsonError`, one constructor per kind of failure.
- `Manager.DataManager` holds the product list and the current menu, and `Panel.DataPanel` holds the grid of flags. Their methods reassign those fields.
- The filters and sorts are functions on sequences, built from `Sequences.Filter` (LINQ `Where`) and `Sequences.SortBy` (LINQ `OrderBy`, a stable insertion sort).

Decisions at the places where the source does not compile as shown, or does not do what it evidently means:
- **The `Add` on a dictionary.** `JsonParser.cs:130` calls `dictionaryNode.Add`, but `DictionaryNode` only defines `AddKeyOrValue`. `Nodes.DictionaryAdd` keeps that method's contract as written. It picks the node to descend to the way `ListNode.Add` does: the added node if it is a container, else the dictionary itself.
- **The constructors.** `new DictionaryNode(_node)` and `ListNode`'s constructor are modelled by their intent: an empty container with the given parent. `NumberNode` holds an exact decimal `real`.
- **Key lookup.** A key is stored as the text of its `StringNode`, quotes included. Keys compare by content, so a later key with the same text replaces the earlier value. The projector's bare field names such as `product_id` are compared with the stored keys after being put in double quotes (`Projection.Quoted`). A missing key reads as no value (`Option`) instead of `KeyNotFoundException`.
- **The casts in the projector.** These compile, but they fail at run time. `(double)(x?.Data ?? 0)` unboxes an `object`. When the field is missing, that object is a boxed `int` 0. When the field is present, it is a boxed `decimal`, the type `NumberNode` declares. Unboxing either one as `double` throws InvalidCastException. The model deliberately departs from this and reads the value the code means: the number itself, or 0, null or false for a missing field.

Behaviour of the code that the model keeps as written:
- **No end-of-input check.** An unclosed container is accepted, and the cursor is whatever node the scan ended on (`ScanExamples.UnclosedListIsAccepted`).
- **The pending key can outlive its dictionary.** The scan of `{"a"}` succeeds with the key still pending (`ScanExamples.KeyWithoutValueStaysPending`).
- **A truncated literal.** `[tru` fails because the fixed-length read runs past the buffer (`ScanExamples.TruncatedLiteral`).
- **The input is not trimmed.** `ReadJson` appends the lines with no separator and does not trim them.
- **The price submenu.** Its descending choice is wired to `SortByIdDescending`, so the menu labelled "Price" sorts by id when descending is picked. This is modelled as written (`Manager.PriceSubmenuDescendingSortsById`).
- **The round trip through `WriteJson` and `ReadJson` holds only for some lists.** `RoundTrip.RoundTrip` proves it for lists in which every product has:
  - an id and a quantity that are not negative;
  - a name, a category and reviews whose texts are whole quoted string tokens (the writer prints them without adding quotes, and the projector keeps the quotes it reads);
  - a price whose printed text reads back as the price.

  The other lists fail it in these ways:
  - A null name or a null category prints nothing after its key. The next key token is then read as its value, and the price arrives with no key pending. `ReadJson` fails with KeyIsNotString (`RoundTrip.NullNameBreaksRoundTrip`, `RoundTrip.NullCategoryBreaksRoundTrip`).
  - A negative id or quantity comes back positive, because the scan skips the minus sign (`ScanExamples.MinusSignIsSkipped`).
  - Null reviews come back as an empty list (`Projection.ProductOf`).
  - The price is printed with the invariant culture, but it is read back after the `.` to `,` swap in the current culture (see the floating-point line under Left out).
- **The newline branch of `ParseValue`** is modelled with `Environment.NewLine` as `"\n"`. It cannot fire on a buffer that `ReadJson` builds, since `Console.ReadLine` strips line ends.

## Model

| member | source | states |
|---|---|---|
| Numbers.IntToString | JsonLib/JsonParser.cs:82-86 | Int32.ToString: a leading minus exactly when the number is negative, otherwise only digits |
| Numbers.TrimStart | JsonWorker/DataManager.cs:65 | the white space Int32.TryParse lets through in front: the result is no longer than the text and does not start with white space |
| Numbers.TrimEnd | JsonWorker/DataManager.cs:65 | the white space let through behind: the result is no longer than the text and does not end with white space |
| Numbers.TrimStartDropsLeadingSpace | JsonWorker/DataManager.cs:65 | TrimStart leaves a suffix of the text, and everything it drops is white space |
| Numbers.TrimEndDropsTrailingSpace | JsonWorker/DataManager.cs:65 | TrimEnd leaves a prefix of the text, and everything it drops is white space |
| Numbers.ParseDecimal | JsonLib/JsonParser.cs:236 | double.Parse of a number token, with surrounding white space let through: it succeeds exactly when the trimmed token is digits, or digits, one dot and digits; digits read as their whole value, and digits-dot-digits as the whole part plus the fraction over the matching power of ten; the value is never negative |
| Numbers.ParseDecimalOfNatToString | JsonLib/JsonParser.cs:236 | the number reader reads back exactly the whole number that Int32.ToString writes |
| Numbers.RoundHalfEven | JsonLib/JsonParser.cs:320 | Math.Round: within one half of the input, a tie goes to the even integer, a whole number stays as it is |
| Numbers.TryParseInt | JsonWorker/DataManager.cs:65 | Int32.TryParse of the text with surrounding white space let through: digits, or a plus or minus sign then digits, read as that signed value when it lies in the 32-bit range and fail outside it; no other text parses |
| Numbers.TryParseIntToString | JsonWorker/DataManager.cs:93 | Int32.TryParse reads back every Int32 that Int32.ToString writes |
| Helpers.RightIndex | Utils/Helpers.cs:21-39 | the scan result is the smallest index after the left index holding an ending character not preceded by an escape; every index before it fails; with no such index (also when the left index is at the end) the result is NoEnding |
| Helpers.GetRightIndex | Utils/Helpers.cs:21-39 | the loop with its two continue tests returns exactly the reference result RightIndex |
| Helpers.EscapedQuoteIsSkipped | Utils/Helpers.cs:30-33 | in the buffer `"a\"b"` the escaped quote is skipped and the scan ends on the last quote |
| Helpers.EscapedBackslashHidesQuote | Utils/Helpers.cs:30 | the one-character lookback: in `"a\\"` the final quote follows a backslash, is taken as escaped, and the scan finds no end |
| Nodes.NewListNode | JsonLib/Nodes/ListNode.cs:10-14 | a new list has no children and the given parent, by default none |
| Nodes.NewDictionaryNode | JsonLib/Nodes/DictionaryNode.cs:11-15 | a new dictionary has an empty mapping, no pending key and the given parent |
| Nodes.StringText | JsonLib/Nodes/StringNode.cs:14-22 | ToString returns the stored text unchanged, and the empty string when there is no text |
| Nodes.GetData | JsonLib/Nodes/ListNode.cs:16-19 | the children when Data is a list, otherwise nothing |
| Nodes.ListAdd | JsonLib/Nodes/ListNode.cs:27-36 | Add appends the child at the end and keeps the earlier children in order; it returns the child when that is a container, else the list; it fails with ListDataMissing when Data is not a list |
| Nodes.Get | JsonLib/Nodes/DictionaryNode.cs:67-74 | the indexer's read: the value stored under the key; nothing when the key is absent or Data is not a dictionary |
| Nodes.Set | JsonLib/Nodes/DictionaryNode.cs:75-81 | the indexer's write stores the value under the key, replacing any earlier one; every other key reads as before; nothing changes when Data is not a dictionary |
| Nodes.AddWithKeyFromCache | JsonLib/Nodes/DictionaryNode.cs:46-59 | fails with NoPendingKey when no key is pending; otherwise stores the child under the pending key, leaves the other entries alone, clears the pending key and returns the child |
| Nodes.AddKeyOrValue | JsonLib/Nodes/DictionaryNode.cs:24-38 | with a pending key the child is its value; without one a string child becomes the pending key with the mapping unchanged, and any other child fails with KeyIsNotString; the child itself is returned |
| Nodes.DictionaryAdd | JsonLib/JsonParser.cs:130 | the dictionary's Add: AddKeyOrValue's outcome, with the cursor moving to the child only when it is a container |
| Nodes.KeyThenValue | JsonLib/Nodes/DictionaryNode.cs:24-59 | with no key pending, a string becomes the pending key and the next node of any kind becomes its value, which empties the slot again: calls alternate key, value |
| Nodes.NodeText | JsonLib/Nodes/ListNode.cs:43-58 | ToString of any node: a string's own text, the type name for a boolean, number or dictionary node (object.ToString), ListDataMissing for a list whose Data is not a list; it fails only with ListDataMissing, and only for a list |
| Nodes.ItemsText | JsonLib/Nodes/ListNode.cs:47-55 | the numbered lines of a list's first n children; it fails only with ListDataMissing |
| Nodes.ListTextOfStrings | JsonLib/Nodes/ListNode.cs:43-58 | ToString of a list of strings, any number of them: `Collection: [`, a newline, then for k = 1 to n the line `k. ` with the k-th text and a newline, then `]` |
| Nodes.ListText | JsonLib/Nodes/ListNode.cs:43-58 | ToString of a list whose children of any kind (nested lists included) have texts: `Collection: [`, a newline, then for k = 1 to n the line `k. ` with the k-th child's text and a newline, then `]` |
| Nodes.ChildItemsText | JsonLib/Nodes/ListNode.cs:52-55 | the loop's first n turns give the numbered lines of the first n children's texts |
| Nodes.ListTextFails | JsonLib/Nodes/ListNode.cs:43-58 | a list's ToString throws exactly when its Data is not a list or some child's ToString throws |
| Nodes.ItemsTextFails | JsonLib/Nodes/ListNode.cs:52-55 | the loop's first n turns throw exactly when one of the first n children's ToString throws |
| Nodes.ListTextOfTwoStrings | JsonLib/Nodes/ListNode.cs:43-58 | ToString of a list is `Collection: [`, a newline, then `1. ` and `2. ` before the children's texts, each line ended by a newline, then `]` |
| Nodes.NodeStore.ListNodeAdd | JsonLib/Nodes/ListNode.cs:27-36 | Add in place: the list's own node becomes ListAdd's result and no other node changes; on failure nothing changes |
| Nodes.NodeStore.SetEntry | JsonLib/Nodes/DictionaryNode.cs:75-81 | the indexer's write in place: only the dictionary's node changes, to the result of Set |
| Nodes.NodeStore.DictionaryAddWithKeyFromCache | JsonLib/Nodes/DictionaryNode.cs:46-59 | AddWithKeyFromCache in place: only the dictionary's node changes, as the function says; on failure nothing changes |
| Nodes.NodeStore.DictionaryAddKeyOrValue | JsonLib/Nodes/DictionaryNode.cs:24-38 | AddKeyOrValue in place: the pending key is set, or the value stored and the slot cleared, as the function says |
| Nodes.NodeStore.DictionaryNodeAdd | JsonLib/JsonParser.cs:130 | the dictionary's Add in place, with the result DictionaryAdd gives |
| Nodes.NodeStore.ListToString | JsonLib/Nodes/ListNode.cs:43-58 | the StringBuilder loop gives exactly the node's text; a child whose text fails makes the whole text fail |
| Projection.Field | JsonLib/JsonParser.cs:308-315 | the field named n is the node stored under the key `"n"` (quotes included); none when the key is absent or Data is not a dictionary |
| Projection.StringTextsMembers | JsonLib/JsonParser.cs:335-341 | a text is among the reviews exactly when some string child of the reviews list has it |
| Projection.StringTextsOfStrings | JsonLib/JsonParser.cs:335-341 | when every child is a string, the reviews are their texts one for one, in order |
| Projection.StringTexts | JsonLib/JsonParser.cs:335-341 | the texts of the string children, never more of them than children |
| Projection.StringTextsAreStringChildren | JsonLib/JsonParser.cs:335-341 | the reviews are exactly the string children's texts, in child order and each once: the children filtered by `is StringNode`, then read one for one |
| Projection.ReviewsOf | JsonLib/JsonParser.cs:316-341 | the reviews are empty when the field is missing, not a list, or a list whose Data is not a list; otherwise at most one text per child |
| Projection.ReviewsAreStringChildren | JsonLib/JsonParser.cs:326-341 | for a reviews field that is a list with data, the reviews are the texts of its string children in order, and every other child is skipped |
| Projection.ProductsOf | JsonLib/JsonParser.cs:301-328 | the foreach gives one product per dictionary child of the list (which children those are is DictionariesAreDictionaryChildren) |
| Projection.DictionariesAreDictionaryChildren | JsonLib/JsonParser.cs:301-306 | the children the foreach keeps are exactly those that are a DictionaryNode, in child order and each once; the `continue` skips every other child |
| Projection.ProductOf | JsonLib/JsonParser.cs:308-327 | id and quantity are the number rounded half to even, price the number itself, 0 when missing or not a number; name and category are the string's text with its quotes, or null; is_discounted is true only for the literal true, so null reads as false; reviews is always a list |
| Projection.EmptyDictionaryDefaults | JsonLib/JsonParser.cs:318-327 | a dictionary with no fields gives id 0, no name, no category, price 0, quantity 0, not discounted, and an empty review list |
| Projection.ProductsFollowDictionaries | JsonLib/JsonParser.cs:301-328 | the k-th product comes from the k-th dictionary child of the list, and every other child is skipped; with DictionariesAreDictionaryChildren, the products are ProductOf over Filter(children, is DictionaryNode) |
| Projection.Project | JsonLib/JsonParser.cs:294-299 | a result that is not a list, or a list whose Data is not a list, gives no products |
| Projection.ProjectListOfDictionaries | JsonLib/JsonParser.cs:294-328 | a root list of dictionaries gives exactly one product per child, in child order |
| JsonParser.Attach | JsonLib/JsonParser.cs:126-135 | with no current node the new node becomes current; a current list or dictionary adds it, and its add decides the new current node and the error; a leaf as current node fails with InsertError; only the container's own node changes |
| JsonParser.AttachKeepsShape | JsonLib/JsonParser.cs:126-135 | attaching a fresh childless node under the cursor keeps the tree shape |
| JsonParser.ParentOf | JsonLib/JsonParser.cs:154-162 | SwitchToParent moves up to the parent; a node without one stays current |
| JsonParser.Independent | JsonLib/JsonParser.cs:168-186 | `[` and `{` attach an empty list or dictionary under the cursor; `]` pops exactly when the cursor is a list, `}` exactly when it is a dictionary, else StructureEnding; every other character changes nothing |
| JsonParser.IndependentKeepsShape | JsonLib/JsonParser.cs:168-186 | the bracket pass keeps the tree shape |
| JsonParser.Substring | JsonLib/JsonParser.cs:196-203 | StringBuilder.ToString(start, length) gives the slice when it fits in the buffer and fails with OutOfRange otherwise |
| JsonParser.TokenAt | JsonLib/JsonParser.cs:192-206 | at t and n exactly 4 characters and at f exactly 5 are taken, failing when too few remain; at a quote the token runs through the first quote not preceded by a backslash, both quotes included; at a digit it runs up to, not including, the first comma, closing bracket or space, failing when there is none; every other character gives the empty token |
| JsonParser.ValidateConstantValue | JsonLib/JsonParser.cs:143-149 | succeeds exactly when the value equals the expected literal, else fails with ConstantMismatch |
| JsonParser.TokenLeaf | JsonLib/JsonParser.cs:213-238 | a quoted token becomes a StringNode with its text verbatim and no parent; true and false become BooleanNodes with that flag, null a BooleanNode with no flag, each only when spelled exactly; a digit token becomes a NumberNode when it reads as a number; no other character builds a leaf |
| JsonParser.Dependent | JsonLib/JsonParser.cs:211-245 | the token pass: the index never moves back and stays in the buffer, the cursor stays in the arena, and a character that starts no token changes nothing |
| JsonParser.DependentComposes | JsonLib/JsonParser.cs:211-245 | the token pass fails with TokenAt's error, else TokenLeaf's, else Attach's; on success the arena and cursor are what Attach makes of the leaf, and the index is on the token's last character |
| JsonParser.DependentKeepsShape | JsonLib/JsonParser.cs:211-245 | the token pass keeps the tree shape |
| JsonParser.Step | JsonLib/JsonParser.cs:278-283 | every successful turn of the loop moves the index forward and stays within the buffer |
| JsonParser.StepConsumesToken | JsonLib/JsonParser.cs:241-244 | a successful turn consumes the whole token at the index, or exactly one character when the character starts no token |
| JsonParser.NumberStepStopsAtEnding | JsonLib/JsonParser.cs:202-204 | after a number the scan resumes on its terminator, the first comma, closing bracket or space after the digits |
| JsonParser.StepKeepsShape | JsonLib/JsonParser.cs:278-283 | one turn of the loop keeps the tree shape |
| JsonParser.Run | JsonLib/JsonParser.cs:276-284 | a scan that does not fail ends at the end of the buffer with a well-shaped tree |
| JsonParser.RunStep | JsonLib/JsonParser.cs:278-283 | the scan stops with the first error a turn raises; otherwise it goes on from the state that turn leaves |
| JsonParser.Parse | JsonLib/JsonParser.cs:276-284 | the scan from an empty state ends, when it does not fail, at the end of the buffer with a well-shaped tree |
| JsonParser.Parser.UpdateNode | JsonLib/JsonParser.cs:126-135 | the arena and the cursor become what Attach gives; on failure nothing changes |
| JsonParser.Parser.SwitchToParent | JsonLib/JsonParser.cs:154-162 | the cursor becomes ParentOf of the old cursor; nothing else changes |
| JsonParser.Parser.ParseIndependentStructures | JsonLib/JsonParser.cs:168-186 | the arena and the cursor become what Independent gives for the current letter |
| JsonParser.Parser.GetRightIndex | JsonLib/JsonParser.cs:255-270 | the parser's own copy of the scan, with its one combined test, returns the same result RightIndex as the copy in Helpers |
| JsonParser.Parser.ParseValue | JsonLib/JsonParser.cs:192-206 | returns exactly the token TokenAt describes |
| JsonParser.Parser.ParseDependentStructures | JsonLib/JsonParser.cs:211-245 | the arena, the cursor and the index become what Dependent gives; on failure nothing changes |
| JsonParser.Parser.ParseCurrentLetter | JsonLib/JsonParser.cs:279-282 | one pass of the loop body followed by the loop's increment is one Step |
| JsonParser.Parser.ParseJson | JsonLib/JsonParser.cs:276-284 | the loop from index 0 ends in the state Run gives, or stops with Run's error |
| JsonParser.Parser.ConvertNodeToProducts | JsonLib/JsonParser.cs:290-345 | the foreach builds exactly the products Project describes |
| JsonParser.Parser.ReviewsList | JsonLib/JsonParser.cs:330-341 | the inner loop collects exactly the texts of the string children of the reviews list |
| JsonParser.ReadJsonResult | JsonLib/JsonParser.cs:352-366 | reading succeeds exactly when the scan of the joined lines succeeds, and otherwise fails with the scan's error |
| JsonParser.Parser.ReadJson | JsonLib/JsonParser.cs:352-366 | the buffer is the lines joined with no separator, and the result is the projection of its scan, or the scan's error |
| ScanExamples.QuotedTrueIsAString | JsonLib/JsonParser.cs:215-218 | `"true"` in quotes parses as one StringNode holding `"true"` with its quotes, not as a BooleanNode |
| ScanExamples.TruncatedLiteral | JsonLib/JsonParser.cs:196-198 | in `[tru` the four-character read runs past the buffer and fails with OutOfRange |
| ScanExamples.UnclosedListIsAccepted | JsonLib/JsonParser.cs:278-284 | `[` parses to an open empty root list with no error: there is no end-of-input check |
| ScanExamples.PlainCharacterStep | JsonLib/JsonParser.cs:204 | a character that is no bracket and starts no token (a comma, colon, space or sign) is consumed alone and builds nothing |
| ScanExamples.OpenRootList | JsonLib/JsonParser.cs:172-173 | `[` with no current node makes an empty root list the current node |
| ScanExamples.OpenRootDictionary | JsonLib/JsonParser.cs:175-176 | `{` with no current node makes an empty root dictionary the current node |
| ScanExamples.CloseRoot | JsonLib/JsonParser.cs:156-159 | closing the root container, which has no parent, leaves it current |
| ScanExamples.FiveJoinsList | JsonLib/JsonParser.cs:234-237 | the digit 5 before `]` becomes NumberNode 5 in the list, and the index stops before the bracket |
| ScanExamples.MinusSignIsSkipped | JsonLib/JsonParser.cs:202-204 | a sign is not part of a number: `[-5]` holds the number 5 |
| ScanExamples.MismatchedClosing | JsonLib/JsonParser.cs:178-184 | `}` closing a list fails with StructureEnding |
| ScanExamples.KeyIntoDictionary | JsonLib/Nodes/DictionaryNode.cs:31-37 | the key `"a"` read in an empty dictionary becomes its pending key, quotes included, and the cursor stays on the dictionary |
| ScanExamples.KeyWithoutValueStaysPending | JsonLib/JsonParser.cs:179-180 | `{"a"}` closes with the key still pending and no error |
| JsonWriter.Ending | JsonLib/JsonParser.cs:58-66 | a comma exactly when the element is not the last one, and nothing when it is |
| JsonWriter.ReviewLines | JsonLib/JsonParser.cs:101-107 | one line per review, indented six spaces, with a comma on every line but the last |
| JsonWriter.FieldLines | JsonLib/JsonParser.cs:81-90 | the six field lines, each ended by a comma |
| JsonWriter.FieldLinesText | JsonLib/JsonParser.cs:81-90 | the six field lines spelled out: id, name, category, price, quantity and discount flag, each indented four spaces after its quoted key, a null name or category printing as nothing |
| JsonWriter.ReviewsBlock | JsonLib/JsonParser.cs:91-110 | null reviews print `"reviews": []` on one line; a list prints `"reviews": [`, one line per review, and `]` |
| JsonWriter.ProductLines | JsonLib/JsonParser.cs:79-113 | a product's object opens with `  {` and closes with `  }`, followed by a comma exactly when it is not the last product |
| JsonWriter.ProductLinesTemplate | JsonLib/JsonParser.cs:79-113 | between the braces come the six field lines spelled out, then the reviews block |
| JsonWriter.ProductBlocks | JsonLib/JsonParser.cs:77-114 | one block per product, in order, each block knowing whether its product is the last |
| JsonWriter.JsonLines | JsonLib/JsonParser.cs:74-116 | the output starts with `[` and ends with `]` |
| JsonWriter.ProductLinesCount | JsonLib/JsonParser.cs:80-113 | a product takes 9 lines when its reviews are null, and 10 plus one per review otherwise |
| JsonWriter.ProductBlockPosition | JsonLib/JsonParser.cs:77-114 | the object of product i appears whole in the output, one line after the `[` and the objects before it |
| JsonWriter.ProductBlockLength | JsonLib/JsonParser.cs:80-113 | the next product's object starts right after this one's lines |
| JsonWriter.JsonLinesCount | JsonLib/JsonParser.cs:72-117 | the output is the two bracket lines plus the lines of all products |
| JsonWriter.NullAndEmptyReviewsDiffer | JsonLib/JsonParser.cs:93-110 | null reviews print `[]` on one line; an empty list prints `[` and `    ]` on two lines |
| JsonWriter.WriteReviews | JsonLib/JsonParser.cs:91-110 | the reviews part of the loop emits exactly the reviews block |
| JsonWriter.WriteJson | JsonLib/JsonParser.cs:72-117 | the nested loops emit exactly JsonLines: `[`, each product's object in order, `]` |
| RoundTrip.RoundTrip | JsonLib/JsonParser.cs:72-117 | reading back what WriteJson printed gives the same products in the same order, when every product has a non-negative id and quantity, a name, a category and reviews that are whole string tokens, and a price whose text reads back as the price |
| RoundTrip.ScanAll | JsonLib/JsonParser.cs:276-284 | the scan of the whole output succeeds and ends on the root list, which holds one dictionary per product, in order |
| RoundTrip.ProductRun | JsonLib/JsonParser.cs:78-114 | the lines of one product append one dictionary to the root list, holding the six fields and the list of reviews, and keep every node read before |
| RoundTrip.ProductOfBlock | JsonLib/JsonParser.cs:308-341 | a dictionary laid out as the writer lays out product p projects back to p |
| RoundTrip.ProjectProducts | JsonLib/JsonParser.cs:290-345 | a root list of such dictionaries projects to the products, in order |
| RoundTrip.NullValueLineRun | JsonLib/JsonParser.cs:46-49 | a null value prints nothing after its key, so reading the line leaves the key pending |
| RoundTrip.ShiftedLineRun | JsonLib/Nodes/DictionaryNode.cs:24-37 | with a key pending, the next key token is stored as its value, and the string after it becomes the pending key |
| RoundTrip.NumberFails | JsonLib/Nodes/DictionaryNode.cs:31-34 | a number at a dictionary with no key pending stops the scan with KeyIsNotString |
| RoundTrip.NullNameBreaksRoundTrip | JsonLib/JsonParser.cs:83 | reading back the output fails with KeyIsNotString at the first product with a null name, when that product's category is a string and its price a number |
| RoundTrip.NullCategoryBreaksRoundTrip | JsonLib/JsonParser.cs:84 | reading back the output fails with KeyIsNotString at the first product with a null category, when that product's name is a string and its price a number |
| Sequences.Filter | JsonWorker/DataManager.cs:69 | LINQ Where: no more elements than the input, every one passing the test |
| Sequences.FilterIsSubsequence | JsonWorker/DataManager.cs:82-83 | a filter's result is the input with some elements left out, the rest in their order |
| Sequences.FilterMembers | JsonWorker/DataManager.cs:125-127 | an element is kept exactly when it is in the input and passes the test |
| Sequences.FilterIdempotent | JsonWorker/DataManager.cs:133-134 | filtering again by the same test changes nothing |
| Sequences.FilterAll | JsonWorker/DataManager.cs:148 | a filter keeps the whole list when every element passes |
| Sequences.FilterTwice | JsonWorker/DataManager.cs:97-112 | two filters one after the other are one filter by both tests |
| Sequences.FilterSplits | JsonWorker/DataManager.cs:164-171 | a test and its negation split the list: together they keep each element exactly once |
| Sequences.FlipIsTotalPreorder | JsonWorker/DataManager.cs:206 | the reverse of a total preorder, by which OrderByDescending sorts, is one too |
| Sequences.SortBy | JsonWorker/DataManager.cs:202 | OrderBy returns each element exactly as often as the input holds it |
| Sequences.SortBySorted | JsonWorker/DataManager.cs:201-247 | OrderBy's result is ordered by its key order |
| Sequences.SortByIsStable | JsonWorker/DataManager.cs:201-247 | OrderBy is stable: elements with mutually equal keys keep their input order |
| Sequences.SortByOfSorted | JsonWorker/DataManager.cs:201-247 | a list already ordered by the key comes back unchanged |
| Manager.ContainsIff | JsonWorker/DataManager.cs:83 | string.Contains holds exactly when the text occurs at some position |
| Manager.AnyContainsIff | JsonWorker/DataManager.cs:126-127 | Any(review contains text) holds exactly when some review contains the text |
| Manager.QuotedInput | JsonWorker/DataManager.cs:134 | the category asked for is the typed text between two double quotes |
| Manager.ById | JsonWorker/DataManager.cs:61-78 | the id filter keeps no more products than it gets, and when the line parses each kept product has that id |
| Manager.ByName | JsonWorker/DataManager.cs:79-85 | each kept product has a name that contains the typed text |
| Manager.ByPrice | JsonWorker/DataManager.cs:86-121 | no more products than it gets; when the maximum parses, no kept price is above it |
| Manager.ByReviews | JsonWorker/DataManager.cs:122-129 | each kept product has reviews, one of which contains the typed text |
| Manager.ByCategory | JsonWorker/DataManager.cs:130-136 | each kept product's category is the typed text in double quotes |
| Manager.ByQuantity | JsonWorker/DataManager.cs:137-156 | when the line parses, each kept product has at least that quantity |
| Manager.Apply | JsonWorker/DataManager.cs:41-262 | the list after a list action (every action but the input, show and save ones): never longer than before, a permutation after a sort, and unchanged by every list action that neither filters nor sorts |
| Manager.NextMenu | JsonWorker/DataManager.cs:175-248 | for every list action: only a sort, a menu choice or a discount choice changes the menu, and a sort returns to the work menu |
| Manager.ByIdKeeps | JsonWorker/DataManager.cs:65-75 | FilterById keeps exactly the products with the parsed id, in order; unparsable input leaves the list unchanged |
| Manager.ByNameKeeps | JsonWorker/DataManager.cs:82-83 | FilterByName keeps exactly the products whose name is present and contains the text |
| Manager.ByReviewsKeeps | JsonWorker/DataManager.cs:125-127 | FilterByReviews keeps exactly the products whose review list is present and has a review containing the text |
| Manager.ByCategoryKeeps | JsonWorker/DataManager.cs:133-134 | FilterByCategory keeps exactly the products whose category equals the text in double quotes |
| Manager.ByPriceBounds | JsonWorker/DataManager.cs:93-118 | FilterByPrice keeps exactly the products within each bound whose line parsed; a bound that does not parse is skipped on its own |
| Manager.ByPriceIsOneFilter | JsonWorker/DataManager.cs:93-118 | the two price filters together are one filter by the bounds that parsed |
| Manager.ByQuantityKeeps | JsonWorker/DataManager.cs:144-154 | FilterByQuantity keeps exactly the products with at least the parsed minimum; unparsable input leaves the list unchanged |
| Manager.DiscountSplits | JsonWorker/DataManager.cs:161-173 | SetDiscountTrue keeps only discounted products and SetDiscountFalse only the others; together they hold every product exactly once |
| Manager.FiltersShrinkOnce | JsonWorker/DataManager.cs:61-174 | every filter action returns an order-preserving subsequence of the list, and the same filter with the same text applied again changes nothing |
| Manager.KeyOrderIsTotalPreorder | JsonWorker/DataManager.cs:201-247 | every sort key order, ascending or descending, with null first for the nullable keys, is a total preorder when the text order is one |
| Manager.SortsPermuteAndOrder | JsonWorker/DataManager.cs:201-247 | every sort action returns a permutation of the list, ordered by its key ascending or descending, with equal keys in their old order |
| Manager.SortByIdAscendingOrders | JsonWorker/DataManager.cs:201-204 | the ascending id sort is a permutation with ids never decreasing |
| Manager.SortByIdDescendingOrders | JsonWorker/DataManager.cs:205-208 | the descending id sort is a permutation with ids never increasing |
| Manager.PriceSubmenuDescendingSortsById | JsonWorker/DataManager.cs:183-185 | the price submenu offers SortByPriceAscending and SortByIdDescending, so its descending choice orders by id |
| Manager.MenuActionsKeepList | JsonWorker/DataManager.cs:175-198 | a menu choice leaves the list alone and shows a sort submenu or the discount choice |
| Manager.DataManager.constructor | JsonWorker/DataManager.cs:13-17 | the app starts with no products and the input menu |
| Manager.DataManager.HandleAction | JsonWorker/DataManager.cs:41-262 | a list action changes the list by Apply and the menu by NextMenu; SetInitialData has no case and fails |
| Manager.DataManager.ApplyFilter | JsonWorker/DataManager.cs:61-174 | the filter cases: the list through the action's filter, and the work menu after a discount choice |
| Manager.DataManager.OpenSubmenu | JsonWorker/DataManager.cs:175-198 | the submenu cases: the list is unchanged and the action's submenu is shown |
| Manager.DataManager.SortProducts | JsonWorker/DataManager.cs:200-247 | the sort cases: the list sorted by the action's key order, then the work menu |
| Manager.DataManager.FilterByIdInput | JsonWorker/DataManager.cs:63-75 | the id filter when the line parses, the list unchanged otherwise |
| Manager.DataManager.FilterByPriceInputs | JsonWorker/DataManager.cs:91-118 | the minimum filter, then the maximum filter, each only when its line parses |
| Manager.DataManager.FilterByQuantityInput | JsonWorker/DataManager.cs:142-154 | the quantity filter when the line parses, the list unchanged otherwise |
| Panel.FirstSelectedIs | JsonWorker/DataPanel.cs:51-62 | the search finds (r, c) exactly when item (r, c) is selected and no item before it in row-major order is |
| Panel.NothingSelected | JsonWorker/DataPanel.cs:51-62 | the search finds nothing exactly when no item is selected |
| Panel.Located | JsonWorker/DataPanel.cs:49-68 | GetSelectedItemIndexes returns a position inside the grid; it fails only when nothing is selected and group 0 has no item |
| Panel.Ensured | JsonWorker/DataPanel.cs:64-65 | marking item [0][0] changes no group's length, and every flag stays as it was except [0][0], which is set exactly when nothing was selected |
| Panel.LocatedIsSelected | JsonWorker/DataPanel.cs:49-68 | afterwards the returned item is selected and is the first selected one; a second call returns the same and changes nothing |
| Panel.OnlySelectedIsFirst | JsonWorker/DataPanel.cs:51-62 | when one item alone is selected, the search returns it and marks nothing |
| Panel.Update | JsonWorker/DataPanel.cs:73-101 | UpdateSelectedItem on values: the grid keeps its number of groups and every group its length; its moves are characterised by UnmovedChangesNothing, UpdateMoves and UpdateFailsOnlyOnEmptyGroup |
| Panel.UnmovedChangesNothing | JsonWorker/DataPanel.cs:80-87 | when the target is the current item, a group outside the grid, or a column outside the current group's items, the update succeeds and changes nothing beyond the [0][0] default |
| Panel.UpdateMoves | JsonWorker/DataPanel.cs:89-100 | on a change of group the column is clamped to the target group's last item; the current flag is cleared, the target flag set, every other flag untouched, and exactly one item stays selected |
| Panel.UpdateKeepsOneSelected | JsonWorker/DataPanel.cs:73-101 | exactly one selected item stays exactly one through every update that does not throw |
| Panel.UpdateFailsOnlyOnEmptyGroup | JsonWorker/DataPanel.cs:92-100 | an update throws exactly when there is nothing to locate, or it moves into a group with no items |
| Panel.KeyStep | JsonWorker/DataPanel.cs:106-135 | HandleKeys on values: the grid keeps its shape; the keys are characterised by NonArrowKeepsSelection, DownMovesOneGroup, RightMovesOneItem and EdgesStop |
| Panel.NonArrowKeepsSelection | JsonWorker/DataPanel.cs:124-131 | Q, Enter and any other key leave the selection where it is |
| Panel.DownMovesOneGroup | JsonWorker/DataPanel.cs:112-114 | Down from the only selected item selects the same column one group lower, or that group's last item |
| Panel.RightMovesOneItem | JsonWorker/DataPanel.cs:121-123 | Right from the only selected item selects its right neighbour |
| Panel.EdgesStop | JsonWorker/DataPanel.cs:80-87 | Left at a group's first item, Right at its last, Up in the first group and Down in the last change nothing |
| Panel.DataPanel.constructor | JsonWorker/DataPanel.cs:24-31 | after construction an item is selected, the exit and selection flags are clear, and [0][0] is marked when nothing was selected |
| Panel.DataPanel.GetSelectedItemIndexes | JsonWorker/DataPanel.cs:49-68 | the nested loops return Located and leave the flags as Ensured |
| Panel.DataPanel.UpdateSelectedItem | JsonWorker/DataPanel.cs:73-101 | the flags and the outcome are Update's |
| Panel.DataPanel.HandleKeys | JsonWorker/DataPanel.cs:106-135 | the arrows move the selection by KeyTarget; Q sets the exit flag and Enter the selection flag; any other key does nothing |

## Left out

- Console and file I/O. The lines `ReadJson` reads are a parameter, and `WriteJson`'s output is the sequence of lines it prints. `HandleShow`, `HandlePathOutput`, `HandleFileInput`, `HandleConsoleInput`, `HandlePathInput` and `Utils/ConsoleMethod.cs` are not part of this model.
- Manager.DataManager.HandleAction: requires an action other than the input actions (FileInput, ConsoleInput) and the output actions (ShowData, SaveToExistingFile, SaveToNewFile), since those cases are only I/O.
- Manager.DataManager.HandleAction: the panel title set by `UpdatePanelTitle` and `MessageHelper` is not modelled, because it is only display text.
- Manager.DataManager.HandleAction: the user's typed line or lines are the parameters firstInput and secondInput.
- Manager.DataManager.HandleAction: the switch is split into ApplyFilter, OpenSubmenu and SortProducts, one per section of the switch.
- The culture-sensitive string order of the name and category sorts. It is the parameter `textLe`, assumed to be a total preorder. A null key sorts first, as the default comparer sorts a null.
- Floating point. A number is an exact `real`. `double.Parse` after the `'.'` to `','` swap is modelled as the decimal value of the token with the white space around it let through: digits, optionally one dot and more digits. The swap makes the result depend on the current culture; the model assumes a culture whose decimal separator is `,`, so that `19,99` reads as 19.99. Under a culture whose separator is `.` (the invariant culture among them), `19,99` would read as 1999. An exponent, a sign, thousands separators, and the rounding of a double are not modelled.
- Projection.ProductOf: id and quantity outside the 32-bit range are not modelled. The `(int)` cast of a rounded `double` outside that range gives an unspecified value in C#; the model keeps the rounded number unbounded.
- The text of a `double` printed with the invariant culture is the parameter `priceText` of the writer.
- `char.IsDigit` is modelled as the ASCII digits only; the other Unicode decimal digits are left out.
- Int32.TryParse is modelled for ASCII white space, an optional sign and ASCII digits. Culture-specific signs and thousands separators are left out.
- Object references. Nodes are kept in an arena and referred to by index, so aliasing between node objects is not modelled. Keys compare by their text, not by `StringNode` reference.
- KeyNotFoundException from the dictionary indexer is not modelled: a missing key reads as no value, and the projector's defaults apply.
- JsonParser.Parser.ParseJson: on an error the partial tree is left as the failing step leaves it, and only the error is stated.
- Panel.DataPanel.constructor: requires that GetSelectedItemIndexes can locate an item, that is some item is selected or group 0 is not empty; the source's IndexOutOfRangeException in that case is not modelled.
- Panel.DataPanel.HandleKeys: the key is a parameter; Console.ReadKey in `Run` is not part of this model.
- `DataPanel.Run`, `DrawPanel`, `Restore` and `UpdateCursorPosition` are console drawing and key reading, which are not part of this model.
- The menu contents. A menu is only the grid of `Selected` flags in the panel, and in the manager the name of the template that builds it, with its sort key and its two actions. `Templates.cs`, `MenuGroup`, `MenuItem` and `Maps.cs` are not part of this model.
- `JsonWorker/Program.cs`, `JsonWorker/JsonProcess.cs` and `DataManager.Run` are entry-point loops over I/O.
- The exception types and messages. Each is a constructor of `JsonError`, or the `ok == false` outcome in the panel and the manager.
