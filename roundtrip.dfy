/**
 * WriteJson followed by ReadJson.  The scan is run over the lines the
 * writer prints, one line at a time: a product whose name, category and
 * reviews are string tokens the scan reads back whole, whose id and
 * quantity are not negative and whose price text reads back as its price
 * comes back as itself.  A product with a null name or category does not:
 * the writer prints nothing after the key, and the scan then meets a
 * value with no key pending.
 */
module RoundTrip {
  import opened Common
  import opened Numbers
  import opened Nodes
  import opened Helpers
  import opened Products
  import opened Projection
  import opened JsonParser
  import opened JsonWriter
  import opened ScanExamples

  // ------------------------------------------------------------ scan runs

  /**
   * The outcome of the scan from `st`, whatever `k` is.  Counting `k` down
   * keeps the scan folded in proofs that only compare two outcomes: it is
   * unfolded where a proof names Outcome(sb, st, 0).
   */
  ghost function Outcome(sb: seq<char>, st: State, k: nat): (r: Result<State, JsonError>)
    requires 0 <= st.index && TreeShape(st.nodes, st.node)
  {
    if k == 0 then Run(sb, st) else Outcome(sb, st, k - 1)
  }

  /** The scan from `a` gets to `b`: both states are well shaped and the run from `a` is the run from `b`. */
  ghost predicate Reaches(sb: seq<char>, a: State, b: State) {
    && 0 <= a.index <= b.index <= |sb|
    && TreeShape(a.nodes, a.node) && TreeShape(b.nodes, b.node)
    && Outcome(sb, a, 1) == Outcome(sb, b, 1)
  }

  /** Reaching a state means the scan ends as it ends from there. */
  lemma ReachesRun(sb: seq<char>, a: State, b: State)
    requires Reaches(sb, a, b)
    ensures Run(sb, a) == Run(sb, b)
  {
    assert Outcome(sb, a, 0) == Run(sb, a);
    assert Outcome(sb, b, 0) == Run(sb, b);
  }

  lemma ReachesTrans(sb: seq<char>, a: State, b: State, c: State)
    requires Reaches(sb, a, b) && Reaches(sb, b, c)
    ensures Reaches(sb, a, c)
  {
  }

  lemma ReachesStep(sb: seq<char>, st: State, after: State)
    requires 0 <= st.index < |sb| && TreeShape(st.nodes, st.node)
    requires Step(sb, st) == Ok(after)
    ensures Reaches(sb, st, after)
  {
    RunAfterStep(sb, st, after);
    assert Outcome(sb, st, 0) == Run(sb, st);
    assert Outcome(sb, after, 0) == Run(sb, after);
  }

  /** The characters the scan passes over one at a time without building anything. */
  predicate Plain(c: char) { c == ' ' || c == ',' || c == ':' }

  /** A run of spaces, commas and colons is consumed without a change to the tree. */
  lemma {:induction false} SkipPlain(sb: seq<char>, st: State, n: nat)
    requires 0 <= st.index && st.index + n <= |sb| && TreeShape(st.nodes, st.node)
    requires forall j :: st.index <= j < st.index + n ==> Plain(sb[j])
    ensures Reaches(sb, st, st.(index := st.index + n))
    decreases n
  {
    if n == 0 {
      assert st.(index := st.index + n) == st;
    } else {
      var next := st.(index := st.index + 1);
      PlainCharacterStep(sb, st);
      ReachesStep(sb, st, next);
      SkipPlain(sb, next, n - 1);
      assert next.(index := next.index + (n - 1)) == st.(index := st.index + n);
      ReachesTrans(sb, st, next, next.(index := next.index + (n - 1)));
    }
  }

  /** An opening bracket: the step is the bracket pass, and no token follows it. */
  lemma OpenStep(sb: seq<char>, st: State)
    requires 0 <= st.index < |sb| && TreeShape(st.nodes, st.node)
    requires sb[st.index] == ArrayStart || sb[st.index] == ObjectStart
    requires Independent(st.nodes, st.node, sb[st.index]).Ok?
    ensures var a := Independent(st.nodes, st.node, sb[st.index]).value;
      Reaches(sb, st, State(a.0, a.1, st.index + 1))
  {
    var a := Independent(st.nodes, st.node, sb[st.index]).value;
    assert TokenAt(sb, st.index, sb[st.index]) == Ok("");
    IndependentKeepsShape(st.nodes, st.node, sb[st.index]);
    assert Dependent(sb, st.index, a.0, a.1) == Ok(State(a.0, a.1, st.index));
    ReachesStep(sb, st, State(a.0, a.1, st.index + 1));
  }

  /** A closing bracket that matches the cursor pops to its parent. */
  lemma CloseStep(sb: seq<char>, st: State)
    requires 0 <= st.index < |sb| && TreeShape(st.nodes, st.node) && st.node.Some?
    requires (sb[st.index] == ArrayEnd && st.nodes[st.node.value].ListNode?) ||
             (sb[st.index] == ObjectEnd && st.nodes[st.node.value].DictionaryNode?)
    ensures Reaches(sb, st, State(st.nodes, ParentOf(st.nodes, st.node), st.index + 1))
  {
    var cur := ParentOf(st.nodes, st.node);
    assert NodeOrdered(st.nodes, st.node.value);
    assert Independent(st.nodes, st.node, sb[st.index]) == Ok((st.nodes, cur));
    assert TokenAt(sb, st.index, sb[st.index]) == Ok("");
    assert Dependent(sb, st.index, st.nodes, cur) == Ok(State(st.nodes, cur, st.index));
    ReachesStep(sb, st, State(st.nodes, cur, st.index + 1));
  }

  /** The token `v` at the index builds `leaf` under the cursor `cur`. */
  predicate LeafAt(sb: seq<char>, i: nat, v: string, leaf: Node, cur: Option<NodeRef>) {
    && i < |sb| && sb[i] !in [ArrayStart, ObjectStart, ArrayEnd, ObjectEnd] && |v| > 0
    && TokenAt(sb, i, sb[i]) == Ok(v)
    && TokenLeaf(sb[i], v, cur) == Ok(Some(leaf))
  }

  /** A leaf token is read whole and attached at the cursor. */
  lemma LeafStep(sb: seq<char>, st: State, v: string, leaf: Node)
    requires 0 <= st.index && TreeShape(st.nodes, st.node)
    requires LeafAt(sb, st.index, v, leaf, st.node)
    requires Attach(st.nodes, st.node, leaf).Ok?
    ensures var a := Attach(st.nodes, st.node, leaf).value;
      Reaches(sb, st, State(a.0, a.1, st.index + |v|))
  {
    var a := Attach(st.nodes, st.node, leaf).value;
    LeafStepOk(sb, st, v, leaf);
    ReachesStep(sb, st, State(a.0, a.1, st.index + |v|));
  }

  /** The step at a leaf token: the token is attached and the index moves past it. */
  lemma LeafStepOk(sb: seq<char>, st: State, v: string, leaf: Node)
    requires 0 <= st.index && TreeShape(st.nodes, st.node)
    requires LeafAt(sb, st.index, v, leaf, st.node)
    requires Attach(st.nodes, st.node, leaf).Ok?
    ensures var a := Attach(st.nodes, st.node, leaf).value;
      Step(sb, st) == Ok(State(a.0, a.1, st.index + |v|))
  {
    var a := Attach(st.nodes, st.node, leaf).value;
    assert Independent(st.nodes, st.node, sb[st.index]) == Ok((st.nodes, st.node));
    DependentComposes(sb, st.index, st.nodes, st.node);
    var next := State(a.0, a.1, st.index + |v| - 1);
    assert Dependent(sb, st.index, st.nodes, st.node) == Ok(next);
    StepOk(sb, st, (st.nodes, st.node), next);
    assert State(next.nodes, next.node, next.index + 1) == State(a.0, a.1, st.index + |v|);
  }

  /** A leaf token whose attach fails stops the whole run with that error. */
  lemma LeafFails(sb: seq<char>, st: State, v: string, leaf: Node)
    requires 0 <= st.index && TreeShape(st.nodes, st.node)
    requires LeafAt(sb, st.index, v, leaf, st.node)
    requires Attach(st.nodes, st.node, leaf).Err?
    ensures Run(sb, st) == Err(Attach(st.nodes, st.node, leaf).error)
  {
    assert Independent(st.nodes, st.node, sb[st.index]) == Ok((st.nodes, st.node));
    DependentComposes(sb, st.index, st.nodes, st.node);
    RunStopsAtStep(sb, st, Attach(st.nodes, st.node, leaf).error);
  }

  // ------------------------------------------------------------ tokens

  /**
   * A string token the scan reads back whole: quoted, with every inner
   * quote escaped and no backslash right before the closing quote.
   */
  predicate WholeString(q: string) {
    && |q| >= 2 && q[0] == Quote && q[|q| - 1] == Quote && q[|q| - 2] != QuoteEscape
    && forall j :: 0 < j < |q| - 1 && q[j] == Quote ==> q[j - 1] == QuoteEscape
  }

  /** A number token: a digit first, and nothing that ends a number. */
  predicate NumberText(t: string) {
    |t| > 0 && IsDigit(t[0]) && forall j :: 0 <= j < |t| ==> t[j] !in TypeEndings
  }

  /** The slice of a slice. */
  lemma Within(sb: seq<char>, i: nat, text: string, a: nat, b: nat)
    requires i + |text| <= |sb| && sb[i..i + |text|] == text && a <= b <= |text|
    ensures sb[i + a..i + b] == text[a..b]
  {
    assert forall j :: a <= j < b ==> sb[i + j] == text[j];
  }

  lemma StringTokenAt(sb: seq<char>, i: nat, q: string)
    requires WholeString(q) && i + |q| <= |sb| && sb[i..i + |q|] == q
    ensures sb[i] == Quote && TokenAt(sb, i, Quote) == Ok(q)
  {
    assert sb[i] == q[0];
    var e := i + |q| - 1;
    assert sb[e] == q[|q| - 1] && sb[e - 1] == q[|q| - 2];
    assert Qualifies(sb, e, QuoteEndings, Some(Escapes));
    forall j | i + 1 <= j < e ensures !Qualifies(sb, j, QuoteEndings, Some(Escapes)) {
      assert sb[j] == q[j - i] && sb[j - 1] == q[j - i - 1];
    }
    assert RightIndex(sb, i + 1, QuoteEndings, Some(Escapes)) == Ok(e);
  }

  lemma NumberTokenAt(sb: seq<char>, i: nat, t: string)
    requires NumberText(t) && i + |t| < |sb| && sb[i..i + |t|] == t && sb[i + |t|] in TypeEndings
    ensures sb[i] == t[0] && TokenAt(sb, i, sb[i]) == Ok(t)
  {
    assert sb[i] == t[0];
    var e := i + |t|;
    assert Qualifies(sb, e, TypeEndings, None);
    forall j | i + 1 <= j < e ensures !Qualifies(sb, j, TypeEndings, None) {
      assert sb[j] == t[j - i];
    }
    assert RightIndex(sb, i + 1, TypeEndings, None) == Ok(e);
  }

  lemma LiteralTokenAt(sb: seq<char>, i: nat, b: bool)
    requires var lit := if b then BooleanTrue else BooleanFalse;
      i + |lit| <= |sb| && sb[i..i + |lit|] == lit
    ensures var lit := if b then BooleanTrue else BooleanFalse;
      sb[i] == lit[0] && TokenAt(sb, i, sb[i]) == Ok(lit)
  {
    var lit := if b then BooleanTrue else BooleanFalse;
    assert sb[i] == lit[0];
  }

  // ------------------------------------------------------------ attaching

  lemma AttachKey(nodes: seq<Node>, d: NodeRef, q: string)
    requires d < |nodes| && nodes[d].DictionaryNode? && nodes[d].entries.Some? && nodes[d].pendingKey.None?
    ensures Attach(nodes, Some(d), StringNode(Some(q), None))
         == Ok(((nodes + [StringNode(Some(q), None)])[d := nodes[d].(pendingKey := Some(q))], Some(d)))
  {
  }

  lemma AttachValue(nodes: seq<Node>, d: NodeRef, x: Node)
    requires d < |nodes| && nodes[d].DictionaryNode? && nodes[d].entries.Some? && nodes[d].pendingKey.Some?
    ensures var dict := nodes[d];
      Attach(nodes, Some(d), x)
         == Ok(((nodes + [x])[d := DictionaryNode(Some(dict.entries.value[dict.pendingKey.value := |nodes|]), dict.parent, None)],
                Some(if IsContainer(x) then |nodes| else d)))
  {
  }

  lemma AttachItem(nodes: seq<Node>, c: NodeRef, x: Node)
    requires c < |nodes| && nodes[c].ListNode? && nodes[c].items.Some?
    ensures Attach(nodes, Some(c), x)
         == Ok(((nodes + [x])[c := ListNode(Some(nodes[c].items.value + [|nodes|]), nodes[c].parent)],
                Some(if IsContainer(x) then |nodes| else c)))
  {
  }

  // ------------------------------------------------------------ text positions

  /** `text` occurs in the buffer starting at index i. */
  ghost predicate TextAt(sb: seq<char>, i: nat, text: string) {
    i + |text| <= |sb| && sb[i..i + |text|] == text
  }

  /** Text made of two parts: each part occurs where it starts. */
  lemma TextParts(sb: seq<char>, i: nat, a: string, b: string)
    requires TextAt(sb, i, a + b)
    ensures TextAt(sb, i, a) && TextAt(sb, i + |a|, b)
  {
    assert sb[i..i + |a|] == (a + b)[..|a|];
    assert sb[i + |a|..i + |a| + |b|] == (a + b)[|a|..];
  }

  /** A run of spaces, commas and colons that occurs in the buffer is skipped. */
  lemma SkipText(sb: seq<char>, st: State, w: string)
    requires 0 <= st.index && TreeShape(st.nodes, st.node) && TextAt(sb, st.index, w)
    requires forall j :: 0 <= j < |w| ==> Plain(w[j])
    ensures Reaches(sb, st, st.(index := st.index + |w|))
  {
    forall j | st.index <= j < st.index + |w| ensures Plain(sb[j]) {
      assert sb[j] == w[j - st.index];
    }
    SkipPlain(sb, st, |w|);
  }

  /** The state after a skipped run of spaces, commas and colons: the same tree, further on. */
  lemma SkipRun(sb: seq<char>, st: State, w: string) returns (after: State)
    requires 0 <= st.index && TreeShape(st.nodes, st.node) && TextAt(sb, st.index, w)
    requires forall j :: 0 <= j < |w| ==> Plain(w[j])
    ensures Reaches(sb, st, after) && after.index == st.index + |w|
    ensures after.nodes == st.nodes && after.node == st.node
  {
    SkipText(sb, st, w);
    after := st.(index := st.index + |w|);
  }

  lemma {:induction false} ConcatAppend(a: seq<string>, b: seq<string>)
    ensures Concat(a + b) == Concat(a) + Concat(b)
    decreases |b|
  {
    if b != [] {
      var init := b[..|b| - 1];
      assert (a + b)[..|a + b| - 1] == a + init;
      assert (a + b)[|a + b| - 1] == b[|b| - 1];
      ConcatAppend(a, init);
      assert Concat(a + b) == Concat(a + init) + b[|b| - 1];
      assert Concat(b) == Concat(init) + b[|b| - 1];
    } else {
      assert a + b == a;
    }
  }

  /** Where line t starts in the joined lines. */
  function Pos(lines: seq<string>, t: nat): nat
    requires t <= |lines|
  {
    |Concat(lines[..t])|
  }

  /** Line t occurs in the joined lines at its position, and the next line starts right after it. */
  lemma LineText(lines: seq<string>, t: nat)
    requires t < |lines|
    ensures TextAt(Concat(lines), Pos(lines, t), lines[t])
    ensures Pos(lines, t + 1) == Pos(lines, t) + |lines[t]|
  {
    assert lines == lines[..t + 1] + lines[t + 1..];
    ConcatAppend(lines[..t + 1], lines[t + 1..]);
    assert lines[..t + 1][..t] == lines[..t];
    assert Concat(lines[..t + 1]) == Concat(lines[..t]) + lines[t];
    var sb := Concat(lines);
    assert sb[Pos(lines, t)..Pos(lines, t) + |lines[t]|] == (Concat(lines[..t]) + lines[t])[Pos(lines, t)..];
  }

  lemma PosBound(lines: seq<string>, t: nat)
    requires t <= |lines|
    ensures Pos(lines, t) <= |Concat(lines)|
  {
    assert lines == lines[..t] + lines[t..];
    ConcatAppend(lines[..t], lines[t..]);
  }

  lemma PosEnd(lines: seq<string>)
    ensures Pos(lines, |lines|) == |Concat(lines)|
  {
    assert lines[..|lines|] == lines;
  }

  // ------------------------------------------------------------ one line at a time

  /** A key with no quote and no backslash in it, printed between quotes, is read back whole. */
  lemma QuotedKeyIsWhole(key: string)
    requires |key| > 0 && forall j :: 0 <= j < |key| ==> key[j] != Quote && key[j] != QuoteEscape
    ensures WholeString(Quoted(key))
  {
    var q := Quoted(key);
    forall j | 0 < j < |q| - 1 ensures q[j] != Quote {
      assert q[j] == key[j - 1];
    }
    assert q[|q| - 2] == key[|key| - 1];
  }

  /** The value token of a key/value line: a string, a number or a literal, and the leaf it builds under `d`. */
  predicate ValueToken(v: string, x: Node, d: NodeRef) {
    || (WholeString(v) && x == StringNode(Some(v), None))
    || (NumberText(v) && ParseDecimal(v).Some? && x == NumberNode(ParseDecimal(v).value, Some(d)))
    || (v == BooleanTrue && x == BooleanNode(Some(true), Some(d)))
    || (v == BooleanFalse && x == BooleanNode(Some(false), Some(d)))
  }

  /** The dictionary node at the cursor, waiting for a key. */
  predicate AwaitsKey(nodes: seq<Node>, d: NodeRef) {
    d < |nodes| && nodes[d].DictionaryNode? && nodes[d].entries.Some? && nodes[d].pendingKey.None?
  }

  /** Every node but the one at `except` is kept, and more may follow them. */
  ghost predicate Keeps(before: seq<Node>, after: seq<Node>, except: nat) {
    |before| <= |after| && forall i :: 0 <= i < |before| && i != except ==> after[i] == before[i]
  }

  /** Keeping everything but 0, then everything but a node past the first state, keeps everything but 0. */
  lemma KeepsTrans(a: seq<Node>, b: seq<Node>, c: seq<Node>, d: nat)
    requires Keeps(a, b, 0) && Keeps(b, c, d) && |a| <= d
    ensures Keeps(a, c, 0)
  {
  }

  /** A string token at a dictionary waiting for a key becomes its pending key. */
  lemma KeyStep(sb: seq<char>, st: State, q: string) returns (after: State)
    requires 0 <= st.index && TreeShape(st.nodes, st.node) && st.node.Some? && AwaitsKey(st.nodes, st.node.value)
    requires WholeString(q) && TextAt(sb, st.index, q)
    ensures Reaches(sb, st, after) && after.index == st.index + |q|
    ensures after.node == st.node && |after.nodes| == |st.nodes| + 1 && Keeps(st.nodes, after.nodes, st.node.value)
    ensures after.nodes[st.node.value] == st.nodes[st.node.value].(pendingKey := Some(q))
    ensures TreeShape(after.nodes, after.node)
  {
    var d := st.node.value;
    StringTokenAt(sb, st.index, q);
    AttachKey(st.nodes, d, q);
    LeafStep(sb, st, q, StringNode(Some(q), None));
    var a := Attach(st.nodes, st.node, StringNode(Some(q), None)).value;
    AttachKeepsShape(st.nodes, st.node, StringNode(Some(q), None));
    after := State(a.0, a.1, st.index + |q|);
  }

  /** `    "key": `: the key token becomes the dictionary's pending key. */
  lemma KeyRun(sb: seq<char>, st: State, key: string) returns (after: State)
    requires 0 <= st.index && TreeShape(st.nodes, st.node) && st.node.Some? && AwaitsKey(st.nodes, st.node.value)
    requires WholeString(Quoted(key)) && TextAt(sb, st.index, Tab4 + Quoted(key) + ": ")
    ensures Reaches(sb, st, after) && after.index == st.index + |Tab4 + Quoted(key) + ": "|
    ensures after.node == st.node && |after.nodes| == |st.nodes| + 1 && Keeps(st.nodes, after.nodes, st.node.value)
    ensures after.nodes[st.node.value] == st.nodes[st.node.value].(pendingKey := Some(Quoted(key)))
  {
    var q := Quoted(key);
    TextParts(sb, st.index, Tab4 + q, ": ");
    var s2 := IndentedKeyRun(sb, st, q);
    after := SkipRun(sb, s2, ": ");
    ReachesTrans(sb, st, s2, after);
  }

  /** The indentation and the key token of a key line. */
  lemma IndentedKeyRun(sb: seq<char>, st: State, q: string) returns (after: State)
    requires 0 <= st.index && TreeShape(st.nodes, st.node) && st.node.Some? && AwaitsKey(st.nodes, st.node.value)
    requires WholeString(q) && TextAt(sb, st.index, Tab4 + q)
    ensures Reaches(sb, st, after) && after.index == st.index + |Tab4 + q| && TreeShape(after.nodes, after.node)
    ensures after.node == st.node && |after.nodes| == |st.nodes| + 1 && Keeps(st.nodes, after.nodes, st.node.value)
    ensures after.nodes[st.node.value] == st.nodes[st.node.value].(pendingKey := Some(q))
  {
    TextParts(sb, st.index, Tab4, q);
    SkipText(sb, st, Tab4);
    var s1 := st.(index := st.index + |Tab4|);
    after := KeyStep(sb, s1, q);
    ReachesTrans(sb, st, s1, after);
  }

  /** A value token followed by a comma is read whole and builds its leaf. */
  lemma ValueLeaf(sb: seq<char>, i: nat, v: string, x: Node, d: NodeRef)
    requires ValueToken(v, x, d) && TextAt(sb, i, v + ",")
    ensures LeafAt(sb, i, v, x, Some(d)) && !IsContainer(x) && TextAt(sb, i + |v|, ",")
  {
    TextParts(sb, i, v, ",");
    assert sb[i + |v|] == ',' by { assert TextAt(sb, i + |v|, ","); }
    if WholeString(v) {
      StringTokenAt(sb, i, v);
    } else if NumberText(v) {
      NumberTokenAt(sb, i, v);
    } else {
      LiteralTokenAt(sb, i, v == BooleanTrue);
    }
  }

  /** A leaf token after a pending key is stored under the key, and the cursor stays on the dictionary. */
  lemma ValueStep(sb: seq<char>, st: State, v: string, x: Node, at: nat) returns (after: State)
    requires 0 <= st.index && TreeShape(st.nodes, st.node) && st.node.Some? && at == |st.nodes|
    requires var dict := st.nodes[st.node.value];
      dict.DictionaryNode? && dict.entries.Some? && dict.pendingKey.Some?
    requires LeafAt(sb, st.index, v, x, st.node) && !IsContainer(x)
    ensures Reaches(sb, st, after) && after.index == st.index + |v|
    ensures after.node == st.node && |after.nodes| == at + 1 && Keeps(st.nodes, after.nodes, st.node.value)
    ensures after.nodes[at] == x
    ensures var dict := st.nodes[st.node.value];
      after.nodes[st.node.value] == DictionaryNode(Some(dict.entries.value[dict.pendingKey.value := at]), dict.parent, None)
  {
    AttachValue(st.nodes, st.node.value, x);
    LeafStep(sb, st, v, x);
    var a := Attach(st.nodes, st.node, x).value;
    after := State(a.0, a.1, st.index + |v|);
  }

  /** `value,` after a pending key: the value is stored under the key, and the cursor stays on the dictionary. */
  lemma ValueRun(sb: seq<char>, st: State, v: string, x: Node, at: nat) returns (after: State)
    requires 0 <= st.index && TreeShape(st.nodes, st.node) && st.node.Some? && at == |st.nodes|
    requires var dict := st.nodes[st.node.value];
      dict.DictionaryNode? && dict.entries.Some? && dict.pendingKey.Some?
    requires LeafAt(sb, st.index, v, x, st.node) && !IsContainer(x) && TextAt(sb, st.index + |v|, ",")
    ensures Reaches(sb, st, after) && after.index == st.index + |v| + 1
    ensures after.node == st.node && |after.nodes| == at + 1 && Keeps(st.nodes, after.nodes, st.node.value)
    ensures after.nodes[at] == x
    ensures var dict := st.nodes[st.node.value];
      after.nodes[st.node.value] == DictionaryNode(Some(dict.entries.value[dict.pendingKey.value := at]), dict.parent, None)
  {
    var s1 := ValueStep(sb, st, v, x, at);
    after := SkipRun(sb, s1, ",");
    ReachesTrans(sb, st, s1, after);
  }

  /** `    "key": value,`: the value is stored under the key, and the cursor stays on the dictionary. */
  lemma KeyValueRun(sb: seq<char>, st: State, key: string, v: string, x: Node, at: nat) returns (after: State)
    requires 0 <= st.index && TreeShape(st.nodes, st.node) && st.node.Some? && AwaitsKey(st.nodes, st.node.value)
    requires at == |st.nodes| + 1
    requires WholeString(Quoted(key)) && ValueToken(v, x, st.node.value)
    requires TextAt(sb, st.index, Tab4 + Quoted(key) + ": " + v + ",")
    ensures Reaches(sb, st, after) && after.index == st.index + |Tab4 + Quoted(key) + ": " + v + ","|
    ensures after.node == st.node && |after.nodes| == at + 1 && Keeps(st.nodes, after.nodes, st.node.value)
    ensures after.nodes[at] == x
    ensures var dict := st.nodes[st.node.value];
      after.nodes[st.node.value] == dict.(entries := Some(dict.entries.value[Quoted(key) := at]))
  {
    var d, q := st.node.value, Quoted(key);
    assert Tab4 + q + ": " + v + "," == (Tab4 + q + ": ") + (v + ",");
    TextParts(sb, st.index, Tab4 + q + ": ", v + ",");
    var s1 := KeyRun(sb, st, key);
    ValueLeaf(sb, s1.index, v, x, d);
    after := ValueRun(sb, s1, v, x, at);
    ReachesTrans(sb, st, s1, after);
  }

  /** `[` after a pending key: an empty list is stored under the key, and the cursor descends into it. */
  lemma ListValueRun(sb: seq<char>, st: State) returns (after: State)
    requires 0 <= st.index < |sb| && TreeShape(st.nodes, st.node) && st.node.Some? && sb[st.index] == ArrayStart
    requires var dict := st.nodes[st.node.value];
      dict.DictionaryNode? && dict.entries.Some? && dict.pendingKey.Some?
    ensures Reaches(sb, st, after) && after.index == st.index + 1
    ensures after.node == Some(|st.nodes|) && |after.nodes| == |st.nodes| + 1 && Keeps(st.nodes, after.nodes, st.node.value)
    ensures after.nodes[|st.nodes|] == ListNode(Some([]), st.node)
    ensures var dict := st.nodes[st.node.value];
      after.nodes[st.node.value] == DictionaryNode(Some(dict.entries.value[dict.pendingKey.value := |st.nodes|]), dict.parent, None)
  {
    var d, n := st.node.value, |st.nodes|;
    AttachValue(st.nodes, d, NewListNode(Some(d)));
    OpenStep(sb, st);
    var dict := st.nodes[d];
    after := State((st.nodes + [NewListNode(Some(d))])[d := DictionaryNode(Some(dict.entries.value[dict.pendingKey.value := n]), dict.parent, None)],
                   Some(n), st.index + 1);
  }

  /** `    "reviews": [`: an empty list is stored under the key, and the cursor descends into it. */
  lemma ListKeyRun(sb: seq<char>, st: State, key: string) returns (after: State)
    requires 0 <= st.index && TreeShape(st.nodes, st.node) && st.node.Some? && AwaitsKey(st.nodes, st.node.value)
    requires WholeString(Quoted(key)) && TextAt(sb, st.index, Tab4 + Quoted(key) + ": [")
    ensures Reaches(sb, st, after) && after.index == st.index + |Tab4 + Quoted(key) + ": ["|
    ensures after.node == Some(|st.nodes| + 1) && |after.nodes| == |st.nodes| + 2 && Keeps(st.nodes, after.nodes, st.node.value)
    ensures after.nodes[|st.nodes| + 1] == ListNode(Some([]), st.node)
    ensures var dict := st.nodes[st.node.value];
      after.nodes[st.node.value] == dict.(entries := Some(dict.entries.value[Quoted(key) := |st.nodes| + 1]))
  {
    var q := Quoted(key);
    assert Tab4 + q + ": [" == Tab4 + q + ": " + "[";
    TextParts(sb, st.index, Tab4 + q + ": ", "[");
    var s1 := KeyRun(sb, st, key);
    assert sb[s1.index] == ArrayStart by { assert TextAt(sb, s1.index, "["); }
    after := ListValueRun(sb, s1);
    ReachesTrans(sb, st, s1, after);
  }

  /** `      "text",`: the review's string is appended to the list at the cursor. */
  lemma ItemRun(sb: seq<char>, st: State, q: string, ending: string) returns (after: State)
    requires 0 <= st.index && TreeShape(st.nodes, st.node) && st.node.Some?
    requires st.nodes[st.node.value].ListNode? && st.nodes[st.node.value].items.Some?
    requires WholeString(q) && (ending == "," || ending == "") && TextAt(sb, st.index, Tab2 + Tab4 + q + ending)
    ensures Reaches(sb, st, after) && after.index == st.index + |Tab2 + Tab4 + q + ending|
    ensures after.node == st.node && |after.nodes| == |st.nodes| + 1 && Keeps(st.nodes, after.nodes, st.node.value)
    ensures after.nodes[|st.nodes|] == StringNode(Some(q), None)
    ensures var list := st.nodes[st.node.value];
      after.nodes[st.node.value] == list.(items := Some(list.items.value + [|st.nodes|]))
  {
    var c := st.node.value;
    TextParts(sb, st.index, Tab2 + Tab4 + q, ending);
    TextParts(sb, st.index, Tab2 + Tab4, q);
    SkipText(sb, st, Tab2 + Tab4);
    var s1 := st.(index := st.index + |Tab2 + Tab4|);
    StringTokenAt(sb, s1.index, q);
    AttachItem(st.nodes, c, StringNode(Some(q), None));
    LeafStep(sb, s1, q, StringNode(Some(q), None));
    var s2 := State((st.nodes + [StringNode(Some(q), None)])[c := ListNode(Some(st.nodes[c].items.value + [|st.nodes|]), st.nodes[c].parent)],
                    Some(c), s1.index + |q|);
    assert Reaches(sb, s1, s2);
    SkipText(sb, s2, ending);
    after := s2.(index := s2.index + |ending|);
    ReachesTrans(sb, st, s1, s2);
    ReachesTrans(sb, st, s2, after);
  }

  /** `    ]` or `  }` with its ending: the container at the cursor is closed and the cursor moves to its parent. */
  lemma CloseRun(sb: seq<char>, st: State, indent: string, bracket: char, ending: string) returns (after: State)
    requires 0 <= st.index && TreeShape(st.nodes, st.node) && st.node.Some?
    requires (bracket == ArrayEnd && st.nodes[st.node.value].ListNode?) ||
             (bracket == ObjectEnd && st.nodes[st.node.value].DictionaryNode?)
    requires (forall j :: 0 <= j < |indent| ==> indent[j] == ' ') && (ending == "," || ending == "")
    requires TextAt(sb, st.index, indent + [bracket] + ending)
    ensures Reaches(sb, st, after) && after.index == st.index + |indent + [bracket] + ending|
    ensures after.nodes == st.nodes && after.node == ParentOf(st.nodes, st.node)
  {
    TextParts(sb, st.index, indent + [bracket], ending);
    TextParts(sb, st.index, indent, [bracket]);
    SkipText(sb, st, indent);
    var s1 := st.(index := st.index + |indent|);
    assert sb[s1.index] == bracket by { assert TextAt(sb, s1.index, [bracket]); }
    CloseStep(sb, s1);
    var s2 := State(st.nodes, ParentOf(st.nodes, st.node), s1.index + 1);
    SkipText(sb, s2, ending);
    after := s2.(index := s2.index + |ending|);
    ReachesTrans(sb, st, s1, s2);
    ReachesTrans(sb, st, s2, after);
  }

  /** `  {` inside the root list: an empty dictionary is appended to the list and the cursor descends into it. */
  lemma ObjectOpenRun(sb: seq<char>, st: State, ds: seq<NodeRef>) returns (after: State)
    requires 0 <= st.index && TreeShape(st.nodes, st.node) && st.node == Some(0)
    requires st.nodes[0] == ListNode(Some(ds), None) && TextAt(sb, st.index, Tab2 + "{")
    ensures Reaches(sb, st, after) && after.index == st.index + 3
    ensures after.node == Some(|st.nodes|) && |after.nodes| == |st.nodes| + 1 && Keeps(st.nodes, after.nodes, 0)
    ensures after.nodes[0] == ListNode(Some(ds + [|st.nodes|]), None)
    ensures after.nodes[|st.nodes|] == DictionaryNode(Some(map[]), Some(0), None)
  {
    var n := |st.nodes|;
    TextParts(sb, st.index, Tab2, "{");
    SkipText(sb, st, Tab2);
    var s1 := st.(index := st.index + |Tab2|);
    assert sb[s1.index] == ObjectStart by { assert TextAt(sb, s1.index, "{"); }
    AttachItem(st.nodes, 0, NewDictionaryNode(Some(0)));
    OpenStep(sb, s1);
    after := State((st.nodes + [NewDictionaryNode(Some(0))])[0 := ListNode(Some(ds + [n]), None)], Some(n), s1.index + 1);
    ReachesTrans(sb, st, s1, after);
  }

  // ------------------------------------------------------------ one product

  /** A product the round trip gives back (see RoundTrip). */
  predicate Survives(p: Product, priceText: real -> string) {
    ScalarsSurvive(p, priceText) && ReviewsSurvive(p)
  }

  /**
   * The scalar fields read back as themselves: no negative count (the
   * scan drops a leading minus sign), a name and a category that are whole
   * string tokens, and a price whose text reads back as the price.
   */
  predicate ScalarsSurvive(p: Product, priceText: real -> string) {
    && p.id >= 0 && p.quantityInStock >= 0
    && p.name.Some? && WholeString(p.name.value)
    && p.category.Some? && WholeString(p.category.value)
    && NumberText(priceText(p.price)) && ParseDecimal(priceText(p.price)) == Some(p.price)
  }

  /** The reviews are a list, not null, of whole string tokens. */
  predicate ReviewsSurvive(p: Product) {
    p.reviews.Some? && forall j :: 0 <= j < |p.reviews.value| ==> WholeString(p.reviews.value[j])
  }

  /** The dictionary entries after the six scalar lines of a product whose dictionary is node d. */
  function FieldEntries(d: NodeRef): map<string, NodeRef> {
    map[][Quoted("product_id") := d + 2][Quoted("product_name") := d + 4][Quoted("category") := d + 6]
         [Quoted("price") := d + 8][Quoted("quantity_in_stock") := d + 10][Quoted("is_discounted") := d + 12]
  }

  /** The value nodes of the six scalar lines: each value right after its key. */
  predicate FieldValuesAt(nodes: seq<Node>, d: NodeRef, p: Product) {
    && d + 13 <= |nodes|
    && nodes[d + 2] == NumberNode(p.id as real, Some(d))
    && nodes[d + 4] == StringNode(p.name, None)
    && nodes[d + 6] == StringNode(p.category, None)
    && nodes[d + 8] == NumberNode(p.price, Some(d))
    && nodes[d + 10] == NumberNode(p.quantityInStock as real, Some(d))
    && nodes[d + 12] == BooleanNode(Some(p.isDiscounted), Some(d))
  }

  /** The indices from a, n of them. */
  function Refs(a: nat, n: nat): (r: seq<NodeRef>)
    ensures |r| == n && forall j :: 0 <= j < n ==> r[j] == a + j
  {
    seq(n, j => a + j)
  }

  /** The nodes the scan builds for one product's object, its dictionary at d. */
  predicate ProductAt(nodes: seq<Node>, d: NodeRef, p: Product) {
    && p.reviews.Some?
    && d + 15 + |p.reviews.value| <= |nodes|
    && nodes[d] == DictionaryNode(Some(FieldEntries(d)[Quoted("reviews") := d + 14]), Some(0), None)
    && FieldValuesAt(nodes, d, p)
    && nodes[d + 14] == ListNode(Some(Refs(d + 15, |p.reviews.value|)), Some(d))
    && forall j :: 0 <= j < |p.reviews.value| ==> nodes[d + 15 + j] == StringNode(Some(p.reviews.value[j]), None)
  }

  /** Keeping the nodes of a product's object keeps the product. */
  lemma ProductAtKept(before: seq<Node>, after: seq<Node>, d: NodeRef, p: Product)
    requires ProductAt(before, d, p) && Keeps(before, after, 0) && d >= 1
    ensures ProductAt(after, d, p)
  {
    var n := |p.reviews.value|;
    assert forall j :: d <= j < d + 15 + n ==> after[j] == before[j];
    forall j | 0 <= j < n ensures after[d + 15 + j] == StringNode(Some(p.reviews.value[j]), None) {
      assert after[d + 15 + j] == before[d + 15 + j];
    }
  }

  /** The projection reads a product's object back as that product. */
  lemma ProductOfBlock(nodes: seq<Node>, d: NodeRef, p: Product)
    requires Ordered(nodes) && ProductAt(nodes, d, p) && p.name.Some? && p.category.Some?
    ensures ProductOf(nodes, d) == p
  {
    var rs := p.reviews.value;
    var items := Refs(d + 15, |rs|);
    assert Field(nodes, d, "product_id") == Some(nodes[d + 2]);
    assert Field(nodes, d, "product_name") == Some(nodes[d + 4]);
    assert Field(nodes, d, "category") == Some(nodes[d + 6]);
    assert Field(nodes, d, "price") == Some(nodes[d + 8]);
    assert Field(nodes, d, "quantity_in_stock") == Some(nodes[d + 10]);
    assert Field(nodes, d, "is_discounted") == Some(nodes[d + 12]);
    assert Field(nodes, d, "reviews") == Some(nodes[d + 14]);
    assert InArena(nodes, items);
    forall k | 0 <= k < |items| ensures nodes[items[k]] == StringNode(Some(rs[k]), None) {
      assert items[k] == d + 15 + k;
    }
    StringTextsOfStrings(nodes, items);
    assert ReviewsOf(nodes, d) == rs;
  }

  /** One line `    "key": value,` found at its place among the lines. */
  lemma FieldRun(lines: seq<string>, t: nat, st: State, key: string, v: string, x: Node, at: nat) returns (after: State)
    requires t < |lines| && lines[t] == KeyValueLine(key, Some(v)) && st.index == Pos(lines, t)
    requires TreeShape(st.nodes, st.node) && st.node.Some? && AwaitsKey(st.nodes, st.node.value)
    requires WholeString(Quoted(key)) && ValueToken(v, x, st.node.value) && at == |st.nodes| + 1
    ensures Reaches(Concat(lines), st, after) && after.index == Pos(lines, t + 1)
    ensures after.node == st.node && |after.nodes| == at + 1 && Keeps(st.nodes, after.nodes, st.node.value)
    ensures after.nodes[at] == x
    ensures var dict := st.nodes[st.node.value];
      after.nodes[st.node.value] == dict.(entries := Some(dict.entries.value[Quoted(key) := at]))
  {
    LineText(lines, t);
    KeyValueLineIs(key, v);
    after := KeyValueRun(Concat(lines), st, key, v, x, at);
  }

  /** The writer's key/value line, read as indentation, quoted key, `": "`, value and comma. */
  lemma KeyValueLineIs(key: string, v: string)
    ensures KeyValueLine(key, Some(v)) == Tab4 + Quoted(key) + ": " + v + ","
  {
    KeyValueLineText(key, Some(v), "\"" + key + "\": ");
    assert Tab4 + ("\"" + key + "\": ") + v == Tab4 + Quoted(key) + ": " + v;
  }

  /** The keys the writer prints are read back whole. */
  lemma KeysAreWhole()
    ensures WholeString(Quoted("product_id")) && WholeString(Quoted("product_name"))
    ensures WholeString(Quoted("category")) && WholeString(Quoted("price"))
    ensures WholeString(Quoted("quantity_in_stock")) && WholeString(Quoted("is_discounted"))
    ensures WholeString(Quoted("reviews"))
  {
    QuotedKeyIsWhole("product_id");
    QuotedKeyIsWhole("product_name");
    QuotedKeyIsWhole("category");
    QuotedKeyIsWhole("price");
    QuotedKeyIsWhole("quantity_in_stock");
    QuotedKeyIsWhole("is_discounted");
    QuotedKeyIsWhole("reviews");
  }

  /** A whole number the writer prints is a number token that reads back as itself. */
  lemma CountIsToken(n: int, d: NodeRef)
    requires n >= 0
    ensures ValueToken(IntToString(n), NumberNode(n as real, Some(d)), d)
  {
    ParseDecimalOfNatToString(n);
  }

  /** The six scalar lines of a product, each a key/value line, from line t on. */
  predicate FieldLinesAt(lines: seq<string>, t: nat, p: Product, priceText: real -> string)
    requires t + 6 <= |lines|
  {
    && lines[t] == KeyValueLine("product_id", Some(IntToString(p.id)))
    && lines[t + 1] == KeyValueLine("product_name", p.name)
    && lines[t + 2] == KeyValueLine("category", p.category)
    && lines[t + 3] == KeyValueLine("price", Some(priceText(p.price)))
    && lines[t + 4] == KeyValueLine("quantity_in_stock", Some(IntToString(p.quantityInStock)))
    && lines[t + 5] == KeyValueLine("is_discounted", Some(if p.isDiscounted then BooleanTrue else BooleanFalse))
  }

  /** FieldLines is six key/value lines. */
  lemma FieldLinesAreKeyValues(lines: seq<string>, t: nat, p: Product, priceText: real -> string)
    requires t + 6 <= |lines| && lines[t..t + 6] == FieldLines(p, priceText)
    ensures FieldLinesAt(lines, t, p, priceText)
  {
    var f := FieldLines(p, priceText);
    assert LinesAt(lines, t, f);
    LineOf(lines, t, f, 0);
    LineOf(lines, t, f, 1);
    LineOf(lines, t, f, 2);
    LineOf(lines, t, f, 3);
    LineOf(lines, t, f, 4);
    LineOf(lines, t, f, 5);
    DiscountedLine(p.isDiscounted);
  }

  /** The writer's `is_discounted` line is the key/value line of the boolean literal. */
  lemma DiscountedLine(b: bool)
    ensures Tab4 + "\"is_discounted\": " + (if b then "true" else "false") + ","
         == KeyValueLine("is_discounted", Some(if b then BooleanTrue else BooleanFalse))
  {
    KeyValueLineText("is_discounted", Some(if b then BooleanTrue else BooleanFalse), "\"is_discounted\": ");
  }

  /** The six scalar lines of a surviving product fill its empty dictionary at d. */
  lemma FieldsRun(lines: seq<string>, t: nat, st: State, p: Product, priceText: real -> string) returns (after: State)
    requires ScalarsSurvive(p, priceText) && t + 6 <= |lines| && FieldLinesAt(lines, t, p, priceText)
    requires st.index == Pos(lines, t) && TreeShape(st.nodes, st.node) && st.node == Some(|st.nodes| - 1)
    requires st.nodes[|st.nodes| - 1] == DictionaryNode(Some(map[]), Some(0), None)
    ensures Reaches(Concat(lines), st, after) && after.index == Pos(lines, t + 6)
    ensures after.node == st.node && |after.nodes| == |st.nodes| + 12 && Keeps(st.nodes, after.nodes, |st.nodes| - 1)
    ensures var d := |st.nodes| - 1;
      after.nodes[d] == DictionaryNode(Some(FieldEntries(d)), Some(0), None) && FieldValuesAt(after.nodes, d, p)
  {
    var sb, d := Concat(lines), |st.nodes| - 1;
    KeysAreWhole();
    CountIsToken(p.id, d);
    CountIsToken(p.quantityInStock, d);
    var s1 := FieldRun(lines, t, st, "product_id", IntToString(p.id), NumberNode(p.id as real, Some(d)), d + 2);
    var s2 := FieldRun(lines, t + 1, s1, "product_name", p.name.value, StringNode(p.name, None), d + 4);
    var s3 := FieldRun(lines, t + 2, s2, "category", p.category.value, StringNode(p.category, None), d + 6);
    var s4 := FieldRun(lines, t + 3, s3, "price", priceText(p.price), NumberNode(p.price, Some(d)), d + 8);
    var s5 := FieldRun(lines, t + 4, s4, "quantity_in_stock", IntToString(p.quantityInStock),
                       NumberNode(p.quantityInStock as real, Some(d)), d + 10);
    var lit := if p.isDiscounted then BooleanTrue else BooleanFalse;
    after := FieldRun(lines, t + 5, s5, "is_discounted", lit, BooleanNode(Some(p.isDiscounted), Some(d)), d + 12);
    ReachesTrans(sb, st, s1, s2);
    ReachesTrans(sb, st, s2, s3);
    ReachesTrans(sb, st, s3, s4);
    ReachesTrans(sb, st, s4, s5);
    ReachesTrans(sb, st, s5, after);
  }

  // ------------------------------------------------------------ reviews

  /** The review lines from line t on: six spaces, the review, a comma on every line but the last. */
  predicate ReviewLinesAt(lines: seq<string>, t: nat, rs: seq<string>) {
    && t + |rs| <= |lines|
    && forall k :: 0 <= k < |rs| ==> lines[t + k] == Tab2 + Tab4 + rs[k] + (if k < |rs| - 1 then "," else "")
  }

  /** The first j review lines append one string each to the list at the cursor. */
  lemma {:induction false} ReviewsRun(lines: seq<string>, t: nat, st: State, rs: seq<string>, j: nat) returns (after: State)
    requires ReviewLinesAt(lines, t, rs) && j <= |rs| && forall k :: 0 <= k < |rs| ==> WholeString(rs[k])
    requires st.index == Pos(lines, t) && TreeShape(st.nodes, st.node) && st.node == Some(|st.nodes| - 1)
    requires st.nodes[|st.nodes| - 1].ListNode? && st.nodes[|st.nodes| - 1].items == Some([])
    ensures Reaches(Concat(lines), st, after) && after.index == Pos(lines, t + j)
    ensures var c := |st.nodes| - 1;
      && after.node == st.node && |after.nodes| == |st.nodes| + j && Keeps(st.nodes, after.nodes, c)
      && after.nodes[c] == st.nodes[c].(items := Some(Refs(c + 1, j)))
      && forall k :: 0 <= k < j ==> after.nodes[c + 1 + k] == StringNode(Some(rs[k]), None)
    decreases j
  {
    var sb, c := Concat(lines), |st.nodes| - 1;
    if j == 0 {
      PosBound(lines, t);
      assert Refs(c + 1, 0) == [];
      after := st;
    } else {
      var mid := ReviewsRun(lines, t, st, rs, j - 1);
      LineText(lines, t + j - 1);
      var ending := if j - 1 < |rs| - 1 then "," else "";
      after := ItemRun(sb, mid, rs[j - 1], ending);
      assert Refs(c + 1, j) == Refs(c + 1, j - 1) + [c + j];
      ReachesTrans(sb, st, mid, after);
      forall k | 0 <= k < j ensures after.nodes[c + 1 + k] == StringNode(Some(rs[k]), None) {
        if k < j - 1 {
          assert after.nodes[c + 1 + k] == mid.nodes[c + 1 + k];
        }
      }
    }
  }

  /** `    "reviews": [`, the review lines, `    ]`: a list of the reviews stored under "reviews". */
  lemma ReviewsSectionRun(lines: seq<string>, t: nat, st: State, rs: seq<string>) returns (after: State)
    requires t + |rs| + 2 <= |lines| && forall k :: 0 <= k < |rs| ==> WholeString(rs[k])
    requires lines[t] == Tab4 + "\"reviews\": [" && ReviewLinesAt(lines, t + 1, rs) && lines[t + 1 + |rs|] == Tab4 + "]"
    requires st.index == Pos(lines, t) && TreeShape(st.nodes, st.node) && st.node.Some? && AwaitsKey(st.nodes, st.node.value)
    ensures Reaches(Concat(lines), st, after) && after.index == Pos(lines, t + |rs| + 2)
    ensures var d, n := st.node.value, |st.nodes|;
      && after.node == st.node && |after.nodes| == n + 2 + |rs| && Keeps(st.nodes, after.nodes, d)
      && after.nodes[d] == st.nodes[d].(entries := Some(st.nodes[d].entries.value[Quoted("reviews") := n + 1]))
      && after.nodes[n + 1] == ListNode(Some(Refs(n + 2, |rs|)), Some(d))
      && forall k :: 0 <= k < |rs| ==> after.nodes[n + 2 + k] == StringNode(Some(rs[k]), None)
  {
    var sb, d, n := Concat(lines), st.node.value, |st.nodes|;
    KeysAreWhole();
    LineText(lines, t);
    assert lines[t] == Tab4 + Quoted("reviews") + ": [";
    var s1 := ListKeyRun(sb, st, "reviews");
    var s2 := ReviewsRun(lines, t + 1, s1, rs, |rs|);
    LineText(lines, t + 1 + |rs|);
    assert lines[t + 1 + |rs|] == Tab4 + [ArrayEnd] + "";
    after := CloseRun(sb, s2, Tab4, ArrayEnd, "");
    ReachesTrans(sb, st, s1, s2);
    ReachesTrans(sb, st, s2, after);
  }

  // ------------------------------------------------------------ one product

  /** `  {` and the six scalar lines of product p from line t on. */
  predicate HeadLinesAt(lines: seq<string>, t: nat, p: Product, priceText: real -> string) {
    t + 7 <= |lines| && lines[t] == Tab2 + "{" && FieldLinesAt(lines, t + 1, p, priceText)
  }

  /** The reviews section and the closing `  }` of the object at position i, from line t on. */
  predicate TailLinesAt(lines: seq<string>, t: nat, rs: seq<string>, i: int, last: int) {
    && t + 3 + |rs| <= |lines|
    && lines[t] == Tab4 + "\"reviews\": ["
    && ReviewLinesAt(lines, t + 1, rs)
    && lines[t + 1 + |rs|] == Tab4 + "]"
    && lines[t + 2 + |rs|] == Tab2 + "}" + Ending(i, last)
  }

  /** An object laid out as ProductLines lays it out starts with the head lines ... */
  lemma HeadLinesOf(lines: seq<string>, t: nat, p: Product, priceText: real -> string, rb: seq<string>, close: string)
    requires LinesAt(lines, t, [Tab2 + "{"] + FieldLines(p, priceText) + rb + [close])
    ensures HeadLinesAt(lines, t, p, priceText)
  {
    var open, f := [Tab2 + "{"], FieldLines(p, priceText);
    LinesAtSplit(lines, t, open + f + rb, [close]);
    LinesAtSplit(lines, t, open + f, rb);
    LinesAtSplit(lines, t, open, f);
    LineOf(lines, t, open, 0);
    FieldLinesAreKeyValues(lines, t + 1, p, priceText);
  }

  /** ... and ends with the tail lines, seven lines further on. */
  lemma TailLinesOf(lines: seq<string>, t: nat, f: seq<string>, rs: seq<string>, i: int, last: int)
    requires |f| == 6 && LinesAt(lines, t, [Tab2 + "{"] + f + ReviewsBlock(Some(rs)) + [Tab2 + "}" + Ending(i, last)])
    ensures TailLinesAt(lines, t + 7, rs, i, last)
  {
    LinesAfter(lines, t, [Tab2 + "{"] + f, ReviewsBlock(Some(rs)), Tab2 + "}" + Ending(i, last));
    ReviewsBlockAt(lines, t + 7, rs);
  }

  /** Where head + middle + [last] occurs, the middle and the last line follow the head. */
  lemma LinesAfter(lines: seq<string>, t: nat, head: seq<string>, middle: seq<string>, last: string)
    requires LinesAt(lines, t, head + middle + [last])
    ensures LinesAt(lines, t + |head|, middle) && t + |head| + |middle| < |lines| && lines[t + |head| + |middle|] == last
  {
    LinesAtSplit(lines, t, head + middle, [last]);
    LinesAtSplit(lines, t, head, middle);
    LineOf(lines, t + |head + middle|, [last], 0);
  }

  /** The lines of a reviews block that is not null. */
  lemma ReviewsBlockAt(lines: seq<string>, t: nat, rs: seq<string>)
    requires LinesAt(lines, t, ReviewsBlock(Some(rs)))
    ensures t + 2 + |rs| <= |lines| && lines[t] == Tab4 + "\"reviews\": ["
    ensures ReviewLinesAt(lines, t + 1, rs) && lines[t + 1 + |rs|] == Tab4 + "]"
  {
    var open, r, close := [Tab4 + "\"reviews\": ["], ReviewLines(rs), [Tab4 + "]"];
    LinesAtSplit(lines, t, open + r, close);
    LinesAtSplit(lines, t, open, r);
    LineOf(lines, t, open, 0);
    LineOf(lines, t + 1 + |rs|, close, 0);
    forall k | 0 <= k < |rs| ensures lines[t + 1 + k] == Tab2 + Tab4 + rs[k] + (if k < |rs| - 1 then "," else "") {
      LineOf(lines, t + 1, r, k);
    }
  }

  /** `  {` and the six scalar lines: a dictionary holding the scalar fields, appended to the root list. */
  lemma ProductHeadRun(lines: seq<string>, t: nat, st: State, p: Product, priceText: real -> string, ds: seq<NodeRef>)
    returns (after: State)
    requires ScalarsSurvive(p, priceText) && HeadLinesAt(lines, t, p, priceText)
    requires st.index == Pos(lines, t) && TreeShape(st.nodes, st.node) && st.node == Some(0)
    requires st.nodes[0] == ListNode(Some(ds), None)
    ensures Reaches(Concat(lines), st, after) && after.index == Pos(lines, t + 7)
    ensures var d := |st.nodes|;
      && after.node == Some(d) && |after.nodes| == d + 13 && Keeps(st.nodes, after.nodes, 0)
      && after.nodes[0] == ListNode(Some(ds + [d]), None)
      && after.nodes[d] == DictionaryNode(Some(FieldEntries(d)), Some(0), None) && FieldValuesAt(after.nodes, d, p)
  {
    var sb := Concat(lines);
    LineText(lines, t);
    var s0 := ObjectOpenRun(sb, st, ds);
    after := FieldsRun(lines, t + 1, s0, p, priceText);
    ReachesTrans(sb, st, s0, after);
  }

  /** The reviews section and `  }`: the reviews list completes the dictionary, and the cursor is back on the root. */
  lemma ProductTailRun(lines: seq<string>, t: nat, next: nat, st: State, d: NodeRef, rs: seq<string>, i: int, last: int)
    returns (after: State)
    requires (forall k :: 0 <= k < |rs| ==> WholeString(rs[k])) && TailLinesAt(lines, t, rs, i, last) && next == t + 3 + |rs|
    requires st.index == Pos(lines, t) && TreeShape(st.nodes, st.node) && st.node == Some(d)
    requires d >= 1 && |st.nodes| == d + 13 && st.nodes[d] == DictionaryNode(Some(FieldEntries(d)), Some(0), None)
    ensures Reaches(Concat(lines), st, after) && after.index == Pos(lines, next)
    ensures after.node == Some(0) && |after.nodes| == |st.nodes| + 2 + |rs| && Keeps(st.nodes, after.nodes, d)
      && after.nodes[d] == DictionaryNode(Some(FieldEntries(d)[Quoted("reviews") := d + 14]), Some(0), None)
      && after.nodes[d + 14] == ListNode(Some(Refs(d + 15, |rs|)), Some(d))
      && forall k :: 0 <= k < |rs| ==> after.nodes[d + 15 + k] == StringNode(Some(rs[k]), None)
  {
    var sb, e, close := Concat(lines), t + 2 + |rs|, Tab2 + [ObjectEnd] + Ending(i, last);
    var s1 := ReviewsSectionRun(lines, t, st, rs);
    assert s1.index == Pos(lines, e);
    LineText(lines, e);
    assert lines[e] == close;
    after := CloseRun(sb, s1, Tab2, ObjectEnd, Ending(i, last));
    ReachesTrans(sb, st, s1, after);
  }

  /** Keeping the scalar fields through the tail gives ProductAt. */
  lemma ProductNodes(n1: seq<Node>, n2: seq<Node>, d: NodeRef, p: Product)
    requires p.reviews.Some? && |n1| == d + 13 && FieldValuesAt(n1, d, p)
    requires var rs := p.reviews.value;
      && |n2| == |n1| + 2 + |rs| && Keeps(n1, n2, d)
      && n2[d] == DictionaryNode(Some(FieldEntries(d)[Quoted("reviews") := d + 14]), Some(0), None)
      && n2[d + 14] == ListNode(Some(Refs(d + 15, |rs|)), Some(d))
      && forall k :: 0 <= k < |rs| ==> n2[d + 15 + k] == StringNode(Some(rs[k]), None)
    ensures ProductAt(n2, d, p)
  {
    assert forall j :: d + 2 <= j <= d + 12 ==> n2[j] == n1[j];
  }

  /** One surviving product's lines add its object to the root list, as ProductAt lays it out. */
  lemma ProductRun(lines: seq<string>, t: nat, next: nat, st: State, p: Product, i: int, last: int,
                   priceText: real -> string, ds: seq<NodeRef>) returns (after: State)
    requires Survives(p, priceText) && LinesAt(lines, t, ProductLines(p, i, last, priceText)) && next == t + LineCount(p)
    requires st.index == Pos(lines, t) && TreeShape(st.nodes, st.node) && st.node == Some(0)
    requires st.nodes[0] == ListNode(Some(ds), None)
    ensures Reaches(Concat(lines), st, after) && after.index == Pos(lines, next)
    ensures after.node == Some(0) && after.nodes[0] == ListNode(Some(ds + [|st.nodes|]), None)
    ensures Keeps(st.nodes, after.nodes, 0) && ProductAt(after.nodes, |st.nodes|, p)
  {
    var sb, d, rs := Concat(lines), |st.nodes|, p.reviews.value;
    var close := Tab2 + "}" + Ending(i, last);
    assert ProductLines(p, i, last, priceText) == [Tab2 + "{"] + FieldLines(p, priceText) + ReviewsBlock(Some(rs)) + [close];
    HeadLinesOf(lines, t, p, priceText, ReviewsBlock(Some(rs)), close);
    TailLinesOf(lines, t, FieldLines(p, priceText), rs, i, last);
    var s1 := ProductHeadRun(lines, t, st, p, priceText, ds);
    after := ProductTailRun(lines, t + 7, next, s1, d, rs, i, last);
    ReachesTrans(sb, st, s1, after);
    ProductNodes(s1.nodes, after.nodes, d, p);
    KeepsTrans(st.nodes, s1.nodes, after.nodes, d);
    assert after.nodes[0] == s1.nodes[0];
  }

  // ------------------------------------------------------------ the whole output

  /** The opening `[` starts the root list. */
  lemma RootOpenRun(lines: seq<string>) returns (st: State)
    requires |lines| > 0 && lines[0] == "["
    ensures Reaches(Concat(lines), State([], None, 0), st) && st.index == Pos(lines, 1)
    ensures st == State([ListNode(Some([]), None)], Some(0), 1)
  {
    var sb := Concat(lines);
    LineText(lines, 0);
    assert lines[..0] == [];
    assert sb[0] == sb[0..1][0] == ArrayStart;
    var root := NewListNode(None);
    assert root == ListNode(Some([]), None);
    assert [] + [root] == [root];
    assert Independent([], None, ArrayStart) == Ok(([root], Some(0)));
    OpenStep(sb, State([], None, 0));
    st := State([ListNode(Some([]), None)], Some(0), 1);
  }

  /** The dictionaries ds hold the first |ds| products, in order. */
  ghost predicate ProductsAt(nodes: seq<Node>, ds: seq<NodeRef>, products: seq<Product>) {
    && |ds| <= |products|
    && forall j {:trigger ProductAt(nodes, ds[j], products[j])} :: 0 <= j < |ds| ==> 1 <= ds[j] && ProductAt(nodes, ds[j], products[j])
  }

  /** Keeping the nodes of the products read so far keeps all of them. */
  lemma ProductsKept(before: seq<Node>, after: seq<Node>, ds: seq<NodeRef>, products: seq<Product>)
    requires ProductsAt(before, ds, products) && Keeps(before, after, 0)
    ensures ProductsAt(after, ds, products)
  {
    forall j | 0 <= j < |ds| ensures 1 <= ds[j] && ProductAt(after, ds[j], products[j]) {
      ProductAtKept(before, after, ds[j], products[j]);
    }
  }

  /** One more product read. */
  lemma ProductsAtAppend(nodes: seq<Node>, ds: seq<NodeRef>, d: NodeRef, products: seq<Product>)
    requires ProductsAt(nodes, ds, products) && |ds| < |products| && 1 <= d && ProductAt(nodes, d, products[|ds|])
    ensures ProductsAt(nodes, ds + [d], products)
  {
    var ds' := ds + [d];
    forall j | 0 <= j < |ds'| ensures 1 <= ds'[j] && ProductAt(nodes, ds'[j], products[j]) {
      if j < |ds| {
        assert ds'[j] == ds[j] && ProductAt(nodes, ds[j], products[j]);
      }
    }
  }

  /**
   * The writer's output as the scan meets it: `[`, then block k at line
   * 1 + Offset(blocks, k) with the layout of product k's object, then `]`.
   */
  ghost predicate Layout(lines: seq<string>, blocks: seq<seq<string>>, products: seq<Product>, priceText: real -> string) {
    && |blocks| == |products| && |lines| == Offset(blocks, |blocks|) + 2
    && lines[0] == "[" && lines[|lines| - 1] == "]"
    && forall k :: 0 <= k < |blocks| ==> BlockAt(lines, blocks, products, priceText, k)
  }

  /** Block k sits right after the blocks before it, and it is product k's object. */
  ghost predicate BlockAt(lines: seq<string>, blocks: seq<seq<string>>, products: seq<Product>, priceText: real -> string,
                          k: nat) {
    && k < |blocks| && k < |products|
    && Offset(blocks, k + 1) == Offset(blocks, k) + |blocks[k]|
    && LinesAt(lines, 1 + Offset(blocks, k), blocks[k])
    && blocks[k] == ProductLines(products[k], k, |products| - 1, priceText)
  }

  /** WriteJson's output has that layout. */
  lemma JsonLinesLayout(products: seq<Product>, priceText: real -> string)
    ensures Layout(JsonLines(products, priceText), ProductBlocks(products, priceText), products, priceText)
  {
    var lines, blocks := JsonLines(products, priceText), ProductBlocks(products, priceText);
    FlattenLength(blocks);
    forall k | 0 <= k < |blocks| ensures BlockAt(lines, blocks, products, priceText, k) {
      FramedBlock("[", blocks, "]", k);
    }
  }

  /** The scan has read the first t lines: the root list holds the dictionaries ds, one per product read. */
  ghost predicate ReadSoFar(lines: seq<string>, t: nat, st: State, ds: seq<NodeRef>, products: seq<Product>) {
    && t <= |lines| && Reaches(Concat(lines), State([], None, 0), st) && st.index == Pos(lines, t)
    && st.node == Some(0) && st.nodes[0] == ListNode(Some(ds), None) && ProductsAt(st.nodes, ds, products)
  }

  /** The lines of product |ds|, from line t to line next, add its dictionary to the root list. */
  lemma ProductStep(lines: seq<string>, t: nat, next: nat, st0: State, ds0: seq<NodeRef>, products: seq<Product>,
                    priceText: real -> string) returns (st: State, ds: seq<NodeRef>)
    requires ReadSoFar(lines, t, st0, ds0, products) && |ds0| < |products|
    requires var p := products[|ds0|];
      Survives(p, priceText) && LinesAt(lines, t, ProductLines(p, |ds0|, |products| - 1, priceText)) && next == t + LineCount(p)
    ensures |ds| == |ds0| + 1 && ReadSoFar(lines, next, st, ds, products)
  {
    var i := |ds0|;
    st := ProductRun(lines, t, next, st0, products[i], i, |products| - 1, priceText, ds0);
    ReachesTrans(Concat(lines), State([], None, 0), st0, st);
    ds := ds0 + [|st0.nodes|];
    ProductsKept(st0.nodes, st.nodes, ds0, products);
    ProductsAtAppend(st.nodes, ds0, |st0.nodes|, products);
  }

  /** The same, with the lines of product |ds0| found through the layout: they end at line t. */
  lemma NextProductRun(lines: seq<string>, blocks: seq<seq<string>>, t0: nat, st0: State, ds0: seq<NodeRef>,
                       products: seq<Product>, priceText: real -> string) returns (t: nat, st: State, ds: seq<NodeRef>)
    requires Layout(lines, blocks, products, priceText) && |ds0| < |products| && Survives(products[|ds0|], priceText)
    requires t0 == 1 + Offset(blocks, |ds0|) && ReadSoFar(lines, t0, st0, ds0, products)
    ensures |ds| == |ds0| + 1 && t == 1 + Offset(blocks, |ds|) && ReadSoFar(lines, t, st, ds, products)
  {
    BlockOf(lines, blocks, products, priceText, |ds0|);
    t := 1 + Offset(blocks, |ds0| + 1);
    st, ds := ProductStep(lines, t0, t, st0, ds0, products, priceText);
  }

  /** Where block k is and how long it is. */
  lemma BlockOf(lines: seq<string>, blocks: seq<seq<string>>, products: seq<Product>, priceText: real -> string, k: nat)
    requires Layout(lines, blocks, products, priceText) && k < |products|
    ensures LinesAt(lines, 1 + Offset(blocks, k), ProductLines(products[k], k, |products| - 1, priceText))
    ensures 1 + Offset(blocks, k + 1) == 1 + Offset(blocks, k) + LineCount(products[k])
  {
    assert BlockAt(lines, blocks, products, priceText, k);
    ProductLinesCount(products[k], k, |products| - 1, priceText);
  }

  /** `[` opens the root list, with no product read yet. */
  lemma StartRun(lines: seq<string>, blocks: seq<seq<string>>, products: seq<Product>, priceText: real -> string)
    returns (t: nat, st: State)
    requires Layout(lines, blocks, products, priceText)
    ensures t == 1 + Offset(blocks, 0) && ReadSoFar(lines, t, st, [], products)
  {
    OffsetGrows(blocks, 0, |blocks|);
    t := 1;
    st := RootOpenRun(lines);
  }

  /** `[` and the first k products, up to line t: a root list holding one dictionary per product, in order. */
  lemma {:induction false} ProductsRun(lines: seq<string>, blocks: seq<seq<string>>, products: seq<Product>,
                                       priceText: real -> string, k: nat) returns (t: nat, st: State, ds: seq<NodeRef>)
    requires Layout(lines, blocks, products, priceText) && k <= |products|
    requires forall j {:trigger Survives(products[j], priceText)} :: 0 <= j < k ==> Survives(products[j], priceText)
    ensures |ds| == k && t == 1 + Offset(blocks, |ds|) && ReadSoFar(lines, t, st, ds, products)
  {
    if k == 0 {
      t, st := StartRun(lines, blocks, products, priceText);
      ds := [];
    } else {
      var t0, st0, ds0 := ProductsRun(lines, blocks, products, priceText, k - 1);
      assert Survives(products[|ds0|], priceText);
      t, st, ds := NextProductRun(lines, blocks, t0, st0, ds0, products, priceText);
    }
  }

  /** The scan of the whole output ends on the root list, holding one dictionary per product. */
  lemma ScanAll(lines: seq<string>, blocks: seq<seq<string>>, products: seq<Product>, priceText: real -> string)
    returns (fin: State, ds: seq<NodeRef>)
    requires Layout(lines, blocks, products, priceText)
    requires forall j {:trigger Survives(products[j], priceText)} :: 0 <= j < |products| ==> Survives(products[j], priceText)
    ensures Parse(Concat(lines)) == Ok(fin) && fin.node == Some(0) && fin.nodes[0] == ListNode(Some(ds), None)
    ensures |ds| == |products| && ProductsAt(fin.nodes, ds, products)
  {
    var sb, start := Concat(lines), State([], None, 0);
    var t, st;
    t, st, ds := ProductsRun(lines, blocks, products, priceText, |products|);
    LineText(lines, |lines| - 1);
    assert lines[|lines| - 1] == "" + [ArrayEnd] + "";
    fin := CloseRun(sb, st, "", ArrayEnd, "");
    PosEnd(lines);
    ReachesTrans(sb, start, st, fin);
    ReachesRun(sb, start, fin);
  }

  /** A root list of the dictionaries of the products, each with a name and a category, projects to the products. */
  lemma ProjectProducts(nodes: seq<Node>, ds: seq<NodeRef>, products: seq<Product>)
    requires Ordered(nodes) && |nodes| > 0 && nodes[0] == ListNode(Some(ds), None)
    requires |ds| == |products| && ProductsAt(nodes, ds, products)
    requires forall j :: 0 <= j < |products| ==> products[j].name.Some? && products[j].category.Some?
    ensures Project(nodes, Some(0)) == products
  {
    forall j | 0 <= j < |ds| ensures ds[j] < |nodes| && nodes[ds[j]].DictionaryNode? && ProductOf(nodes, ds[j]) == products[j] {
      assert ProductAt(nodes, ds[j], products[j]);
      ProductOfBlock(nodes, ds[j], products[j]);
    }
    ProjectListOfDictionaries(nodes, 0);
  }

  /**
   * Reading back what WriteJson printed gives the same products, in the
   * same order, as long as every product survives the text.
   */
  lemma RoundTrip(products: seq<Product>, priceText: real -> string)
    requires forall j {:trigger Survives(products[j], priceText)} :: 0 <= j < |products| ==> Survives(products[j], priceText)
    ensures ReadJsonResult(JsonLines(products, priceText)) == Ok(products)
  {
    var lines, blocks := JsonLines(products, priceText), ProductBlocks(products, priceText);
    forall j | 0 <= j < |products|
      ensures products[j].reviews.Some? && products[j].name.Some? && products[j].category.Some?
    {
      assert Survives(products[j], priceText);
    }
    JsonLinesLayout(products, priceText);
    var fin, ds := ScanAll(lines, blocks, products, priceText);
    ProjectProducts(fin.nodes, ds, products);
  }

  // ------------------------------------------------------------ where the round trip fails

  /** `    "key": ,`: a null value prints nothing, and the key is left pending. */
  lemma NullValueLineRun(sb: seq<char>, st: State, key: string) returns (after: State)
    requires 0 <= st.index && TreeShape(st.nodes, st.node) && st.node.Some? && AwaitsKey(st.nodes, st.node.value)
    requires WholeString(Quoted(key)) && TextAt(sb, st.index, Tab4 + Quoted(key) + ": " + ",")
    ensures Reaches(sb, st, after) && after.index == st.index + |Tab4 + Quoted(key) + ": " + ","|
    ensures after.node == st.node && after.nodes[st.node.value] == st.nodes[st.node.value].(pendingKey := Some(Quoted(key)))
  {
    TextParts(sb, st.index, Tab4 + Quoted(key) + ": ", ",");
    var s1 := KeyRun(sb, st, key);
    after := SkipRun(sb, s1, ",");
    ReachesTrans(sb, st, s1, after);
  }

  /** `    "key": ` after a pending key: the key token is taken as the pending key's value, and no key is left pending. */
  lemma KeyAsValueRun(sb: seq<char>, st: State, q: string) returns (after: State)
    requires 0 <= st.index && TreeShape(st.nodes, st.node) && st.node.Some?
    requires var dict := st.nodes[st.node.value];
      dict.DictionaryNode? && dict.entries.Some? && dict.pendingKey.Some?
    requires WholeString(q) && TextAt(sb, st.index, Tab4 + q + ": ")
    ensures Reaches(sb, st, after) && after.index == st.index + |Tab4 + q + ": "|
    ensures after.node == st.node && AwaitsKey(after.nodes, st.node.value)
  {
    TextParts(sb, st.index, Tab4 + q, ": ");
    TextParts(sb, st.index, Tab4, q);
    SkipText(sb, st, Tab4);
    var s1 := st.(index := st.index + |Tab4|);
    var s2 := StringValueStep(sb, s1, q);
    after := SkipRun(sb, s2, ": ");
    ReachesTrans(sb, st, s1, s2);
    ReachesTrans(sb, st, s2, after);
  }

  /** A string token after a pending key is the key's value, and no key is left pending. */
  lemma StringValueStep(sb: seq<char>, st: State, q: string) returns (after: State)
    requires 0 <= st.index && TreeShape(st.nodes, st.node) && st.node.Some?
    requires var dict := st.nodes[st.node.value];
      dict.DictionaryNode? && dict.entries.Some? && dict.pendingKey.Some?
    requires WholeString(q) && TextAt(sb, st.index, q)
    ensures Reaches(sb, st, after) && after.index == st.index + |q|
    ensures after.node == st.node && AwaitsKey(after.nodes, st.node.value)
  {
    StringTokenAt(sb, st.index, q);
    after := ValueStep(sb, st, q, StringNode(Some(q), None), |st.nodes|);
  }

  /** `    "key": "text",` after a pending key: the key is the value, and the text becomes the pending key. */
  lemma ShiftedLineRun(sb: seq<char>, st: State, q: string, w: string) returns (after: State)
    requires 0 <= st.index && TreeShape(st.nodes, st.node) && st.node.Some?
    requires var dict := st.nodes[st.node.value];
      dict.DictionaryNode? && dict.entries.Some? && dict.pendingKey.Some?
    requires WholeString(q) && WholeString(w) && TextAt(sb, st.index, Tab4 + q + ": " + w + ",")
    ensures Reaches(sb, st, after) && after.index == st.index + |Tab4 + q + ": " + w + ","|
    ensures after.node == st.node && st.node.value < |after.nodes|
    ensures var dict := after.nodes[st.node.value];
      dict.DictionaryNode? && dict.entries.Some? && dict.pendingKey == Some(w)
  {
    TextParts(sb, st.index, Tab4 + q + ": " + w, ",");
    TextParts(sb, st.index, Tab4 + q + ": ", w);
    var s1 := KeyAsValueRun(sb, st, q);
    var s2 := KeyStep(sb, s1, w);
    after := SkipRun(sb, s2, ",");
    ReachesTrans(sb, st, s1, s2);
    ReachesTrans(sb, st, s2, after);
  }

  /** A number at a dictionary waiting for a key stops the scan. */
  lemma NumberFails(sb: seq<char>, st: State, v: string)
    requires 0 <= st.index && TreeShape(st.nodes, st.node) && st.node.Some? && AwaitsKey(st.nodes, st.node.value)
    requires NumberText(v) && ParseDecimal(v).Some? && TextAt(sb, st.index, v + ",")
    ensures Run(sb, st) == Err(KeyIsNotString)
  {
    var d := st.node.value;
    var x := NumberNode(ParseDecimal(v).value, Some(d));
    assert ValueToken(v, x, d);
    ValueLeaf(sb, st.index, v, x, d);
    LeafFails(sb, st, v, x);
  }

  /** The key/value line of a null value. */
  lemma NullValueLine(key: string)
    ensures KeyValueLine(key, None) == Tab4 + Quoted(key) + ": " + ","
  {
    KeyValueLineText(key, None, "\"" + key + "\": ");
    assert Tab4 + ("\"" + key + "\": ") == Tab4 + Quoted(key) + ": ";
  }

  /** `  {` and the id line: a new dictionary in the root list, holding the id and waiting for a key. */
  lemma IdLineRun(lines: seq<string>, t: nat, st: State, id: int, ds: seq<NodeRef>) returns (after: State)
    requires id >= 0 && t + 2 <= |lines| && lines[t] == Tab2 + "{"
    requires lines[t + 1] == KeyValueLine("product_id", Some(IntToString(id)))
    requires st.index == Pos(lines, t) && TreeShape(st.nodes, st.node) && st.node == Some(0)
    requires st.nodes[0] == ListNode(Some(ds), None)
    ensures Reaches(Concat(lines), st, after) && after.index == Pos(lines, t + 2)
    ensures after.node == Some(|st.nodes|) && AwaitsKey(after.nodes, |st.nodes|)
  {
    var sb, d := Concat(lines), |st.nodes|;
    QuotedKeyIsWhole("product_id");
    CountIsToken(id, d);
    LineText(lines, t);
    var s0 := ObjectOpenRun(sb, st, ds);
    after := FieldRun(lines, t + 1, s0, "product_id", IntToString(id), NumberNode(id as real, Some(d)), d + 2);
    ReachesTrans(sb, st, s0, after);
  }

  /**
   * The object of a product with a null name: the category key becomes
   * the name's value, the category becomes a key, `"price"` its value, and
   * the price arrives with no key pending.
   */
  lemma NullNameRun(lines: seq<string>, t: nat, st: State, p: Product, priceText: real -> string, ds: seq<NodeRef>)
    requires p.id >= 0 && p.name.None? && p.category.Some? && WholeString(p.category.value)
    requires NumberText(priceText(p.price)) && ParseDecimal(priceText(p.price)).Some?
    requires HeadLinesAt(lines, t, p, priceText)
    requires st.index == Pos(lines, t) && TreeShape(st.nodes, st.node) && st.node == Some(0)
    requires st.nodes[0] == ListNode(Some(ds), None)
    ensures Run(Concat(lines), st) == Err(KeyIsNotString)
  {
    var sb, v := Concat(lines), priceText(p.price);
    var s1 := IdLineRun(lines, t, st, p.id, ds);
    NullValueLine("product_name");
    KeyValueLineIs("category", p.category.value);
    KeyValueLineIs("price", v);
    var s2 := ShiftedFieldsRun(lines, t + 2, s1, p.category.value, v);
    NumberFails(sb, s2, v);
    ReachesTrans(sb, st, s1, s2);
    ReachesRun(sb, st, s2);
  }

  /**
   * The null name line, then the category and price lines: the category
   * key is the name's value, the category a key with `"price"` as its
   * value, and the scan stands at the price with no key pending.
   */
  lemma ShiftedFieldsRun(lines: seq<string>, t: nat, st: State, w: string, v: string) returns (after: State)
    requires t + 3 <= |lines| && WholeString(w)
    requires lines[t] == Tab4 + Quoted("product_name") + ": " + ","
    requires lines[t + 1] == Tab4 + Quoted("category") + ": " + w + ","
    requires lines[t + 2] == Tab4 + Quoted("price") + ": " + v + ","
    requires st.index == Pos(lines, t) && TreeShape(st.nodes, st.node) && st.node.Some? && AwaitsKey(st.nodes, st.node.value)
    ensures Reaches(Concat(lines), st, after) && after.node.Some? && AwaitsKey(after.nodes, after.node.value)
    ensures TextAt(Concat(lines), after.index, v + ",")
  {
    var sb := Concat(lines);
    QuotedKeyIsWhole("product_name");
    QuotedKeyIsWhole("category");
    LineText(lines, t);
    var s1 := NullValueLineRun(sb, st, "product_name");
    LineText(lines, t + 1);
    var s2 := ShiftedLineRun(sb, s1, Quoted("category"), w);
    after := PriceAsValueRun(lines, t + 2, s2, v);
    ReachesTrans(sb, st, s1, s2);
    ReachesTrans(sb, st, s2, after);
  }

  /** `    "price": ` after a pending key: the price key is its value, and the price follows with no key pending. */
  lemma PriceAsValueRun(lines: seq<string>, t: nat, st: State, v: string) returns (after: State)
    requires t < |lines| && lines[t] == Tab4 + Quoted("price") + ": " + v + ","
    requires st.index == Pos(lines, t) && TreeShape(st.nodes, st.node) && st.node.Some?
    requires var dict := st.nodes[st.node.value];
      dict.DictionaryNode? && dict.entries.Some? && dict.pendingKey.Some?
    ensures Reaches(Concat(lines), st, after) && after.node.Some? && AwaitsKey(after.nodes, after.node.value)
    ensures TextAt(Concat(lines), after.index, v + ",")
  {
    var sb := Concat(lines);
    QuotedKeyIsWhole("price");
    LineText(lines, t);
    TextParts(sb, st.index, Tab4 + Quoted("price") + ": ", v + ",");
    after := KeyAsValueRun(sb, st, Quoted("price"));
  }

  /** The head lines of block k. */
  lemma HeadOfBlock(lines: seq<string>, blocks: seq<seq<string>>, products: seq<Product>, priceText: real -> string, k: nat)
    requires Layout(lines, blocks, products, priceText) && k < |products|
    ensures HeadLinesAt(lines, 1 + Offset(blocks, k), products[k], priceText)
  {
    var p := products[k];
    BlockOf(lines, blocks, products, priceText, k);
    var close := Tab2 + "}" + Ending(k, |products| - 1);
    assert ProductLines(p, k, |products| - 1, priceText) == [Tab2 + "{"] + FieldLines(p, priceText) + ReviewsBlock(p.reviews) + [close];
    HeadLinesOf(lines, 1 + Offset(blocks, k), p, priceText, ReviewsBlock(p.reviews), close);
  }

  /**
   * The round trip fails at the first product with a null name, if its
   * category is a string and its price a number: ReadJson stops with the
   * error that a dictionary met a value where it needed a key.
   */
  lemma NullNameBreaksRoundTrip(products: seq<Product>, priceText: real -> string, k: nat)
    requires k < |products|
    requires forall j {:trigger Survives(products[j], priceText)} :: 0 <= j < k ==> Survives(products[j], priceText)
    requires var p := products[k];
      p.id >= 0 && p.name.None? && p.category.Some? && WholeString(p.category.value)
      && NumberText(priceText(p.price)) && ParseDecimal(priceText(p.price)).Some?
    ensures ReadJsonResult(JsonLines(products, priceText)) == Err(KeyIsNotString)
  {
    var lines, blocks := JsonLines(products, priceText), ProductBlocks(products, priceText);
    JsonLinesLayout(products, priceText);
    var t, st, ds := ProductsRun(lines, blocks, products, priceText, k);
    HeadOfBlock(lines, blocks, products, priceText, k);
    NullNameRun(lines, t, st, products[k], priceText, ds);
    ReachesRun(Concat(lines), State([], None, 0), st);
  }

  /**
   * The name line, the null category line and the price line: the name
   * is stored, `"price"` becomes the category's value, and the scan stands
   * at the price with no key pending.
   */
  lemma NullCategoryFieldsRun(lines: seq<string>, t: nat, st: State, name: string, v: string) returns (after: State)
    requires t + 3 <= |lines| && WholeString(name)
    requires lines[t] == KeyValueLine("product_name", Some(name))
    requires lines[t + 1] == Tab4 + Quoted("category") + ": " + ","
    requires lines[t + 2] == Tab4 + Quoted("price") + ": " + v + ","
    requires st.index == Pos(lines, t) && TreeShape(st.nodes, st.node) && st.node.Some? && AwaitsKey(st.nodes, st.node.value)
    ensures Reaches(Concat(lines), st, after) && after.node.Some? && AwaitsKey(after.nodes, after.node.value)
    ensures TextAt(Concat(lines), after.index, v + ",")
  {
    var sb, d := Concat(lines), st.node.value;
    QuotedKeyIsWhole("product_name");
    QuotedKeyIsWhole("category");
    var s1 := FieldRun(lines, t, st, "product_name", name, StringNode(Some(name), None), |st.nodes| + 1);
    LineText(lines, t + 1);
    var s2 := NullValueLineRun(sb, s1, "category");
    after := PriceAsValueRun(lines, t + 2, s2, v);
    ReachesTrans(sb, st, s1, s2);
    ReachesTrans(sb, st, s2, after);
  }

  /** The object of a product with a null category: `"price"` is the category's value, and the price arrives with no key pending. */
  lemma NullCategoryRun(lines: seq<string>, t: nat, st: State, p: Product, priceText: real -> string, ds: seq<NodeRef>)
    requires p.id >= 0 && p.name.Some? && WholeString(p.name.value) && p.category.None?
    requires NumberText(priceText(p.price)) && ParseDecimal(priceText(p.price)).Some?
    requires HeadLinesAt(lines, t, p, priceText)
    requires st.index == Pos(lines, t) && TreeShape(st.nodes, st.node) && st.node == Some(0)
    requires st.nodes[0] == ListNode(Some(ds), None)
    ensures Run(Concat(lines), st) == Err(KeyIsNotString)
  {
    var sb, v := Concat(lines), priceText(p.price);
    var s1 := IdLineRun(lines, t, st, p.id, ds);
    NullValueLine("category");
    KeyValueLineIs("price", v);
    var s2 := NullCategoryFieldsRun(lines, t + 2, s1, p.name.value, v);
    NumberFails(sb, s2, v);
    ReachesTrans(sb, st, s1, s2);
    ReachesRun(sb, st, s2);
  }

  /**
   * The round trip fails at the first product with a null category, if
   * its name is a string and its price a number: ReadJson stops with the
   * error that a dictionary met a value where it needed a key.
   */
  lemma NullCategoryBreaksRoundTrip(products: seq<Product>, priceText: real -> string, k: nat)
    requires k < |products|
    requires forall j {:trigger Survives(products[j], priceText)} :: 0 <= j < k ==> Survives(products[j], priceText)
    requires var p := products[k];
      p.id >= 0 && p.name.Some? && WholeString(p.name.value) && p.category.None?
      && NumberText(priceText(p.price)) && ParseDecimal(priceText(p.price)).Some?
    ensures ReadJsonResult(JsonLines(products, priceText)) == Err(KeyIsNotString)
  {
    var lines, blocks := JsonLines(products, priceText), ProductBlocks(products, priceText);
    JsonLinesLayout(products, priceText);
    var t, st, ds := ProductsRun(lines, blocks, products, priceText, k);
    HeadOfBlock(lines, blocks, products, priceText, k);
    NullCategoryRun(lines, t, st, products[k], priceText, ds);
    ReachesRun(Concat(lines), State([], None, 0), st);
  }
}
