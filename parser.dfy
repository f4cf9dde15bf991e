/**
 * The tree-building scanner of JsonLib/JsonParser.cs.  The parser walks
 * the buffer once, keeping a cursor on the "current node": an opening
 * bracket attaches a new container and descends into it, a closing
 * bracket pops to the parent, and a quote, a digit or one of t/f/n reads
 * a whole token, attaches a leaf and moves the index to the token's last
 * character.  Every other character (a sign, a comma, a colon, white
 * space) is consumed on its own and builds nothing.
 *
 * The first half states one step of the scan on values (the arena, the
 * cursor and the index); the class Parser below holds the source's static
 * fields and performs the same steps in place.
 */
module JsonParser {
  import opened Common
  import opened Numbers
  import opened Nodes
  import opened Helpers
  import opened Products
  import opened Projection

  const ArrayEnd: char := ']'
  const ArrayStart: char := '['
  const ObjectEnd: char := '}'
  const ObjectStart: char := '{'
  const WhiteSpace: char := ' '
  const KeyValueSeparator: char := ':'
  const ElementsSeparator: char := ','
  const Quote: char := '"'
  const QuoteEscape: char := '\\'
  const NullValue: string := "null"
  const BooleanTrue: string := "true"
  const BooleanFalse: string := "false"
  const QuoteEndings: seq<char> := [Quote]
  const Escapes: seq<char> := [QuoteEscape]
  const TypeEndings: seq<char> := [ElementsSeparator, ArrayEnd, ObjectEnd, WhiteSpace]

  /** The scan state: the arena of nodes, the cursor `_node` and `_currentIndex`. */
  datatype State = State(nodes: seq<Node>, node: Option<NodeRef>, index: int)

  predicate CursorIn(nodes: seq<Node>, cur: Option<NodeRef>) {
    cur.Some? ==> cur.value < |nodes|
  }

  /** Every parent link points at a list or a dictionary of the arena. */
  predicate ParentsAreContainers(nodes: seq<Node>) {
    forall i :: 0 <= i < |nodes| && nodes[i].parent.Some? ==>
      nodes[i].parent.value < |nodes| && IsContainer(nodes[nodes[i].parent.value])
  }

  /**
   * The shape the scan keeps: the arena is ordered, there is a cursor
   * exactly when some node exists, the cursor is a container unless the
   * whole document is one leaf, and popping can only reach containers.
   */
  predicate TreeShape(nodes: seq<Node>, cur: Option<NodeRef>) {
    && Ordered(nodes)
    && (cur.None? <==> |nodes| == 0)
    && CursorIn(nodes, cur)
    && (cur.Some? ==> IsContainer(nodes[cur.value]) || |nodes| == 1)
    && ParentsAreContainers(nodes)
  }

  // ---------------------------------------------------------------- UpdateNode

  /**
   * UpdateNode on values: the new node n is allocated at the end of the
   * arena and attached at the cursor.  With no cursor, n becomes the
   * cursor; a list or a dictionary adds n and picks the new cursor; a
   * leaf cursor refuses n.  Nothing is allocated when the attach fails.
   */
  function Attach(nodes: seq<Node>, cur: Option<NodeRef>, n: Node): (r: Result<(seq<Node>, Option<NodeRef>), JsonError>)
    requires CursorIn(nodes, cur)
    ensures cur.None? ==> r == Ok((nodes + [n], Some(|nodes|)))
    ensures cur.Some? && !IsContainer(nodes[cur.value]) ==> r == Err(InsertError)
    ensures cur.Some? && nodes[cur.value].ListNode? ==>
      (r.Err? <==> nodes[cur.value].items.None?) && (r.Err? ==> r.error == ListDataMissing)
    ensures cur.Some? && nodes[cur.value].DictionaryNode? ==>
      (r.Err? <==> nodes[cur.value].pendingKey.None? && !n.StringNode?) && (r.Err? ==> r.error == KeyIsNotString)
    ensures r.Ok? ==> |r.value.0| == |nodes| + 1 && r.value.0[|nodes|] == n
    ensures r.Ok? ==> forall i :: 0 <= i < |nodes| && Some(i) != cur ==> r.value.0[i] == nodes[i]
    ensures r.Ok? ==> r.value.1 == if cur.None? || IsContainer(n) then Some(|nodes|) else cur
    ensures r.Ok? && cur.Some? && nodes[cur.value].ListNode? ==>
      r.value.0[cur.value].ListNode? && r.value.0[cur.value].items == Some(nodes[cur.value].items.value + [|nodes|])
  {
    match cur
    case None => Ok((nodes + [n], Some(|nodes|)))
    case Some(c) =>
      var grown := nodes + [n];
      if nodes[c].ListNode? then
        match ListAdd(nodes[c], c, |nodes|, n)
        case Err(e) => Err(e)
        case Ok((list, next)) => Ok((grown[c := list], Some(next)))
      else if nodes[c].DictionaryNode? then
        match DictionaryAdd(nodes[c], c, |nodes|, n)
        case Err(e) => Err(e)
        case Ok((dict, next)) => Ok((grown[c := dict], Some(next)))
      else
        Err(InsertError)
  }

  /** Attaching a fresh, childless node whose parent is the cursor keeps the tree's shape. */
  lemma AttachKeepsShape(nodes: seq<Node>, cur: Option<NodeRef>, n: Node)
    requires TreeShape(nodes, cur) && Childless(n)
    requires n.parent.Some? ==> n.parent == cur
    ensures Attach(nodes, cur, n).Ok? ==> TreeShape(Attach(nodes, cur, n).value.0, Attach(nodes, cur, n).value.1)
  {
    var r := Attach(nodes, cur, n);
    if r.Ok? {
      var grown := nodes + [n];
      AppendOrdered(nodes, n);
      var (nodes', cur') := r.value;
      if cur.Some? {
        var c := cur.value;
        var updated := nodes'[c];
        assert nodes' == grown[c := updated];
        if updated.DictionaryNode? && updated.entries.Some? {
          var old_ := nodes[c].entries.value;
          forall key | key in updated.entries.value
            ensures updated.entries.value[key] == |nodes| || (key in old_ && updated.entries.value[key] == old_[key])
          {
            if nodes[c].pendingKey.None? || key != nodes[c].pendingKey.value {
              assert Get(updated, key) == Get(nodes[c], key);
            }
          }
        }
        ReplaceOrdered(grown, c, updated, |nodes|);
      }
      forall i | 0 <= i < |nodes'| && nodes'[i].parent.Some?
        ensures nodes'[i].parent.value < |nodes'| && IsContainer(nodes'[nodes'[i].parent.value])
      {
        if i < |nodes| {
          assert nodes'[i].parent == nodes[i].parent;
        }
      }
    }
  }

  /** SwitchToParent on values: up to the parent; a node without one stays current. */
  function ParentOf(nodes: seq<Node>, cur: Option<NodeRef>): (r: Option<NodeRef>)
    requires CursorIn(nodes, cur)
    ensures cur.None? ==> r.None?
    ensures cur.Some? ==> r == if nodes[cur.value].parent.Some? then nodes[cur.value].parent else cur
  {
    match cur
    case None => None
    case Some(c) => if nodes[c].parent.Some? then nodes[c].parent else cur
  }

  // ------------------------------------------------- ParseIndependentStructures

  /**
   * ParseIndependentStructures on values: `[` and `{` attach an empty
   * container whose parent is the cursor; `]` pops only from a list and
   * `}` only from a dictionary, and any other closing is a
   * StructureEnding error; other characters change nothing.
   */
  function Independent(nodes: seq<Node>, cur: Option<NodeRef>, letter: char): (r: Result<(seq<Node>, Option<NodeRef>), JsonError>)
    requires CursorIn(nodes, cur)
    ensures letter == ArrayStart ==> r == Attach(nodes, cur, NewListNode(cur))
    ensures letter == ObjectStart ==> r == Attach(nodes, cur, NewDictionaryNode(cur))
    ensures letter == ArrayEnd ==> (r.Ok? <==> cur.Some? && nodes[cur.value].ListNode?)
    ensures letter == ObjectEnd ==> (r.Ok? <==> cur.Some? && nodes[cur.value].DictionaryNode?)
    ensures (letter == ArrayEnd || letter == ObjectEnd) && r.Ok? ==> r.value == (nodes, ParentOf(nodes, cur))
    ensures (letter == ArrayEnd || letter == ObjectEnd) && r.Err? ==> r.error == StructureEnding
    ensures letter !in [ArrayStart, ObjectStart, ArrayEnd, ObjectEnd] ==> r == Ok((nodes, cur))
  {
    if letter == ArrayStart then Attach(nodes, cur, NewListNode(cur))
    else if letter == ObjectStart then Attach(nodes, cur, NewDictionaryNode(cur))
    else if letter == ArrayEnd && cur.Some? && nodes[cur.value].ListNode? then Ok((nodes, ParentOf(nodes, cur)))
    else if letter == ObjectEnd && cur.Some? && nodes[cur.value].DictionaryNode? then Ok((nodes, ParentOf(nodes, cur)))
    else if letter == ArrayEnd || letter == ObjectEnd then Err(StructureEnding)
    else Ok((nodes, cur))
  }

  /** Opening a container descends into it; closing lands on a container or stays put. */
  lemma IndependentKeepsShape(nodes: seq<Node>, cur: Option<NodeRef>, letter: char)
    requires TreeShape(nodes, cur)
    ensures Independent(nodes, cur, letter).Ok? ==>
      TreeShape(Independent(nodes, cur, letter).value.0, Independent(nodes, cur, letter).value.1)
  {
    if letter == ArrayStart {
      AttachKeepsShape(nodes, cur, NewListNode(cur));
    } else if letter == ObjectStart {
      AttachKeepsShape(nodes, cur, NewDictionaryNode(cur));
    }
  }

  // ----------------------------------------------------------------- ParseValue

  /** StringBuilder.ToString(start, length); OutOfRange past the end of the buffer. */
  function Substring(sb: seq<char>, start: nat, length: nat): (r: Result<string, JsonError>)
    ensures r.Ok? <==> start + length <= |sb|
    ensures r.Ok? ==> r.value == sb[start..start + length]
    ensures r.Err? ==> r.error == OutOfRange
  {
    if start + length <= |sb| then Ok(sb[start..start + length]) else Err(OutOfRange)
  }

  /**
   * ParseValue: the text of the token that starts at `index`.  At t/n
   * exactly four characters and at f five are taken; at a quote, the text
   * through the first quote not preceded by a backslash, both quotes
   * included; at a digit, the text up to (not including) the first comma,
   * closing bracket or space; at a newline the newline itself; at any
   * other character nothing.  The token never runs past the buffer.
   */
  function TokenAt(sb: seq<char>, index: nat, letter: char): (r: Result<string, JsonError>)
    requires index < |sb| && sb[index] == letter
    ensures r.Ok? ==> index + |r.value| <= |sb| && r.value == sb[index..index + |r.value|]
    ensures letter == 'n' || letter == 't' ==> (r.Ok? <==> index + 4 <= |sb|) && (r.Ok? ==> |r.value| == 4)
    ensures letter == 'f' ==> (r.Ok? <==> index + 5 <= |sb|) && (r.Ok? ==> |r.value| == 5)
    ensures letter in "ntf" && r.Err? ==> r.error == OutOfRange
    ensures letter == Quote && r.Ok? ==>
      var last := index + |r.value| - 1;
      && |r.value| >= 2 && Qualifies(sb, last, QuoteEndings, Some(Escapes))
      && forall j :: index < j < last ==> !Qualifies(sb, j, QuoteEndings, Some(Escapes))
    ensures letter == Quote && r.Err? ==>
      r.error == NoEnding && forall j :: index < j < |sb| ==> !Qualifies(sb, j, QuoteEndings, Some(Escapes))
    ensures IsDigit(letter) && r.Ok? ==>
      var end := index + |r.value|;
      && |r.value| >= 1 && end < |sb| && sb[end] in TypeEndings
      && forall j :: index < j < end ==> sb[j] !in TypeEndings
    ensures IsDigit(letter) && r.Err? ==> r.error == NoEnding && forall j :: index < j < |sb| ==> sb[j] !in TypeEndings
    ensures letter == NewLine[0] ==> r == Ok(NewLine)
    ensures letter !in "ntf" && letter != Quote && letter != NewLine[0] && !IsDigit(letter) ==> r == Ok("")
  {
    if letter == NullValue[0] then Substring(sb, index, |NullValue|)
    else if letter == BooleanTrue[0] then Substring(sb, index, |BooleanTrue|)
    else if letter == BooleanFalse[0] then Substring(sb, index, |BooleanFalse|)
    else if letter == Quote then
      match RightIndex(sb, index + 1, QuoteEndings, Some(Escapes))
      case Err(e) => Err(e)
      case Ok(right) => Substring(sb, index, right - index + 1)
    else if letter == NewLine[0] then
      assert sb[index..index + |NewLine|] == NewLine;
      Substring(sb, index, |NewLine|)
    else if IsDigit(letter) then
      match RightIndex(sb, index + 1, TypeEndings, None)
      case Err(e) =>
        UnescapedScan(sb, index + 1, |sb|, TypeEndings);
        Err(e)
      case Ok(right) =>
        UnescapedScan(sb, index + 1, right, TypeEndings);
        Substring(sb, index, right - index)
    else Ok("")
  }

  /** Without escape characters, an index qualifies exactly when it holds an ending. */
  lemma UnescapedScan(sb: seq<char>, from: nat, to: nat, endings: seq<char>)
    requires 1 <= from && to <= |sb|
    requires forall j :: from <= j < to ==> !Qualifies(sb, j, endings, None)
    ensures forall j :: from <= j < to ==> sb[j] !in endings
  {
    forall j | from <= j < to ensures sb[j] !in endings {
      assert !Qualifies(sb, j, endings, None);
    }
  }

  /** ValidateConstantValue: a literal must be spelled exactly. */
  function ValidateConstantValue(value: string, validValue: string): (r: Result<(), JsonError>)
    ensures r.Ok? <==> value == validValue
    ensures r.Err? ==> r.error == ConstantMismatch(value, validValue)
  {
    if value != validValue then Err(ConstantMismatch(value, validValue)) else Ok(())
  }

  /**
   * The leaf a token builds, or None for a character that builds none.
   * A string keeps its text as read, quotes and escapes included, and has
   * no parent; true, false and null are BooleanNodes under the cursor
   * (null with no flag); a number token must read as a number.
   */
  function TokenLeaf(letter: char, value: string, cur: Option<NodeRef>): (r: Result<Option<Node>, JsonError>)
    ensures letter == Quote ==> r == Ok(Some(StringNode(Some(value), None)))
    ensures letter == 't' ==> if value == BooleanTrue then r == Ok(Some(BooleanNode(Some(true), cur)))
                              else r == Err(ConstantMismatch(value, BooleanTrue))
    ensures letter == 'f' ==> if value == BooleanFalse then r == Ok(Some(BooleanNode(Some(false), cur)))
                              else r == Err(ConstantMismatch(value, BooleanFalse))
    ensures letter == 'n' ==> if value == NullValue then r == Ok(Some(BooleanNode(None, cur)))
                              else r == Err(ConstantMismatch(value, NullValue))
    ensures IsDigit(letter) ==> match ParseDecimal(value)
                                case Some(x) => r == Ok(Some(NumberNode(x, cur)))
                                case None => r == Err(NumberFormat(value))
    ensures letter !in "\"tfn" && !IsDigit(letter) ==> r == Ok(None)
    ensures r.Ok? && r.value.Some? ==> !IsContainer(r.value.value) && (r.value.value.parent.Some? ==> r.value.value.parent == cur)
  {
    if letter == Quote then Ok(Some(StringNode(Some(value), None)))
    else if letter == BooleanTrue[0] then
      match ValidateConstantValue(value, BooleanTrue)
      case Err(e) => Err(e)
      case Ok(_) => Ok(Some(BooleanNode(Some(true), cur)))
    else if letter == BooleanFalse[0] then
      match ValidateConstantValue(value, BooleanFalse)
      case Err(e) => Err(e)
      case Ok(_) => Ok(Some(BooleanNode(Some(false), cur)))
    else if letter == NullValue[0] then
      match ValidateConstantValue(value, NullValue)
      case Err(e) => Err(e)
      case Ok(_) => Ok(Some(BooleanNode(None, cur)))
    else if IsDigit(letter) then
      match ParseDecimal(value)
      case None => Err(NumberFormat(value))
      case Some(x) => Ok(Some(NumberNode(x, cur)))
    else Ok(None)
  }

  /** The index after a token: on its last character, or unchanged for an empty token. */
  function Advance(index: int, value: string): int {
    if |value| > 0 then index + |value| - 1 else index
  }

  /**
   * ParseDependentStructures on values: read the token at the index,
   * attach its leaf at the cursor and move the index onto the token's
   * last character.
   */
  function Dependent(sb: seq<char>, index: nat, nodes: seq<Node>, cur: Option<NodeRef>): (r: Result<State, JsonError>)
    requires index < |sb| && CursorIn(nodes, cur)
    ensures r.Ok? ==> index <= r.value.index < |sb|
    ensures r.Ok? ==> CursorIn(r.value.nodes, r.value.node)
    ensures !(IsDigit(sb[index]) || sb[index] in "\"tfn") ==> r == Ok(State(nodes, cur, index))
  {
    var value :- TokenAt(sb, index, sb[index]);
    var leaf :- TokenLeaf(sb[index], value, cur);
    var attached :- if leaf.None? then Ok((nodes, cur)) else Attach(nodes, cur, leaf.value);
    Ok(State(attached.0, attached.1, Advance(index, value)))
  }

  /**
   * The token pass as the composition it is: TokenAt's error, else
   * TokenLeaf's, else Attach's; on success the state Attach leaves, with
   * the index on the token's last character.
   */
  lemma DependentComposes(sb: seq<char>, index: nat, nodes: seq<Node>, cur: Option<NodeRef>)
    requires index < |sb| && CursorIn(nodes, cur)
    ensures var t := TokenAt(sb, index, sb[index]);
      t.Err? ==> Dependent(sb, index, nodes, cur) == Err(t.error)
    ensures var t := TokenAt(sb, index, sb[index]);
      t.Ok? ==> var leaf := TokenLeaf(sb[index], t.value, cur);
        && (leaf.Err? ==> Dependent(sb, index, nodes, cur) == Err(leaf.error))
        && (leaf.Ok? && leaf.value.Some? ==>
              var a := Attach(nodes, cur, leaf.value.value);
              && (a.Err? ==> Dependent(sb, index, nodes, cur) == Err(a.error))
              && (a.Ok? ==> Dependent(sb, index, nodes, cur) == Ok(State(a.value.0, a.value.1, index + |t.value| - 1))))
  {
  }

  lemma DependentKeepsShape(sb: seq<char>, index: nat, nodes: seq<Node>, cur: Option<NodeRef>)
    requires index < |sb| && TreeShape(nodes, cur)
    ensures Dependent(sb, index, nodes, cur).Ok? ==>
      TreeShape(Dependent(sb, index, nodes, cur).value.nodes, Dependent(sb, index, nodes, cur).value.node)
  {
    var value := TokenAt(sb, index, sb[index]);
    if value.Ok? {
      var leaf := TokenLeaf(sb[index], value.value, cur);
      if leaf.Ok? && leaf.value.Some? {
        AttachKeepsShape(nodes, cur, leaf.value.value);
      }
    }
  }

  // ------------------------------------------------------------------ ParseJson

  /** One turn of ParseJson's loop: both structure passes, then the index moves on by one. */
  function Step(sb: seq<char>, st: State): (r: Result<State, JsonError>)
    requires 0 <= st.index < |sb| && Ordered(st.nodes) && CursorIn(st.nodes, st.node)
    ensures r.Ok? ==> st.index < r.value.index <= |sb|
  {
    var mid :- Independent(st.nodes, st.node, sb[st.index]);
    assert CursorIn(mid.0, mid.1) by {
      if sb[st.index] == ArrayEnd || sb[st.index] == ObjectEnd {
        assert NodeOrdered(st.nodes, st.node.value);
      }
    }
    var next :- Dependent(sb, st.index, mid.0, mid.1);
    Ok(next.(index := next.index + 1))
  }

  /** A step that gets through both halves moves past the letter at the index Dependent leaves. */
  lemma StepOk(sb: seq<char>, st: State, mid: (seq<Node>, Option<NodeRef>), next: State)
    requires 0 <= st.index < |sb| && Ordered(st.nodes) && CursorIn(st.nodes, st.node)
    requires Independent(st.nodes, st.node, sb[st.index]) == Ok(mid) && CursorIn(mid.0, mid.1)
    requires Dependent(sb, st.index, mid.0, mid.1) == Ok(next)
    ensures Step(sb, st) == Ok(State(next.nodes, next.node, next.index + 1))
  {
  }

  /**
   * A step that succeeds consumes the whole token at the index, or the
   * one character when it starts no token: the loop goes on right after it.
   */
  lemma StepConsumesToken(sb: seq<char>, st: State)
    requires 0 <= st.index < |sb| && Ordered(st.nodes) && CursorIn(st.nodes, st.node)
    requires Step(sb, st).Ok?
    ensures var t := TokenAt(sb, st.index, sb[st.index]);
      t.Ok? && Step(sb, st).value.index == st.index + (if |t.value| > 0 then |t.value| else 1)
  {
    var mid := Independent(st.nodes, st.node, sb[st.index]);
    assert mid.Ok?;
    assert CursorIn(mid.value.0, mid.value.1) by {
      if sb[st.index] == ArrayEnd || sb[st.index] == ObjectEnd {
        assert NodeOrdered(st.nodes, st.node.value);
      }
    }
    var next := Dependent(sb, st.index, mid.value.0, mid.value.1);
    assert next.Ok?;
    assert TokenAt(sb, st.index, sb[st.index]).Ok?;
  }

  /**
   * After a number token the scan resumes on its terminator: the first
   * comma, closing bracket or space after the digits.
   */
  lemma NumberStepStopsAtEnding(sb: seq<char>, st: State)
    requires 0 <= st.index < |sb| && Ordered(st.nodes) && CursorIn(st.nodes, st.node)
    requires IsDigit(sb[st.index]) && Step(sb, st).Ok?
    ensures var e := Step(sb, st).value.index;
      && st.index < e < |sb| && sb[e] in TypeEndings
      && forall j :: st.index < j < e ==> sb[j] !in TypeEndings
  {
    StepConsumesToken(sb, st);
    DigitTokenStops(sb, st.index, Step(sb, st).value.index);
  }

  /** A number token ends right before its terminator. */
  lemma DigitTokenStops(sb: seq<char>, index: nat, e: nat)
    requires index < |sb| && IsDigit(sb[index]) && TokenAt(sb, index, sb[index]).Ok?
    requires e == index + |TokenAt(sb, index, sb[index]).value|
    ensures index < e < |sb| && sb[e] in TypeEndings && forall j :: index < j < e ==> sb[j] !in TypeEndings
  {
  }

  lemma StepKeepsShape(sb: seq<char>, st: State)
    requires 0 <= st.index < |sb| && TreeShape(st.nodes, st.node)
    ensures Step(sb, st).Ok? ==> TreeShape(Step(sb, st).value.nodes, Step(sb, st).value.node)
  {
    IndependentKeepsShape(st.nodes, st.node, sb[st.index]);
    var mid := Independent(st.nodes, st.node, sb[st.index]);
    if mid.Ok? {
      DependentKeepsShape(sb, st.index, mid.value.0, mid.value.1);
    }
  }

  /**
   * The scan from a state to the end of the buffer.  There is no
   * end-of-input check: whatever the cursor holds when the buffer runs
   * out is the result, with open containers left open.
   */
  function Run(sb: seq<char>, st: State): (r: Result<State, JsonError>)
    requires 0 <= st.index && TreeShape(st.nodes, st.node)
    ensures r.Ok? ==> TreeShape(r.value.nodes, r.value.node)
    ensures r.Ok? && st.index <= |sb| ==> r.value.index == |sb|
    decreases |sb| - st.index
  {
    if st.index >= |sb| then Ok(st)
    else
      StepKeepsShape(sb, st);
      match Step(sb, st)
      case Err(e) => Err(e)
      case Ok(next) => Run(sb, next)
  }

  /** Run unfolded once: the first step's error, or the run from the state after it. */
  lemma RunStep(sb: seq<char>, st: State)
    requires 0 <= st.index < |sb| && TreeShape(st.nodes, st.node)
    ensures Step(sb, st).Err? ==> Run(sb, st) == Err(Step(sb, st).error)
    ensures Step(sb, st).Ok? ==> TreeShape(Step(sb, st).value.nodes, Step(sb, st).value.node)
    ensures Step(sb, st).Ok? ==> Run(sb, st) == Run(sb, Step(sb, st).value)
  {
    StepKeepsShape(sb, st);
  }

  /** A run goes on from the state its first step reaches. */
  lemma RunAfterStep(sb: seq<char>, st: State, after: State)
    requires 0 <= st.index < |sb| && TreeShape(st.nodes, st.node)
    requires Step(sb, st) == Ok(after)
    ensures TreeShape(after.nodes, after.node) && Run(sb, st) == Run(sb, after)
  {
    RunStep(sb, st);
  }

  /** A run stops with its first step's error. */
  lemma RunStopsAtStep(sb: seq<char>, st: State, e: JsonError)
    requires 0 <= st.index < |sb| && TreeShape(st.nodes, st.node)
    requires Step(sb, st) == Err(e)
    ensures Run(sb, st) == Err(e)
  {
    RunStep(sb, st);
  }

  /** ParseJson from a fresh state: no nodes, no cursor, index 0. */
  function Parse(sb: seq<char>): (r: Result<State, JsonError>)
    ensures r.Ok? ==> TreeShape(r.value.nodes, r.value.node) && r.value.index == |sb|
  {
    Run(sb, State([], None, 0))
  }

  /** The buffer ReadJson builds: the lines appended with no separator. */
  function Concat(lines: seq<string>): seq<char> {
    if lines == [] then [] else Concat(lines[..|lines| - 1]) + lines[|lines| - 1]
  }

  /** ReadJson: parse the joined lines, then project the tree into products. */
  function ReadJsonResult(lines: seq<string>): (r: Result<seq<Product>, JsonError>)
    ensures r.Ok? <==> Parse(Concat(lines)).Ok?
    ensures r.Err? ==> r.error == Parse(Concat(lines)).error
  {
    match Parse(Concat(lines))
    case Err(e) => Err(e)
    case Ok(st) => Ok(Project(st.nodes, st.node))
  }

  // ------------------------------------------------------------------ the class

  /** The parser's static fields, updated in place by the methods below. */
  class Parser {
    const store: NodeStore
    var node: Option<NodeRef>
    var currentIndex: int
    var currentLetter: char
    var jsonSb: seq<char>

    constructor ()
      ensures fresh(store) && store.nodes == []
      ensures node.None? && currentIndex == 0 && jsonSb == []
    {
      store := new NodeStore();
      node := None;
      currentIndex := 0;
      currentLetter := ' ';
      jsonSb := [];
    }

    /** UpdateNode: attach `newNode` at the cursor and move the cursor as Attach says. */
    method UpdateNode(newNode: Node) returns (r: Result<(), JsonError>)
      requires CursorIn(store.nodes, node)
      modifies this, store
      ensures var s := Attach(old(store.nodes), old(node), newNode);
        && (s.Ok? ==> r.Ok? && store.nodes == s.value.0 && node == s.value.1)
        && (s.Err? ==> r == Err(s.error) && store.nodes == old(store.nodes) && node == old(node))
      ensures currentIndex == old(currentIndex) && currentLetter == old(currentLetter) && jsonSb == old(jsonSb)
    {
      match node {
        case None =>
          var created := store.Alloc(newNode);
          node := Some(created);
          r := Ok(());
        case Some(c) =>
          var current := store.nodes[c];
          if current.ListNode? {
            if current.items.None? {
              return Err(ListDataMissing);
            }
            var created := store.Alloc(newNode);
            var added := store.ListNodeAdd(c, created);
            node := Some(added.value);
            r := Ok(());
          } else if current.DictionaryNode? {
            if current.pendingKey.None? && !newNode.StringNode? {
              return Err(KeyIsNotString);
            }
            var created := store.Alloc(newNode);
            var added := store.DictionaryNodeAdd(c, created);
            node := Some(added.value);
            r := Ok(());
          } else {
            r := Err(InsertError);
          }
      }
    }

    /** SwitchToParent: move the cursor up to the parent, if there is one. */
    method SwitchToParent()
      requires CursorIn(store.nodes, node)
      modifies this
      ensures node == ParentOf(store.nodes, old(node))
      ensures currentIndex == old(currentIndex) && currentLetter == old(currentLetter) && jsonSb == old(jsonSb)
    {
      if node.None? || store.nodes[node.value].parent.None? {
        return;
      }
      node := store.nodes[node.value].parent;
    }

    /** ParseIndependentStructures: the bracket pass for the current letter. */
    method ParseIndependentStructures() returns (r: Result<(), JsonError>)
      requires CursorIn(store.nodes, node)
      modifies this, store
      ensures var s := Independent(old(store.nodes), old(node), old(currentLetter));
        && (s.Ok? ==> r.Ok? && store.nodes == s.value.0 && node == s.value.1)
        && (s.Err? ==> r == Err(s.error) && store.nodes == old(store.nodes) && node == old(node))
      ensures currentIndex == old(currentIndex) && currentLetter == old(currentLetter) && jsonSb == old(jsonSb)
    {
      var isList := node.Some? && store.nodes[node.value].ListNode?;
      var isDictionary := node.Some? && store.nodes[node.value].DictionaryNode?;
      if currentLetter == ArrayStart {
        r := UpdateNode(NewListNode(node));
      } else if currentLetter == ObjectStart {
        r := UpdateNode(NewDictionaryNode(node));
      } else if (currentLetter == ArrayEnd && isList) || (currentLetter == ObjectEnd && isDictionary) {
        SwitchToParent();
        r := Ok(());
      } else if currentLetter == ArrayEnd || currentLetter == ObjectEnd {
        r := Err(StructureEnding);
      } else {
        r := Ok(());
      }
    }

    /** The parser's own copy of GetRightIndex, scanning the buffer after the current index. */
    method GetRightIndex(endings: seq<char>, escape: Option<seq<char>>) returns (r: Result<nat, JsonError>)
      requires currentIndex >= 0
      ensures r == RightIndex(jsonSb, currentIndex + 1, endings, escape)
    {
      var i := currentIndex + 1;
      while i < |jsonSb|
        invariant currentIndex + 1 <= i
        invariant i <= |jsonSb| || i == currentIndex + 1
        invariant RightIndex(jsonSb, i, endings, escape) == RightIndex(jsonSb, currentIndex + 1, endings, escape)
        decreases |jsonSb| - i
      {
        if jsonSb[i] !in endings || (escape.Some? && jsonSb[i - 1] in escape.value) {
          i := i + 1;
          continue;
        }
        return Ok(i);
      }
      return Err(NoEnding);
    }

    /** ParseValue: the token at the current index, read with GetRightIndex. */
    method ParseValue() returns (r: Result<string, JsonError>)
      requires 0 <= currentIndex < |jsonSb| && currentLetter == jsonSb[currentIndex]
      ensures r == TokenAt(jsonSb, currentIndex, currentLetter)
    {
      if currentLetter == NullValue[0] {
        r := Substring(jsonSb, currentIndex, |NullValue|);
      } else if currentLetter == BooleanTrue[0] {
        r := Substring(jsonSb, currentIndex, |BooleanTrue|);
      } else if currentLetter == BooleanFalse[0] {
        r := Substring(jsonSb, currentIndex, |BooleanFalse|);
      } else if currentLetter == Quote {
        var right := GetRightIndex(QuoteEndings, Some(Escapes));
        if right.Err? {
          return Err(right.error);
        }
        r := Substring(jsonSb, currentIndex, right.value - currentIndex + 1);
      } else if currentLetter == NewLine[0] {
        r := Substring(jsonSb, currentIndex, |NewLine|);
      } else if IsDigit(currentLetter) {
        var right := GetRightIndex(TypeEndings, None);
        if right.Err? {
          return Err(right.error);
        }
        r := Substring(jsonSb, currentIndex, right.value - currentIndex);
      } else {
        r := Ok("");
      }
    }

    /** ParseDependentStructures: read the token, attach its leaf, move the index onto its end. */
    method ParseDependentStructures() returns (r: Result<(), JsonError>)
      requires 0 <= currentIndex < |jsonSb| && currentLetter == jsonSb[currentIndex]
      requires CursorIn(store.nodes, node)
      modifies this, store
      ensures var s := Dependent(old(jsonSb), old(currentIndex), old(store.nodes), old(node));
        && (s.Ok? ==> r.Ok? && store.nodes == s.value.nodes && node == s.value.node && currentIndex == s.value.index)
        && (s.Err? ==> r == Err(s.error) && store.nodes == old(store.nodes) && node == old(node) && currentIndex == old(currentIndex))
      ensures currentLetter == old(currentLetter) && jsonSb == old(jsonSb)
    {
      var value := ParseValue();
      if value.Err? {
        return Err(value.error);
      }
      var leaf := TokenLeaf(currentLetter, value.value, node);
      if leaf.Err? {
        return Err(leaf.error);
      }
      if leaf.value.Some? {
        var updated := UpdateNode(leaf.value.value);
        if updated.Err? {
          return Err(updated.error);
        }
      }
      if |value.value| > 0 {
        currentIndex := currentIndex + |value.value| - 1;
      }
      r := Ok(());
    }

    /** One pass of ParseJson's loop: the letter at the index through both halves, then past it. */
    method ParseCurrentLetter() returns (r: Result<(), JsonError>)
      requires 0 <= currentIndex < |jsonSb| && TreeShape(store.nodes, node)
      modifies this, store
      ensures var s := Step(old(jsonSb), State(old(store.nodes), old(node), old(currentIndex)));
        && (s.Ok? ==> r.Ok? && State(store.nodes, node, currentIndex) == s.value)
        && (s.Err? ==> r == Err(s.error))
      ensures jsonSb == old(jsonSb)
    {
      ghost var before := State(store.nodes, node, currentIndex);
      currentLetter := jsonSb[currentIndex];
      ghost var mid := Independent(before.nodes, before.node, currentLetter);
      var independent := ParseIndependentStructures();
      if independent.Err? {
        assert Step(jsonSb, before) == Err(independent.error);
        return Err(independent.error);
      }
      assert CursorIn(store.nodes, node) by {
        if currentLetter == ArrayEnd || currentLetter == ObjectEnd {
          assert NodeOrdered(before.nodes, before.node.value);
        }
      }
      ghost var next := Dependent(jsonSb, before.index, store.nodes, node);
      var dependent := ParseDependentStructures();
      if dependent.Err? {
        assert Step(jsonSb, before) == Err(dependent.error);
        return Err(dependent.error);
      }
      StepOk(jsonSb, before, mid.value, next.value);
      currentIndex := currentIndex + 1;
      r := Ok(());
    }

    /** ParseJson: the loop over the buffer from index 0, stopping at the first error. */
    method ParseJson() returns (r: Result<(), JsonError>)
      requires TreeShape(store.nodes, node)
      modifies this, store
      ensures var s := Run(old(jsonSb), State(old(store.nodes), old(node), 0));
        && (s.Ok? ==> r.Ok? && store.nodes == s.value.nodes && node == s.value.node && currentIndex == |jsonSb|)
        && (s.Err? ==> r == Err(s.error))
      ensures jsonSb == old(jsonSb)
    {
      ghost var start := State(store.nodes, node, 0);
      currentIndex := 0;
      while currentIndex < |jsonSb|
        invariant 0 <= currentIndex <= |jsonSb|
        invariant jsonSb == old(jsonSb)
        invariant TreeShape(store.nodes, node)
        invariant Run(jsonSb, State(store.nodes, node, currentIndex)) == Run(jsonSb, start)
        decreases |jsonSb| - currentIndex
      {
        ghost var before := State(store.nodes, node, currentIndex);
        var step := ParseCurrentLetter();
        if step.Err? {
          RunStopsAtStep(jsonSb, before, step.error);
          return step;
        }
        RunAfterStep(jsonSb, before, State(store.nodes, node, currentIndex));
      }
      r := Ok(());
    }

    /** ConvertNodeToProducts: one product per dictionary child of the root list. */
    method ConvertNodeToProducts() returns (list: seq<Product>)
      requires Ordered(store.nodes) && CursorIn(store.nodes, node)
      ensures list == Project(store.nodes, node)
    {
      list := [];
      if node.None? || !store.nodes[node.value].ListNode? || store.nodes[node.value].items.None? {
        return;
      }
      var data := store.nodes[node.value].items.value;
      assert NodeOrdered(store.nodes, node.value);
      for i := 0 to |data|
        invariant list == ProductsOf(store.nodes, data[..i])
      {
        assert data[..i + 1][..i] == data[..i];
        var child := data[i];
        if !store.nodes[child].DictionaryNode? {
          continue;
        }
        var reviews := ReviewsList(child);
        var product := Product(
          RoundHalfEven(NumberOrZero(Field(store.nodes, child, "product_id"))),
          TextOrNull(Field(store.nodes, child, "product_name")),
          TextOrNull(Field(store.nodes, child, "category")),
          NumberOrZero(Field(store.nodes, child, "price")),
          RoundHalfEven(NumberOrZero(Field(store.nodes, child, "quantity_in_stock"))),
          FlagOrFalse(Field(store.nodes, child, "is_discounted")),
          Some(reviews));
        assert product == ProductOf(store.nodes, child);
        list := list + [product];
      }
      assert data[..|data|] == data;
    }

    /** The inner loop of ConvertNodeToProducts: the string children of the "reviews" list. */
    method ReviewsList(dict: NodeRef) returns (reviews: seq<string>)
      requires Ordered(store.nodes) && dict < |store.nodes| && store.nodes[dict].DictionaryNode?
      ensures reviews == ReviewsOf(store.nodes, dict)
    {
      reviews := [];
      var field := Field(store.nodes, dict, "reviews");
      if field.None? || !field.value.ListNode? || field.value.items.None? {
        return;
      }
      assert NodeOrdered(store.nodes, dict);
      assert NodeOrdered(store.nodes, store.nodes[dict].entries.value[Quoted("reviews")]);
      var data := field.value.items.value;
      for j := 0 to |data|
        invariant reviews == StringTexts(store.nodes, data[..j])
      {
        assert data[..j + 1][..j] == data[..j];
        var child := store.nodes[data[j]];
        if child.StringNode? {
          reviews := reviews + [StringText(child)];
        }
      }
      assert data[..|data|] == data;
    }

    /**
     * ReadJson: reset the state, append every input line to the buffer,
     * parse it and project the tree.  The lines stand for what
     * Console.ReadLine returns until the end of input.
     */
    method ReadJson(lines: seq<string>) returns (r: Result<seq<Product>, JsonError>)
      modifies this, store
      ensures jsonSb == Concat(lines)
      ensures r == ReadJsonResult(lines)
    {
      node := None;
      currentIndex := 0;
      jsonSb := [];
      store.Clear();
      for i := 0 to |lines|
        invariant jsonSb == Concat(lines[..i])
        invariant store.nodes == [] && node.None?
      {
        assert lines[..i + 1][..i] == lines[..i];
        jsonSb := jsonSb + lines[i];
      }
      assert lines[..|lines|] == lines;
      var parsed := ParseJson();
      if parsed.Err? {
        return Err(parsed.error);
      }
      var products := ConvertNodeToProducts();
      r := Ok(products);
    }
  }
}
