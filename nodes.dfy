/**
 * The parse-tree nodes (JsonLib/Nodes): BaseNode with its read-only Data
 * and Parent, and the five node classes.  Nodes live in an arena, so a
 * reference to a node (a parent, a child, a dictionary value) is its
 * index in the arena.
 */
module Nodes {
  import opened Common
  import opened Numbers

  type NodeRef = nat

  /**
   * One node.  Every constructor carries BaseNode's Parent; the other
   * fields are BaseNode's Data as the node class types it.  A ListNode or
   * DictionaryNode whose Data is not a list or a dictionary has None
   * there; the parser never builds one, but ListNode and DictionaryNode
   * both test for it.  A BooleanNode with no flag is the JSON null.
   */
  datatype Node =
    | StringNode(text: Option<string>, parent: Option<NodeRef>)
    | BooleanNode(flag: Option<bool>, parent: Option<NodeRef>)
    | NumberNode(number: real, parent: Option<NodeRef>)
    | ListNode(items: Option<seq<NodeRef>>, parent: Option<NodeRef>)
    | DictionaryNode(entries: Option<map<string, NodeRef>>, parent: Option<NodeRef>, pendingKey: Option<string>)

  predicate IsContainer(n: Node) { n.ListNode? || n.DictionaryNode? }

  /** `new ListNode(parent)`: an empty child list under the given parent. */
  function NewListNode(parent: Option<NodeRef> := None): (n: Node)
    ensures n.ListNode? && n.parent == parent
    ensures n.items == Some([])
  {
    ListNode(Some([]), parent)
  }

  /** `new DictionaryNode(parent)`: an empty mapping, no pending key, the given parent. */
  function NewDictionaryNode(parent: Option<NodeRef> := None): (n: Node)
    ensures n.DictionaryNode? && n.parent == parent
    ensures n.entries == Some(map[]) && n.pendingKey.None?
  {
    DictionaryNode(Some(map[]), parent, None)
  }

  // ---------------------------------------------------------------- StringNode

  /** StringNode.ToString: the stored text as it is (quotes included), "" for no text. */
  function StringText(n: Node): (s: string)
    requires n.StringNode?
    ensures n.text.Some? ==> s == n.text.value
    ensures n.text.None? ==> s == ""
  {
    match n.text
    case Some(t) => t
    case None => ""
  }

  // ------------------------------------------------------------------ ListNode

  /** ListNode.GetData: the children, or nothing when Data is not a list. */
  function GetData(list: Node): (r: Option<seq<NodeRef>>)
    requires list.ListNode?
    ensures r.Some? <==> list.items.Some?
    ensures r.Some? ==> r.value == list.items.value
  {
    list.items
  }

  /**
   * ListNode.Add on the list stored at index `self`: append `child` and
   * return the node the parser descends to -- the child if it is a
   * container, the list itself otherwise.
   */
  function ListAdd(list: Node, self: NodeRef, child: NodeRef, childNode: Node): (r: Result<(Node, NodeRef), JsonError>)
    requires list.ListNode?
    ensures list.items.None? ==> r == Err(ListDataMissing)
    ensures list.items.Some? ==> r.Ok?
    ensures r.Ok? ==> r.value.0.ListNode? && r.value.0.parent == list.parent
    ensures r.Ok? ==> r.value.0.items == Some(list.items.value + [child])
    ensures r.Ok? ==> r.value.1 == if IsContainer(childNode) then child else self
  {
    match list.items
    case None => Err(ListDataMissing)
    case Some(data) =>
      Ok((list.(items := Some(data + [child])), if IsContainer(childNode) then child else self))
  }

  // ------------------------------------------------------------ DictionaryNode

  /** The indexer's getter: the value under `key`, nothing when Data is not a dictionary. */
  function Get(dict: Node, key: string): (r: Option<NodeRef>)
    requires dict.DictionaryNode?
    ensures dict.entries.None? ==> r.None?
    ensures r.Some? <==> dict.entries.Some? && key in dict.entries.value
    ensures r.Some? ==> r.value == dict.entries.value[key]
  {
    match dict.entries
    case None => None
    case Some(m) => if key in m then Some(m[key]) else None
  }

  /** The indexer's setter: store `value` under `key`, replacing any earlier value. */
  function Set(dict: Node, key: string, value: NodeRef): (r: Node)
    requires dict.DictionaryNode?
    ensures r.DictionaryNode? && r.parent == dict.parent && r.pendingKey == dict.pendingKey
    ensures dict.entries.None? ==> r == dict
    ensures dict.entries.Some? ==> Get(r, key) == Some(value)
    ensures forall k :: k != key ==> Get(r, k) == Get(dict, k)
  {
    match dict.entries
    case None => dict
    case Some(m) => dict.(entries := Some(m[key := value]))
  }

  /** DictionaryNode.AddWithKeyFromCache: store the child under the pending key and clear it. */
  function AddWithKeyFromCache(dict: Node, child: NodeRef): (r: Result<(Node, NodeRef), JsonError>)
    requires dict.DictionaryNode?
    ensures dict.pendingKey.None? ==> r == Err(NoPendingKey)
    ensures dict.pendingKey.Some? ==> r.Ok? && r.value.1 == child
    ensures r.Ok? ==> r.value.0.DictionaryNode? && r.value.0.pendingKey.None? && r.value.0.parent == dict.parent
    ensures r.Ok? && dict.entries.Some? ==> Get(r.value.0, dict.pendingKey.value) == Some(child)
    ensures r.Ok? ==> forall k :: k != dict.pendingKey.value ==> Get(r.value.0, k) == Get(dict, k)
    ensures r.Ok? && dict.entries.None? ==> r.value.0.entries.None?
  {
    match dict.pendingKey
    case None => Err(NoPendingKey)
    case Some(key) => Ok((Set(dict, key, child).(pendingKey := None), child))
  }

  /**
   * DictionaryNode.AddKeyOrValue: with a pending key the child is its
   * value; otherwise the child must be a StringNode and becomes the
   * pending key.  Either way the child itself is returned.
   */
  function AddKeyOrValue(dict: Node, child: NodeRef, childNode: Node): (r: Result<(Node, NodeRef), JsonError>)
    requires dict.DictionaryNode?
    ensures dict.pendingKey.Some? ==> r == AddWithKeyFromCache(dict, child)
    ensures dict.pendingKey.None? && !childNode.StringNode? ==> r == Err(KeyIsNotString)
    ensures dict.pendingKey.None? && childNode.StringNode? ==>
      r == Ok((dict.(pendingKey := Some(StringText(childNode))), child))
    ensures r.Ok? ==> r.value.1 == child
  {
    if dict.pendingKey.Some? then AddWithKeyFromCache(dict, child)
    else if !childNode.StringNode? then Err(KeyIsNotString)
    else Ok((dict.(pendingKey := Some(StringText(childNode))), child))
  }

  /**
   * The `Add` the parser calls on a dictionary: AddKeyOrValue, with the
   * node to descend to chosen as ListNode.Add chooses it.
   */
  function DictionaryAdd(dict: Node, self: NodeRef, child: NodeRef, childNode: Node): (r: Result<(Node, NodeRef), JsonError>)
    requires dict.DictionaryNode?
    ensures AddKeyOrValue(dict, child, childNode).Err? ==> r == AddKeyOrValue(dict, child, childNode)
    ensures AddKeyOrValue(dict, child, childNode).Ok? ==>
      r == Ok((AddKeyOrValue(dict, child, childNode).value.0, if IsContainer(childNode) then child else self))
  {
    match AddKeyOrValue(dict, child, childNode)
    case Err(e) => Err(e)
    case Ok((d, _)) => Ok((d, if IsContainer(childNode) then child else self))
  }

  /** With no pending key, a string becomes the key; then any node becomes its value. */
  lemma KeyThenValue(dict: Node, key: NodeRef, keyNode: Node, value: NodeRef, valueNode: Node)
    requires dict.DictionaryNode? && dict.pendingKey.None? && dict.entries.Some?
    requires keyNode.StringNode?
    ensures var first := AddKeyOrValue(dict, key, keyNode);
      && first.Ok? && first.value.0.pendingKey == Some(StringText(keyNode))
      && var second := AddKeyOrValue(first.value.0, value, valueNode);
      && second.Ok? && second.value.0.pendingKey.None?
      && second.value.0.entries == Some(dict.entries.value[StringText(keyNode) := value])
  {
  }

  // ------------------------------------------------------------------ the arena

  /**
   * The arena is ordered: a parent comes before its node, and every child
   * (a list item or a dictionary value) comes after its container.
   */
  predicate NodeOrdered(nodes: seq<Node>, i: nat)
    requires i < |nodes|
  {
    && (nodes[i].parent.Some? ==> nodes[i].parent.value < i)
    && (nodes[i].ListNode? && nodes[i].items.Some? ==>
          forall k :: 0 <= k < |nodes[i].items.value| ==> i < nodes[i].items.value[k] < |nodes|)
    && (nodes[i].DictionaryNode? && nodes[i].entries.Some? ==>
          forall key :: key in nodes[i].entries.value ==> i < nodes[i].entries.value[key] < |nodes|)
  }

  predicate Ordered(nodes: seq<Node>) {
    forall i :: 0 <= i < |nodes| ==> NodeOrdered(nodes, i)
  }

  /** A node as the parser builds it: no children yet. */
  predicate Childless(n: Node) {
    && (n.ListNode? && n.items.Some? ==> n.items.value == [])
    && (n.DictionaryNode? && n.entries.Some? ==> n.entries.value == map[])
  }

  /** Appending a childless node whose parent is already in the arena keeps it ordered. */
  lemma AppendOrdered(nodes: seq<Node>, n: Node)
    requires Ordered(nodes) && Childless(n)
    requires n.parent.Some? ==> n.parent.value < |nodes|
    ensures Ordered(nodes + [n])
  {
    var nodes' := nodes + [n];
    forall i | 0 <= i < |nodes'| ensures NodeOrdered(nodes', i) {
      if i < |nodes| {
        assert NodeOrdered(nodes, i);
        assert nodes'[i] == nodes[i];
      }
    }
  }

  /**
   * Replacing a container by one with one more child keeps the arena
   * ordered, when that child comes after the container.
   */
  lemma ReplaceOrdered(nodes: seq<Node>, c: NodeRef, n: Node, child: NodeRef)
    requires Ordered(nodes) && c < child < |nodes|
    requires n.parent == nodes[c].parent
    requires n.ListNode? && n.items.Some? ==>
      nodes[c].ListNode? && nodes[c].items.Some? && n.items.value == nodes[c].items.value + [child]
    requires n.DictionaryNode? && n.entries.Some? ==>
      nodes[c].DictionaryNode? && nodes[c].entries.Some? &&
      forall key :: key in n.entries.value ==>
        n.entries.value[key] == child || (key in nodes[c].entries.value && n.entries.value[key] == nodes[c].entries.value[key])
    ensures Ordered(nodes[c := n])
  {
    var nodes' := nodes[c := n];
    forall i | 0 <= i < |nodes'| ensures NodeOrdered(nodes', i) {
      assert NodeOrdered(nodes, i);
    }
  }

  // ------------------------------------------------------------ ToString

  const BooleanNodeName: string := "JsonLib.Nodes.BooleanNode"
  const NumberNodeName: string := "JsonLib.Nodes.NumberNode"
  const DictionaryNodeName: string := "JsonLib.Nodes.DictionaryNode"

  /**
   * ToString of the node at index i: StringNode and ListNode override it;
   * the other classes print their type name (object.ToString).  A list
   * whose Data is not a list throws, and so does any list around it.
   */
  function NodeText(nodes: seq<Node>, i: NodeRef): (r: Result<string, JsonError>)
    requires Ordered(nodes) && i < |nodes|
    ensures r.Err? ==> r.error == ListDataMissing
    ensures !nodes[i].ListNode? ==> r.Ok?
    ensures nodes[i].StringNode? ==> r == Ok(StringText(nodes[i]))
    ensures nodes[i].BooleanNode? ==> r == Ok(BooleanNodeName)
    ensures nodes[i].NumberNode? ==> r == Ok(NumberNodeName)
    ensures nodes[i].DictionaryNode? ==> r == Ok(DictionaryNodeName)
    ensures nodes[i].ListNode? && nodes[i].items.None? ==> r == Err(ListDataMissing)
    decreases |nodes| - i, 1, 0
  {
    match nodes[i]
    case StringNode(_, _) => Ok(StringText(nodes[i]))
    case BooleanNode(_, _) => Ok(BooleanNodeName)
    case NumberNode(_, _) => Ok(NumberNodeName)
    case DictionaryNode(_, _, _) => Ok(DictionaryNodeName)
    case ListNode(items, _) =>
      if items.None? then Err(ListDataMissing)
      else
        assert NodeOrdered(nodes, i);
        match ItemsText(nodes, i, |items.value|)
        case Err(e) => Err(e)
        case Ok(lines) => Ok("Collection: [" + NewLine + lines + "]")
  }

  /** The line of the k-th child (counting from 0) in a list's text. */
  function ItemLine(k: nat, childText: string): string {
    IntToString(k + 1) + ". " + childText + NewLine
  }

  /** The lines of the first n children of the list at index i. */
  function ItemsText(nodes: seq<Node>, i: NodeRef, n: nat): (r: Result<string, JsonError>)
    requires Ordered(nodes) && i < |nodes|
    requires nodes[i].ListNode? && nodes[i].items.Some? && n <= |nodes[i].items.value|
    ensures r.Err? ==> r.error == ListDataMissing
    decreases |nodes| - i, 0, n
  {
    if n == 0 then Ok("")
    else
      assert NodeOrdered(nodes, i);
      var child := nodes[i].items.value[n - 1];
      match ItemsText(nodes, i, n - 1)
      case Err(e) => Err(e)
      case Ok(before) =>
        match NodeText(nodes, child)
        case Err(e) => Err(e)
        case Ok(t) => Ok(before + ItemLine(n - 1, t))
  }

  /** Numbered lines `1. t`, `2. t`, ..., one per text, each ended by a newline. */
  function Numbered(texts: seq<string>): string {
    if texts == [] then "" else Numbered(texts[..|texts| - 1]) + ItemLine(|texts| - 1, texts[|texts| - 1])
  }

  /** The children of list i have the given texts, one for one and in order. */
  predicate ChildTexts(nodes: seq<Node>, i: NodeRef, texts: seq<string>)
    requires Ordered(nodes) && i < |nodes| && nodes[i].ListNode? && nodes[i].items.Some?
  {
    var cs := nodes[i].items.value;
    |texts| == |cs| &&
    forall k :: 0 <= k < |cs| ==> cs[k] < |nodes| && NodeText(nodes, cs[k]) == Ok(texts[k])
  }

  /**
   * ToString of a list whose children all have a text, whatever their
   * kind: `Collection: [`, a newline, the numbered line of each child's
   * text, then `]`.
   */
  lemma ListText(nodes: seq<Node>, i: NodeRef, texts: seq<string>)
    requires Ordered(nodes) && i < |nodes| && nodes[i].ListNode? && nodes[i].items.Some?
    requires ChildTexts(nodes, i, texts)
    ensures NodeText(nodes, i) == Ok("Collection: [" + NewLine + Numbered(texts) + "]")
  {
    ChildItemsText(nodes, i, texts, |texts|);
    assert texts[..|texts|] == texts;
    assert NodeText(nodes, i) == Ok("Collection: [" + NewLine + Numbered(texts) + "]") by {
      assert NodeOrdered(nodes, i);
      assert ItemsText(nodes, i, |nodes[i].items.value|) == Ok(Numbered(texts));
    }
  }

  lemma {:induction false} ChildItemsText(nodes: seq<Node>, i: NodeRef, texts: seq<string>, n: nat)
    requires Ordered(nodes) && i < |nodes| && nodes[i].ListNode? && nodes[i].items.Some?
    requires ChildTexts(nodes, i, texts) && n <= |texts|
    ensures ItemsText(nodes, i, n) == Ok(Numbered(texts[..n]))
    decreases n
  {
    if n > 0 {
      ChildItemsText(nodes, i, texts, n - 1);
      assert texts[..n][..n - 1] == texts[..n - 1];
      var child := nodes[i].items.value[n - 1];
      assert NodeText(nodes, child) == Ok(texts[n - 1]);
    }
  }

  /**
   * A list's ToString throws exactly when its own Data is not a list or
   * the ToString of one of its children throws.
   */
  lemma ListTextFails(nodes: seq<Node>, i: NodeRef)
    requires Ordered(nodes) && i < |nodes| && nodes[i].ListNode?
    ensures NodeText(nodes, i).Err? <==>
      || nodes[i].items.None?
      || exists k :: 0 <= k < |nodes[i].items.value| && nodes[i].items.value[k] < |nodes| &&
           NodeText(nodes, nodes[i].items.value[k]).Err?
  {
    if nodes[i].items.Some? {
      assert NodeOrdered(nodes, i);
      ItemsTextFails(nodes, i, |nodes[i].items.value|);
    }
  }

  lemma {:induction false} ItemsTextFails(nodes: seq<Node>, i: NodeRef, n: nat)
    requires Ordered(nodes) && i < |nodes|
    requires nodes[i].ListNode? && nodes[i].items.Some? && n <= |nodes[i].items.value|
    ensures ItemsText(nodes, i, n).Err? <==>
      exists k :: 0 <= k < n && nodes[i].items.value[k] < |nodes| && NodeText(nodes, nodes[i].items.value[k]).Err?
    decreases n
  {
    assert NodeOrdered(nodes, i);
    if n > 0 {
      ItemsTextFails(nodes, i, n - 1);
    }
  }

  /** The children of list i are string nodes with the given texts, in order. */
  predicate StringChildren(nodes: seq<Node>, i: NodeRef, texts: seq<string>)
    requires i < |nodes| && nodes[i].ListNode? && nodes[i].items.Some?
  {
    var cs := nodes[i].items.value;
    |texts| == |cs| &&
    forall k :: 0 <= k < |cs| ==> cs[k] < |nodes| && nodes[cs[k]].StringNode? && StringText(nodes[cs[k]]) == texts[k]
  }

  /** ToString of any list whose children are strings: the texts are the strings' own, quotes kept. */
  lemma ListTextOfStrings(nodes: seq<Node>, i: NodeRef, texts: seq<string>)
    requires Ordered(nodes) && i < |nodes| && nodes[i].ListNode? && nodes[i].items.Some?
    requires StringChildren(nodes, i, texts)
    ensures NodeText(nodes, i) == Ok("Collection: [" + NewLine + Numbered(texts) + "]")
  {
    ListText(nodes, i, texts);
  }

  /** A list node whose two children are string nodes with texts a and b. */
  function TwoStrings(a: string, b: string): (nodes: seq<Node>)
    ensures Ordered(nodes) && |nodes| == 3 && nodes[0].ListNode? && nodes[0].items == Some([1, 2])
  {
    var nodes := [ListNode(Some([1, 2]), None), StringNode(Some(a), None), StringNode(Some(b), None)];
    assert NodeOrdered(nodes, 0) && NodeOrdered(nodes, 1) && NodeOrdered(nodes, 2);
    nodes
  }

  /** The two children's lines, numbered from 1. */
  lemma TwoStringsItems(a: string, b: string)
    ensures ItemsText(TwoStrings(a, b), 0, 2) == Ok(ItemLine(0, a) + ItemLine(1, b))
    ensures ItemLine(0, a) == "1. " + a + NewLine && ItemLine(1, b) == "2. " + b + NewLine
  {
    var nodes := TwoStrings(a, b);
    assert IntToString(1) == "1" && IntToString(2) == "2";
    assert NodeText(nodes, 1) == Ok(a) && NodeText(nodes, 2) == Ok(b);
    assert ItemsText(nodes, 0, 1) == Ok("" + ItemLine(0, a));
    assert "" + ItemLine(0, a) == ItemLine(0, a);
  }

  /** The text of a list of leaves: "Collection: [", then one numbered line per child, then "]". */
  lemma ListTextOfTwoStrings(a: string, b: string)
    ensures NodeText(TwoStrings(a, b), 0) == Ok("Collection: [" + NewLine + ItemLine(0, a) + ItemLine(1, b) + "]")
    ensures ItemLine(0, a) == "1. " + a + NewLine && ItemLine(1, b) == "2. " + b + NewLine
  {
    TwoStringsItems(a, b);
    var nodes := TwoStrings(a, b);
    assert |nodes[0].items.value| == 2;
    assert NodeText(nodes, 0) == Ok("Collection: [" + NewLine + (ItemLine(0, a) + ItemLine(1, b)) + "]");
    assert "Collection: [" + NewLine + (ItemLine(0, a) + ItemLine(1, b)) == "Collection: [" + NewLine + ItemLine(0, a) + ItemLine(1, b);
  }

  // ------------------------------------------------------------ the node store

  /** The heap of nodes; ListNode and DictionaryNode update their node here in place. */
  class NodeStore {
    var nodes: seq<Node>

    constructor ()
      ensures nodes == []
    {
      nodes := [];
    }

    /** Forget every node (ReadJson drops the old tree). */
    method Clear()
      modifies this
      ensures nodes == []
    {
      nodes := [];
    }

    /** Allocate a node; its reference is the next free index. */
    method Alloc(n: Node) returns (r: NodeRef)
      modifies this
      ensures nodes == old(nodes) + [n] && r == |old(nodes)|
    {
      r := |nodes|;
      nodes := nodes + [n];
    }

    /** ListNode.Add on the list at `list`: the list's node is replaced, nothing else changes. */
    method ListNodeAdd(list: NodeRef, child: NodeRef) returns (r: Result<NodeRef, JsonError>)
      requires list < |nodes| && nodes[list].ListNode? && child < |nodes|
      modifies this
      ensures var s := ListAdd(old(nodes[list]), list, child, old(nodes[child]));
        && (s.Ok? ==> nodes == old(nodes)[list := s.value.0] && r == Ok(s.value.1))
        && (s.Err? ==> nodes == old(nodes) && r == Err(s.error))
    {
      var data := nodes[list].items;
      if data.None? {
        return Err(ListDataMissing);
      }
      nodes := nodes[list := nodes[list].(items := Some(data.value + [child]))];
      r := Ok(if IsContainer(nodes[child]) then child else list);
    }

    /** The indexer's setter on the dictionary at `dict`. */
    method SetEntry(dict: NodeRef, key: string, value: NodeRef)
      requires dict < |nodes| && nodes[dict].DictionaryNode?
      modifies this
      ensures nodes == old(nodes)[dict := Set(old(nodes[dict]), key, value)]
    {
      var entries := nodes[dict].entries;
      if entries.Some? {
        nodes := nodes[dict := nodes[dict].(entries := Some(entries.value[key := value]))];
      }
    }

    /** DictionaryNode.AddWithKeyFromCache on the dictionary at `dict`. */
    method DictionaryAddWithKeyFromCache(dict: NodeRef, child: NodeRef) returns (r: Result<NodeRef, JsonError>)
      requires dict < |nodes| && nodes[dict].DictionaryNode?
      modifies this
      ensures var s := AddWithKeyFromCache(old(nodes[dict]), child);
        && (s.Ok? ==> nodes == old(nodes)[dict := s.value.0] && r == Ok(s.value.1))
        && (s.Err? ==> nodes == old(nodes) && r == Err(s.error))
    {
      var pending := nodes[dict].pendingKey;
      if pending.None? {
        return Err(NoPendingKey);
      }
      SetEntry(dict, pending.value, child);
      nodes := nodes[dict := nodes[dict].(pendingKey := None)];
      r := Ok(child);
    }

    /** DictionaryNode.AddKeyOrValue on the dictionary at `dict`. */
    method DictionaryAddKeyOrValue(dict: NodeRef, child: NodeRef) returns (r: Result<NodeRef, JsonError>)
      requires dict < |nodes| && nodes[dict].DictionaryNode? && child < |nodes|
      modifies this
      ensures var s := AddKeyOrValue(old(nodes[dict]), child, old(nodes[child]));
        && (s.Ok? ==> nodes == old(nodes)[dict := s.value.0] && r == Ok(s.value.1))
        && (s.Err? ==> nodes == old(nodes) && r == Err(s.error))
    {
      if nodes[dict].pendingKey.Some? {
        r := DictionaryAddWithKeyFromCache(dict, child);
        return;
      }
      if !nodes[child].StringNode? {
        return Err(KeyIsNotString);
      }
      nodes := nodes[dict := nodes[dict].(pendingKey := Some(StringText(nodes[child])))];
      r := Ok(child);
    }

    /** The parser's `Add` on the dictionary at `dict`. */
    method DictionaryNodeAdd(dict: NodeRef, child: NodeRef) returns (r: Result<NodeRef, JsonError>)
      requires dict < |nodes| && nodes[dict].DictionaryNode? && child < |nodes|
      modifies this
      ensures var s := DictionaryAdd(old(nodes[dict]), dict, child, old(nodes[child]));
        && (s.Ok? ==> nodes == old(nodes)[dict := s.value.0] && r == Ok(s.value.1))
        && (s.Err? ==> nodes == old(nodes) && r == Err(s.error))
    {
      var childIsContainer := IsContainer(nodes[child]);
      var added := DictionaryAddKeyOrValue(dict, child);
      if added.Err? {
        return Err(added.error);
      }
      r := Ok(if childIsContainer then child else dict);
    }

    /** ListNode.ToString: the StringBuilder loop over the children. */
    method ListToString(list: NodeRef) returns (r: Result<string, JsonError>)
      requires Ordered(nodes) && list < |nodes| && nodes[list].ListNode?
      ensures r == NodeText(nodes, list)
    {
      if nodes[list].items.None? {
        return Err(ListDataMissing);
      }
      var data := nodes[list].items.value;
      assert NodeOrdered(nodes, list);
      var sb := "";
      for i := 0 to |data|
        invariant ItemsText(nodes, list, i) == Ok(sb)
      {
        var childText := NodeText(nodes, data[i]);
        if childText.Err? {
          assert ItemsText(nodes, list, |data|).Err? by { ErrorPersists(nodes, list, i + 1, |data|); }
          return Err(childText.error);
        }
        sb := sb + ItemLine(i, childText.value);
      }
      r := Ok("Collection: [" + NewLine + sb + "]");
    }
  }

  /** Once a child's text fails, the text of every longer prefix fails too. */
  lemma {:induction false} ErrorPersists(nodes: seq<Node>, i: NodeRef, m: nat, n: nat)
    requires Ordered(nodes) && i < |nodes|
    requires nodes[i].ListNode? && nodes[i].items.Some? && m <= n <= |nodes[i].items.value|
    requires ItemsText(nodes, i, m).Err?
    ensures ItemsText(nodes, i, n).Err?
    decreases n - m
  {
    if m < n {
      ErrorPersists(nodes, i, m, n - 1);
    }
  }
}
