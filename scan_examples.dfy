/**
 * Whole scans of small documents, showing the edge cases of the scanner
 * as the code has them.
 */
module ScanExamples {
  import opened Common
  import opened Nodes
  import opened Helpers
  import opened JsonParser

  /** A quoted `true` is a string token: its text is kept with its quotes. */
  lemma QuotedTrueIsAString()
    ensures Parse("\"true\"") == Ok(State([StringNode(Some("\"true\""), None)], Some(0), 6))
  {
    var sb := "\"true\"";
    var s0 := State([], None, 0);
    assert Independent([], None, '"') == Ok(([], None));
    assert RightIndex(sb, 1, QuoteEndings, Some(Escapes)) == Ok(5);
    assert sb[0..6] == sb;
    assert TokenAt(sb, 0, '"') == Ok(sb);
    var leaf := StringNode(Some(sb), None);
    assert TokenLeaf('"', sb, None) == Ok(Some(leaf));
    assert [] + [leaf] == [leaf];
    assert Attach([], None, leaf) == Ok(([leaf], Some(0)));
    assert Dependent(sb, 0, [], None) == Ok(State([leaf], Some(0), 5));
    var s1 := State([leaf], Some(0), 6);
    assert Step(sb, s0) == Ok(s1);
    RunStep(sb, s0);
  }

  /** A truncated literal runs past the buffer. */
  lemma TruncatedLiteral()
    ensures Parse("[tru") == Err(OutOfRange)
  {
  }

  /** An unclosed list is accepted: there is no end-of-input check. */
  lemma UnclosedListIsAccepted()
    ensures Parse("[") == Ok(State([ListNode(Some([]), None)], Some(0), 1))
  {
    var s0 := State([], None, 0);
    var s1 := State([ListNode(Some([]), None)], Some(0), 1);
    var list := [ListNode(Some([]), None)];
    assert [] + [ListNode(Some([]), None)] == list;
    assert Independent([], None, '[') == Ok((list, Some(0)));
    assert TokenAt("[", 0, '[') == Ok("");
    assert TokenLeaf('[', "", Some(0)) == Ok(None);
    assert Dependent("[", 0, list, Some(0)) == Ok(State(list, Some(0), 0));
    assert Step("[", s0) == Ok(s1);
    RunStep("[", s0);
  }

  /** A character that is no bracket and starts no token is consumed alone. */
  lemma PlainCharacterStep(sb: seq<char>, st: State)
    requires 0 <= st.index < |sb| && Ordered(st.nodes) && CursorIn(st.nodes, st.node)
    requires sb[st.index] !in "[]{}\"tfn\n" && !Numbers.IsDigit(sb[st.index])
    ensures Step(sb, st) == Ok(st.(index := st.index + 1))
  {
    assert Independent(st.nodes, st.node, sb[st.index]) == Ok((st.nodes, st.node));
  }

  /** An opening bracket at the start of the buffer makes an empty root list. */
  lemma OpenRootList(sb: seq<char>)
    requires |sb| > 0 && sb[0] == '['
    ensures Step(sb, State([], None, 0)) == Ok(State([ListNode(Some([]), None)], Some(0), 1))
  {
    var list := [ListNode(Some([]), None)];
    assert [] + list == list;
    assert Independent([], None, '[') == Ok((list, Some(0)));
    assert TokenAt(sb, 0, '[') == Ok("");
    assert Dependent(sb, 0, list, Some(0)) == Ok(State(list, Some(0), 0));
  }

  /** An opening brace at the start of the buffer makes an empty root dictionary. */
  lemma OpenRootDictionary(sb: seq<char>)
    requires |sb| > 0 && sb[0] == '{'
    ensures Step(sb, State([], None, 0)) == Ok(State([DictionaryNode(Some(map[]), None, None)], Some(0), 1))
  {
    var dict := [DictionaryNode(Some(map[]), None, None)];
    assert [] + dict == dict;
    assert Independent([], None, '{') == Ok((dict, Some(0)));
    assert TokenAt(sb, 0, '{') == Ok("");
    assert Dependent(sb, 0, dict, Some(0)) == Ok(State(dict, Some(0), 0));
  }

  /** Closing the root container leaves the cursor on it. */
  lemma CloseRoot(sb: seq<char>, st: State)
    requires 0 <= st.index < |sb| && Ordered(st.nodes) && st.node == Some(0) && |st.nodes| > 0
    requires st.nodes[0].parent.None?
    requires (sb[st.index] == ']' && st.nodes[0].ListNode?) || (sb[st.index] == '}' && st.nodes[0].DictionaryNode?)
    ensures Step(sb, st) == Ok(st.(index := st.index + 1))
  {
    assert Independent(st.nodes, st.node, sb[st.index]) == Ok((st.nodes, st.node));
    assert TokenAt(sb, st.index, sb[st.index]) == Ok("");
  }

  /** The one-digit number 5 followed by `]` joins the root list. */
  lemma FiveJoinsList(sb: seq<char>)
    requires |sb| == 4 && sb[2] == '5' && sb[3] == ']'
    ensures Step(sb, State([ListNode(Some([]), None)], Some(0), 2))
      == Ok(State([ListNode(Some([1]), None), NumberNode(5.0, Some(0))], Some(0), 3))
  {
    var list := [ListNode(Some([]), None)];
    var five := NumberNode(5.0, Some(0));
    var nodes := [ListNode(Some([1]), None), five];
    assert RightIndex(sb, 3, TypeEndings, None) == Ok(3);
    assert sb[2..3] == "5";
    assert TokenAt(sb, 2, '5') == Ok("5");
    assert Numbers.DigitsValue("5") == 5;
    assert TokenLeaf('5', "5", Some(0)) == Ok(Some(five));
    assert (list + [five])[0 := ListNode(Some([1]), None)] == nodes;
    assert [] + [1] == [1];
    assert ListAdd(list[0], 0, 1, five) == Ok((ListNode(Some([1]), None), 0));
    assert Attach(list, Some(0), five) == Ok((nodes, Some(0)));
    assert Dependent(sb, 2, list, Some(0)) == Ok(State(nodes, Some(0), 2));
  }

  /** A sign is not part of a number: `[-5]` holds the number 5. */
  lemma MinusSignIsSkipped()
    ensures Parse("[-5]") == Ok(State([ListNode(Some([1]), None), NumberNode(5.0, Some(0))], Some(0), 4))
  {
    var sb := "[-5]";
    assert |sb| == 4 && sb[0] == '[' && sb[1] == '-' && sb[2] == '5' && sb[3] == ']';
    SignedFiveRuns(sb);
  }

  /** The four steps over `[-5]`, on any buffer with those characters. */
  lemma SignedFiveRuns(sb: seq<char>)
    requires |sb| == 4 && sb[0] == '[' && sb[1] == '-' && sb[2] == '5' && sb[3] == ']'
    ensures Parse(sb) == Ok(State([ListNode(Some([1]), None), NumberNode(5.0, Some(0))], Some(0), 4))
  {
    var list := [ListNode(Some([]), None)];
    var nodes := [ListNode(Some([1]), None), NumberNode(5.0, Some(0))];
    var s0, s1, s2 := State([], None, 0), State(list, Some(0), 1), State(list, Some(0), 2);
    var s3, s4 := State(nodes, Some(0), 3), State(nodes, Some(0), 4);
    OpenRootList(sb);
    RunAfterStep(sb, s0, s1);
    PlainCharacterStep(sb, s1);
    RunAfterStep(sb, s1, s2);
    FiveJoinsList(sb);
    RunAfterStep(sb, s2, s3);
    CloseRoot(sb, s3);
    RunAfterStep(sb, s3, s4);
  }

  /** The number 1 followed by `}` joins the root list. */
  lemma OneJoinsList(sb: seq<char>)
    requires |sb| == 3 && sb[1] == '1' && sb[2] == '}'
    ensures Step(sb, State([ListNode(Some([]), None)], Some(0), 1))
      == Ok(State([ListNode(Some([1]), None), NumberNode(1.0, Some(0))], Some(0), 2))
  {
    var list := [ListNode(Some([]), None)];
    var one := NumberNode(1.0, Some(0));
    var nodes := [ListNode(Some([1]), None), one];
    assert RightIndex(sb, 2, TypeEndings, None) == Ok(2);
    assert sb[1..2] == "1";
    assert TokenAt(sb, 1, '1') == Ok("1");
    assert Numbers.DigitsValue("1") == 1;
    assert TokenLeaf('1', "1", Some(0)) == Ok(Some(one));
    assert (list + [one])[0 := ListNode(Some([1]), None)] == nodes;
    assert [] + [1] == [1];
    assert ListAdd(list[0], 0, 1, one) == Ok((ListNode(Some([1]), None), 0));
    assert Attach(list, Some(0), one) == Ok((nodes, Some(0)));
    assert Dependent(sb, 1, list, Some(0)) == Ok(State(nodes, Some(0), 1));
  }

  /** A closing brace cannot end a list. */
  lemma MismatchedClosing()
    ensures Parse("[1}") == Err(StructureEnding)
  {
    var sb := "[1}";
    var list := [ListNode(Some([]), None)];
    var nodes := [ListNode(Some([1]), None), NumberNode(1.0, Some(0))];
    var s0, s1, s2 := State([], None, 0), State(list, Some(0), 1), State(nodes, Some(0), 2);
    OpenRootList(sb);
    RunStep(sb, s0);
    OneJoinsList(sb);
    RunStep(sb, s1);
    assert Independent(nodes, Some(0), '}') == Err(StructureEnding);
    RunStep(sb, s2);
  }

  /** The key `"a"` read into an empty root dictionary becomes its pending key. */
  lemma KeyIntoDictionary(sb: seq<char>)
    requires sb == "{\"a\"}"
    ensures Step(sb, State([DictionaryNode(Some(map[]), None, None)], Some(0), 1))
      == Ok(State([DictionaryNode(Some(map[]), None, Some("\"a\"")), StringNode(Some("\"a\""), None)], Some(0), 4))
  {
    var empty := DictionaryNode(Some(map[]), None, None);
    var key := "\"a\"";
    var keyNode := StringNode(Some(key), None);
    var nodes := [DictionaryNode(Some(map[]), None, Some(key)), keyNode];
    assert Independent([empty], Some(0), '"') == Ok(([empty], Some(0)));
    assert RightIndex(sb, 2, QuoteEndings, Some(Escapes)) == Ok(3);
    assert sb[1..4] == key;
    assert TokenAt(sb, 1, '"') == Ok(key);
    assert ([empty] + [keyNode])[0 := nodes[0]] == nodes;
    assert Attach([empty], Some(0), keyNode) == Ok((nodes, Some(0)));
    assert Dependent(sb, 1, [empty], Some(0)) == Ok(State(nodes, Some(0), 3));
  }

  /**
   * A key with no value is left pending when its dictionary closes: the
   * scan of `{"a"}` succeeds with the key still in the slot.
   */
  lemma KeyWithoutValueStaysPending()
    ensures Parse("{\"a\"}") == Ok(State([DictionaryNode(Some(map[]), None, Some("\"a\"")), StringNode(Some("\"a\""), None)], Some(0), 5))
  {
    var sb := "{\"a\"}";
    var nodes := [DictionaryNode(Some(map[]), None, Some("\"a\"")), StringNode(Some("\"a\""), None)];
    var s0, s1 := State([], None, 0), State([DictionaryNode(Some(map[]), None, None)], Some(0), 1);
    var s4 := State(nodes, Some(0), 4);
    OpenRootDictionary(sb);
    RunStep(sb, s0);
    KeyIntoDictionary(sb);
    RunStep(sb, s1);
    CloseRoot(sb, s4);
    RunStep(sb, s4);
  }
}
