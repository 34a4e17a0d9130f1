/** Serialisation of an icon tree to SVG markup (playground/src/plugins/utils.ts). */
module SvgString {
  import opened Types

  /** One `key="value"` attribute; attribute lists are JavaScript objects, so
      their keys are distinct (`DistinctKeys`). */
  datatype Attr = Attr(key: string, value: string)

  /** An icon node: `[tag, attributes, children]`, or `[tag, attributes]`
      with the children omitted. */
  datatype IconNode =
    | Element(tag: string, attributes: seq<Attr>, children: seq<IconNode>)
    | Bare(tag: string, attributes: seq<Attr>)

  /** The children, an omitted list being empty. */
  function Kids(node: IconNode): seq<IconNode> {
    if node.Element? then node.children else []
  }

  ghost predicate DistinctKeys(attrs: seq<Attr>) {
    forall i, j :: 0 <= i < j < |attrs| ==> attrs[i].key != attrs[j].key
  }

  function Keys(attrs: seq<Attr>): (ks: set<string>)
    ensures forall i :: 0 <= i < |attrs| ==> attrs[i].key in ks
  {
    if |attrs| == 0 then {} else {attrs[0].key} + Keys(attrs[1..])
  }

  /** The value of `key`, reading the object as JavaScript would. */
  function Lookup(attrs: seq<Attr>, key: string): (r: Option<string>)
    ensures r.None? <==> key !in Keys(attrs)
  {
    if |attrs| == 0 then None
    else if attrs[0].key == key then Some(attrs[0].value)
    else Lookup(attrs[1..], key)
  }

  /** `{ ...own, ...extra }`: own keys first, in their order, with `extra`'s value
      where it has one; then `extra`'s remaining keys, in their order. */
  function Merge(own: seq<Attr>, extra: seq<Attr>): seq<Attr> {
    Overridden(own, extra) + NotIn(extra, Keys(own))
  }

  function Overridden(own: seq<Attr>, extra: seq<Attr>): (r: seq<Attr>)
    ensures |r| == |own|
    ensures forall i :: 0 <= i < |own| ==> r[i] == Attr(own[i].key, Lookup(extra, own[i].key).GetOr(own[i].value))
  {
    if |own| == 0 then []
    else [Attr(own[0].key, Lookup(extra, own[0].key).GetOr(own[0].value))] + Overridden(own[1..], extra)
  }

  function NotIn(attrs: seq<Attr>, ks: set<string>): (r: seq<Attr>)
    ensures |r| <= |attrs|
    ensures forall a :: a in r <==> a in attrs && a.key !in ks
  {
    if |attrs| == 0 then []
    else if attrs[0].key in ks then NotIn(attrs[1..], ks)
    else [attrs[0]] + NotIn(attrs[1..], ks)
  }

  /** `key="value"` pairs joined by single spaces. */
  function AttrString(attrs: seq<Attr>): string {
    if |attrs| == 0 then ""
    else if |attrs| == 1 then AttrText(attrs[0])
    else AttrText(attrs[0]) + SPACE + AttrString(attrs[1..])
  }

  function AttrText(a: Attr): string {
    a.key + VALUE_OPEN + a.value + VALUE_CLOSE
  }

  /** The attributes a node is printed with: `svg` nodes take `extra` on top. */
  function NodeAttributes(node: IconNode, extra: seq<Attr>): seq<Attr> {
    if node.tag == SVG_TAG then Merge(node.attributes, extra) else node.attributes
  }

  // The markup the printer emits, and the tag whose attributes are merged.
  const TAG_OPEN: string := "<"
  const END_TAG_OPEN: string := "</"
  const TAG_CLOSE: string := ">"
  const SPACE: string := " "
  const VALUE_OPEN: string := "=\""
  const VALUE_CLOSE: string := "\""
  const SVG_TAG: string := "svg"

  function OpenTag(tag: string, attrs: seq<Attr>): string {
    TAG_OPEN + tag + SPACE + AttrString(attrs) + TAG_CLOSE
  }

  function CloseTag(tag: string): string {
    END_TAG_OPEN + tag + TAG_CLOSE
  }

  /** `createElementString`. */
  function Render(node: IconNode, extra: seq<Attr>): string
    decreases node, 1
  {
    OpenTag(node.tag, NodeAttributes(node, extra))
    + RenderChildren(node, extra, |Kids(node)|)
    + CloseTag(node.tag)
  }

  /** The first `n` children of `node`, printed and concatenated. */
  function RenderChildren(node: IconNode, extra: seq<Attr>, n: nat): string
    requires n <= |Kids(node)|
    decreases node, 0, n
  {
    if n == 0 then ""
    else RenderChildren(node, extra, n - 1) + Render(Kids(node)[n - 1], extra)
  }

  /** `createSvgStr(icon, attrs)`; omitted `attrs` is the empty list. */
  function CreateSvgStr(icon: IconNode, attrs: seq<Attr>): string {
    Render(icon, attrs)
  }

  // ---------------------------------------------------------------------------
  // Reference printer without attribute merging.

  function RenderOwn(node: IconNode): string
    decreases node, 1
  {
    OpenTag(node.tag, node.attributes) + RenderOwnChildren(node, |Kids(node)|) + CloseTag(node.tag)
  }

  function RenderOwnChildren(node: IconNode, n: nat): string
    requires n <= |Kids(node)|
    decreases node, 0, n
  {
    if n == 0 then "" else RenderOwnChildren(node, n - 1) + RenderOwn(Kids(node)[n - 1])
  }

  // ---------------------------------------------------------------------------
  // Tag structure of the output.

  datatype Token = Open(tag: string, attrs: seq<Attr>) | Close(tag: string)

  function TokenText(t: Token): string {
    match t
    case Open(tag, attrs) => OpenTag(tag, attrs)
    case Close(tag) => CloseTag(tag)
  }

  function Texts(ts: seq<Token>): (r: seq<string>)
    ensures |r| == |ts|
    ensures forall i :: 0 <= i < |ts| ==> r[i] == TokenText(ts[i])
  {
    seq(|ts|, i requires 0 <= i < |ts| => TokenText(ts[i]))
  }

  /** The text of a token sequence. */
  function Print(ts: seq<Token>): string {
    Concat(Texts(ts))
  }

  function Tokens(node: IconNode, extra: seq<Attr>): seq<Token>
    decreases node, 1
  {
    [Open(node.tag, NodeAttributes(node, extra))] + ChildTokens(node, extra, |Kids(node)|) + [Close(node.tag)]
  }

  function ChildTokens(node: IconNode, extra: seq<Attr>, n: nat): seq<Token>
    requires n <= |Kids(node)|
    decreases node, 0, n
  {
    if n == 0 then [] else ChildTokens(node, extra, n - 1) + Tokens(Kids(node)[n - 1], extra)
  }

  /** Runs a tag stack over tokens: an opening tag is pushed, a closing tag must
      match the top of the stack and pops it. */
  function Run(stack: seq<string>, ts: seq<Token>): Option<seq<string>>
    decreases |ts|
  {
    if |ts| == 0 then Some(stack)
    else match ts[0]
      case Open(tag, _) => Run(stack + [tag], ts[1..])
      case Close(tag) =>
        if |stack| > 0 && stack[|stack| - 1] == tag then Run(stack[..|stack| - 1], ts[1..]) else None
  }

  /** Every opening tag is closed by a matching closing tag, properly nested. */
  predicate Balanced(ts: seq<Token>) {
    Run([], ts) == Some([])
  }

  function NodeCount(node: IconNode): nat
    decreases node, 1
  {
    1 + ChildrenCount(node, |Kids(node)|)
  }

  function ChildrenCount(node: IconNode, n: nat): nat
    requires n <= |Kids(node)|
    decreases node, 0, n
  {
    if n == 0 then 0 else ChildrenCount(node, n - 1) + NodeCount(Kids(node)[n - 1])
  }

  function Opens(ts: seq<Token>): nat {
    if |ts| == 0 then 0 else (if ts[0].Open? then 1 else 0) + Opens(ts[1..])
  }

  // ---------------------------------------------------------------------------
  // Lemmas

  /** Omitted children and an empty child list print the same. */
  lemma MissingChildrenAreEmpty(tag: string, attrs: seq<Attr>, extra: seq<Attr>)
    ensures Render(Bare(tag, attrs), extra) == Render(Element(tag, attrs, []), extra)
    ensures Render(Bare(tag, attrs), extra) == OpenTag(tag, NodeAttributes(Bare(tag, attrs), extra)) + CloseTag(tag)
  {
  }

  /** The printed children of `node`, one string per child, in order. */
  function ChildOutputs(node: IconNode, extra: seq<Attr>): seq<string> {
    seq(|Kids(node)|, i requires 0 <= i < |Kids(node)| => Render(Kids(node)[i], extra))
  }

  /** A node's output is its opening tag, then `children.map(...).join('')`,
      then its closing tag. */
  lemma RenderShape(node: IconNode, extra: seq<Attr>)
    ensures Render(node, extra)
            == OpenTag(node.tag, NodeAttributes(node, extra)) + Concat(ChildOutputs(node, extra)) + CloseTag(node.tag)
  {
    var outs := ChildOutputs(node, extra);
    RenderChildrenJoined(node, extra, |outs|);
    assert outs[..|outs|] == outs;
  }

  lemma {:induction false} RenderChildrenJoined(node: IconNode, extra: seq<Attr>, n: nat)
    requires n <= |Kids(node)|
    ensures RenderChildren(node, extra, n) == Concat(ChildOutputs(node, extra)[..n])
  {
    var outs := ChildOutputs(node, extra);
    if n == 0 {
      assert outs[..0] == [];
    } else {
      RenderChildrenJoined(node, extra, n - 1);
      ConcatSnoc(outs, n);
    }
  }

  /** Without extra attributes every node prints with its own attributes. */
  lemma {:induction false} NoExtraIsOwn(node: IconNode)
    ensures Render(node, []) == RenderOwn(node)
    decreases node, 1
  {
    MergeEmpty(node.attributes);
    NoExtraIsOwnChildren(node, |Kids(node)|);
  }

  lemma {:induction false} NoExtraIsOwnChildren(node: IconNode, n: nat)
    requires n <= |Kids(node)|
    ensures RenderChildren(node, [], n) == RenderOwnChildren(node, n)
    decreases node, 0, n
  {
    if n > 0 {
      NoExtraIsOwnChildren(node, n - 1);
      NoExtraIsOwn(Kids(node)[n - 1]);
    }
  }

  /** Merging in nothing keeps the attributes as they are. */
  lemma {:induction false} MergeEmpty(own: seq<Attr>)
    ensures Merge(own, []) == own
  {
    var r := Merge(own, []);
    assert NotIn([], Keys(own)) == [];
    assert |r| == |own|;
    forall i | 0 <= i < |own| ensures r[i] == own[i] {
    }
  }

  /** On an `svg` node the extra value wins on a shared key, other own keys keep
      their value, and extra keys new to the node are added. */
  lemma MergeValues(own: seq<Attr>, extra: seq<Attr>, key: string)
    requires DistinctKeys(own) && DistinctKeys(extra)
    ensures Lookup(Merge(own, extra), key) ==
      if key in Keys(extra) then Lookup(extra, key) else Lookup(own, key)
  {
    var o := Overridden(own, extra);
    var n := NotIn(extra, Keys(own));
    LookupAppend(o, n, key);
    if key in Keys(own) {
      var i := IndexOfKey(own, key);
      LookupDistinct(own, i);
      LookupDistinct(o, i) by { OverriddenDistinct(own, extra); }
    } else {
      KeysOverridden(own, extra);
      if key in Keys(extra) {
        var j := IndexOfKey(extra, key);
        LookupDistinct(extra, j);
        assert extra[j] in n;
        NotInDistinct(extra, Keys(own));
        var m :| 0 <= m < |n| && n[m] == extra[j];
        LookupDistinct(n, m);
      } else {
        KeysNotIn(extra, Keys(own));
      }
    }
  }

  lemma {:induction false} KeysOverridden(own: seq<Attr>, extra: seq<Attr>)
    ensures Keys(Overridden(own, extra)) == Keys(own)
  {
    if |own| > 0 {
      KeysOverridden(own[1..], extra);
    }
  }

  lemma {:induction false} KeysNotIn(attrs: seq<Attr>, ks: set<string>)
    ensures Keys(NotIn(attrs, ks)) <= Keys(attrs)
  {
    if |attrs| > 0 {
      KeysNotIn(attrs[1..], ks);
    }
  }

  /** The merged attributes are again a JavaScript object (distinct keys). */
  lemma MergeDistinct(own: seq<Attr>, extra: seq<Attr>)
    requires DistinctKeys(own) && DistinctKeys(extra)
    ensures DistinctKeys(Merge(own, extra))
  {
    var o := Overridden(own, extra);
    var n := NotIn(extra, Keys(own));
    OverriddenDistinct(own, extra);
    NotInDistinct(extra, Keys(own));
    var r := o + n;
    forall i, j | 0 <= i < j < |r| ensures r[i].key != r[j].key {
      if j >= |o| && i < |o| {
        assert r[i].key == own[i].key;
        assert r[j] in n;
      }
    }
  }

  lemma OverriddenDistinct(own: seq<Attr>, extra: seq<Attr>)
    requires DistinctKeys(own)
    ensures DistinctKeys(Overridden(own, extra))
  {
  }

  lemma {:induction false} NotInDistinct(attrs: seq<Attr>, ks: set<string>)
    requires DistinctKeys(attrs)
    ensures DistinctKeys(NotIn(attrs, ks))
  {
    if |attrs| > 0 {
      NotInDistinct(attrs[1..], ks);
      var rest := NotIn(attrs[1..], ks);
      forall a | a in rest ensures a.key != attrs[0].key {
        var i :| 0 <= i < |attrs[1..]| && attrs[1..][i] == a;
        assert attrs[i + 1] == a;
      }
    }
  }

  function IndexOfKey(attrs: seq<Attr>, key: string): (i: nat)
    requires key in Keys(attrs)
    ensures i < |attrs| && attrs[i].key == key
  {
    if attrs[0].key == key then 0 else 1 + IndexOfKey(attrs[1..], key)
  }

  lemma {:induction false} LookupDistinct(attrs: seq<Attr>, i: nat)
    requires DistinctKeys(attrs) && i < |attrs|
    ensures Lookup(attrs, attrs[i].key) == Some(attrs[i].value)
  {
    if i > 0 {
      LookupDistinct(attrs[1..], i - 1);
    }
  }

  lemma {:induction false} LookupAppend(a: seq<Attr>, b: seq<Attr>, key: string)
    ensures Lookup(a + b, key) == if key in Keys(a) then Lookup(a, key) else Lookup(b, key)
  {
    if |a| > 0 {
      LookupAppend(a[1..], b, key);
      assert (a + b)[1..] == a[1..] + b;
    } else {
      assert a + b == b;
    }
  }

  /** Non-`svg` nodes keep their own attributes whatever the extra attributes are. */
  /** The attribute string of two non-empty lists is theirs joined by one space:
      every attribute prints as `key="value"`, in order, one space apart. */
  lemma {:induction false} AttrStringAppend(a: seq<Attr>, b: seq<Attr>)
    requires |a| > 0 && |b| > 0
    ensures AttrString(a + b) == AttrString(a) + SPACE + AttrString(b)
  {
    var ab := a + b;
    assert ab[0] == a[0];
    assert ab[1..] == a[1..] + b;
    if |a| > 1 {
      AttrStringAppend(a[1..], b);
      calc {
        AttrString(ab);
        AttrText(a[0]) + SPACE + AttrString(a[1..] + b);
        AttrText(a[0]) + SPACE + (AttrString(a[1..]) + SPACE + AttrString(b));
        (AttrText(a[0]) + SPACE + AttrString(a[1..])) + SPACE + AttrString(b);
      }
    } else {
      assert a[1..] + b == b;
    }
  }

  /** Dropping the overridden keys keeps the remaining attributes in their order:
      it works attribute by attribute and commutes with concatenation. */
  lemma {:induction false} NotInAppend(a: seq<Attr>, b: seq<Attr>, ks: set<string>)
    ensures NotIn(a + b, ks) == NotIn(a, ks) + NotIn(b, ks)
  {
    if |a| == 0 {
      assert a + b == b;
    } else {
      assert (a + b)[0] == a[0];
      assert (a + b)[1..] == a[1..] + b;
      NotInAppend(a[1..], b, ks);
    }
  }

  lemma NotInSingle(x: Attr, ks: set<string>)
    ensures NotIn([x], ks) == if x.key in ks then [] else [x]
  {
    assert [x][1..] == [];
  }

  /** One attribute prints as `key="value"`. */
  lemma AttrStringSingle(key: string, value: string)
    ensures AttrString([Attr(key, value)]) == key + "=\"" + value + "\""
  {
  }

  /** No node of the tree is an `svg` element. */
  ghost predicate NoSvg(node: IconNode) {
    && node.tag != SVG_TAG
    && (node.Element? ==> forall c :: c in node.children ==> NoSvg(c))
  }

  /** Extra attributes only reach `svg` elements: a tree without one prints
      exactly as it is, whatever is passed. */
  lemma {:induction false} OtherTagsKeepOwn(node: IconNode, extra: seq<Attr>)
    requires NoSvg(node)
    ensures Render(node, extra) == RenderOwn(node)
    decreases node, 1
  {
    OtherTagsKeepOwnChildren(node, extra, |Kids(node)|);
  }

  lemma {:induction false} OtherTagsKeepOwnChildren(node: IconNode, extra: seq<Attr>, n: nat)
    requires NoSvg(node) && n <= |Kids(node)|
    ensures RenderChildren(node, extra, n) == RenderOwnChildren(node, n)
    decreases node, 0, n
  {
    if n > 0 {
      OtherTagsKeepOwnChildren(node, extra, n - 1);
      assert Kids(node)[n - 1] in node.children;
      OtherTagsKeepOwn(Kids(node)[n - 1], extra);
    }
  }

  lemma TextsAppend(a: seq<Token>, b: seq<Token>)
    ensures Texts(a + b) == Texts(a) + Texts(b)
  {
    var l, r := Texts(a + b), Texts(a) + Texts(b);
    forall i | 0 <= i < |l| ensures l[i] == r[i] {
      if i < |a| {
        assert (a + b)[i] == a[i];
      } else {
        assert (a + b)[i] == b[i - |a|];
      }
    }
  }

  lemma PrintAppend(a: seq<Token>, b: seq<Token>)
    ensures Print(a + b) == Print(a) + Print(b)
  {
    TextsAppend(a, b);
    ConcatAppend(Texts(a), Texts(b));
  }

  /** The output is the text of the tag tokens, in order. */
  lemma {:induction false} RenderIsPrintedTokens(node: IconNode, extra: seq<Attr>)
    ensures Render(node, extra) == Print(Tokens(node, extra))
    decreases node, 1
  {
    var open := [Open(node.tag, NodeAttributes(node, extra))];
    var kids := ChildTokens(node, extra, |Kids(node)|);
    ChildTokensPrinted(node, extra, |Kids(node)|);
    PrintAppend(open + kids, [Close(node.tag)]);
    PrintAppend(open, kids);
    assert Print(open) == TokenText(open[0]) by {
      assert Texts(open) == [TokenText(open[0])];
      ConcatSingle(TokenText(open[0]));
    }
    assert Print([Close(node.tag)]) == TokenText(Close(node.tag)) by {
      assert Texts([Close(node.tag)]) == [TokenText(Close(node.tag))];
      ConcatSingle(TokenText(Close(node.tag)));
    }
  }

  lemma {:induction false} ChildTokensPrinted(node: IconNode, extra: seq<Attr>, n: nat)
    requires n <= |Kids(node)|
    ensures RenderChildren(node, extra, n) == Print(ChildTokens(node, extra, n))
    decreases node, 0, n
  {
    if n > 0 {
      ChildTokensPrinted(node, extra, n - 1);
      RenderIsPrintedTokens(Kids(node)[n - 1], extra);
      ChildTokensStep(node, extra, n);
    }
  }

  /** One more child adds its printed tokens to the printed children. */
  lemma ChildTokensStep(node: IconNode, extra: seq<Attr>, n: nat)
    requires 0 < n <= |Kids(node)|
    requires RenderChildren(node, extra, n - 1) == Print(ChildTokens(node, extra, n - 1))
    requires Render(Kids(node)[n - 1], extra) == Print(Tokens(Kids(node)[n - 1], extra))
    ensures RenderChildren(node, extra, n) == Print(ChildTokens(node, extra, n))
  {
    PrintAppend(ChildTokens(node, extra, n - 1), Tokens(Kids(node)[n - 1], extra));
  }

  lemma {:induction false} RunAppend(stack: seq<string>, a: seq<Token>, b: seq<Token>)
    ensures Run(stack, a + b) == match Run(stack, a) case None => None case Some(s) => Run(s, b)
    decreases |a|
  {
    if |a| == 0 {
      assert a + b == b;
    } else {
      assert (a + b)[0] == a[0] && (a + b)[1..] == a[1..] + b;
      match a[0]
      case Open(tag, _) => RunAppend(stack + [tag], a[1..], b);
      case Close(tag) =>
        if |stack| > 0 && stack[|stack| - 1] == tag {
          RunAppend(stack[..|stack| - 1], a[1..], b);
        }
    }
  }

  /** Each node's tokens take any tag stack back to itself. */
  lemma {:induction false} TokensRestoreStack(node: IconNode, extra: seq<Attr>, stack: seq<string>)
    ensures Run(stack, Tokens(node, extra)) == Some(stack)
    decreases node, 1
  {
    var open := Open(node.tag, NodeAttributes(node, extra));
    var kids := ChildTokens(node, extra, |Kids(node)|);
    ChildTokensRestoreStack(node, extra, |Kids(node)|, stack + [node.tag]);
    RunAppend(stack, [open] + kids, [Close(node.tag)]);
    RunAppend(stack, [open], kids);
    assert Run(stack, [open]) == Some(stack + [node.tag]) by {
      assert [open][1..] == [];
    }
    assert (stack + [node.tag])[..|stack|] == stack;
    assert Run(stack + [node.tag], [Close(node.tag)]) == Some(stack) by {
      assert [Close(node.tag)][1..] == [];
    }
  }

  lemma {:induction false} ChildTokensRestoreStack(node: IconNode, extra: seq<Attr>, n: nat, stack: seq<string>)
    requires n <= |Kids(node)|
    ensures Run(stack, ChildTokens(node, extra, n)) == Some(stack)
    decreases node, 0, n
  {
    if n > 0 {
      ChildTokensRestoreStack(node, extra, n - 1, stack);
      TokensRestoreStack(Kids(node)[n - 1], extra, stack);
      RunAppend(stack, ChildTokens(node, extra, n - 1), Tokens(Kids(node)[n - 1], extra));
    }
  }

  /** The output is a properly nested sequence of matching opening and closing
      tags, one opening tag per node of the tree. */
  lemma OutputBalanced(node: IconNode, extra: seq<Attr>)
    ensures Render(node, extra) == Print(Tokens(node, extra))
    ensures Balanced(Tokens(node, extra))
    ensures Opens(Tokens(node, extra)) == NodeCount(node)
  {
    RenderIsPrintedTokens(node, extra);
    TokensRestoreStack(node, extra, []);
    OpensCount(node, extra);
  }

  lemma {:induction false} OpensAppend(a: seq<Token>, b: seq<Token>)
    ensures Opens(a + b) == Opens(a) + Opens(b)
  {
    if |a| == 0 {
      assert a + b == b;
    } else {
      OpensAppend(a[1..], b);
      assert (a + b)[1..] == a[1..] + b;
    }
  }

  lemma {:induction false} OpensCount(node: IconNode, extra: seq<Attr>)
    ensures Opens(Tokens(node, extra)) == NodeCount(node)
    decreases node, 1
  {
    var open := [Open(node.tag, NodeAttributes(node, extra))];
    var kids := ChildTokens(node, extra, |Kids(node)|);
    ChildOpensCount(node, extra, |Kids(node)|);
    OpensAppend(open + kids, [Close(node.tag)]);
    OpensAppend(open, kids);
  }

  lemma {:induction false} ChildOpensCount(node: IconNode, extra: seq<Attr>, n: nat)
    requires n <= |Kids(node)|
    ensures Opens(ChildTokens(node, extra, n)) == ChildrenCount(node, n)
    decreases node, 0, n
  {
    if n > 0 {
      ChildOpensCount(node, extra, n - 1);
      OpensCount(Kids(node)[n - 1], extra);
      OpensAppend(ChildTokens(node, extra, n - 1), Tokens(Kids(node)[n - 1], extra));
    }
  }
}
