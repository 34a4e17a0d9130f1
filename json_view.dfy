/** The JSON-to-HTML printer nested in `displayJSONDataFromLocalStorage`
    (playground/src/helper.ts). */
module JsonView {
  import opened Types

  /** A parsed JSON value. A number is carried as the text JavaScript prints
      for it; object members keep their key order. */
  datatype Json =
    | JNull
    | JBool(b: bool)
    | JNumber(text: string)
    | JString(s: string)
    | JArray(items: seq<Json>)
    | JObject(members: seq<Member>)

  datatype Member = Member(key: string, value: Json)

  /** Decimal digits of `n`, as template-literal interpolation prints an index:
      they read back as `n`, with no leading zero. */
  function NatToString(n: nat): (s: string)
    ensures |s| >= 1
    ensures forall i :: 0 <= i < |s| ==> '0' <= s[i] <= '9'
    ensures DecimalValue(s) == n
    ensures |s| > 1 ==> s[0] != '0'
  {
    if n < 10 then [Digit(n)]
    else
      var prefix := NatToString(n / 10);
      var s := prefix + [Digit(n % 10)];
      assert s[..|s| - 1] == prefix;
      s
  }

  function Digit(d: nat): (c: char)
    requires d < 10
    ensures '0' <= c <= '9'
    ensures c as int - '0' as int == d
  {
    ('0' as int + d) as char
  }

  /** The number a string of decimal digits denotes, read most significant first. */
  function DecimalValue(s: string): nat
    requires forall i :: 0 <= i < |s| ==> '0' <= s[i] <= '9'
  {
    if |s| == 0 then 0
    else DecimalValue(s[..|s| - 1]) * 10 + (s[|s| - 1] as int - '0' as int)
  }

  // The markup the printer emits.
  const ITEM_OPEN: string := "<li><span class=\"key\">"
  const ITEM_SEP: string := ":</span> "
  const ITEM_CLOSE: string := "</li>"
  const LIST_OPEN: string := "<ul>"
  const LIST_CLOSE: string := "</ul>"
  const SPAN_OPEN: string := "<span class=\""
  const SPAN_MID: string := "\">"
  const SPAN_CLOSE: string := "</span>"
  const QUOTE: string := "\""
  const INDEX_OPEN: string := "["
  const INDEX_CLOSE: string := "]"

  // The span classes and the literal texts of the printer.
  const STRING_CLASS: string := "string"
  const NUMBER_CLASS: string := "number"
  const BOOLEAN_CLASS: string := "boolean"
  const NULL_CLASS: string := "null"
  const TRUE_TEXT: string := "true"
  const FALSE_TEXT: string := "false"
  const NULL_TEXT: string := "null"

  /** One list entry: a bold label, a space, the rendered value. */
  function Item(heading: string, inner: string): string {
    ITEM_OPEN + heading + ITEM_SEP + inner + ITEM_CLOSE
  }

  function IndexLabel(i: nat): string {
    INDEX_OPEN + NatToString(i) + INDEX_CLOSE
  }

  function KeyLabel(key: string): string {
    Quoted(key)
  }

  /** A `ul` element around `body`. */
  function List(body: string): string {
    LIST_OPEN + body + LIST_CLOSE
  }

  /** A `span` of class `kind` around `text`. */
  function Span(kind: string, text: string): string {
    SPAN_OPEN + kind + SPAN_MID + text + SPAN_CLOSE
  }

  function Quoted(s: string): string {
    QUOTE + s + QUOTE
  }

  function BoolText(b: bool): string {
    if b then TRUE_TEXT else FALSE_TEXT
  }

  /** The HTML for a value: containers become a `ul` with one `li` per entry,
      scalars a `span` whose class names their kind. */
  function Html(data: Json): string
    decreases data, 1
  {
    match data
    case JArray(items) => List(ArrayItems(data, |items|))
    case JObject(members) => List(ObjectItems(data, |members|))
    case JString(s) => Span(STRING_CLASS, Quoted(s))
    case JNumber(text) => Span(NUMBER_CLASS, text)
    case JBool(b) => Span(BOOLEAN_CLASS, BoolText(b))
    case JNull => Span(NULL_CLASS, NULL_TEXT)
  }

  /** The entries for the first `n` array elements, in index order. */
  function ArrayItems(data: Json, n: nat): string
    requires data.JArray? && n <= |data.items|
    decreases data, 0, n
  {
    if n == 0 then ""
    else ArrayItems(data, n - 1) + Item(IndexLabel(n - 1), Html(data.items[n - 1]))
  }

  /** The entries for the first `n` object members, in key order. */
  function ObjectItems(data: Json, n: nat): string
    requires data.JObject? && n <= |data.members|
    decreases data, 0, n
  {
    if n == 0 then ""
    else ObjectItems(data, n - 1) + Item(KeyLabel(data.members[n - 1].key), Html(data.members[n - 1].value))
  }

  /** `formatJSONToHTML`: accumulates the entries of a container in a loop. */
  method FormatJsonToHtml(data: Json) returns (html: string)
    ensures html == Html(data)
    decreases data
  {
    match data {
      case JArray(items) =>
        var body := "";
        var i := 0;
        while i < |items|
          invariant 0 <= i <= |items|
          invariant body == ArrayItems(data, i)
        {
          var inner := FormatJsonToHtml(items[i]);
          body := body + Item(IndexLabel(i), inner);
          i := i + 1;
        }
        html := List(body);
      case JObject(members) =>
        var body := "";
        var i := 0;
        while i < |members|
          invariant 0 <= i <= |members|
          invariant body == ObjectItems(data, i)
        {
          var inner := FormatJsonToHtml(members[i].value);
          body := body + Item(KeyLabel(members[i].key), inner);
          i := i + 1;
        }
        html := List(body);
      case JString(s) =>
        html := Span(STRING_CLASS, Quoted(s));
      case JNumber(text) =>
        html := Span(NUMBER_CLASS, text);
      case JBool(b) =>
        html := Span(BOOLEAN_CLASS, BoolText(b));
      case JNull =>
        html := Span(NULL_CLASS, NULL_TEXT);
    }
  }

  // ---------------------------------------------------------------------------
  // Reference: the list body as one entry per index.

  /** The entry for the array element `j` at index `i`. */
  function Entry(i: nat, j: Json): string {
    Item(IndexLabel(i), Html(j))
  }

  /** The entry for an object member. */
  function MemberEntry(m: Member): string {
    Item(KeyLabel(m.key), Html(m.value))
  }

  /** One entry per element, the `i`-th labelled `[i]`. */
  function Entries(items: seq<Json>): seq<string> {
    seq(|items|, i requires 0 <= i < |items| => Entry(i, items[i]))
  }

  /** One entry per member, in member order, labelled with its quoted key. */
  function MemberEntries(members: seq<Member>): seq<string> {
    seq(|members|, i requires 0 <= i < |members| => MemberEntry(members[i]))
  }

  lemma {:induction false} ArrayItemsAreEntries(data: Json, n: nat)
    requires data.JArray? && n <= |data.items|
    ensures ArrayItems(data, n) == Concat(Entries(data.items[..n]))
  {
    if n == 0 {
      assert Entries(data.items[..0]) == [];
    } else {
      var last := Entry(n - 1, data.items[n - 1]);
      var prefix := Entries(data.items[..n - 1]);
      calc {
        ArrayItems(data, n);
        ArrayItems(data, n - 1) + last;
        { ArrayItemsAreEntries(data, n - 1); }
        Concat(prefix) + last;
        { ConcatSingle(last); }
        Concat(prefix) + Concat([last]);
        { ConcatAppend(prefix, [last]); }
        Concat(prefix + [last]);
        { EntriesSnoc(data.items, n); }
        Concat(Entries(data.items[..n]));
      }
    }
  }

  lemma {:induction false} ObjectItemsAreEntries(data: Json, n: nat)
    requires data.JObject? && n <= |data.members|
    ensures ObjectItems(data, n) == Concat(MemberEntries(data.members[..n]))
  {
    if n == 0 {
      assert MemberEntries(data.members[..0]) == [];
    } else {
      var last := MemberEntry(data.members[n - 1]);
      var prefix := MemberEntries(data.members[..n - 1]);
      calc {
        ObjectItems(data, n);
        ObjectItems(data, n - 1) + last;
        { ObjectItemsAreEntries(data, n - 1); }
        Concat(prefix) + last;
        { ConcatSingle(last); }
        Concat(prefix) + Concat([last]);
        { ConcatAppend(prefix, [last]); }
        Concat(prefix + [last]);
        { MemberEntriesSnoc(data.members, n); }
        Concat(MemberEntries(data.members[..n]));
      }
    }
  }

  lemma EntriesSnoc(items: seq<Json>, n: nat)
    requires 0 < n <= |items|
    ensures Entries(items[..n]) == Entries(items[..n - 1]) + [Entry(n - 1, items[n - 1])]
  {
    var l := Entries(items[..n]);
    var r := Entries(items[..n - 1]) + [Entry(n - 1, items[n - 1])];
    assert |l| == |r|;
    forall i | 0 <= i < |l| ensures l[i] == r[i] {
      assert items[..n][i] == items[i];
      if i < n - 1 {
        assert items[..n - 1][i] == items[i];
      }
    }
  }

  lemma MemberEntriesSnoc(members: seq<Member>, n: nat)
    requires 0 < n <= |members|
    ensures MemberEntries(members[..n]) == MemberEntries(members[..n - 1]) + [MemberEntry(members[n - 1])]
  {
    var l := MemberEntries(members[..n]);
    var r := MemberEntries(members[..n - 1]) + [MemberEntry(members[n - 1])];
    assert |l| == |r|;
    forall i | 0 <= i < |l| ensures l[i] == r[i] {
      assert members[..n][i] == members[i];
      if i < n - 1 {
        assert members[..n - 1][i] == members[i];
      }
    }
  }

  /** An array prints as `<ul>`, then one entry per element in index order,
      the `i`-th labelled `[i]`, then `</ul>`. */
  lemma ArrayHtmlInOrder(items: seq<Json>)
    ensures Html(JArray(items)) == List(Concat(Entries(items)))
  {
    ArrayItemsAreEntries(JArray(items), |items|);
    assert items[..|items|] == items;
  }

  /** An object prints as `<ul>`, then one entry per member in order, labelled
      with its quoted key, then `</ul>`. */
  lemma ObjectHtmlInOrder(members: seq<Member>)
    ensures Html(JObject(members)) == List(Concat(MemberEntries(members)))
  {
    ObjectItemsAreEntries(JObject(members), |members|);
    assert members[..|members|] == members;
  }

  /** Appending an element adds exactly one entry, labelled with its index. */
  lemma ArrayAppend(items: seq<Json>, x: Json)
    ensures Html(JArray(items + [x])) == List(ArrayItems(JArray(items), |items|) + Entry(|items|, x))
  {
    var d := JArray(items + [x]);
    assert d.items[|items|] == x;
    assert ArrayItems(d, |items| + 1) == ArrayItems(d, |items|) + Entry(|items|, x);
    SamePrefix(items, x, |items|);
  }

  lemma {:induction false} SamePrefix(items: seq<Json>, x: Json, n: nat)
    requires n <= |items|
    ensures ArrayItems(JArray(items + [x]), n) == ArrayItems(JArray(items), n)
  {
    if n > 0 {
      SamePrefix(items, x, n - 1);
      assert (items + [x])[n - 1] == items[n - 1];
    }
  }

  // The literal text of each piece, as the printer spells it out.

  lemma StringHtml(s: string)
    ensures Html(JString(s)) == "<span class=\"string\">\"" + s + "\"</span>"
  {
  }

  lemma NumberHtml(text: string)
    ensures Html(JNumber(text)) == "<span class=\"number\">" + text + "</span>"
  {
  }

  lemma BoolHtml(b: bool)
    ensures Html(JBool(b)) == "<span class=\"boolean\">" + (if b then "true" else "false") + "</span>"
  {
  }

  lemma NullHtml()
    ensures Html(JNull) == "<span class=\"null\">null</span>"
  {
  }

  /** Array element `i` is labelled `[i]:` in bold, then a space, then its HTML. */
  lemma EntryText(i: nat, j: Json)
    ensures Entry(i, j) == "<li><span class=\"key\">[" + NatToString(i) + "]:</span> " + Html(j) + "</li>"
  {
    var n, h := NatToString(i), Html(j);
    assert Entry(i, j) == ITEM_OPEN + (INDEX_OPEN + n + INDEX_CLOSE) + ITEM_SEP + h + ITEM_CLOSE;
    Regroup(ITEM_OPEN, INDEX_OPEN, n, INDEX_CLOSE, ITEM_SEP, h, ITEM_CLOSE);
    assert ITEM_OPEN + INDEX_OPEN == "<li><span class=\"key\">[";
    assert INDEX_CLOSE + ITEM_SEP == "]:</span> ";
  }

  /** Moves the label's delimiters next to the markup around it. */
  lemma Regroup(o: string, l: string, x: string, r: string, sep: string, h: string, c: string)
    ensures o + (l + x + r) + sep + h + c == (o + l) + x + (r + sep) + h + c
  {
  }

  /** An object member is labelled with its quoted key and a colon. */
  lemma MemberEntryText(m: Member)
    ensures MemberEntry(m) == "<li><span class=\"key\">\"" + m.key + "\":</span> " + Html(m.value) + "</li>"
  {
    var k, h := m.key, Html(m.value);
    assert MemberEntry(m) == ITEM_OPEN + (QUOTE + k + QUOTE) + ITEM_SEP + h + ITEM_CLOSE;
    Regroup(ITEM_OPEN, QUOTE, k, QUOTE, ITEM_SEP, h, ITEM_CLOSE);
    assert ITEM_OPEN + QUOTE == "<li><span class=\"key\">\"";
    assert QUOTE + ITEM_SEP == "\":</span> ";
  }

  /** Containers are wrapped in one `ul`. */
  lemma ListText(body: string)
    ensures List(body) == "<ul>" + body + "</ul>"
  {
  }
}
