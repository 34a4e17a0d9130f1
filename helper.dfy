/** The playground's string helpers and default template (playground/src/helper.ts). */
module Helper {
  import opened Types

  const DEFAULT_TEMPLATE_WIDTH: int := 210
  const DEFAULT_TEMPLATE_HEIGHT: int := 297
  const DEFAULT_WIDGET_WIDTH: int := 100
  const DEFAULT_WIDGET_HEIGHT: int := 60

  /** A blank A4 page with a 20/10 mm margin and no edit rectangle. */
  function BlankTemplate(): (t: Template)
    ensures |t.schemas| == 1 && t.schemas[0] == Page([])
    ensures t.basePdf == BlankPdf(DEFAULT_TEMPLATE_WIDTH, DEFAULT_TEMPLATE_HEIGHT, Padding(20, 10, 20, 10))
    ensures t.editWidgetInfo.None?
  {
    Template(BlankPdf(DEFAULT_TEMPLATE_WIDTH, DEFAULT_TEMPLATE_HEIGHT, Padding(20, 10, 20, 10)), [Page([])], None)
  }

  // ---------------------------------------------------------------------------
  // fromKebabCase: split on '-', upper-case each segment's first character,
  // join with ' '.

  /** `String.prototype.toUpperCase` on one character, for ASCII letters. */
  function UpperChar(c: char): (u: char)
    ensures 'a' <= c <= 'z' ==> 'A' <= u <= 'Z' && u as int == c as int - 32
    ensures !('a' <= c <= 'z') ==> u == c
  {
    if 'a' <= c <= 'z' then (c as int - 'a' as int + 'A' as int) as char else c
  }

  /** `word.charAt(0).toUpperCase() + word.slice(1)`; the empty word stays empty. */
  function Capitalize(word: string): (r: string)
    ensures |r| == |word|
    ensures |word| > 0 ==> r[0] == UpperChar(word[0]) && r[1..] == word[1..]
  {
    if |word| == 0 then "" else [UpperChar(word[0])] + word[1..]
  }

  function CapitalizeAll(words: seq<string>): (r: seq<string>)
    ensures |r| == |words|
    ensures forall i :: 0 <= i < |words| ==> r[i] == Capitalize(words[i])
  {
    if |words| == 0 then [] else [Capitalize(words[0])] + CapitalizeAll(words[1..])
  }

  /** `String.prototype.split(sep)`: always at least one segment, none holding `sep`. */
  function Split(s: string, sep: char): (parts: seq<string>)
    ensures |parts| >= 1
    ensures forall i :: 0 <= i < |parts| ==> sep !in parts[i]
  {
    if |s| == 0 then [""]
    else
      var rest := Split(s[1..], sep);
      if s[0] == sep then [""] + rest
      else [[s[0]] + rest[0]] + rest[1..]
  }

  /** `Array.prototype.join(sep)`. */
  function Join(parts: seq<string>, sep: char): string {
    if |parts| == 0 then ""
    else if |parts| == 1 then parts[0]
    else parts[0] + [sep] + Join(parts[1..], sep)
  }

  function FromKebabCase(s: string): string {
    Join(CapitalizeAll(Split(s, '-')), ' ')
  }

  function Count(s: string, c: char): nat {
    if |s| == 0 then 0 else (if s[0] == c then 1 else 0) + Count(s[1..], c)
  }

  /** Character-by-character reference for `FromKebabCase`: a '-' becomes a
      space, and the first character of every segment is upper-cased. */
  function KebabRef(s: string, atSegmentStart: bool): (r: string)
    ensures |r| == |s|
  {
    if |s| == 0 then ""
    else if s[0] == '-' then " " + KebabRef(s[1..], true)
    else [if atSegmentStart then UpperChar(s[0]) else s[0]] + KebabRef(s[1..], false)
  }

  lemma JoinCons(first: string, rest: seq<string>, sep: char)
    ensures Join([first] + rest, sep) == if |rest| == 0 then first else first + [sep] + Join(rest, sep)
  {
    if |rest| > 0 {
      assert ([first] + rest)[1..] == rest;
    }
  }

  /** Joining the segments again restores the split string. */
  lemma {:induction false} JoinSplit(s: string, sep: char)
    ensures Join(Split(s, sep), sep) == s
  {
    if |s| > 0 {
      var rest := Split(s[1..], sep);
      JoinSplit(s[1..], sep);
      if s[0] == sep {
        JoinCons("", rest, sep);
      } else {
        JoinCons([s[0]] + rest[0], rest[1..], sep);
        JoinCons(rest[0], rest[1..], sep);
        assert rest == [rest[0]] + rest[1..];
      }
      assert s == [s[0]] + s[1..];
    }
  }

  /** Splitting a join of separator-free parts gives the parts back. */
  lemma {:induction false} SplitJoin(parts: seq<string>, sep: char)
    requires |parts| >= 1
    requires forall i :: 0 <= i < |parts| ==> sep !in parts[i]
    ensures Split(Join(parts, sep), sep) == parts
  {
    if |parts| == 1 {
      SplitNoSep(parts[0], sep);
    } else {
      var tail := Join(parts[1..], sep);
      var x := [sep] + tail;
      SplitJoin(parts[1..], sep);
      SplitPrefix(parts[0], x, sep);
      assert x[1..] == tail;
      assert Split(x, sep) == [""] + Split(tail, sep);
      assert Join(parts, sep) == parts[0] + x;
      assert Split(Join(parts, sep), sep) == [parts[0] + ""] + parts[1..];
      assert parts[0] + "" == parts[0];
      assert parts == [parts[0]] + parts[1..];
    }
  }

  lemma {:induction false} SplitNoSep(w: string, sep: char)
    requires sep !in w
    ensures Split(w, sep) == [w]
  {
    if |w| > 0 {
      SplitNoSep(w[1..], sep);
      assert w == [w[0]] + w[1..];
    }
  }

  /** A separator-free word in front of `t` glues onto the first segment of `t`. */
  lemma {:induction false} SplitPrefix(w: string, t: string, sep: char)
    requires sep !in w
    ensures Split(w + t, sep) == [w + Split(t, sep)[0]] + Split(t, sep)[1..]
  {
    if |w| > 0 {
      var parts := Split(t, sep);
      var rest := Split(w[1..] + t, sep);
      SplitPrefix(w[1..], t, sep);
      assert rest == [w[1..] + parts[0]] + parts[1..];
      assert (w + t)[1..] == w[1..] + t;
      assert (w + t)[0] == w[0] && w[0] in w;
      assert Split(w + t, sep) == [[w[0]] + rest[0]] + rest[1..];
      assert [w[0]] + (w[1..] + parts[0]) == w + parts[0];
    } else {
      assert w == "" && w + t == t;
      var parts := Split(t, sep);
      assert w + parts[0] == parts[0];
      assert parts == [parts[0]] + parts[1..];
    }
  }

  /** A string with `n` separators splits into `n + 1` segments. */
  lemma {:induction false} SplitCount(s: string, sep: char)
    ensures |Split(s, sep)| == Count(s, sep) + 1
  {
    if |s| > 0 {
      SplitCount(s[1..], sep);
    }
  }

  /** The output for `s`, with the first segment capitalized only when
      `atSegmentStart`; at the start it is `FromKebabCase(s)`. */
  function KebabJoin(s: string, atSegmentStart: bool): string {
    var parts := Split(s, '-');
    Join([if atSegmentStart then Capitalize(parts[0]) else parts[0]] + CapitalizeAll(parts[1..]), ' ')
  }

  /** Capitalizing joins segment by segment is the character-wise reference. */
  lemma {:induction false} KebabMatchesRef(s: string, atSegmentStart: bool)
    ensures KebabJoin(s, atSegmentStart) == KebabRef(s, atSegmentStart)
  {
    if |s| > 0 {
      KebabMatchesRef(s[1..], s[0] == '-');
      if s[0] == '-' {
        KebabDashStep(s, atSegmentStart);
      } else {
        KebabCharStep(s, atSegmentStart);
      }
    }
  }

  lemma KebabDashStep(s: string, atSegmentStart: bool)
    requires |s| > 0 && s[0] == '-'
    ensures KebabJoin(s, atSegmentStart) == " " + KebabJoin(s[1..], true)
  {
    var rest := Split(s[1..], '-');
    assert Split(s, '-') == [""] + rest;
    assert Split(s, '-')[1..] == rest;
    assert CapitalizeAll(rest) == [Capitalize(rest[0])] + CapitalizeAll(rest[1..]);
    JoinCons("", CapitalizeAll(rest), ' ');
  }

  lemma KebabCharStep(s: string, atSegmentStart: bool)
    requires |s| > 0 && s[0] != '-'
    ensures KebabJoin(s, atSegmentStart)
            == [if atSegmentStart then UpperChar(s[0]) else s[0]] + KebabJoin(s[1..], false)
  {
    var rest := Split(s[1..], '-');
    var head: string := [if atSegmentStart then UpperChar(s[0]) else s[0]];
    var tail := CapitalizeAll(rest[1..]);
    SplitGlue(s, '-');
    CapitalizeGlue(s[0], rest[0]);
    JoinGlue(head, rest[0], tail, ' ');
  }

  lemma SplitGlue(s: string, sep: char)
    requires |s| > 0 && s[0] != sep
    ensures Split(s, sep)[0] == [s[0]] + Split(s[1..], sep)[0]
    ensures Split(s, sep)[1..] == Split(s[1..], sep)[1..]
  {
  }

  lemma CapitalizeGlue(c: char, w: string)
    ensures Capitalize([c] + w) == [UpperChar(c)] + w
  {
    assert ([c] + w)[1..] == w;
  }

  lemma JoinGlue(h: string, w: string, tail: seq<string>, sep: char)
    ensures Join([h + w] + tail, sep) == h + Join([w] + tail, sep)
  {
    JoinCons(h + w, tail, sep);
    JoinCons(w, tail, sep);
  }

  /** What `fromKebabCase` makes of one input character, given whether it
      starts a segment. */
  function KebabChar(c: char, segmentStart: bool): char {
    if c == '-' then ' ' else if segmentStart then UpperChar(c) else c
  }

  /** Character `i` of the output is a space for a '-', the upper-cased input
      character at the start of a segment, and the input character otherwise. */
  lemma KebabPointwise(s: string)
    ensures |FromKebabCase(s)| == |s|
    ensures forall i :: 0 <= i < |s| ==>
      FromKebabCase(s)[i] == KebabChar(s[i], i == 0 || s[i - 1] == '-')
  {
    var parts := Split(s, '-');
    KebabMatchesRef(s, true);
    assert CapitalizeAll(parts) == [Capitalize(parts[0])] + CapitalizeAll(parts[1..]);
    assert FromKebabCase(s) == KebabRef(s, true);
    KebabRefAt(s, true);
    forall i | 0 <= i < |s|
      ensures FromKebabCase(s)[i] == KebabChar(s[i], i == 0 || s[i - 1] == '-')
    {
      assert (if i == 0 then true else s[i - 1] == '-') == (i == 0 || s[i - 1] == '-');
    }
  }

  lemma {:induction false} KebabRefAt(s: string, atSegmentStart: bool)
    ensures forall i :: 0 <= i < |s| ==>
      KebabRef(s, atSegmentStart)[i] == KebabChar(s[i], if i == 0 then atSegmentStart else s[i - 1] == '-')
  {
    if |s| > 0 {
      var r := KebabRef(s, atSegmentStart);
      var r' := KebabRef(s[1..], s[0] == '-');
      KebabRefAt(s[1..], s[0] == '-');
      assert r == [KebabChar(s[0], atSegmentStart)] + r';
      forall i | 1 <= i < |s|
        ensures r[i] == KebabChar(s[i], s[i - 1] == '-')
      {
        assert r[i] == r'[i - 1];
        assert s[1..][i - 1] == s[i];
        assert i - 1 > 0 ==> s[1..][i - 2] == s[i - 1];
      }
    }
  }

  /** The output holds no '-'. */
  lemma KebabNoDash(s: string)
    ensures '-' !in FromKebabCase(s)
  {
    KebabPointwise(s);
    var r := FromKebabCase(s);
    forall i | 0 <= i < |r| ensures r[i] != '-' {
      assert r[i] == KebabChar(s[i], i == 0 || s[i - 1] == '-');
    }
  }

  /** For an input without spaces, the output splits on ' ' into exactly the
      capitalized '-'-segments of the input, one piece per segment. */
  lemma KebabPieces(s: string)
    requires ' ' !in s
    ensures Split(FromKebabCase(s), ' ') == CapitalizeAll(Split(s, '-'))
    ensures |Split(FromKebabCase(s), ' ')| == Count(s, '-') + 1
  {
    var parts := Split(s, '-');
    var caps := CapitalizeAll(parts);
    forall i | 0 <= i < |caps| ensures ' ' !in caps[i] {
      SegmentOf(s, i);
    }
    SplitJoin(caps, ' ');
    SplitCount(s, '-');
  }

  lemma {:induction false} SegmentOf(s: string, i: nat)
    requires i < |Split(s, '-')|
    ensures forall c :: c in Split(s, '-')[i] ==> c in s
  {
    if |s| > 0 {
      var rest := Split(s[1..], '-');
      if s[0] == '-' {
        if i > 0 { SegmentOf(s[1..], i - 1); }
      } else {
        if i == 0 { SegmentOf(s[1..], 0); } else { SegmentOf(s[1..], i); }
      }
    }
  }

  /** Worked example: empty segments stay empty. */
  lemma KebabEmptySegments()
    ensures FromKebabCase("a--b") == "A  B"
  {
    KebabPointwise("a--b");
  }
}
