/** The parser accepts exactly the printed layouts, and reads each of them back. */
module MetricSpecProofs {
  import opened Sequences
  import opened MetricSpecs

  // ---------- Trimming ----------

  lemma {:induction false} TrimLeftDropsBlank(pad: string, s: string)
    requires Blank(pad) && (s == "" || !IsSpace(s[0]))
    ensures TrimLeft(pad + s) == s
    decreases |pad|
  {
    if pad == "" {
      assert pad + s == s;
    } else {
      assert (pad + s)[1..] == pad[1..] + s && (pad + s)[0] == pad[0];
      TrimLeftDropsBlank(pad[1..], s);
    }
  }

  lemma {:induction false} TrimRightDropsBlank(s: string, pad: string)
    requires Blank(pad) && (s == "" || !IsSpace(s[|s| - 1]))
    ensures TrimRight(s + pad) == s
    decreases |pad|
  {
    if pad == "" {
      assert s + pad == s;
    } else {
      var last := |pad| - 1;
      assert (s + pad)[..|s + pad| - 1] == s + pad[..last] && (s + pad)[|s + pad| - 1] == pad[last];
      TrimRightDropsBlank(s, pad[..last]);
    }
  }

  /** Blanks around a trimmed text disappear. */
  lemma TrimDropsPadding(pad0: string, s: string, pad1: string)
    requires Blank(pad0) && Trimmed(s) && Blank(pad1)
    ensures TrimSpace(pad0 + s + pad1) == s
  {
    assert pad0 + s + pad1 == pad0 + (s + pad1);
    TrimLeftDropsBlank(pad0, s + pad1);
    TrimRightDropsBlank(s, pad1);
  }

  lemma {:induction false} TrimLeftSplits(s: string) returns (pad: string)
    ensures Blank(pad) && s == pad + TrimLeft(s) && (TrimLeft(s) == "" || !IsSpace(TrimLeft(s)[0]))
    decreases |s|
  {
    if s != "" && IsSpace(s[0]) {
      var rest := TrimLeftSplits(s[1..]);
      pad := [s[0]] + rest;
      assert s == [s[0]] + s[1..];
      ConcatIsAssociative([s[0]], rest, TrimLeft(s[1..]));
    } else {
      pad := "";
    }
  }

  lemma {:induction false} TrimRightSplits(s: string) returns (pad: string)
    ensures Blank(pad) && s == TrimRight(s) + pad && (TrimRight(s) == "" || !IsSpace(TrimRight(s)[|TrimRight(s)| - 1]))
    decreases |s|
  {
    if s != "" && IsSpace(s[|s| - 1]) {
      var rest := TrimRightSplits(s[..|s| - 1]);
      pad := rest + [s[|s| - 1]];
      assert s == s[..|s| - 1] + [s[|s| - 1]];
      ConcatIsAssociative(TrimRight(s[..|s| - 1]), rest, [s[|s| - 1]]);
    } else {
      pad := "";
    }
  }

  /** Every text is its trimmed form between blanks. */
  lemma TrimSplits(s: string) returns (pad0: string, pad1: string)
    ensures Blank(pad0) && Blank(pad1) && s == pad0 + TrimSpace(s) + pad1
    ensures TrimSpace(s) == "" || Trimmed(TrimSpace(s))
  {
    pad0 := TrimLeftSplits(s);
    pad1 := TrimRightSplits(TrimLeft(s));
    if TrimSpace(s) != "" {
      assert TrimLeft(s)[0] == TrimSpace(s)[0];
    }
  }

  // ---------- Searching and splitting ----------

  lemma {:induction false} IndexOfFirst(a: string, c: char, b: string)
    requires Free(a, c)
    ensures Index(a + [c] + b, c) == |a|
    decreases |a|
  {
    var s := a + [c] + b;
    if a != "" {
      assert s[1..] == a[1..] + [c] + b && s[0] == a[0];
      IndexOfFirst(a[1..], c, b);
    }
  }

  lemma {:induction false} IndexOfAbsent(s: string, c: char)
    ensures Index(s, c) == -1 <==> Free(s, c)
    ensures Index(s, c) >= 0 ==> s[Index(s, c)] == c && Free(s[..Index(s, c)], c)
    decreases |s|
  {
    if s != "" {
      IndexOfAbsent(s[1..], c);
      if s[0] != c {
        var i := Index(s[1..], c);
        assert Free(s[1..], c) ==> Free(s, c);
        assert Free(s, c) ==> Free(s[1..], c);
        if i >= 0 {
          assert s[..i + 1] == [s[0]] + s[1..][..i];
        }
      }
    }
  }

  lemma {:induction false} SplitOfFree(s: string, c: char)
    requires Free(s, c)
    ensures Split(s, c) == [s]
    decreases |s|
  {
    if s != "" {
      SplitOfFree(s[1..], c);
      assert s == [s[0]] + s[1..];
    }
  }

  lemma {:induction false} SplitAtFirst(a: string, c: char, b: string)
    requires Free(a, c)
    ensures Split(a + [c] + b, c) == [a] + Split(b, c)
    decreases |a|
  {
    var s := a + [c] + b;
    if a == "" {
      assert s[1..] == b;
    } else {
      assert s[1..] == a[1..] + [c] + b && s[0] == a[0];
      SplitAtFirst(a[1..], c, b);
      assert a == [a[0]] + a[1..];
    }
  }

  function Join(parts: seq<string>, c: char): string
    requires parts != []
  {
    if |parts| == 1 then parts[0] else parts[0] + [c] + Join(parts[1..], c)
  }

  /** Splitting is undone by joining, and no part contains the separator. */
  lemma JoinGrowsFirst(x: char, parts: seq<string>, c: char)
    requires parts != []
    ensures Join([[x] + parts[0]] + parts[1..], c) == [x] + Join(parts, c)
  {
    var grown := [[x] + parts[0]] + parts[1..];
    assert grown[1..] == parts[1..];
    if |parts| > 1 {
      assert Join(grown, c) == ([x] + parts[0]) + [c] + Join(parts[1..], c);
    }
  }

  lemma {:induction false} SplitIsUndoneByJoin(s: string, c: char)
    ensures Join(Split(s, c), c) == s
    ensures forall i :: 0 <= i < |Split(s, c)| ==> Free(Split(s, c)[i], c)
    decreases |s|
  {
    if s != "" {
      SplitIsUndoneByJoin(s[1..], c);
      var rest := Split(s[1..], c);
      assert s == [s[0]] + s[1..];
      if s[0] == c {
        assert Split(s, c) == [""] + rest;
        assert Join(Split(s, c), c) == "" + [c] + Join(rest, c);
      } else {
        assert Split(s, c) == [[s[0]] + rest[0]] + rest[1..];
        JoinGrowsFirst(s[0], rest, c);
        assert Free([s[0]] + rest[0], c);
      }
    }
  }

  // ---------- Reading back what was printed ----------

  lemma BlankIsFree(s: string, c: char)
    requires Blank(s) && !IsSpace(c)
    ensures Free(s, c)
  {
  }

  lemma FreeConcat(a: string, b: string, c: char)
    ensures Free(a + b, c) <==> Free(a, c) && Free(b, c)
  {
    if Free(a + b, c) {
      forall i | 0 <= i < |a| ensures a[i] != c {
        assert (a + b)[i] == a[i];
      }
      forall i | 0 <= i < |b| ensures b[i] != c {
        assert (a + b)[|a| + i] == b[i];
      }
    }
  }

  /** The inner text of an item, without the outer blanks. */
  function ItemCore(i: Item): string {
    i.name + i.pad1 + "=" + i.pad2 + i.value
  }

  lemma ItemIsRead(i: Item)
    requires IsItem(i)
    ensures ParsePair(PrintItem(i)) == Pair(i.name, i.value)
  {
    var left, right := i.name + i.pad1, i.pad2 + i.value;
    assert ItemCore(i) == left + "=" + right;
    TrimDropsPadding(i.pad0, ItemCore(i), i.pad3);
    BlankIsFree(i.pad1, '=');
    BlankIsFree(i.pad2, '=');
    FreeConcat(i.name, i.pad1, '=');
    FreeConcat(i.pad2, i.value, '=');
    SplitAtFirst(left, '=', right);
    SplitOfFree(right, '=');
    TrimDropsPadding("", i.name, i.pad1);
    assert "" + i.name + i.pad1 == left;
    TrimDropsPadding(i.pad2, i.value, "");
    assert i.pad2 + i.value + "" == right;
  }

  lemma ItemIsFree(i: Item, c: char)
    requires IsItem(i) && (c == ',' || c == '}')
    ensures Free(PrintItem(i), c)
  {
    BlankIsFree(i.pad0, c);
    BlankIsFree(i.pad1, c);
    BlankIsFree(i.pad2, c);
    BlankIsFree(i.pad3, c);
    assert Free("=", c);
    FreeConcat(i.name, i.pad1, c);
    FreeConcat(i.name + i.pad1, "=", c);
    FreeConcat(i.name + i.pad1 + "=", i.pad2, c);
    FreeConcat(i.name + i.pad1 + "=" + i.pad2, i.value, c);
    FreeConcat(i.pad0, ItemCore(i), c);
    FreeConcat(i.pad0 + ItemCore(i), i.pad3, c);
  }

  predicate AreItems(items: seq<Item>) {
    forall i :: 0 <= i < |items| ==> IsItem(items[i])
  }

  function PrintedItems(items: seq<Item>): (r: seq<string>)
    ensures |r| == |items| && forall i :: 0 <= i < |r| ==> r[i] == PrintItem(items[i])
  {
    seq(|items|, i requires 0 <= i < |items| => PrintItem(items[i]))
  }

  lemma ItemsOneMore(first: Item, rest: seq<Item>)
    requires IsItem(first) && AreItems(rest)
    ensures var items := [first] + rest;
      && AreItems(items) && PrintedItems(items) == [PrintItem(first)] + PrintedItems(rest)
      && (rest != [] ==> PrintItems(items) == PrintItem(first) + "," + PrintItems(rest))
  {
    assert ([first] + rest)[1..] == rest;
  }

  lemma {:induction false} ItemsAreSplit(items: seq<Item>)
    requires items != [] && AreItems(items)
    ensures Split(PrintItems(items), ',') == PrintedItems(items)
    ensures Free(PrintItems(items), '}') && PrintItems(items) != ""
    decreases |items|
  {
    ItemIsFree(items[0], ',');
    ItemIsFree(items[0], '}');
    if |items| == 1 {
      SplitOfFree(PrintItem(items[0]), ',');
    } else {
      ItemsAreSplit(items[1..]);
      SplitAtFirst(PrintItem(items[0]), ',', PrintItems(items[1..]));
      assert Free(",", '}');
      FreeConcat(PrintItem(items[0]), ",", '}');
      FreeConcat(PrintItem(items[0]) + ",", PrintItems(items[1..]), '}');
      ItemsOneMore(items[0], items[1..]);
      assert items == [items[0]] + items[1..];
    }
  }

  lemma {:induction false} LabelsAreRead(items: seq<Item>)
    requires AreItems(items)
    ensures PairsParse(PrintedItems(items)) && PairLabels(PrintedItems(items)) == ItemLabels(items)
    decreases |items|
  {
    forall i | 0 <= i < |items| ensures ParsePair(PrintedItems(items)[i]) == Pair(items[i].name, items[i].value) {
      ItemIsRead(items[i]);
    }
    if items != [] {
      var last := |items| - 1;
      LabelsAreRead(items[..last]);
      assert PrintedItems(items)[..last] == PrintedItems(items[..last]);
    }
  }

  function Block(head: string, text: string): string {
    head + "{" + text + "}"
  }

  lemma BlockIndexes(head: string, text: string)
    requires Free(head, '{') && Free(head, '}') && Free(text, '}')
    ensures Index(Block(head, text), '{') == |head| && Index(Block(head, text), '}') == |head| + 1 + |text|
  {
    var t := Block(head, text);
    assert t == head + "{" + (text + "}") && t == (head + "{" + text) + "}" + "";
    IndexOfFirst(head, '{', text + "}");
    assert Free("{", '}');
    FreeConcat(head, "{", '}');
    FreeConcat(head + "{", text, '}');
    IndexOfFirst(head + "{" + text, '}', "");
  }

  lemma BlockSlices(head: string, text: string)
    ensures var t := Block(head, text);
      |t| == |head| + |text| + 2 && t[..|head|] == head && t[|head| + 1..|head| + 1 + |text|] == text && t[|t| - 1] == '}'
  {
  }

  lemma HeadIsRead(name: string, gap: string)
    requires IsName(name) && Blank(gap)
    ensures Free(name + gap, '{') && Free(name + gap, '}') && TrimSpace(name + gap) == name
  {
    BlankIsFree(gap, '{');
    BlankIsFree(gap, '}');
    FreeConcat(name, gap, '{');
    FreeConcat(name, gap, '}');
    TrimDropsPadding("", name, gap);
    assert "" + name + gap == name + gap;
  }

  lemma BlockIsRead(l: Layout)
    requires IsLayout(l) && l.items != []
    ensures Parse(Print(l)) == Parsed(SpecOf(l))
  {
    var head, text, t := l.name + l.gap, PrintItems(l.items), Core(l);
    assert t == Block(head, text);
    assert AreItems(l.items);
    ItemsAreSplit(l.items);
    LabelsAreRead(l.items);
    HeadIsRead(l.name, l.gap);
    BlockIndexes(head, text);
    BlockSlices(head, text);
    assert t[0] == l.name[0];
    TrimDropsPadding(l.lead, t, l.trail);
    assert ParseBlock(t, |head|, |head| + 1 + |text|) == Parsed(SpecOf(l));
  }

  /** Whatever the blanks and the labels, a printed layout parses to the specification it lays out. */
  lemma PrintedLayoutIsRead(l: Layout)
    requires IsLayout(l)
    ensures Parse(Print(l)) == Parsed(SpecOf(l))
  {
    if l.items == [] {
      TrimDropsPadding(l.lead, l.name, l.trail);
      IndexOfAbsent(l.name, '{');
      IndexOfAbsent(l.name, '}');
    } else {
      BlockIsRead(l);
    }
  }

  // ---------- Every accepted text is a printed layout ----------

  lemma NoLeadingBlank(pad: string, rest: string)
    requires Blank(pad) && pad + rest != "" && !IsSpace((pad + rest)[0])
    ensures pad == ""
  {
  }

  lemma NoTrailingBlank(rest: string, pad: string)
    requires Blank(pad) && rest + pad != "" && !IsSpace((rest + pad)[|rest + pad| - 1])
    ensures pad == ""
  {
  }

  /** The two sides of a trimmed pair: blanks can only be next to the equals sign. */
  lemma SidesOfPair(left: string, right: string) returns (pad1: string, pad2: string)
    requires Trimmed(left + "=" + right) && TrimSpace(left) != "" && TrimSpace(right) != ""
    ensures Blank(pad1) && Blank(pad2) && left == TrimSpace(left) + pad1 && right == pad2 + TrimSpace(right)
    ensures Trimmed(TrimSpace(left)) && Trimmed(TrimSpace(right))
  {
    var q0, q1;
    q0, pad1 := TrimSplits(left);
    pad2, q1 := TrimSplits(right);
    var name, value := TrimSpace(left), TrimSpace(right);
    assert left == q0 + (name + pad1) && (left + "=" + right)[0] == left[0];
    NoLeadingBlank(q0, name + pad1);
    assert right == (pad2 + value) + q1 && (left + "=" + right)[|left + "=" + right| - 1] == right[|right| - 1];
    NoTrailingBlank(pad2 + value, q1);
    assert q0 + name + pad1 == name + pad1 && pad2 + value + q1 == pad2 + value;
  }

  lemma PrintedFromSides(i: Item, left: string, right: string)
    requires left == i.name + i.pad1 && right == i.pad2 + i.value
    ensures PrintItem(i) == i.pad0 + (left + "=" + right) + i.pad3
  {
    ConcatIsAssociative(left + "=", i.pad2, i.value);
  }

  lemma PairIsItem(text: string) returns (i: Item)
    requires ParsePair(text).Pair? && Free(text, ',') && Free(text, '}')
    ensures IsItem(i) && PrintItem(i) == text && ParsePair(text) == Pair(i.name, i.value)
  {
    var pad0, pad3 := TrimSplits(text);
    var t := TrimSpace(text);
    var parts := Split(t, '=');
    SplitIsUndoneByJoin(t, '=');
    assert parts[1..] == [parts[1]];
    assert t == parts[0] + "=" + parts[1];
    var pad1, pad2 := SidesOfPair(parts[0], parts[1]);
    i := Item(pad0, TrimSpace(parts[0]), pad1, pad2, TrimSpace(parts[1]), pad3);
    PrintedFromSides(i, parts[0], parts[1]);
    WordsOfItemAreFree(i, ',');
    WordsOfItemAreFree(i, '}');
    FreeConcat(i.name, pad1, '=');
    FreeConcat(pad2, i.value, '=');
  }

  lemma WordsOfItemAreFree(i: Item, c: char)
    requires Free(PrintItem(i), c)
    ensures Free(i.name, c) && Free(i.value, c)
  {
    FreeConcat(i.pad0 + ItemCore(i), i.pad3, c);
    FreeConcat(i.pad0, ItemCore(i), c);
    FreeConcat(i.name + i.pad1 + "=" + i.pad2, i.value, c);
    FreeConcat(i.name + i.pad1 + "=", i.pad2, c);
    FreeConcat(i.name + i.pad1, "=", c);
    FreeConcat(i.name, i.pad1, c);
  }

  lemma {:induction false} PairsAreItems(texts: seq<string>) returns (items: seq<Item>)
    requires texts != [] && PairsParse(texts)
    requires forall i :: 0 <= i < |texts| ==> Free(texts[i], ',') && Free(texts[i], '}')
    ensures |items| == |texts| && AreItems(items) && PrintedItems(items) == texts
    ensures PrintItems(items) == Join(texts, ',')
    decreases |texts|
  {
    var first := PairIsItem(texts[0]);
    if |texts| == 1 {
      items := [first];
    } else {
      var rest := PairsAreItems(texts[1..]);
      items := [first] + rest;
      ItemsOneMore(first, rest);
      assert texts == [texts[0]] + texts[1..];
      assert Join(texts, ',') == texts[0] + "," + Join(texts[1..], ',');
    }
  }

  lemma {:induction false} JoinedPartsAreFree(parts: seq<string>, c: char, d: char)
    requires parts != [] && Free(Join(parts, c), d)
    ensures forall i :: 0 <= i < |parts| ==> Free(parts[i], d)
    decreases |parts|
  {
    if |parts| > 1 {
      FreeConcat(parts[0] + [c], Join(parts[1..], c), d);
      FreeConcat(parts[0], [c], d);
      JoinedPartsAreFree(parts[1..], c, d);
    }
  }

  lemma BlockIsLayout(t: string, start: int, end: int) returns (name: string, gap: string, items: seq<Item>)
    requires Trimmed(t) && 0 <= start && start + 1 < end < |t|
    requires t[start] == '{' && Free(t[..start], '{') && t[end] == '}' && Free(t[..end], '}')
    requires t[..end] == t[..start] + "{" + t[start + 1..end] && Free(t[..start], '}')
    requires ParseBlock(t, start, end).Parsed?
    ensures items != [] && IsLayout(Layout("", name, gap, items, ""))
    ensures Core(Layout("", name, gap, items, "")) == t
    ensures ParseBlock(t, start, end) == Parsed(SpecOf(Layout("", name, gap, items, "")))
  {
    var head, text := t[..start], t[start + 1..end];
    assert t == Block(head, text);
    items := BlockItems(head, text);
    name, gap := HeadIsLayout(head, t);
    assert Core(Layout("", name, gap, items, "")) == Block(name + gap, text);
  }

  lemma BlockItems(head: string, text: string) returns (items: seq<Item>)
    requires Free(head + "{" + text, '}') && PairsParse(Split(text, ','))
    ensures items != [] && AreItems(items) && PrintItems(items) == text
    ensures PairLabels(Split(text, ',')) == ItemLabels(items)
  {
    FreeConcat(head + "{", text, '}');
    SplitIsUndoneByJoin(text, ',');
    JoinedPartsAreFree(Split(text, ','), ',', '}');
    items := PairsAreItems(Split(text, ','));
    LabelsAreRead(items);
  }

  lemma HeadIsLayout(head: string, t: string) returns (name: string, gap: string)
    requires Trimmed(t) && head <= t && Free(head, '{') && Free(head, '}') && TrimSpace(head) != ""
    ensures name == TrimSpace(head) && IsName(name) && Blank(gap) && head == name + gap
  {
    var pad;
    pad, gap := TrimSplits(head);
    name := TrimSpace(head);
    assert head == pad + (name + gap) && t[0] == head[0];
    NoLeadingBlank(pad, name + gap);
    assert head == name + gap;
    FreeConcat(name, gap, '{');
    FreeConcat(name, gap, '}');
  }

  /** Whatever the parser accepts is some layout, printed, and the result is the specification that layout describes. */
  lemma AcceptedTextIsPrintedLayout(s: string) returns (l: Layout)
    requires Parse(s).Parsed?
    ensures IsLayout(l) && Print(l) == s && Parse(s) == Parsed(SpecOf(l))
  {
    var lead, trail := TrimSplits(s);
    var t := TrimSpace(s);
    IndexOfAbsent(t, '{');
    IndexOfAbsent(t, '}');
    var start, end := Index(t, '{'), Index(t, '}');
    if start == -1 && end == -1 {
      l := Layout(lead, t, "", [], trail);
    } else {
      assert t[..end] == t[..start] + "{" + t[start + 1..end];
      assert Free(t[..start], '}') by {
        assert t[..start] == t[..end][..start];
      }
      var name, gap, items := BlockIsLayout(t, start, end);
      l := Layout(lead, name, gap, items, trail);
      assert Core(l) == Core(Layout("", name, gap, items, ""));
    }
  }

  /** The parser accepts a text as a specification if and only if the text is a printed layout of that specification. */
  lemma AcceptedIffPrintedLayout(s: string, spec: MetricSpec)
    ensures Parse(s) == Parsed(spec) <==> exists l :: IsLayout(l) && Print(l) == s && SpecOf(l) == spec
  {
    if Parse(s) == Parsed(spec) {
      var l := AcceptedTextIsPrintedLayout(s);
      assert IsLayout(l) && Print(l) == s && SpecOf(l) == spec;
    }
    forall l | IsLayout(l) && Print(l) == s && SpecOf(l) == spec ensures Parse(s) == Parsed(spec) {
      PrintedLayoutIsRead(l);
    }
  }

  // ---------- Canonical form ----------

  /** The labels of a specification in some order, each once. */
  predicate Enumerates(names: seq<string>, labels: map<string, string>) {
    && (forall i :: 0 <= i < |names| ==> names[i] in labels)
    && (forall n :: n in labels ==> n in names)
    && (forall i, j :: 0 <= i < j < |names| ==> names[i] != names[j])
  }

  /** The layout without any blanks, with the labels in the given order. */
  function Canonical(spec: MetricSpec, names: seq<string>): Layout
    requires Enumerates(names, spec.labels)
  {
    Layout("", spec.metricName, "",
           seq(|names|, i requires 0 <= i < |names| => Item("", names[i], "", "", spec.labels[names[i]], "")), "")
  }

  predicate WellFormed(spec: MetricSpec) {
    IsName(spec.metricName) && forall n :: n in spec.labels ==> IsWord(n) && IsWord(spec.labels[n])
  }

  lemma {:induction false} ItemLabelsAreWords(items: seq<Item>)
    requires AreItems(items)
    ensures forall n :: n in ItemLabels(items) ==> IsWord(n) && IsWord(ItemLabels(items)[n])
    decreases |items|
  {
    if items != [] {
      ItemLabelsAreWords(items[..|items| - 1]);
    }
  }

  /** An accepted specification has a trimmed, brace-free name and trimmed labels without separators. */
  lemma AcceptedSpecIsWellFormed(s: string)
    requires Parse(s).Parsed?
    ensures WellFormed(Parse(s).spec)
  {
    var l := AcceptedTextIsPrintedLayout(s);
    assert AreItems(l.items);
    ItemLabelsAreWords(l.items);
  }

  /** The labels of the first `k` names. */
  ghost predicate LabelsUpTo(m: map<string, string>, labels: map<string, string>, names: seq<string>, k: nat)
    requires k <= |names|
  {
    && (forall n :: n in m <==> n in names[..k])
    && (forall n :: n in m ==> n in labels && m[n] == labels[n])
  }

  lemma LabelsOneMore(m: map<string, string>, labels: map<string, string>, names: seq<string>, k: nat)
    requires 0 < k <= |names| && names[k - 1] in labels && LabelsUpTo(m, labels, names, k - 1)
    ensures LabelsUpTo(m[names[k - 1] := labels[names[k - 1]]], labels, names, k)
  {
    assert names[..k] == names[..k - 1] + [names[k - 1]];
  }

  lemma {:induction false} DistinctItemLabels(items: seq<Item>, labels: map<string, string>, names: seq<string>, k: nat)
    requires |items| == |names| && k <= |names| && Enumerates(names, labels)
    requires forall i :: 0 <= i < |names| ==> items[i].name == names[i] && items[i].value == labels[names[i]]
    ensures LabelsUpTo(ItemLabels(items[..k]), labels, names, k)
    decreases k
  {
    if k > 0 {
      DistinctItemLabels(items, labels, names, k - 1);
      assert items[..k][..k - 1] == items[..k - 1];
      LabelsOneMore(ItemLabels(items[..k - 1]), labels, names, k);
    }
  }

  /** A well-formed specification survives being printed, in any label order, and parsed again. */
  lemma CanonicalFormIsReadBack(spec: MetricSpec, names: seq<string>)
    requires WellFormed(spec) && Enumerates(names, spec.labels)
    ensures Parse(Print(Canonical(spec, names))) == Parsed(spec)
  {
    PrintedLayoutIsRead(Canonical(spec, names));
    CanonicalLabels(spec, names);
  }

  lemma CanonicalLabels(spec: MetricSpec, names: seq<string>)
    requires Enumerates(names, spec.labels)
    ensures ItemLabels(Canonical(spec, names).items) == spec.labels
  {
    var items := Canonical(spec, names).items;
    DistinctItemLabels(items, spec.labels, names, |names|);
    assert items[..|names|] == items && names[..|names|] == names;
  }

  /** Every label map can be listed. */
  lemma {:induction false} EveryLabelMapIsEnumerated(labels: map<string, string>) returns (names: seq<string>)
    ensures Enumerates(names, labels)
    decreases |labels|
  {
    names := [];
    if labels != map[] {
      var n :| n in labels;
      var rest := EveryLabelMapIsEnumerated(labels - {n});
      names := [n] + rest;
      assert forall m :: m in labels && m != n ==> m in rest;
      assert forall i :: 0 < i < |names| ==> names[i] == rest[i - 1];
    }
  }

  /** For every accepted text: printing the result canonically and parsing again gives the same result. */
  lemma ReparsingIsStable(s: string, names: seq<string>)
    requires Parse(s).Parsed? && Enumerates(names, Parse(s).spec.labels)
    ensures Parse(Print(Canonical(Parse(s).spec, names))) == Parse(s)
  {
    AcceptedSpecIsWellFormed(s);
    CanonicalFormIsReadBack(Parse(s).spec, names);
  }

  /** Every accepted text has a canonical form, and that form means the same. */
  lemma AcceptedTextHasCanonicalForm(s: string) returns (names: seq<string>)
    requires Parse(s).Parsed?
    ensures Enumerates(names, Parse(s).spec.labels) && Parse(Print(Canonical(Parse(s).spec, names))) == Parse(s)
  {
    names := EveryLabelMapIsEnumerated(Parse(s).spec.labels);
    ReparsingIsStable(s, names);
  }

  /** The three outcomes: nothing for the empty text, a specification for a layout, an error for any other text. */
  lemma OutcomeOfParsing(s: string)
    ensures Parse(s) == NoSpec <==> s == ""
    ensures Parse(s).Parsed? <==> exists l :: IsLayout(l) && Print(l) == s
    ensures Parse(s) == Malformed <==> s != "" && !exists l :: IsLayout(l) && Print(l) == s
  {
    if Parse(s).Parsed? {
      AcceptedIffPrintedLayout(s, Parse(s).spec);
    }
    if l :| IsLayout(l) && Print(l) == s {
      PrintedLayoutIsRead(l);
    }
  }

  /** White space is what Go's `strings.TrimSpace` trims. */
  lemma WhiteSpaceIs(c: char)
    ensures IsSpace(c) <==>
            c in {'\t', '\n', '\U{0B}', '\U{0C}', '\r', ' ', '\U{85}', '\U{A0}', '\U{1680}', '\U{2000}', '\U{2001}',
                  '\U{2002}', '\U{2003}', '\U{2004}', '\U{2005}', '\U{2006}', '\U{2007}', '\U{2008}', '\U{2009}',
                  '\U{200A}', '\U{2028}', '\U{2029}', '\U{202F}', '\U{205F}', '\U{3000}'}
  {
  }
}
