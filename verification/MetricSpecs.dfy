/** The parser of metric specifications: `name` or `name{label=value,...}` with blanks anywhere between the parts. */
module MetricSpecs {

  datatype MetricSpec = MetricSpec(metricName: string, labels: map<string, string>)

  /** The empty string stands for no specification at all. */
  datatype Result = NoSpec | Parsed(spec: MetricSpec) | Malformed

  // ---------- The string functions of Go that the parser uses ----------

  predicate IsSpace(c: char) {
    || c == '\t' || c == '\n' || c == '\U{0B}' || c == '\U{0C}' || c == '\r' || c == ' '
    || c == '\U{85}' || c == '\U{A0}' || c == '\U{1680}' || ('\U{2000}' <= c <= '\U{200A}')
    || c == '\U{2028}' || c == '\U{2029}' || c == '\U{202F}' || c == '\U{205F}' || c == '\U{3000}'
  }

  function TrimLeft(s: string): string {
    if s != [] && IsSpace(s[0]) then TrimLeft(s[1..]) else s
  }

  function TrimRight(s: string): string {
    if s != [] && IsSpace(s[|s| - 1]) then TrimRight(s[..|s| - 1]) else s
  }

  function TrimSpace(s: string): string {
    TrimRight(TrimLeft(s))
  }

  function Index(s: string, c: char): (i: int)
    ensures -1 <= i < |s|
  {
    if s == [] then -1 else if s[0] == c then 0 else
      var i := Index(s[1..], c);
      if i == -1 then -1 else i + 1
  }

  function Split(s: string, c: char): (parts: seq<string>)
    ensures parts != []
  {
    if s == [] then [[]]
    else if s[0] == c then [[]] + Split(s[1..], c)
    else
      var rest := Split(s[1..], c);
      [[s[0]] + rest[0]] + rest[1..]
  }

  // ---------- The parser ----------

  datatype Pair = NoPair | Pair(name: string, value: string)

  function ParsePair(text: string): Pair {
    var parts := Split(TrimSpace(text), '=');
    if |parts| != 2 then NoPair else
      var name, value := TrimSpace(parts[0]), TrimSpace(parts[1]);
      if name == "" || value == "" then NoPair else Pair(name, value)
  }

  /** All pairs parse. */
  predicate PairsParse(texts: seq<string>) {
    forall i :: 0 <= i < |texts| ==> ParsePair(texts[i]).Pair?
  }

  /** The label map the loop builds: a later pair overwrites an earlier one of the same name. */
  function PairLabels(texts: seq<string>): map<string, string>
    requires PairsParse(texts)
  {
    if texts == [] then map[] else
      var p := ParsePair(texts[|texts| - 1]);
      PairLabels(texts[..|texts| - 1])[p.name := p.value]
  }

  function ParseBlock(t: string, start: int, end: int): Result
    requires 0 <= start && start + 1 < end < |t|
  {
    var texts := Split(t[start + 1..end], ',');
    var name := TrimSpace(t[..start]);
    if PairsParse(texts) && end == |t| - 1 && name != "" then Parsed(MetricSpec(name, PairLabels(texts))) else Malformed
  }

  function Parse(s: string): Result {
    if s == "" then NoSpec else
      var t := TrimSpace(s);
      var start, end := Index(t, '{'), Index(t, '}');
      if start == -1 && end == -1 then
        if t == "" then Malformed else Parsed(MetricSpec(t, map[]))
      else if start == -1 || end == -1 || end <= start + 1 then Malformed
      else ParseBlock(t, start, end)
  }

  method ReadPair(text: string) returns (pair: Pair)
    ensures pair == ParsePair(text)
  {
    var parts := Split(TrimSpace(text), '=');
    if |parts| != 2 {
      return NoPair;
    }
    var labelName, labelValue := TrimSpace(parts[0]), TrimSpace(parts[1]);
    if labelName == "" || labelValue == "" {
      return NoPair;
    }
    return Pair(labelName, labelValue);
  }

  lemma PairsExtend(texts: seq<string>, i: nat)
    requires i < |texts| && PairsParse(texts[..i]) && ParsePair(texts[i]).Pair?
    ensures PairsParse(texts[..i + 1])
    ensures var p := ParsePair(texts[i]); PairLabels(texts[..i + 1]) == PairLabels(texts[..i])[p.name := p.value]
  {
    assert texts[..i + 1][..i] == texts[..i];
  }

  /** The loop over the label pairs. */
  method ReadPairs(labelPairs: seq<string>) returns (labels: map<string, string>, ok: bool)
    ensures ok <==> PairsParse(labelPairs)
    ensures ok ==> labels == PairLabels(labelPairs)
  {
    labels := map[];
    for i := 0 to |labelPairs|
      invariant PairsParse(labelPairs[..i]) && labels == PairLabels(labelPairs[..i])
    {
      var pair := ReadPair(labelPairs[i]);
      if pair.NoPair? {
        return map[], false;
      }
      PairsExtend(labelPairs, i);
      labels := labels[pair.name := pair.value];
    }
    assert labelPairs[..|labelPairs|] == labelPairs;
    return labels, true;
  }

  /** The parser as written, with its loop over the label pairs. */
  method StringToMetricSpec(input: string) returns (r: Result)
    ensures r == Parse(input)
  {
    if input == "" {
      return NoSpec;
    }
    var specStr := TrimSpace(input);
    var metricName := specStr;
    var labels: map<string, string> := map[];
    var start, end := Index(specStr, '{'), Index(specStr, '}');
    if start != -1 || end != -1 {
      if start == -1 || end == -1 || end <= start + 1 {
        return Malformed;
      }
      metricName := TrimSpace(specStr[..start]);
      var labelPairs := Split(specStr[start + 1..end], ',');
      var read, ok := ReadPairs(labelPairs);
      if !ok {
        return Malformed;
      }
      labels := read;
      if end != |specStr| - 1 {
        return Malformed;
      }
    }
    if metricName == "" {
      return Malformed;
    }
    return Parsed(MetricSpec(metricName, labels));
  }

  // ---------- The language, described by printing ----------

  predicate Blank(s: string) {
    forall i :: 0 <= i < |s| ==> IsSpace(s[i])
  }

  /** Non-empty, with no blank at either end. */
  predicate Trimmed(s: string) {
    s != "" && !IsSpace(s[0]) && !IsSpace(s[|s| - 1])
  }

  predicate Free(s: string, c: char) {
    forall i :: 0 <= i < |s| ==> s[i] != c
  }

  predicate IsName(s: string) {
    Trimmed(s) && Free(s, '{') && Free(s, '}')
  }

  /** A label name or value: anything trimmed without the separators and the closing brace. */
  predicate IsWord(s: string) {
    Trimmed(s) && Free(s, ',') && Free(s, '=') && Free(s, '}')
  }

  /** One label pair with the blanks around its parts. */
  datatype Item = Item(pad0: string, name: string, pad1: string, pad2: string, value: string, pad3: string)

  predicate IsItem(i: Item) {
    Blank(i.pad0) && IsWord(i.name) && Blank(i.pad1) && Blank(i.pad2) && IsWord(i.value) && Blank(i.pad3)
  }

  function PrintItem(i: Item): string {
    i.pad0 + (i.name + i.pad1 + "=" + i.pad2 + i.value) + i.pad3
  }

  function PrintItems(items: seq<Item>): string
    requires items != []
  {
    if |items| == 1 then PrintItem(items[0]) else PrintItem(items[0]) + "," + PrintItems(items[1..])
  }

  /** A specification as written: without items there are no braces. */
  datatype Layout = Layout(lead: string, name: string, gap: string, items: seq<Item>, trail: string)

  predicate IsLayout(l: Layout) {
    && Blank(l.lead) && IsName(l.name) && Blank(l.gap) && Blank(l.trail)
    && (forall i :: 0 <= i < |l.items| ==> IsItem(l.items[i]))
    && (l.items == [] ==> l.gap == "")
  }

  function Core(l: Layout): string {
    if l.items == [] then l.name else l.name + l.gap + "{" + PrintItems(l.items) + "}"
  }

  function Print(l: Layout): string {
    l.lead + Core(l) + l.trail
  }

  function ItemLabels(items: seq<Item>): map<string, string> {
    if items == [] then map[] else
      ItemLabels(items[..|items| - 1])[items[|items| - 1].name := items[|items| - 1].value]
  }

  function SpecOf(l: Layout): MetricSpec {
    MetricSpec(l.name, ItemLabels(l.items))
  }
}
