/** The Prometheus text exposition of metrics: printing label values and lines, and reading them back. */
module Prometheus {
  import opened Wrappers
  import opened Decimal
  import opened Text

  type Labels = map<string, string>

  datatype Metric = Metric(name: string, labels: Labels, value: int)

  // ----- label values

  /** strings.ReplaceAll for a one-byte pattern. */
  function ReplaceAll(s: string, c: char, sub: string): string {
    if s == "" then "" else (if s[0] == c then sub else [s[0]]) + ReplaceAll(s[1..], c, sub)
  }

  /** prometheusLabelValue: three passes. */
  function LabelValue(v: string): string {
    ReplaceAll(ReplaceAll(ReplaceAll(v, '\\', "\\\\"), '\n', "\\n"), '"', "\\\"")
  }

  /** The format's escaping, one character at a time. */
  function EscapeChar(c: char): string {
    match c
    case '\\' => "\\\\"
    case '\n' => "\\n"
    case '"' => "\\\""
    case _ => [c]
  }

  function Escape(v: string): string {
    if v == "" then "" else EscapeChar(v[0]) + Escape(v[1..])
  }

  lemma {:induction false} ReplaceAllAppend(a: string, b: string, c: char, sub: string)
    ensures ReplaceAll(a + b, c, sub) == ReplaceAll(a, c, sub) + ReplaceAll(b, c, sub)
  {
    if a == "" {
      assert a + b == b;
    } else {
      assert (a + b)[1..] == a[1..] + b;
      ReplaceAllAppend(a[1..], b, c, sub);
    }
  }

  lemma ReplaceOne(x: char, c: char, sub: string)
    ensures ReplaceAll([x], c, sub) == if x == c then sub else [x]
  {
    assert ReplaceAll([x], c, sub) == (if x == c then sub else [x]) + ReplaceAll("", c, sub);
  }

  lemma ReplaceTwo(x: char, y: char, c: char, sub: string)
    ensures ReplaceAll([x, y], c, sub) == (if x == c then sub else [x]) + (if y == c then sub else [y])
  {
    assert [x, y] == [x] + [y];
    ReplaceAllAppend([x], [y], c, sub);
    ReplaceOne(x, c, sub);
    ReplaceOne(y, c, sub);
  }

  lemma PassesOnOne(x: char)
    ensures LabelValue([x]) == EscapeChar(x)
  {
    ReplaceOne(x, '\\', "\\\\");
    ReplaceTwo('\\', '\\', '\n', "\\n");
    ReplaceTwo('\\', '\\', '"', "\\\"");
    ReplaceOne(x, '\n', "\\n");
    ReplaceTwo('\\', 'n', '"', "\\\"");
    ReplaceOne(x, '"', "\\\"");
  }

  lemma PassesAppend(a: string, b: string)
    ensures LabelValue(a + b) == LabelValue(a) + LabelValue(b)
  {
    ReplaceAllAppend(a, b, '\\', "\\\\");
    var a1, b1 := ReplaceAll(a, '\\', "\\\\"), ReplaceAll(b, '\\', "\\\\");
    ReplaceAllAppend(a1, b1, '\n', "\\n");
    ReplaceAllAppend(ReplaceAll(a1, '\n', "\\n"), ReplaceAll(b1, '\n', "\\n"), '"', "\\\"");
  }

  /** The three passes never touch each other's output: together they escape each character on its own. */
  lemma {:induction false} PassesEscape(v: string)
    ensures LabelValue(v) == Escape(v)
  {
    hide LabelValue;
    if v == "" {
      NoPasses();
    } else {
      assert v == [v[0]] + v[1..];
      PassesAppend([v[0]], v[1..]);
      PassesOnOne(v[0]);
      PassesEscape(v[1..]);
    }
  }

  lemma NoPasses()
    ensures LabelValue("") == ""
  {}

  /** Reads an escaped value up to its closing quote; the value and what follows the quote. */
  function ReadQuoted(s: string): Option<(string, string)> {
    if s == "" || s[0] == '\n' then None
    else if s[0] == '"' then Some(("", s[1..]))
    else if s[0] != '\\' then Push(s[0], ReadQuoted(s[1..]))
    else if |s| >= 2 && s[1] in {'\\', '"'} then Push(s[1], ReadQuoted(s[2..]))
    else if |s| >= 2 && s[1] == 'n' then Push('\n', ReadQuoted(s[2..]))
    else None
  }

  function Push(c: char, r: Option<(string, string)>): Option<(string, string)> {
    match r
    case None => None
    case Some((v, rest)) => Some(([c] + v, rest))
  }

  lemma ReadEscapedChar(c: char, tail: string)
    ensures ReadQuoted(EscapeChar(c) + tail) == Push(c, ReadQuoted(tail))
  {
    var s := EscapeChar(c) + tail;
    assert s[|EscapeChar(c)|..] == tail;
  }

  lemma {:induction false} ReadEscaped(v: string, rest: string)
    ensures ReadQuoted(Escape(v) + "\"" + rest) == Some((v, rest))
  {
    var s := Escape(v) + "\"" + rest;
    if v == "" {
      assert s[0] == '"' && s[1..] == rest;
    } else {
      ReadEscaped(v[1..], rest);
      var tail := Escape(v[1..]) + "\"" + rest;
      ReadEscapedChar(v[0], tail);
      assert s == EscapeChar(v[0]) + tail;
      assert v == [v[0]] + v[1..];
    }
  }

  // ----- names

  predicate Letter(c: char) { 'a' <= c <= 'z' || 'A' <= c <= 'Z' || c == '_' }

  predicate LabelChar(c: char) { Letter(c) || '0' <= c <= '9' }

  predicate NameChar(c: char) { LabelChar(c) || c == ':' }

  predicate LabelName(s: string) {
    s != "" && Letter(s[0]) && forall i :: 0 <= i < |s| ==> LabelChar(s[i])
  }

  predicate MetricName(s: string) {
    s != "" && (Letter(s[0]) || s[0] == ':') && forall i :: 0 <= i < |s| ==> NameChar(s[i])
  }

  predicate NumberChar(c: char) { IsDigit(c) || c == '-' }

  /** How many leading characters are of a kind. */
  function Span(s: string, kind: char -> bool): (n: nat)
    ensures n <= |s| && (forall i :: 0 <= i < n ==> kind(s[i])) && (n < |s| ==> !kind(s[n]))
  {
    if s != "" && kind(s[0]) then 1 + Span(s[1..], kind) else 0
  }

  lemma SpanStops(a: string, b: string, kind: char -> bool)
    requires (forall i :: 0 <= i < |a| ==> kind(a[i])) && b != "" && !kind(b[0])
    ensures var s := a + b; Span(s, kind) == |a| && s[..|a|] == a && s[|a|..] == b
  {
    var s := a + b;
    assert s[|a|] == b[0];
    assert forall i :: 0 <= i < |a| ==> kind(s[i]);
  }

  // ----- lines

  function Pair(key: string, value: string): string {
    key + "=\"" + LabelValue(value) + "\""
  }

  /** The label pairs from the i-th key on, each but the very first after a comma. */
  function PairsFrom(keys: seq<string>, labels: Labels, i: nat): string
    requires i <= |keys| && forall k :: 0 <= k < |keys| ==> keys[k] in labels
    decreases |keys| - i
  {
    if i == |keys| then ""
    else (if i > 0 then "," else "") + Pair(keys[i], labels[keys[i]]) + PairsFrom(keys, labels, i + 1)
  }

  function Braced(keys: seq<string>, labels: Labels): string
    requires forall k :: 0 <= k < |keys| ==> keys[k] in labels
  {
    if |labels| == 0 then "" else "{" + PairsFrom(keys, labels, 0) + "}"
  }

  function Ending(value: int): string { " " + FormatInt(value) + "\n" }

  predicate Lists(keys: seq<string>, s: set<string>) {
    StrictlySorted(keys) && (forall k :: 0 <= k < |keys| ==> keys[k] in s) && forall x :: x in s ==> x in keys
  }

  lemma {:induction false} ListsExist(s: set<string>)
    ensures exists keys :: Lists(keys, s)
  {
    if s == {} {
      assert Lists([], s);
    } else {
      var x :| x in s;
      ListsExist(s - {x});
      var rest :| Lists(rest, s - {x});
      StrictIsSorted(rest);
      SortsToList([x] + rest, s);
    }
  }

  /** Sorting any arrangement of a set lists it in order. */
  lemma SortsToList(order: seq<string>, s: set<string>)
    requires Distinct(order) && (forall k :: 0 <= k < |order| ==> order[k] in s) && forall x :: x in s ==> x in order
    ensures Lists(Sort(order), s)
  {
    SortSorts(order);
    var keys := Sort(order);
    DistinctByMultiset(order, keys);
    SortedDistinctIsStrict(keys);
    forall k | 0 <= k < |keys| ensures keys[k] in s { assert keys[k] in multiset(order); }
    forall x | x in s ensures x in keys { assert x in multiset(keys); }
  }

  lemma ListsUnique(a: seq<string>, b: seq<string>, s: set<string>)
    requires Lists(a, s) && Lists(b, s)
    ensures a == b
  {
    SameMembers(a, b);
  }

  /** The set's members in increasing order. */
  ghost function Listed(s: set<string>): (keys: seq<string>)
    ensures Lists(keys, s)
  {
    ListsExist(s);
    var keys :| Lists(keys, s);
    keys
  }

  /** The printed line. It is a function of the label map: no order of iteration enters. */
  ghost function Line(m: Metric): string {
    m.name + Braced(Listed(m.labels.Keys), m.labels) + Ending(m.value)
  }

  // ----- reading lines back

  function ReadPair(s: string): Option<(string, string, string)> {
    var n := Span(s, LabelChar);
    if n == 0 || !Letter(s[0]) || |s| < n + 2 || s[n] != '=' || s[n + 1] != '"' then None
    else
      match ReadQuoted(s[n + 2..])
      case None => None
      case Some((value, rest)) => Some((s[..n], value, rest))
  }

  lemma {:induction false} ReadQuotedShrinks(s: string)
    requires ReadQuoted(s).Some?
    ensures |ReadQuoted(s).value.1| < |s|
  {
    if s[0] == '"' {
    } else if s[0] != '\\' {
      ReadQuotedShrinks(s[1..]);
    } else {
      ReadQuotedShrinks(s[2..]);
    }
  }

  /** The pairs up to the closing brace, and what follows it. A label may appear once. */
  function ReadPairs(s: string, read: Labels): Option<(Labels, string)>
    decreases |s|
  {
    match ReadPair(s)
    case None => None
    case Some((key, value, rest)) =>
      ReadQuotedShrinks(s[Span(s, LabelChar) + 2..]);
      if key in read || rest == "" then None
      else if rest[0] == '}' then Some((read[key := value], rest[1..]))
      else if rest[0] == ',' then ReadPairs(rest[1..], read[key := value])
      else None
  }

  function ReadValue(s: string): Option<(int, string)> {
    if s == "" || s[0] != ' ' then None
    else
      var t := s[1..];
      var n := Span(t, NumberChar);
      if n == 0 || n == |t| || t[n] != '\n' then None
      else if Digits(t[..n]) || (t[0] == '-' && Digits(t[1..n])) then
        assert t[..n][1..] == t[1..n];
        Some((ReadInt(t[..n]), t[n + 1..]))
      else None
  }

  /** One sample line, and the text after it. */
  function ReadLine(s: string): Option<(Metric, string)> {
    var n := Span(s, NameChar);
    if n == 0 || IsDigit(s[0]) then None
    else
      var name, tail := s[..n], s[n..];
      if tail != "" && tail[0] == '{' then
        match ReadPairs(tail[1..], map[])
        case None => None
        case Some((labels, rest)) =>
          match ReadValue(rest) case None => None case Some((v, after)) => Some((Metric(name, labels, v), after))
      else
        match ReadValue(tail) case None => None case Some((v, after)) => Some((Metric(name, map[], v), after))
  }

  lemma ReadPairBack(key: string, value: string, rest: string)
    requires LabelName(key)
    ensures ReadPair(Pair(key, value) + rest) == Some((key, value, rest))
  {
    hide Escape, LabelValue, ReadQuoted, Span;
    PassesEscape(value);
    ReadEscaped(value, rest);
    var s, quoted := Pair(key, value) + rest, Escape(value) + "\"" + rest;
    var tail := "=\"" + quoted;
    assert s == key + tail;
    SpanStops(key, tail, LabelChar);
    assert tail[2..] == quoted && s[|key| + 2..] == tail[2..];
  }

  function Restrict(labels: Labels, keys: seq<string>, n: nat): Labels
    requires n <= |keys| && forall k :: 0 <= k < |keys| ==> keys[k] in labels
  {
    map x | x in labels && x in keys[..n] :: labels[x]
  }

  lemma RestrictStep(keys: seq<string>, labels: Labels, i: nat)
    requires i < |keys| && Lists(keys, labels.Keys)
    ensures keys[i] !in Restrict(labels, keys, i)
    ensures Restrict(labels, keys, i)[keys[i] := labels[keys[i]]] == Restrict(labels, keys, i + 1)
    ensures i + 1 == |keys| ==> Restrict(labels, keys, i + 1) == labels
  {
    StrictIsSorted(keys);
    assert keys[..i + 1] == keys[..i] + [keys[i]];
    assert i + 1 == |keys| ==> keys[..i + 1] == keys;
  }

  lemma ReadPairsStep(s: string, read: Labels, key: string, value: string, rest: string)
    requires ReadPair(s) == Some((key, value, rest))
    ensures ReadPairs(s, read) ==
      if key in read || rest == "" then None
      else if rest[0] == '}' then Some((read[key := value], rest[1..]))
      else if rest[0] == ',' then ReadPairs(rest[1..], read[key := value])
      else None
  {
    hide ReadPair;
  }

  lemma {:induction false} ReadPairsBack(keys: seq<string>, labels: Labels, i: nat, rest: string)
    requires i < |keys| && Lists(keys, labels.Keys) && forall k :: 0 <= k < |keys| ==> LabelName(keys[k])
    ensures ReadPairs(Pair(keys[i], labels[keys[i]]) + PairsFrom(keys, labels, i + 1) + "}" + rest, Restrict(labels, keys, i))
         == Some((labels, rest))
    decreases |keys| - i
  {
    hide Pair, LabelName, ReadPair, ReadPairs, Restrict, StrictlySorted;
    var key, value := keys[i], labels[keys[i]];
    var more := PairsFrom(keys, labels, i + 1) + "}" + rest;
    var s := Pair(key, value) + PairsFrom(keys, labels, i + 1) + "}" + rest;
    assert s == Pair(key, value) + more;
    ReadPairBack(key, value, more);
    ReadPairsStep(s, Restrict(labels, keys, i), key, value, more);
    RestrictStep(keys, labels, i);
    if i + 1 == |keys| {
      assert more == "}" + rest;
    } else {
      var next := Pair(keys[i + 1], labels[keys[i + 1]]) + PairsFrom(keys, labels, i + 2) + "}" + rest;
      assert more == "," + next;
      ReadPairsBack(keys, labels, i + 1, rest);
    }
  }

  lemma ReadValueBack(value: int, rest: string)
    ensures ReadValue(Ending(value) + rest) == Some((value, rest))
  {
    hide FormatInt, ReadInt;
    ReadFormatInt(value);
    FormatIntNonEmpty(value);
    var t := FormatInt(value) + ("\n" + rest);
    assert Ending(value) + rest == " " + t;
    SpanStops(FormatInt(value), "\n" + rest, NumberChar);
  }

  lemma FormatIntNonEmpty(value: int)
    ensures FormatInt(value) != ""
  {}

  lemma FirstPair(keys: seq<string>, labels: Labels)
    requires keys != [] && forall k :: 0 <= k < |keys| ==> keys[k] in labels
    ensures PairsFrom(keys, labels, 0) == Pair(keys[0], labels[keys[0]]) + PairsFrom(keys, labels, 1)
    ensures Restrict(labels, keys, 0) == map[]
  {
    hide Pair;
  }

  /** Reading a printed line gives back the name, the label map and the value, for any label values at all. */
  lemma ReadLineBack(m: Metric, rest: string)
    requires MetricName(m.name) && forall x :: x in m.labels ==> LabelName(x)
    ensures ReadLine(Line(m) + rest) == Some((m, rest))
  {
    hide Pair, PairsFrom, Restrict, LabelName, ReadPairs, ReadValue, Ending, Span;
    var keys, end := Listed(m.labels.Keys), Ending(m.value) + rest;
    var s := Line(m) + rest;
    ReadValueBack(m.value, rest);
    EndingStarts(m.value);
    if |m.labels| == 0 {
      assert s == m.name + end;
      SpanStops(m.name, end, NameChar);
      assert m.labels == map[];
    } else {
      assert keys != [] by { var x :| x in m.labels; assert x in keys; }
      var pairs := Pair(keys[0], m.labels[keys[0]]) + PairsFrom(keys, m.labels, 1);
      FirstPair(keys, m.labels);
      var tail := "{" + (pairs + "}" + end);
      assert s == m.name + tail;
      SpanStops(m.name, tail, NameChar);
      ReadPairsBack(keys, m.labels, 0, end);
      assert tail[1..] == pairs + "}" + end;
    }
  }

  lemma EndingStarts(value: int)
    ensures Ending(value) != "" && Ending(value)[0] == ' '
  {}

  // ----- writing

  class Builder {
    var text: string

    constructor ()
      ensures text == ""
    {
      text := "";
    }

    method Write(s: string)
      modifies this
      ensures text == old(text) + s
    {
      text := text + s;
    }
  }

  /** Ranging over a map's keys: each once, in an order nobody chooses. */
  method Collect(s: set<string>) returns (order: seq<string>)
    ensures Distinct(order) && (forall k :: 0 <= k < |order| ==> order[k] in s) && forall x :: x in s ==> x in order
  {
    order := [];
    var rest := s;
    while rest != {}
      invariant rest <= s && Distinct(order)
      invariant forall k :: 0 <= k < |order| ==> order[k] in s - rest
      invariant forall x :: x in s - rest ==> x in order
      decreases |rest|
    {
      var x :| x in rest;
      order, rest := order + [x], rest - {x};
    }
  }

  /** The keys of a map in sort.Strings order, however the map is ranged over. */
  method SortedKeys(s: set<string>) returns (keys: seq<string>)
    ensures Lists(keys, s) && keys == Listed(s)
  {
    var order := Collect(s);
    keys := Sort(order);
    SortsToList(order, s);
    ListsUnique(keys, Listed(s), s);
  }

  /** The loop over the sorted keys. */
  method WritePairs(b: Builder, keys: seq<string>, labels: Labels)
    requires forall k :: 0 <= k < |keys| ==> keys[k] in labels
    modifies b
    ensures b.text == old(b.text) + PairsFrom(keys, labels, 0)
  {
    hide Pair;
    ghost var start := b.text;
    for i := 0 to |keys|
      invariant b.text + PairsFrom(keys, labels, i) == start + PairsFrom(keys, labels, 0)
    {
      ghost var before := b.text;
      if i > 0 { b.Write(","); }
      var pair := Pair(keys[i], labels[keys[i]]);
      b.Write(pair);
      ghost var more := PairsFrom(keys, labels, i + 1);
      assert PairsFrom(keys, labels, i) == (if i > 0 then "," else "") + pair + more;
      assert b.text + more == before + PairsFrom(keys, labels, i);
    }
    assert b.text + "" == b.text;
  }

  /** writeMetric. */
  method WriteMetric(b: Builder, name: string, labels: Labels, value: int)
    modifies b
    ensures b.text == old(b.text) + Line(Metric(name, labels, value))
  {
    hide PairsFrom, Ending, StrictlySorted;
    ghost var start := b.text;
    b.Write(name);
    if |labels| > 0 {
      var keys := SortedKeys(labels.Keys);
      b.Write("{");
      WritePairs(b, keys, labels);
      b.Write("}");
    }
    b.Write(Ending(value));
    assert b.text == start + (name + Braced(Listed(labels.Keys), labels) + Ending(value));
  }

  function StatusMetric(name: string, queue: string, status: string, count: int): Metric {
    Metric(name, map["queue" := queue, "status" := status], count)
  }

  ghost function StatusLines(name: string, queue: string, statuses: seq<string>, counts: map<string, int>, i: nat): string
    requires i <= |statuses| && forall k :: 0 <= k < |statuses| ==> statuses[k] in counts
    decreases |statuses| - i
  {
    if i == |statuses| then ""
    else Line(StatusMetric(name, queue, statuses[i], counts[statuses[i]])) + StatusLines(name, queue, statuses, counts, i + 1)
  }

  /** writeStatusMetrics: one line a status, in order of the statuses. */
  method WriteStatusMetrics(b: Builder, name: string, queue: string, counts: map<string, int>)
    modifies b
    ensures b.text == old(b.text) + StatusLines(name, queue, Listed(counts.Keys), counts, 0)
  {
    hide Line, StrictlySorted;
    ghost var start := b.text;
    var statuses := SortedKeys(counts.Keys);
    for i := 0 to |statuses|
      invariant b.text + StatusLines(name, queue, statuses, counts, i) == start + StatusLines(name, queue, statuses, counts, 0)
    {
      var status := statuses[i];
      ghost var before := b.text;
      WriteMetric(b, name, map["queue" := queue, "status" := status], counts[status]);
      ghost var more := StatusLines(name, queue, statuses, counts, i + 1);
      assert b.text + more == before + (Line(StatusMetric(name, queue, status, counts[status])) + more);
    }
    assert b.text + "" == b.text;
  }

  /** Reads every sample of a text that has at most so many. */
  function ReadLines(s: string, most: nat): Option<seq<Metric>>
    decreases most
  {
    if s == "" then Some([])
    else if most == 0 then None
    else
      match ReadLine(s)
      case None => None
      case Some((m, rest)) =>
        match ReadLines(rest, most - 1) case None => None case Some(ms) => Some([m] + ms)
  }

  function StatusMetrics(name: string, queue: string, statuses: seq<string>, counts: map<string, int>, i: nat): seq<Metric>
    requires i <= |statuses| && forall k :: 0 <= k < |statuses| ==> statuses[k] in counts
  {
    seq(|statuses| - i, k requires 0 <= k < |statuses| - i => StatusMetric(name, queue, statuses[i + k], counts[statuses[i + k]]))
  }

  lemma {:induction false} ReadStatusLines(name: string, queue: string, statuses: seq<string>, counts: map<string, int>, i: nat)
    requires MetricName(name) && i <= |statuses| && forall k :: 0 <= k < |statuses| ==> statuses[k] in counts
    ensures ReadLines(StatusLines(name, queue, statuses, counts, i), |statuses| - i)
         == Some(StatusMetrics(name, queue, statuses, counts, i))
    decreases |statuses| - i
  {
    hide ReadLine, Line, MetricName;
    if i == |statuses| {
      assert StatusMetrics(name, queue, statuses, counts, i) == [];
    } else {
      var m := StatusMetric(name, queue, statuses[i], counts[statuses[i]]);
      var more := StatusLines(name, queue, statuses, counts, i + 1);
      LabelsAreNames();
      ReadLineBack(m, more);
      ReadStatusLines(name, queue, statuses, counts, i + 1);
      LineVisible(m);
      assert StatusMetrics(name, queue, statuses, counts, i) == [m] + StatusMetrics(name, queue, statuses, counts, i + 1);
    }
  }

  lemma LabelsAreNames()
    ensures LabelName("queue") && LabelName("status")
  {}

  lemma LineVisible(m: Metric)
    ensures Line(m) != ""
  {
    EndingStarts(m.value);
  }

  /** The status block reads back as exactly the counts: every status once, in order, whatever characters it has. */
  lemma StatusBlockReadsBack(name: string, queue: string, counts: map<string, int>)
    requires MetricName(name)
    ensures var statuses := Listed(counts.Keys);
      ReadLines(StatusLines(name, queue, statuses, counts, 0), |statuses|) == Some(StatusMetrics(name, queue, statuses, counts, 0))
  {
    ReadStatusLines(name, queue, Listed(counts.Keys), counts, 0);
  }
}
