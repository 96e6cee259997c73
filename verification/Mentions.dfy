/** Finding `@Name` mentions against a list of names, and splitting a text at
    them. Texts are sequences of UTF-16 code units, as in the source. */
module Mentions {
  newtype CodeUnit = c: int | 0 <= c < 0x1_0000

  type Text = seq<CodeUnit>

  datatype Span = Span(start: nat, end: nat)

  datatype Mention = Mention(name: Text, start: nat, end: nat)

  const AT: CodeUnit := 0x40

  /** The class `\s`. */
  predicate IsSpace(c: CodeUnit) {
    || 0x09 <= c <= 0x0D || c == 0x20 || c == 0xA0 || c == 0x1680 || 0x2000 <= c <= 0x200A
    || c == 0x2028 || c == 0x2029 || c == 0x202F || c == 0x205F || c == 0x3000 || c == 0xFEFF
  }

  /** White space or one of `. , ! ? ; :`. */
  predicate IsStop(c: CodeUnit) {
    IsSpace(c) || c in [0x2E, 0x2C, 0x21, 0x3F, 0x3B, 0x3A]
  }

  predicate StartsAt(text: Text, i: nat) {
    i < |text| && text[i] == AT && (i == 0 || IsSpace(text[i - 1]))
  }

  /** `name` stands right after position `i`, up to a boundary. */
  predicate FitsAt(text: Text, i: nat, name: Text) {
    var end := i + 1 + |name|;
    end <= |text| && text[i + 1..end] == name && (end == |text| || IsStop(text[end]))
  }

  /** The white space and the stops, character by character. */
  lemma {:induction false} Characters(c: CodeUnit)
    ensures c < 0x80 ==> (IsSpace(c) <==> InText(c, " \t\n\r\U{000B}\U{000C}"))
    ensures c >= 0x80 ==> (IsSpace(c) <==>
              (0x2000 <= c <= 0x200A
               || InText(c, "\U{A0}\U{1680}\U{2028}\U{2029}\U{202F}\U{205F}\U{3000}\U{FEFF}")))
    ensures IsStop(c) <==> IsSpace(c) || InText(c, ".,!?;:")
  {
  }

  predicate InText(c: CodeUnit, s: string) {
    !(0xD800 <= c < 0xE000) && c as int as char in s
  }

  /** A mention starts with an `@` at the start of the text or after white space,
      and its name stands there, letter by letter, up to the end or a stop. */
  lemma {:induction false} StartsAndFits(text: Text, i: nat, name: Text)
    ensures StartsAt(text, i) <==> i < |text| && text[i] as int == '@' as int && (i == 0 || IsSpace(text[i - 1]))
    ensures FitsAt(text, i, name)
       <==> i + |name| < |text| && (forall j :: 0 <= j < |name| ==> name[j] == text[i + 1 + j])
            && (i + 1 + |name| == |text| || IsStop(text[i + 1 + |name|]))
  {
    if i + |name| < |text| {
      var cut := text[i + 1..i + 1 + |name|];
      assert forall j :: 0 <= j < |cut| ==> cut[j] == text[i + 1 + j];
    }
  }

  // ----- What a list of mentions must be -----

  ghost predicate Candidate(text: Text, names: seq<Text>, i: nat) {
    StartsAt(text, i) && exists name :: name in names && FitsAt(text, i, name)
  }

  /** `name` is a longest listed name that fits at `i`. */
  ghost predicate Longest(text: Text, names: seq<Text>, i: nat, name: Text) {
    && name in names && FitsAt(text, i, name)
    && forall other :: other in names && FitsAt(text, i, other) ==> |other| <= |name|
  }

  ghost predicate Covered(out: seq<Mention>, i: nat) {
    exists k :: 0 <= k < |out| && out[k].start <= i < out[k].end
  }

  ghost predicate WellPlaced(text: Text, names: seq<Text>, out: seq<Mention>) {
    && (forall k :: 0 <= k < |out| ==>
          StartsAt(text, out[k].start) && Longest(text, names, out[k].start, out[k].name)
          && out[k].end == out[k].start + 1 + |out[k].name|)
    && (forall j, k :: 0 <= j < k < |out| ==> out[j].end <= out[k].start)
  }

  /** Leftmost-longest: bounded, ordered and disjoint mentions, each of a
      longest name, and no candidate left outside them. */
  ghost predicate LeftmostLongest(text: Text, names: seq<Text>, out: seq<Mention>) {
    WellPlaced(text, names, out) && forall i: nat :: Candidate(text, names, i) ==> Covered(out, i)
  }

  lemma {:induction false} LongestUnique(text: Text, names: seq<Text>, i: nat, a: Text, b: Text)
    requires Longest(text, names, i, a) && Longest(text, names, i, b)
    ensures a == b
  {
    assert |a| == |b|;
    assert a == text[i + 1..i + 1 + |a|] == b;
  }

  /** What the description says of places alone. */
  ghost predicate Placed(starts: iset<nat>, out: seq<Mention>) {
    && (forall k :: 0 <= k < |out| ==> out[k].start in starts && out[k].start < out[k].end)
    && (forall j, k :: 0 <= j < k < |out| ==> out[j].end <= out[k].start)
    && (forall i: nat :: i in starts ==> Covered(out, i))
  }

  ghost function Candidates(text: Text, names: seq<Text>): iset<nat> {
    iset i: nat | Candidate(text, names, i)
  }

  lemma {:induction false} DescriptionPlaces(text: Text, names: seq<Text>, out: seq<Mention>)
    requires LeftmostLongest(text, names, out)
    ensures Placed(Candidates(text, names), out)
  {
    forall k | 0 <= k < |out|
      ensures out[k].start in Candidates(text, names)
    {
      assert Longest(text, names, out[k].start, out[k].name);
    }
  }

  ghost predicate Agree(a: seq<Mention>, b: seq<Mention>, k: nat) {
    k <= |a| && k <= |b| && forall j :: 0 <= j < k ==> a[j] == b[j]
  }

  /** The next mention after `k` equal ones starts no later. */
  lemma {:induction false} NextNotLater(starts: iset<nat>, a: seq<Mention>, b: seq<Mention>, k: nat)
    requires Placed(starts, a) && Placed(starts, b) && Agree(a, b, k) && k < |a|
    ensures k < |b| && b[k].start <= a[k].start
  {
    assert Covered(b, a[k].start);
    var j :| 0 <= j < |b| && b[j].start <= a[k].start < b[j].end;
    StartsInOrder(starts, b);
    if j < k { EndsBefore(starts, a, b, k, j); }
  }

  lemma {:induction false} StartsInOrder(starts: iset<nat>, b: seq<Mention>)
    requires Placed(starts, b)
    ensures forall i, j :: 0 <= i <= j < |b| ==> b[i].start <= b[j].start
  {
  }

  lemma {:induction false} EndsBefore(starts: iset<nat>, a: seq<Mention>, b: seq<Mention>, k: nat, j: nat)
    requires Placed(starts, a) && Agree(a, b, k) && j < k < |a|
    ensures b[j].end <= a[k].start
  {
  }

  lemma {:induction false} MentionUnique(text: Text, names: seq<Text>, a: Mention, b: Mention)
    requires Longest(text, names, a.start, a.name) && Longest(text, names, b.start, b.name) && a.start == b.start
    requires a.end == a.start + 1 + |a.name| && b.end == b.start + 1 + |b.name|
    ensures a == b
  {
    LongestUnique(text, names, a.start, a.name, b.name);
  }

  lemma {:induction false} AgreeOnNext(text: Text, names: seq<Text>, a: seq<Mention>, b: seq<Mention>, k: nat)
    requires LeftmostLongest(text, names, a) && LeftmostLongest(text, names, b) && Agree(a, b, k)
    requires k < |a| && k < |b| && a[k].start == b[k].start
    ensures Agree(a, b, k + 1)
  {
    MentionUnique(text, names, a[k], b[k]);
  }

  lemma {:induction false} AgreeThroughout(text: Text, names: seq<Text>, starts: iset<nat>, a: seq<Mention>,
                                          b: seq<Mention>, k: nat)
    requires LeftmostLongest(text, names, a) && LeftmostLongest(text, names, b) && Agree(a, b, k)
    requires Placed(starts, a) && Placed(starts, b)
    ensures a == b
    decreases |a| - k
  {
    if k < |a| {
      NextNotLater(starts, a, b, k);
      NextNotLater(starts, b, a, k);
      AgreeOnNext(text, names, a, b, k);
      AgreeThroughout(text, names, starts, a, b, k + 1);
    } else if k < |b| {
      NextNotLater(starts, b, a, k);
    }
  }

  /** The description determines the list. */
  lemma {:induction false} LeftmostLongestUnique(text: Text, names: seq<Text>, a: seq<Mention>, b: seq<Mention>)
    requires LeftmostLongest(text, names, a) && LeftmostLongest(text, names, b)
    ensures a == b
  {
    DescriptionPlaces(text, names, a);
    DescriptionPlaces(text, names, b);
    AgreeThroughout(text, names, Candidates(text, names), a, b, 0);
  }

  // ----- The scanner -----

  /** Stable insertion by falling length. */
  function InsertByLength(name: Text, sorted: seq<Text>): (r: seq<Text>)
    ensures multiset(r) == multiset(sorted) + multiset{name}
  {
    if sorted == [] || |name| >= |sorted[0]| then [name] + sorted
    else
      assert sorted == [sorted[0]] + sorted[1..];
      [sorted[0]] + InsertByLength(name, sorted[1..])
  }

  function LongestFirst(names: seq<Text>): (r: seq<Text>)
    ensures multiset(r) == multiset(names)
  {
    if names == [] then []
    else
      assert names == [names[0]] + names[1..];
      InsertByLength(names[0], LongestFirst(names[1..]))
  }

  ghost predicate Descending(names: seq<Text>) {
    forall i, j :: 0 <= i < j < |names| ==> |names[i]| >= |names[j]|
  }

  lemma {:induction false} InsertDescending(name: Text, sorted: seq<Text>)
    requires Descending(sorted)
    ensures Descending(InsertByLength(name, sorted))
  {
    if sorted != [] && |name| < |sorted[0]| {
      InsertDescending(name, sorted[1..]);
      var r := InsertByLength(name, sorted[1..]);
      forall x | x in r
        ensures |x| <= |sorted[0]|
      {
        assert x in multiset(r);
        assert x in sorted[1..] || x == name;
      }
    }
  }

  lemma {:induction false} LongestFirstDescending(names: seq<Text>)
    ensures Descending(LongestFirst(names))
    ensures forall x :: x in LongestFirst(names) <==> x in names
  {
    if names != [] {
      LongestFirstDescending(names[1..]);
      InsertDescending(names[0], LongestFirst(names[1..]));
    }
    forall x
      ensures x in LongestFirst(names) <==> x in names
    {
      assert x in multiset(LongestFirst(names)) <==> x in multiset(names);
    }
  }

  method FindNamedMentions(text: Text, names: seq<Text>) returns (out: seq<Mention>)
    ensures LeftmostLongest(text, names, out)
  {
    if text == [] || names == [] {
      return [];
    }
    var sorted := LongestFirst(names);
    LongestFirstDescending(names);
    out := [];
    var i := 0;
    while i < |text|
      invariant 0 <= i && FoundUpTo(text, names, out, i)
    {
      var n := |sorted|;
      if text[i] == AT && (i == 0 || IsSpace(text[i - 1])) {
        n := FirstFit(text, i, sorted);
      }
      if n < |sorted| {
        var name := sorted[n];
        FirstFitIsLongest(text, names, sorted, i, n);
        Extend(text, names, out, i, name);
        out := out + [Mention(name, i, i + 1 + |name|)];
        i := i + 1 + |name|;
      } else {
        Skip(text, names, sorted, out, i);
        i := i + 1;
      }
    }
  }

  /** Index of the first name that fits, or the number of names. */
  method FirstFit(text: Text, i: nat, sorted: seq<Text>) returns (n: nat)
    ensures n <= |sorted| && (n < |sorted| ==> FitsAt(text, i, sorted[n]))
    ensures forall m :: 0 <= m < n ==> !FitsAt(text, i, sorted[m])
  {
    n := 0;
    while n < |sorted|
      invariant n <= |sorted| && forall m :: 0 <= m < n ==> !FitsAt(text, i, sorted[m])
    {
      if FitsAt(text, i, sorted[n]) {
        break;
      }
      n := n + 1;
    }
  }

  /** What the scan has found before position `i`. */
  ghost predicate FoundUpTo(text: Text, names: seq<Text>, out: seq<Mention>, i: nat) {
    && WellPlaced(text, names, out)
    && (forall k :: 0 <= k < |out| ==> out[k].end <= i)
    && (forall p: nat :: p < i && Candidate(text, names, p) ==> Covered(out, p))
  }

  lemma {:induction false} Extend(text: Text, names: seq<Text>, out: seq<Mention>, i: nat, name: Text)
    requires FoundUpTo(text, names, out, i) && StartsAt(text, i) && Longest(text, names, i, name)
    ensures FoundUpTo(text, names, out + [Mention(name, i, i + 1 + |name|)], i + 1 + |name|)
  {
    var m := Mention(name, i, i + 1 + |name|);
    forall p: nat | p < i + 1 + |name| && Candidate(text, names, p)
      ensures Covered(out + [m], p)
    {
      CoveredMore(out, m, p);
    }
  }

  lemma {:induction false} ExtendBy(text: Text, names: seq<Text>, out: seq<Mention>, i: nat, m: Mention)
    requires FoundUpTo(text, names, out, i) && StartsAt(text, i) && Longest(text, names, i, m.name)
    requires m == Mention(m.name, i, i + 1 + |m.name|)
    ensures FoundUpTo(text, names, out + [m], m.end)
  {
    Extend(text, names, out, i, m.name);
  }

  lemma {:induction false} FirstFitIsLongest(text: Text, names: seq<Text>, sorted: seq<Text>, i: nat, n: nat)
    requires Descending(sorted) && (forall x :: x in sorted <==> x in names)
    requires n < |sorted| && FitsAt(text, i, sorted[n]) && forall m :: 0 <= m < n ==> !FitsAt(text, i, sorted[m])
    ensures Longest(text, names, i, sorted[n])
  {
    forall other | other in names && FitsAt(text, i, other)
      ensures |other| <= |sorted[n]|
    {
      assert other in sorted;
      var m :| 0 <= m < |sorted| && sorted[m] == other;
    }
  }

  lemma {:induction false} CoveredMore(out: seq<Mention>, m: Mention, p: nat)
    ensures Covered(out, p) || m.start <= p < m.end ==> Covered(out + [m], p)
  {
    if Covered(out, p) {
      var k :| 0 <= k < |out| && out[k].start <= p < out[k].end;
      assert (out + [m])[k] == out[k];
    } else {
      assert (out + [m])[|out|] == m;
    }
  }

  /** The same scan as a function, for statements about whole trees. */
  function FindFrom(text: Text, sorted: seq<Text>, i: nat): seq<Mention>
    decreases |text| - i
  {
    if i >= |text| then []
    else
      var n := if StartsAt(text, i) then FirstFitIndex(text, i, sorted, 0) else |sorted|;
      if n < |sorted| then
        var end := i + 1 + |sorted[n]|;
        [Mention(sorted[n], i, end)] + FindFrom(text, sorted, end)
      else FindFrom(text, sorted, i + 1)
  }

  function FirstFitIndex(text: Text, i: nat, sorted: seq<Text>, n: nat): (r: nat)
    requires n <= |sorted|
    ensures n <= r <= |sorted| && (r < |sorted| ==> FitsAt(text, i, sorted[r]))
    ensures forall m :: n <= m < r ==> !FitsAt(text, i, sorted[m])
    decreases |sorted| - n
  {
    if n == |sorted| || FitsAt(text, i, sorted[n]) then n else FirstFitIndex(text, i, sorted, n + 1)
  }

  lemma {:induction false} Skip(text: Text, names: seq<Text>, sorted: seq<Text>, out: seq<Mention>, i: nat)
    requires FoundUpTo(text, names, out, i) && (forall x :: x in sorted <==> x in names)
    requires StartsAt(text, i) ==> forall m :: 0 <= m < |sorted| ==> !FitsAt(text, i, sorted[m])
    ensures FoundUpTo(text, names, out, i + 1)
  {
    forall name | name in names
      ensures !(StartsAt(text, i) && FitsAt(text, i, name))
    {
      assert name in sorted;
    }
    assert !Candidate(text, names, i);
  }

  lemma {:induction false} ScanDone(text: Text, names: seq<Text>, out: seq<Mention>, i: nat)
    requires FoundUpTo(text, names, out, i) && i >= |text|
    ensures LeftmostLongest(text, names, out)
  {
    assert forall p: nat :: Candidate(text, names, p) ==> p < i;
  }

  lemma {:induction false} ConsAssoc<T>(a: seq<T>, x: T, b: seq<T>)
    ensures a + ([x] + b) == (a + [x]) + b
  {
  }

  lemma {:induction false} FindFromFound(text: Text, sorted: seq<Text>, i: nat, n: nat)
    requires StartsAt(text, i) && n == FirstFitIndex(text, i, sorted, 0) < |sorted|
    ensures var m := Mention(sorted[n], i, i + 1 + |sorted[n]|);
      FindFrom(text, sorted, i) == [m] + FindFrom(text, sorted, m.end)
  {
    hide FitsAt, IsSpace, FirstFitIndex;
  }

  /** One mention found: the scan goes on after it. */
  lemma {:induction false} FindOne(text: Text, sorted: seq<Text>, out: seq<Mention>, i: nat, n: nat, all: seq<Mention>)
    requires StartsAt(text, i) && n == FirstFitIndex(text, i, sorted, 0) < |sorted|
             && all == out + FindFrom(text, sorted, i)
    ensures var m := Mention(sorted[n], i, i + 1 + |sorted[n]|); all == (out + [m]) + FindFrom(text, sorted, m.end)
  {
    var m := Mention(sorted[n], i, i + 1 + |sorted[n]|);
    FindFromFound(text, sorted, i, n);
    ConsAssoc(out, m, FindFrom(text, sorted, m.end));
  }

  lemma {:induction false} FindFromCompletes(text: Text, names: seq<Text>, sorted: seq<Text>, out: seq<Mention>, i: nat,
                                             all: seq<Mention>)
    requires FoundUpTo(text, names, out, i) && Descending(sorted) && (forall x :: x in sorted <==> x in names)
    requires all == out + FindFrom(text, sorted, i)
    ensures LeftmostLongest(text, names, all)
    decreases |text| - i
  {
    if i >= |text| {
      ScanDone(text, names, out, i);
      assert all == out;
    } else {
      var n := if StartsAt(text, i) then FirstFitIndex(text, i, sorted, 0) else |sorted|;
      if n < |sorted| {
        var m := Mention(sorted[n], i, i + 1 + |sorted[n]|);
        FirstFitIsLongest(text, names, sorted, i, n);
        ExtendBy(text, names, out, i, m);
        FindOne(text, sorted, out, i, n, all);
        FindFromCompletes(text, names, sorted, out + [m], m.end, all);
      } else {
        Skip(text, names, sorted, out, i);
        FindFromCompletes(text, names, sorted, out, i + 1, all);
      }
    }
  }

  function NamedMentions(text: Text, names: seq<Text>): seq<Mention> {
    FindFrom(text, LongestFirst(names), 0)
  }

  lemma {:induction false} NamedMentionsAreLeftmostLongest(text: Text, names: seq<Text>)
    ensures LeftmostLongest(text, names, NamedMentions(text, names))
    ensures forall out :: LeftmostLongest(text, names, out) ==> out == NamedMentions(text, names)
  {
    LongestFirstDescending(names);
    FindFromCompletes(text, names, LongestFirst(names), [], 0, NamedMentions(text, names));
    forall out | LeftmostLongest(text, names, out)
      ensures out == NamedMentions(text, names)
    {
      LeftmostLongestUnique(text, names, out, NamedMentions(text, names));
    }
  }

  // ----- Splitting a text -----

  datatype Part = Plain(value: Text) | Tag(text: Text)

  /** Ordered, disjoint, non-empty spans between `from` and `n`. */
  predicate SpansIn(spans: seq<Span>, from: nat, n: nat) {
    if spans == [] then from <= n
    else from <= spans[0].start < spans[0].end && SpansIn(spans[1..], spans[0].end, n)
  }

  predicate ValidSpans(spans: seq<Span>, n: nat) {
    SpansIn(spans, 0, n)
  }

  lemma {:induction false} SpansInBounds(spans: seq<Span>, from: nat, n: nat)
    requires SpansIn(spans, from, n)
    ensures from <= n && (spans != [] ==> spans[0].end <= n)
  {
    if spans != [] { SpansInBounds(spans[1..], spans[0].end, n); }
  }

  function SpansOfMentions(ms: seq<Mention>): seq<Span> {
    if ms == [] then [] else [Span(ms[0].start, ms[0].end)] + SpansOfMentions(ms[1..])
  }

  lemma {:induction false} MentionsGiveSpans(text: Text, names: seq<Text>, ms: seq<Mention>, from: nat)
    requires WellPlaced(text, names, ms) && from <= |text| && (ms != [] ==> from <= ms[0].start)
    ensures SpansIn(SpansOfMentions(ms), from, |text|)
  {
    if ms != [] {
      assert Longest(text, names, ms[0].start, ms[0].name);
      var rest := ms[1..];
      assert forall k :: 0 <= k < |rest| ==> rest[k] == ms[k + 1];
      assert |ms| > 1 ==> ms[0].end <= ms[1].start;
      MentionsGiveSpans(text, names, rest, ms[0].end);
    }
  }

  function SplitFrom(value: Text, spans: seq<Span>, last: nat): seq<Part>
    requires SpansIn(spans, last, |value|)
    decreases |spans|
  {
    if spans == [] then if last < |value| then [Plain(value[last..])] else []
    else
      SpansInBounds(spans, last, |value|);
      (if spans[0].start > last then [Plain(value[last..spans[0].start])] else [])
      + ([Tag(value[spans[0].start..spans[0].end])] + SplitFrom(value, spans[1..], spans[0].end))
  }

  function Split(value: Text, spans: seq<Span>): seq<Part>
    requires ValidSpans(spans, |value|)
  {
    if spans == [] then [Plain(value)] else SplitFrom(value, spans, 0)
  }

  lemma {:induction false} Append3(a: seq<Part>, b: seq<Part>, c: Part, d: seq<Part>)
    ensures a + (b + ([c] + d)) == ((a + b) + [c]) + d && (b == [] ==> a + b == a)
  {
  }

  /** One span of the loop: the text before it, if any, and the tag. */
  lemma {:induction false} SplitStep(value: Text, spans: seq<Span>, i: nat, last: nat, out: seq<Part>)
    requires i < |spans| && SpansIn(spans[i..], last, |value|)
    ensures var start, end := spans[i].start, spans[i].end;
      && last <= start <= end <= |value| && SpansIn(spans[i + 1..], end, |value|)
      && out + SplitFrom(value, spans[i..], last)
         == ((if start > last then out + [Plain(value[last..start])] else out) + [Tag(value[start..end])])
             + SplitFrom(value, spans[i + 1..], end)
  {
    var start, end := spans[i].start, spans[i].end;
    SpansInBounds(spans[i..], last, |value|);
    assert spans[i..][0] == spans[i] && spans[i..][1..] == spans[i + 1..];
    Append3(out, if start > last then [Plain(value[last..start])]
                 else [], Tag(value[start..end]), SplitFrom(value, spans[i + 1..], end));
  }

  method SplitMentionNodes(value: Text, spans: seq<Span>) returns (out: seq<Part>)
    requires ValidSpans(spans, |value|)
    ensures out == Split(value, spans)
  {
    if |spans| == 0 {
      return [Plain(value)];
    }
    out := [];
    var last := 0;
    for i := 0 to |spans|
      invariant SpansIn(spans[i..], last, |value|)
      invariant out + SplitFrom(value, spans[i..], last) == SplitFrom(value, spans, 0)
    {
      var start, end := spans[i].start, spans[i].end;
      SplitStep(value, spans, i, last, out);
      if start > last {
        out := out + [Plain(value[last..start])];
      }
      out := out + [Tag(value[start..end])];
      last := end;
    }
    SpansInBounds(spans[|spans|..], last, |value|);
    if last < |value| {
      out := out + [Plain(value[last..])];
    }
  }

  function TextOf(p: Part): Text {
    match p case Plain(v) => v case Tag(t) => t
  }

  function Concat(parts: seq<Part>): Text {
    if parts == [] then [] else TextOf(parts[0]) + Concat(parts[1..])
  }

  /** Where the tags of a split text stand. */
  function TagSpans(parts: seq<Part>, offset: nat): seq<Span> {
    if parts == [] then []
    else
      var next := offset + |TextOf(parts[0])|;
      (if parts[0].Tag? then [Span(offset, next)] else []) + TagSpans(parts[1..], next)
  }

  lemma {:induction false} ConsFacts(p: Part, parts: seq<Part>, offset: nat)
    ensures Concat([p] + parts) == TextOf(p) + Concat(parts)
    ensures TagSpans([p] + parts, offset)
         == (if p.Tag? then [Span(offset, offset + |TextOf(p)|)] else []) + TagSpans(parts, offset + |TextOf(p)|)
  {
    assert ([p] + parts)[1..] == parts;
  }

  /** What precedes the next tag, in front of parts that start with it. */
  lemma {:induction false} LeadFacts(value: Text, last: nat, start: nat, parts: seq<Part>)
    requires last <= start <= |value| && Concat(parts) == value[start..]
    ensures var all := (if start > last then [Plain(value[last..start])] else []) + parts;
      Concat(all) == value[last..] && TagSpans(all, last) == TagSpans(parts, start)
  {
    if start > last {
      ConsFacts(Plain(value[last..start]), parts, last);
      assert value[last..] == value[last..start] + value[start..];
    } else {
      assert [] + parts == parts;
    }
  }

  lemma {:induction false} TagFacts(value: Text, s: Span, parts: seq<Part>)
    requires s.start < s.end <= |value| && Concat(parts) == value[s.end..]
    ensures var all := [Tag(value[s.start..s.end])] + parts;
      Concat(all) == value[s.start..] && TagSpans(all, s.start) == [s] + TagSpans(parts, s.end)
  {
    ConsFacts(Tag(value[s.start..s.end]), parts, s.start);
    assert value[s.start..] == value[s.start..s.end] + value[s.end..];
  }

  lemma {:induction false} SplitFromFacts(value: Text, spans: seq<Span>, last: nat)
    requires last <= |value| && SpansIn(spans, last, |value|)
    ensures Concat(SplitFrom(value, spans, last)) == value[last..]
    ensures TagSpans(SplitFrom(value, spans, last), last) == spans
    decreases |spans|
  {
    if spans == [] {
      LeadFacts(value, last, |value|, []);
      if last < |value| { assert [Plain(value[last..])] + [] == [Plain(value[last..])]
          && value[last..|value|] == value[last..]; }
    } else {
      var s := spans[0];
      SpansInBounds(spans, last, |value|);
      var rest := SplitFrom(value, spans[1..], s.end);
      SplitFromFacts(value, spans[1..], s.end);
      TagFacts(value, s, rest);
      LeadFacts(value, last, s.start, [Tag(value[s.start..s.end])] + rest);
      assert spans == [s] + spans[1..];
    }
  }

  lemma {:induction false} PartsNotEmpty(value: Text, spans: seq<Span>, last: nat)
    requires last <= |value| && SpansIn(spans, last, |value|)
    ensures forall p :: p in SplitFrom(value, spans, last) ==> TextOf(p) != []
    decreases |spans|
  {
    SpansInBounds(spans, last, |value|);
    if spans != [] { PartsNotEmpty(value, spans[1..], spans[0].end); }
  }

  /** Round trip: the parts concatenate to the text, their tags stand exactly
      at the spans, and none is empty unless the text is. */
  lemma {:induction false} SplitRoundTrip(value: Text, spans: seq<Span>)
    requires ValidSpans(spans, |value|)
    ensures var parts := Split(value, spans);
      Concat(parts) == value && TagSpans(parts, 0) == spans
          && (value != [] ==> forall p :: p in parts ==> TextOf(p) != [])
  {
    if spans == [] {
      ConsFacts(Plain(value), [], 0);
      assert [Plain(value)] + [] == [Plain(value)];
    } else {
      SplitFromFacts(value, spans, 0);
      PartsNotEmpty(value, spans, 0);
      assert value[0..] == value;
    }
  }

  /** Exactly when there is one part: no mention, or one that is the whole text. */
  lemma {:induction false} SplitIntoOne(value: Text, spans: seq<Span>)
    requires ValidSpans(spans, |value|)
    ensures |Split(value, spans)| >= 1
    ensures |Split(value, spans)| == 1 <==> spans == [] || spans == [Span(0, |value|)]
  {
    if spans != [] {
      SpansInBounds(spans, 0, |value|);
      var s := spans[0];
      var rest := SplitFrom(value, spans[1..], s.end);
      assert |Split(value, spans)| == (if s.start > 0 then 1 else 0) + 1 + |rest|;
      assert |rest| == 0 <==> |spans| == 1 && s.end == |value|;
    }
  }

  // ----- Match modes -----

  /** Named mentions when there are names; otherwise the `@word` expression,
      of which only the spans it finds matter here. */
  datatype Mode = Named(names: seq<Text>) | Legacy(find: Text -> seq<Span>)

  function SpansFor(mode: Mode, value: Text): seq<Span> {
    match mode
    case Named(names) => SpansOfMentions(NamedMentions(value, names))
    case Legacy(find) => find(value)
  }

  ghost predicate GoodMode(mode: Mode) {
    forall value :: ValidSpans(SpansFor(mode, value), |value|)
  }

  lemma {:induction false} NamedModeIsGood(names: seq<Text>)
    ensures GoodMode(Named(names))
  {
    forall value
      ensures ValidSpans(SpansFor(Named(names), value), |value|)
    {
      NamedMentionsAreLeftmostLongest(value, names);
      MentionsGiveSpans(value, names, NamedMentions(value, names), 0);
    }
  }

  lemma {:induction false} SpansOfMentionsAre(ms: seq<Mention>)
    ensures |SpansOfMentions(ms)| == |ms|
    ensures forall k :: 0 <= k < |ms| ==> SpansOfMentions(ms)[k] == Span(ms[k].start, ms[k].end)
  {
    if ms != [] { SpansOfMentionsAre(ms[1..]); }
  }

  /** With names, the tags of a split text stand just where its leftmost-longest
      mentions do. */
  lemma {:induction false} TagsAreTheMentions(value: Text, names: seq<Text>, ms: seq<Mention>)
    requires LeftmostLongest(value, names, ms)
    ensures var spans := SpansFor(Named(names), value);
      && ValidSpans(spans, |value|) && TagSpans(Split(value, spans), 0) == spans && |spans| == |ms|
      && forall k :: 0 <= k < |ms| ==> spans[k] == Span(ms[k].start, ms[k].end)
  {
    NamedModeIsGood(names);
    NamedMentionsAreLeftmostLongest(value, names);
    SpansOfMentionsAre(ms);
    SplitRoundTrip(value, SpansFor(Named(names), value));
  }

  /** `splitMentionNodes` in either mode. */
  method Parts(value: Text, mode: Mode) returns (out: seq<Part>)
    requires GoodMode(mode)
    ensures out == Split(value, SpansFor(mode, value))
  {
    var spans;
    match mode {
      case Named(names) =>
        var ms := FindNamedMentions(value, names);
        NamedMentionsAreLeftmostLongest(value, names);
        spans := SpansOfMentions(ms);
      case Legacy(find) =>
        spans := find(value);
    }
    out := SplitMentionNodes(value, spans);
  }
}
