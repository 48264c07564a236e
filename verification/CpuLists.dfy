/** CPU lists such as 0-3,8,10-11: the shell's expansion, compression and intersection
    (diagnose-lib/common.sh), the canonical test of diagnose.sh, and the range loop of
    attempt-runner.mjs. */
module CpuLists {
  import opened SortedIds
  import opened Text

  const MAX_CPU := 65535

  /** One list element: a single id, printed n, or a range, printed lo-hi. */
  datatype Element = Element(lo: nat, hi: nat)

  function ElementText(e: Element): string {
    if e.lo == e.hi then Decimal(e.lo) else Decimal(e.lo) + "-" + Decimal(e.hi)
  }

  /** The two element patterns of the scripts, over canonical numbers. */
  function ParseElement(s: string): Option<Element> {
    var fields := Split(s, '-');
    if |fields| == 1 && IsCanonical(fields[0]) then Some(Element(Value(fields[0]), Value(fields[0])))
    else if |fields| == 2 && IsCanonical(fields[0]) && IsCanonical(fields[1])
    then Some(Element(Value(fields[0]), Value(fields[1])))
    else None
  }

  predicate Without(s: string, c: char) { forall i :: 0 <= i < |s| ==> s[i] != c }

  /** Every element is read back from its text. */
  lemma ElementRoundTrip(e: Element)
    ensures ParseElement(ElementText(e)) == Some(e)
    ensures Without(ElementText(e), ',') && Without(ElementText(e), '\n') && |ElementText(e)| > 0
  {
    DecimalRoundTrip(e.lo);
    DecimalRoundTrip(e.hi);
    var lo, hi := Decimal(e.lo), Decimal(e.hi);
    if e.lo == e.hi {
      SplitJoin([lo], '-');
      assert Join([lo], '-') == lo;
    } else {
      SplitJoin([lo, hi], '-');
      assert Join([lo, hi], '-') == lo + "-" + hi;
    }
  }

  // Expansion.

  /** The first line of a text, as read takes it. */
  function FirstLine(text: string): string { Split(text, '\n')[0] }

  lemma {:induction false} FirstLineIsOne(text: string)
    ensures Without(FirstLine(text), '\n') && FirstLine(FirstLine(text)) == FirstLine(text)
  {
    if text != "" {
      FirstLineIsOne(text[1..]);
    }
    if Without(FirstLine(text), '\n') { SplitWhole(FirstLine(text), '\n'); }
  }

  function IdsFrom(lo: nat, hi: nat): seq<nat> {
    if lo > hi then [] else seq(hi - lo + 1, i requires 0 <= i => lo + i)
  }

  function ExpandElements(es: seq<Element>): seq<nat> {
    if es == [] then [] else IdsFrom(es[0].lo, es[0].hi) + ExpandElements(es[1..])
  }

  /** Elements of a list, empty ones left out; None when one does not parse. */
  function ParseAll(parts: seq<string>): Option<seq<Element>> {
    if parts == [] then Some([])
    else if parts[0] == "" then ParseAll(parts[1..])
    else match ParseElement(parts[0])
      case None => None
      case Some(e) =>
        match ParseAll(parts[1..])
        case None => None
        case Some(rest) => Some([e] + rest)
  }

  /** The numbers of one range, appended one by one. */
  method AppendRange(out: seq<nat>, e: Element) returns (r: seq<nat>)
    ensures r == out + IdsFrom(e.lo, e.hi)
  {
    r := out;
    var i := e.lo;
    while i <= e.hi
      invariant e.lo <= i && (i <= e.hi + 1 || i == e.lo)
      invariant r == out + seq(i - e.lo, k requires 0 <= k => e.lo + k)
    {
      r := r + [i];
      i := i + 1;
    }
  }

  /** diag_cpulist_expand. */
  method Expand(list: string) returns (r: Option<seq<nat>>)
    ensures r == Expanded(list)
  {
    hide ParseElement, IdsFrom;
    var parts := Split(FirstLine(list), ',');
    assert parts[0..] == parts;
    var out: seq<nat> := [];
    for i := 0 to |parts|
      invariant Expanded(list) == ExpandedOnto(out, parts[i..])
    {
      assert parts[i..][0] == parts[i] && parts[i..][1..] == parts[i + 1..];
      if parts[i] != "" {
        var parsed := ParseElement(parts[i]);
        if parsed.None? { return None; }
        ExpandedStep(out, parsed.value, parts[i + 1..]);
        out := AppendRange(out, parsed.value);
      }
    }
    assert parts[|parts|..] == [];
    assert out + ExpandElements([]) == out;
    return Some(out);
  }

  function ExpandedOnto(out: seq<nat>, parts: seq<string>): Option<seq<nat>> {
    match ParseAll(parts) case None => None case Some(es) => Some(out + ExpandElements(es))
  }

  function Expanded(list: string): Option<seq<nat>> { ExpandedOnto([], Split(FirstLine(list), ',')) }

  lemma ExpandedStep(out: seq<nat>, e: Element, rest: seq<string>)
    ensures ExpandedOnto(out + IdsFrom(e.lo, e.hi), rest) ==
            match ParseAll(rest)
            case None => None
            case Some(es) => Some(out + ExpandElements([e] + es))
  {
    hide IdsFrom, ParseElement;
    match ParseAll(rest)
    case None =>
    case Some(es) =>
      assert ([e] + es)[1..] == es;
      assert out + (IdsFrom(e.lo, e.hi) + ExpandElements(es)) == out + IdsFrom(e.lo, e.hi) + ExpandElements(es);
  }

  // Compression.

  /** The length of the run of consecutive ids at the front. */
  function RunLength(ids: seq<nat>): (n: nat)
    ensures n <= |ids| && (ids != [] ==> n > 0)
  {
    if |ids| <= 1 then |ids| else if ids[1] == ids[0] + 1 then 1 + RunLength(ids[1..]) else 1
  }

  /** The maximal runs of consecutive ids. */
  function Ranges(ids: seq<nat>): seq<Element>
    decreases |ids|
  {
    if ids == [] then []
    else
      var n := RunLength(ids);
      [Element(ids[0], ids[n - 1])] + Ranges(ids[n..])
  }

  function Texts(es: seq<Element>): (r: seq<string>)
    ensures |r| == |es|
  {
    seq(|es|, i requires 0 <= i < |es| => ElementText(es[i]))
  }

  /** The text of a list; nothing at all for no elements. */
  function Print(es: seq<Element>): string { if es == [] then "" else Join(Texts(es), ',') }

  function Compressed(ids: seq<nat>): string { Print(Ranges(ids)) }

  lemma {:induction false} RunIsConsecutive(ids: seq<nat>)
    requires ids != []
    ensures var n := RunLength(ids);
      && (forall k :: 0 <= k < n ==> ids[k] == ids[0] + k)
      && (n < |ids| ==> ids[n] != ids[n - 1] + 1)
  {
    if |ids| > 1 && ids[1] == ids[0] + 1 {
      RunIsConsecutive(ids[1..]);
      var n := RunLength(ids);
      forall k | 0 <= k < n ensures ids[k] == ids[0] + k {
        if k > 0 { assert ids[k] == ids[1..][k - 1]; }
      }
      if n < |ids| { assert ids[n] == ids[1..][n - 1] && ids[n - 1] == ids[1..][n - 2]; }
    }
  }

  lemma {:induction false} RunFrom(ids: seq<nat>, n: nat)
    requires 0 < n <= |ids| && (forall k :: 0 <= k < n ==> ids[k] == ids[0] + k)
    requires n < |ids| ==> ids[n] != ids[n - 1] + 1
    ensures RunLength(ids) == n
    decreases n
  {
    if n > 1 {
      assert ids[1] == ids[0] + 1;
      forall k | 0 <= k < n - 1 ensures ids[1..][k] == ids[1..][0] + k { assert ids[1..][k] == ids[k + 1]; }
      RunFrom(ids[1..], n - 1);
    }
  }

  lemma {:induction false} JoinAppend(fields: seq<string>, x: string, sep: char)
    requires fields != []
    ensures Join(fields + [x], sep) == Join(fields, sep) + [sep] + x
    decreases |fields|
  {
    var all := fields + [x];
    assert all[0] == fields[0] && all[1..] == fields[1..] + [x];
    if |fields| == 1 {
      assert all[1..] == [x];
    } else {
      JoinAppend(fields[1..], x, sep);
      var rest := Join(fields[1..], sep);
      assert fields[0] + [sep] + (rest + [sep] + x) == (fields[0] + [sep] + rest) + [sep] + x;
    }
  }

  /** emit_range: what is printed so far, with one more element. */
  function Emit(printed: string, first: bool, e: Element): string {
    printed + (if first then "" else ",") + ElementText(e)
  }

  lemma EmitJoins(done: seq<Element>, e: Element)
    ensures Emit(Print(done), done == [], e) == Print(done + [e])
  {
    hide ElementText;
    assert Texts(done + [e]) == Texts(done) + [ElementText(e)];
    if done == [] {
      assert Texts(done + [e]) == [ElementText(e)];
      assert "" + "" + ElementText(e) == ElementText(e);
    } else {
      JoinAppend(Texts(done), ElementText(e), ',');
    }
  }

  ghost predicate InRun(ids: seq<nat>, from: nat, end: nat) {
    from < end <= |ids| && forall k :: from <= k < end ==> ids[k] == ids[from] + (k - from)
  }

  lemma RunEnds(ids: seq<nat>, from: nat, end: nat)
    requires from < end <= |ids| && InRun(ids, from, end) && (end < |ids| ==> ids[end] != ids[end - 1] + 1)
    ensures Ranges(ids[from..]) == [Element(ids[from], ids[end - 1])] + Ranges(ids[end..])
  {
    hide RunLength, Ranges;
    var rest, n := ids[from..], end - from;
    forall k | 0 <= k < n ensures rest[k] == rest[0] + k { assert rest[k] == ids[from + k]; }
    RunFrom(rest, n);
    assert rest[n..] == ids[end..];
    RangesStep(rest, n);
  }

  lemma RangesStep(ids: seq<nat>, n: nat)
    requires ids != [] && RunLength(ids) == n
    ensures Ranges(ids) == [Element(ids[0], ids[n - 1])] + Ranges(ids[n..])
  {
    hide RunLength;
  }

  /** The elements found before position from. */
  ghost predicate Found(ids: seq<nat>, done: seq<Element>, from: nat) {
    from <= |ids| && Ranges(ids) == done + Ranges(ids[from..])
  }

  lemma FoundNothing(ids: seq<nat>)
    ensures Found(ids, [], 0)
  {
    hide Ranges;
    assert ids[0..] == ids;
    assert [] + Ranges(ids) == Ranges(ids);
  }

  lemma FoundMore(ids: seq<nat>, done: seq<Element>, from: nat, end: nat)
    requires from < end <= |ids| && Found(ids, done, from) && InRun(ids, from, end)
    requires end < |ids| ==> ids[end] != ids[end - 1] + 1
    ensures Found(ids, done + [Element(ids[from], ids[end - 1])], end)
  {
    hide Ranges, InRun;
    RunEnds(ids, from, end);
    var e := Element(ids[from], ids[end - 1]);
    assert done + ([e] + Ranges(ids[end..])) == (done + [e]) + Ranges(ids[end..]);
  }

  lemma FoundAll(ids: seq<nat>, done: seq<Element>)
    requires Found(ids, done, |ids|)
    ensures Ranges(ids) == done
  {
    assert ids[|ids|..] == [];
  }

  lemma PrintedNothing()
    ensures Print([]) == "" && Texts([]) == []
  {
  }

  /** diag_cpulist_compress, on ids in any order. */
  method Compress(cpus: seq<nat>) returns (printed: string)
    ensures printed == Compressed(cpus)
  {
    hide RunLength, Emit, Print, Ranges, Found;
    PrintedNothing();
    printed := "";
    FoundNothing(cpus);
    ghost var done: seq<Element> := [];
    if cpus == [] {
      FoundAll(cpus, done);
      return;
    }
    var start, prev, first := cpus[0], cpus[0], true;
    ghost var from: nat := 0;
    for i := 1 to |cpus|
      invariant InRun(cpus, from, i) && start == cpus[from] && prev == cpus[i - 1]
      invariant Found(cpus, done, from) && printed == Print(done) && (first <==> done == [])
    {
      var c := cpus[i];
      if c == prev + 1 {
        prev := c;
      } else {
        FoundMore(cpus, done, from, i);
        EmitJoins(done, Element(start, prev));
        printed := Emit(printed, first, Element(start, prev));
        done, from, first := done + [Element(start, prev)], i, false;
        start, prev := c, c;
      }
    }
    FoundMore(cpus, done, from, |cpus|);
    EmitJoins(done, Element(start, prev));
    printed := Emit(printed, first, Element(start, prev));
    FoundAll(cpus, done + [Element(start, prev)]);
  }

  lemma AddToken(done: seq<Element>, e: Element)
    ensures Texts(done + [e]) == Texts(done) + [ElementText(e)]
  {
    hide ElementText;
  }

  /** The tokens of validateCpuAffinity. */
  method RangeTokens(cpus: seq<nat>) returns (tokens: seq<string>)
    ensures tokens == Texts(Ranges(cpus))
  {
    hide RunLength, Texts, Ranges, Found;
    PrintedNothing();
    tokens := [];
    ghost var done: seq<Element> := [];
    FoundNothing(cpus);
    var first := 0;
    while first < |cpus|
      invariant first <= |cpus| && tokens == Texts(done) && Found(cpus, done, first)
    {
      var last := first;
      while last + 1 < |cpus| && cpus[last + 1] == cpus[last] + 1
        invariant InRun(cpus, first, last + 1)
      {
        last := last + 1;
      }
      FoundMore(cpus, done, first, last + 1);
      AddToken(done, Element(cpus[first], cpus[last]));
      SingleIsShort(cpus, first, last);
      var token := if first == last then Decimal(cpus[first]) else Decimal(cpus[first]) + "-" + Decimal(cpus[last]);
      tokens := tokens + [token];
      done := done + [Element(cpus[first], cpus[last])];
      first := last + 1;
    }
    FoundAll(cpus, done);
  }

  lemma SingleIsShort(ids: seq<nat>, first: nat, last: nat)
    requires first <= last < |ids| && InRun(ids, first, last + 1)
    ensures first == last <==> ids[first] == ids[last]
  {
  }

  const MAX_LIST_BYTES := 65536

  lemma RangesNonempty(ids: seq<nat>)
    ensures Ranges(ids) == [] <==> ids == []
  {
  }

  predicate AllWithin(ids: seq<nat>) { forall i :: 0 <= i < |ids| ==> ids[i] <= MAX_CPU }

  /** The numbers of a list already checked to hold none below zero. */
  function AsIds(cpus: seq<int>): seq<nat> {
    seq(|cpus|, i requires 0 <= i < |cpus| => if cpus[i] < 0 then 0 else cpus[i])
  }

  /** The cpus branch of validateCpuAffinity: the text it passes on is the shell's. */
  method ValidateCpus(cpus: seq<int>) returns (r: Option<string>)
    ensures r.Some? <==>
              && 0 < |cpus| <= MAX_CPU + 1 && (forall i :: 0 <= i < |cpus| ==> 0 <= cpus[i] <= MAX_CPU)
              && (forall i :: 0 < i < |cpus| ==> cpus[i - 1] < cpus[i])
              && |Compressed(AsIds(cpus))| <= MAX_LIST_BYTES
    ensures r.Some? ==> r.value == Compressed(AsIds(cpus))
  {
    if |cpus| == 0 || |cpus| > MAX_CPU + 1 { return None; }
    for index := 0 to |cpus|
      invariant forall i :: 0 <= i < index ==> 0 <= cpus[i] <= MAX_CPU
      invariant forall i :: 0 < i < index ==> cpus[i - 1] < cpus[i]
    {
      if cpus[index] < 0 || cpus[index] > MAX_CPU { return None; }
      if index > 0 && cpus[index] <= cpus[index - 1] { return None; }
    }
    var ids := AsIds(cpus);
    var tokens := RangeTokens(ids);
    RangesNonempty(ids);
    var list := Join(tokens, ',');
    if |list| > MAX_LIST_BYTES { return None; }
    return Some(list);
  }

  // The two are inverse.

  /** Elements that are exactly the maximal runs of increasing ids. */
  ghost predicate AreRuns(es: seq<Element>) {
    && (forall i :: 0 <= i < |es| ==> es[i].lo <= es[i].hi <= MAX_CPU)
    && (forall i :: 0 < i < |es| ==> es[i - 1].hi + 1 < es[i].lo)
  }

  lemma ExpandCons(e: Element, es: seq<Element>)
    ensures ExpandElements([e] + es) == IdsFrom(e.lo, e.hi) + ExpandElements(es)
  {
    hide IdsFrom;
    assert ([e] + es)[1..] == es;
  }

  lemma IdsOfRun(ids: seq<nat>, n: nat)
    requires 0 < n <= |ids| && forall k :: 0 <= k < n ==> ids[k] == ids[0] + k
    ensures IdsFrom(ids[0], ids[n - 1]) == ids[..n]
  {
    assert ids[n - 1] == ids[0] + (n - 1);
  }

  lemma {:induction false} ExpandRanges(ids: seq<nat>)
    ensures ExpandElements(Ranges(ids)) == ids
    decreases |ids|
  {
    hide RunLength, IdsFrom;
    if ids != [] {
      var n := RunLength(ids);
      RunIsConsecutive(ids);
      ExpandRanges(ids[n..]);
      ExpandCons(Element(ids[0], ids[n - 1]), Ranges(ids[n..]));
      IdsOfRun(ids, n);
      assert ids[..n] + ids[n..] == ids;
    }
  }

  lemma {:induction false} RangesAreRuns(ids: seq<nat>)
    requires Increasing(ids) && AllWithin(ids)
    ensures AreRuns(Ranges(ids)) && (ids != [] ==> Ranges(ids) != [] && Ranges(ids)[0].lo == ids[0])
    decreases |ids|
  {
    hide RunLength;
    if ids != [] {
      var n := RunLength(ids);
      RunIsConsecutive(ids);
      var rest := Ranges(ids[n..]);
      RangesAreRuns(ids[n..]);
      assert n < |ids| ==> ids[n..][0] == ids[n];
      assert Ranges(ids) == [Element(ids[0], ids[n - 1])] + rest;
    }
  }

  lemma IdsFromIncrease(e: Element, tail: seq<nat>)
    requires e.lo <= e.hi <= MAX_CPU && Increasing(tail) && AllWithin(tail) && (tail != [] ==> tail[0] > e.hi + 1)
    ensures var ids := IdsFrom(e.lo, e.hi) + tail;
      && Increasing(ids) && AllWithin(ids) && ids[0] == e.lo && RunLength(ids) == e.hi - e.lo + 1
      && ids[e.hi - e.lo] == e.hi && ids[e.hi - e.lo + 1..] == tail
  {
    var n := e.hi - e.lo + 1;
    var ids := IdsFrom(e.lo, e.hi) + tail;
    assert forall k :: 0 <= k < n ==> ids[k] == e.lo + k;
    assert forall k :: n <= k < |ids| ==> ids[k] == tail[k - n] && ids[k] > e.hi + 1;
    RunFrom(ids, n);
    assert ids[n..] == tail;
  }

  lemma {:induction false} RunsAreRanges(es: seq<Element>)
    requires AreRuns(es)
    ensures var ids := ExpandElements(es);
      && Increasing(ids) && AllWithin(ids) && Ranges(ids) == es
      && (es != [] ==> ids != [] && ids[0] == es[0].lo)
      && (es == [] ==> ids == [])
  {
    hide RunLength, IdsFrom, Increasing, AllWithin, Ranges, AreRuns;
    if es == [] {
      NothingRanges();
    } else {
      var e, rest := es[0], es[1..];
      RunsSplit(es);
      RunsAreRanges(rest);
      RunsStep(e, rest, ExpandElements(rest));
      assert es == [e] + rest;
    }
  }

  lemma NothingRanges()
    ensures Increasing([]) && AllWithin([]) && Ranges([]) == []
  {
  }

  lemma RunsSplit(es: seq<Element>)
    requires AreRuns(es) && es != []
    ensures es[0].lo <= es[0].hi <= MAX_CPU && AreRuns(es[1..]) && (es[1..] != [] ==> es[1..][0].lo > es[0].hi + 1)
  {
  }

  lemma RunsStep(e: Element, rest: seq<Element>, tail: seq<nat>)
    requires e.lo <= e.hi <= MAX_CPU && Increasing(tail) && AllWithin(tail) && (tail != [] ==> tail[0] > e.hi + 1)
    requires Ranges(tail) == rest
    ensures var ids := IdsFrom(e.lo, e.hi) + tail;
      Increasing(ids) && AllWithin(ids) && Ranges(ids) == [e] + rest && ids != [] && ids[0] == e.lo
  {
    hide RunLength, Increasing, AllWithin, Ranges;
    IdsFromIncrease(e, tail);
    RangesStep(IdsFrom(e.lo, e.hi) + tail, e.hi - e.lo + 1);
  }

  lemma {:induction false} ParseTexts(es: seq<Element>)
    ensures ParseAll(Texts(es)) == Some(es)
  {
    hide ParseElement, ElementText;
    if es != [] {
      ElementRoundTrip(es[0]);
      ParseTexts(es[1..]);
      assert Texts(es) == [ElementText(es[0])] + Texts(es[1..]);
      assert Texts(es)[1..] == Texts(es[1..]);
      assert [es[0]] + es[1..] == es;
    }
  }

  /** Splitting a compressed text gives back its elements. */
  lemma SplitTexts(es: seq<Element>)
    requires es != []
    ensures Split(Print(es), ',') == Texts(es)
  {
    forall i | 0 <= i < |es| ensures Without(Texts(es)[i], ',') { ElementRoundTrip(es[i]); }
    SplitJoin(Texts(es), ',');
  }

  lemma {:induction false} PrintIsOneLine(es: seq<Element>)
    ensures Without(Print(es), '\n') && FirstLine(Print(es)) == Print(es)
  {
    hide ElementText, Split;
    if es == [] {
    } else if |es| == 1 {
      ElementRoundTrip(es[0]);
      assert Texts(es) == [ElementText(es[0])];
    } else {
      ElementRoundTrip(es[0]);
      PrintIsOneLine(es[1..]);
      assert Texts(es)[1..] == Texts(es[1..]);
      var rest := Print(es[1..]);
      assert Print(es) == ElementText(es[0]) + "," + rest;
      forall i | 0 <= i < |Print(es)| ensures Print(es)[i] != '\n' {
        var n := |ElementText(es[0])|;
        if i > n { assert Print(es)[i] == rest[i - n - 1]; }
      }
    }
    SplitWhole(Print(es), '\n');
  }

  /** Expanding what compression printed gives the ids back. */
  lemma ExpandUndoesCompress(ids: seq<nat>)
    ensures Expanded(Compressed(ids)) == Some(ids)
  {
    hide ParseElement, RunLength, ElementText;
    ExpandRanges(ids);
    var es := Ranges(ids);
    RangesNonempty(ids);
    PrintIsOneLine(es);
    if ids == [] {
      assert Split("", ',') == [""];
      assert ParseAll([""]) == Some([]);
    } else {
      SplitTexts(es);
      ParseTexts(es);
      assert [] + ids == ids;
    }
  }

  // The canonical test. The shell computes in 64 bits: a number wraps around.

  const WORD := 0x1_0000_0000_0000_0000
  const HALF := 0x8000_0000_0000_0000

  /** A digit string's value in the shell's arithmetic. */
  function Wrapped(n: nat): int {
    if n % WORD < HALF then n % WORD else n % WORD - WORD
  }

  predicate Congruent(n: nat, w: int) { (n - w) % WORD == 0 }

  lemma WrappedIff(n: nat, w: int)
    ensures Wrapped(n) == w <==> -HALF <= w < HALF && Congruent(n, w)
  {
    assert Congruent(n, Wrapped(n)) by { WrappedIsCongruent(n); }
    if Congruent(n, w) && -HALF <= w < HALF { OneRepresentative(n, w, Wrapped(n)); }
  }

  lemma WrappedIsCongruent(n: nat)
    ensures Congruent(n, Wrapped(n)) && -HALF <= Wrapped(n) < HALF
  {
    assert n == WORD * (n / WORD) + n % WORD;
    if n % WORD < HALF { MultipleOf(n / WORD); } else { MultipleOf(n / WORD + 1); }
  }

  lemma MultipleOf(k: int)
    ensures (WORD * k) % WORD == 0
  {
  }

  lemma OneRepresentative(n: nat, v: int, w: int)
    requires -HALF <= v < HALF && -HALF <= w < HALF && Congruent(n, v) && Congruent(n, w)
    ensures v == w
  {
    assert n - v == WORD * ((n - v) / WORD) && n - w == WORD * ((n - w) / WORD);
    assert w - v == WORD * ((n - v) / WORD - (n - w) / WORD);
  }

  lemma SmallIsItself(n: nat)
    requires n < HALF
    ensures Wrapped(n) == n
  {
  }

  /** The element's pattern, whose second number is not 0, and the two comparisons. */
  predicate CanonicalElement(part: string) {
    match ParseElement(part)
    case None => false
    case Some(e) => Wrapped(e.hi) <= MAX_CPU && ('-' in part ==> e.hi != 0 && Wrapped(e.lo) < Wrapped(e.hi))
  }

  /** The bounds of a field that parses, as the shell compares them. */
  function First(part: string): int { match ParseElement(part) case None => 0 case Some(e) => Wrapped(e.lo) }
  function Last(part: string): int { match ParseElement(part) case None => 0 case Some(e) => Wrapped(e.hi) }

  /** read -ra with IFS=',': the comma-separated fields, but for one empty field at the end. */
  function ShellFields(line: string): seq<string> {
    var fields := Split(line, ',');
    if fields[|fields| - 1] == "" then fields[..|fields| - 1] else fields
  }

  /** individual_cpulist_is_canonical. */
  method IsCanonicalList(list: string) returns (r: bool)
    ensures r <==> IsAccepted(list)
  {
    hide ParseElement, Wrapped;
    if list == "" { return false; }
    var parts := ShellFields(FirstLine(list));
    var previous, first := -1, true;
    for i := 0 to |parts|
      invariant CanonicalFields(parts[..i]) && (first <==> i == 0)
      invariant i > 0 ==> previous == Last(parts[i - 1])
    {
      FieldsStep(parts, i);
      if !CanonicalElement(parts[i]) { return false; }
      if !first && First(parts[i]) <= previous + 1 { return false; }
      first, previous := false, Last(parts[i]);
    }
    assert parts[..|parts|] == parts;
    return true;
  }

  ghost predicate IsAccepted(list: string) { list != "" && CanonicalFields(ShellFields(FirstLine(list))) }

  /** Every field passes, and starts beyond the end of the one before it, with a gap. */
  ghost predicate CanonicalFields(parts: seq<string>) {
    && (forall i :: 0 <= i < |parts| ==> CanonicalElement(parts[i]))
    && (forall i :: 0 < i < |parts| ==> Last(parts[i - 1]) + 1 < First(parts[i]))
  }

  lemma FieldsStep(parts: seq<string>, i: nat)
    requires i < |parts| && CanonicalFields(parts[..i])
    ensures CanonicalFields(parts[..i + 1]) <==>
              CanonicalElement(parts[i]) && (i > 0 ==> Last(parts[i - 1]) + 1 < First(parts[i]))
    ensures CanonicalFields(parts) ==> CanonicalFields(parts[..i + 1])
  {
    hide CanonicalElement, First, Last;
    var front, all := parts[..i], parts[..i + 1];
    assert forall k :: 0 <= k < i ==> front[k] == parts[k] && all[k] == parts[k];
    assert all[i] == parts[i];
  }

  /** A range of 64-bit integers. */
  datatype Span = Span(lo: int, hi: int)

  ghost predicate AreSpans(spans: seq<Span>) {
    && (forall i :: 0 <= i < |spans| ==> -HALF <= spans[i].lo <= spans[i].hi <= MAX_CPU)
    && (forall i :: 0 < i < |spans| ==> spans[i - 1].hi + 1 < spans[i].lo)
  }

  /** A field that is one number, or two with a dash, that stand for the ends modulo 2^64. */
  ghost predicate Spells(part: string, span: Span) {
    || (span.lo == span.hi && exists n :: SpellsOne(part, span, n))
    || (span.lo < span.hi && exists m, n :: SpellsTwo(part, span, m, n))
  }

  predicate SpellsOne(part: string, span: Span, n: nat) { part == Decimal(n) && Congruent(n, span.hi) }

  predicate SpellsTwo(part: string, span: Span, m: nat, n: nat) {
    part == Decimal(m) + "-" + Decimal(n) && n > 0 && Congruent(m, span.lo) && Congruent(n, span.hi)
  }

  lemma DashedParts(part: string)
    requires ParseElement(part).Some?
    ensures var e := ParseElement(part).value;
      if '-' in part then part == Decimal(e.lo) + "-" + Decimal(e.hi) else part == Decimal(e.hi) && e.lo == e.hi
  {
    var fields := Split(part, '-');
    JoinSplit(part, '-');
    ValueRoundTrip(fields[0]);
    if |fields| == 2 {
      ValueRoundTrip(fields[1]);
      assert Join(fields, '-') == fields[0] + "-" + fields[1];
      assert part[|fields[0]|] == '-';
    }
  }

  lemma OneParses(n: nat)
    ensures ParseElement(Decimal(n)) == Some(Element(n, n)) && '-' !in Decimal(n)
  {
    DecimalRoundTrip(n);
    SplitJoin([Decimal(n)], '-');
    assert Join([Decimal(n)], '-') == Decimal(n);
  }

  lemma TwoParse(m: nat, n: nat)
    ensures var part := Decimal(m) + "-" + Decimal(n); ParseElement(part) == Some(Element(m, n)) && '-' in part
  {
    DecimalRoundTrip(m);
    DecimalRoundTrip(n);
    var fields := [Decimal(m), Decimal(n)];
    SplitJoin(fields, '-');
    assert Join(fields, '-') == Decimal(m) + "-" + Decimal(n);
    assert (Decimal(m) + "-" + Decimal(n))[|Decimal(m)|] == '-';
  }

  /** A field passes exactly when it spells a span in range. */
  lemma CanonicalElementIff(part: string, span: Span)
    ensures CanonicalElement(part) && span == Span(First(part), Last(part)) <==>
              -HALF <= span.lo <= span.hi <= MAX_CPU && Spells(part, span)
  {
    hide ParseElement, Wrapped, Congruent;
    if CanonicalElement(part) && span == Span(First(part), Last(part)) {
      var e := ParseElement(part).value;
      DashedParts(part);
      WrappedIff(e.lo, span.lo);
      WrappedIff(e.hi, span.hi);
      if '-' in part { assert SpellsTwo(part, span, e.lo, e.hi); } else { assert SpellsOne(part, span, e.hi); }
    }
    if -HALF <= span.lo <= span.hi <= MAX_CPU && Spells(part, span) {
      if span.lo == span.hi {
        var n :| SpellsOne(part, span, n);
        OneParses(n);
        WrappedIff(n, span.hi);
      } else {
        var m, n :| SpellsTwo(part, span, m, n);
        TwoParse(m, n);
        WrappedIff(m, span.lo);
        WrappedIff(n, span.hi);
      }
    }
  }

  ghost predicate SpellSpans(parts: seq<string>) {
    exists spans: seq<Span> :: AreSpans(spans) && |spans| == |parts|
                               && forall i :: 0 <= i < |parts| ==> Spells(parts[i], spans[i])
  }

  /** The fields that pass spell separated spans in range, modulo 2^64. */
  lemma CanonicalFieldsIff(parts: seq<string>)
    ensures CanonicalFields(parts) <==> SpellSpans(parts)
  {
    hide CanonicalElement, First, Last, Spells;
    if CanonicalFields(parts) {
      var spans := seq(|parts|, i requires 0 <= i < |parts| => Span(First(parts[i]), Last(parts[i])));
      forall i | 0 <= i < |parts|
        ensures -HALF <= spans[i].lo <= spans[i].hi <= MAX_CPU && Spells(parts[i], spans[i])
      {
        CanonicalElementIff(parts[i], spans[i]);
      }
      assert AreSpans(spans);
    }
    forall spans: seq<Span> | |spans| == |parts| && AreSpans(spans)
                              && forall i :: 0 <= i < |parts| ==> Spells(parts[i], spans[i])
      ensures CanonicalFields(parts)
    {
      forall i | 0 <= i < |parts|
        ensures CanonicalElement(parts[i]) && First(parts[i]) == spans[i].lo && Last(parts[i]) == spans[i].hi
      {
        CanonicalElementIff(parts[i], spans[i]);
      }
    }
  }

  /** Every number of a field that parses is below 2^63: nothing wraps. */
  predicate Fits(part: string) {
    match ParseElement(part) case None => true case Some(e) => e.lo < HALF && e.hi < HALF
  }

  lemma FittingText(part: string)
    requires CanonicalElement(part) && Fits(part)
    ensures var e := ParseElement(part).value;
      e.lo <= e.hi <= MAX_CPU && ElementText(e) == part && First(part) == e.lo && Last(part) == e.hi
  {
    DashedParts(part);
    SmallIsItself(ParseElement(part).value.lo);
    SmallIsItself(ParseElement(part).value.hi);
    hide ParseElement, Wrapped;
  }

  lemma TextIsCanonical(e: Element)
    requires e.lo <= e.hi <= MAX_CPU
    ensures CanonicalElement(ElementText(e)) && Fits(ElementText(e)) && ParseElement(ElementText(e)) == Some(e)
    ensures First(ElementText(e)) == e.lo && Last(ElementText(e)) == e.hi
  {
    ElementRoundTrip(e);
    OneParses(e.lo);
    SmallIsItself(e.lo);
    SmallIsItself(e.hi);
    hide ParseElement, Wrapped;
  }

  /** Among fields that fit, those that pass are the texts of maximal runs. */
  lemma FittingFieldsIff(parts: seq<string>)
    ensures CanonicalFields(parts) && (forall i :: 0 <= i < |parts| ==> Fits(parts[i])) <==>
              exists es :: AreRuns(es) && parts == Texts(es)
  {
    hide ParseElement, ElementText, CanonicalElement, Fits, First, Last;
    if CanonicalFields(parts) && (forall i :: 0 <= i < |parts| ==> Fits(parts[i])) {
      FieldsParse(parts);
      var es := seq(|parts|, i requires 0 <= i < |parts| => ParseElement(parts[i]).value);
      forall i | 0 <= i < |es|
        ensures es[i].lo <= es[i].hi <= MAX_CPU && Texts(es)[i] == parts[i]
        ensures First(parts[i]) == es[i].lo && Last(parts[i]) == es[i].hi
      {
        FittingText(parts[i]);
      }
      assert Texts(es) == parts;
      assert AreRuns(es);
    }
    forall es: seq<Element> | AreRuns(es) && parts == Texts(es)
      ensures CanonicalFields(parts) && forall i :: 0 <= i < |parts| ==> Fits(parts[i])
    {
      forall i | 0 <= i < |parts|
        ensures CanonicalElement(parts[i]) && Fits(parts[i])
        ensures First(parts[i]) == es[i].lo && Last(parts[i]) == es[i].hi
      {
        TextIsCanonical(es[i]);
      }
    }
  }

  lemma FieldsParse(parts: seq<string>)
    requires CanonicalFields(parts)
    ensures forall i :: 0 <= i < |parts| ==> ParseElement(parts[i]).Some?
  {
    hide ParseElement, Wrapped;
  }

  /** A line without one comma at its end. */
  function Trimmed(line: string): string {
    if line != "" && line[|line| - 1] == ',' then line[..|line| - 1] else line
  }

  lemma SplitCons(c: char, s: string)
    ensures Split([c] + s, ',') == if c == ',' then [""] + Split(s, ',')
                                   else [[c] + Split(s, ',')[0]] + Split(s, ',')[1..]
  {
    assert ([c] + s)[1..] == s;
  }

  lemma {:induction false} SplitTrailing(s: string)
    ensures Split(s + ",", ',') == Split(s, ',') + [""]
  {
    hide Split;
    if s == "" {
      SplitWhole("", ',');
      SplitCons(',', "");
      assert s + "," == [','] + "";
    } else {
      var rest := Split(s[1..], ',');
      SplitTrailing(s[1..]);
      SplitCons(s[0], s[1..]);
      SplitCons(s[0], s[1..] + ",");
      assert s == [s[0]] + s[1..] && s + "," == [s[0]] + (s[1..] + ",");
      assert (rest + [""])[0] == rest[0] && (rest + [""])[1..] == rest[1..] + [""];
    }
  }

  lemma {:induction false} LastFieldIsFull(s: string)
    requires s != "" && s[|s| - 1] != ','
    ensures var fields := Split(s, ','); fields[|fields| - 1] != ""
  {
    SplitCons(s[0], s[1..]);
    assert s == [s[0]] + s[1..];
    if |s| > 1 {
      assert s[1..][|s| - 2] == s[|s| - 1];
      LastFieldIsFull(s[1..]);
    }
  }

  lemma {:induction false} ParseTrailing(parts: seq<string>)
    ensures ParseAll(parts + [""]) == ParseAll(parts)
  {
    hide ParseElement;
    var all := parts + [""];
    if parts == [] {
      assert all[1..] == [];
    } else {
      ParseTrailing(parts[1..]);
      assert all[0] == parts[0] && all[1..] == parts[1..] + [""];
    }
  }

  /** What the shell's fields are, and that expansion takes the same elements. */
  lemma ShellFieldsAre(line: string)
    requires line != ""
    ensures ShellFields(line) == Split(Trimmed(line), ',')
    ensures ParseAll(Split(line, ',')) == ParseAll(Split(Trimmed(line), ','))
  {
    var t := Trimmed(line);
    if line[|line| - 1] == ',' {
      assert line == t + ",";
      SplitTrailing(t);
      ParseTrailing(Split(t, ','));
      var fields := Split(line, ',');
      assert fields[..|fields| - 1] == Split(t, ',');
    } else {
      LastFieldIsFull(line);
    }
  }

  /** What compression prints for the increasing ids that the line expands to, but for one
      comma at its end. */
  ghost predicate IsCompression(line: string) {
    && Trimmed(line) != "" && Expanded(line).Some?
    && Increasing(Expanded(line).value) && AllWithin(Expanded(line).value)
    && Compressed(Expanded(line).value) == Trimmed(line)
  }

  predicate LineFits(line: string) {
    var fields := Split(Trimmed(line), ','); forall i :: 0 <= i < |fields| ==> Fits(fields[i])
  }

  lemma CompressionIff(line: string)
    requires line != "" && FirstLine(line) == line
    ensures IsCompression(line) <==> CanonicalFields(Split(Trimmed(line), ',')) && LineFits(line)
  {
    hide ParseElement, AreRuns, CanonicalFields, Increasing, AllWithin, Ranges, Fits, FirstLine;
    ShellFieldsAre(line);
    var t := Trimmed(line);
    var fields := Split(t, ',');
    FittingFieldsIff(fields);
    if CanonicalFields(fields) && LineFits(line) {
      var es :| AreRuns(es) && fields == Texts(es);
      RunsAreExpanded(line, t, es);
    }
    if IsCompression(line) {
      var es := Ranges(Expanded(line).value);
      RangesAreRuns(Expanded(line).value);
      assert es != [];
      SplitTexts(es);
    }
  }

  /** Exactly what is accepted: a non-empty text whose first line is empty, or is a compression,
      or spells separated spans in range with a number that wraps. */
  lemma AcceptedIff(list: string)
    ensures IsAccepted(list) <==>
              && list != ""
              && var line := FirstLine(list);
                 || line == "" || IsCompression(line) || (!LineFits(line) && SpellSpans(Split(Trimmed(line), ',')))
    ensures IsAccepted(list) && FirstLine(list) != "" ==>
              (IsCompression(FirstLine(list)) <==> LineFits(FirstLine(list)))
  {
    var line := FirstLine(list);
    FirstLineIsOne(list);
    CanonicalFieldsIff(Split(Trimmed(line), ','));
    hide CanonicalFields, IsCompression, LineFits, SpellSpans;
    if line == "" {
      assert ShellFields(line) == [] by { assert Split("", ',') == [""]; }
      NoFieldsPass();
    } else {
      ShellFieldsAre(line);
      CompressionIff(line);
    }
  }

  lemma NoFieldsPass()
    ensures CanonicalFields([])
  {
  }

  lemma RunsAreExpanded(line: string, t: string, es: seq<Element>)
    requires AreRuns(es) && Split(t, ',') == Texts(es)
    requires ParseAll(Split(line, ',')) == ParseAll(Split(t, ',')) && FirstLine(line) == line
    ensures t != "" && Expanded(line).Some? && Increasing(Expanded(line).value) && AllWithin(Expanded(line).value)
    ensures Compressed(Expanded(line).value) == t
  {
    hide ParseElement, AreRuns, Increasing, AllWithin, Ranges, ElementText, FirstLine;
    ParseTexts(es);
    RunsAreRanges(es);
    assert [] + ExpandElements(es) == ExpandElements(es);
    JoinSplit(t, ',');
    assert t == Print(es);
    ElementRoundTrip(es[0]);
    assert Texts(es)[0] == ElementText(es[0]);
  }

  /** The round trip alone does not make a list canonical: it must be increasing too. */
  lemma UnsortedComesBack()
    ensures Expanded("5,3") == Some([5, 3]) && Compressed([5, 3]) == "5,3"
    ensures !IsAccepted("5,3")
  {
    var es := [Element(5, 5), Element(3, 3)];
    assert Decimal(5) == "5" && Decimal(3) == "3";
    assert Texts(es) == ["5", "3"];
    hide ParseElement, Texts, Split;
    SplitTexts(es);
    assert Print(es) == "5,3" by { assert Texts(es)[1..] == ["3"]; }
    ParseTexts(es);
    assert ExpandElements(es) == [5, 3] by {
      assert es[1..] == [Element(3, 3)] && ExpandElements(es[1..][1..]) == [];
      assert IdsFrom(5, 5) == [5] && IdsFrom(3, 3) == [3];
    }
    assert [] + [5, 3] == [5, 3];
    assert Ranges([5, 3]) == es by {
      assert [5, 3][1..] == [3] && [3][1..] == [];
      assert Ranges([3]) == [Element(3, 3)];
    }
    SplitWhole("5,3", '\n');
    assert ShellFields("5,3") == Texts(es);
    FallingIsNotCanonical();
  }

  lemma FallingIsNotCanonical()
    ensures !CanonicalFields(Texts([Element(5, 5), Element(3, 3)]))
  {
    var texts := Texts([Element(5, 5), Element(3, 3)]);
    TextIsCanonical(Element(5, 5));
    TextIsCanonical(Element(3, 3));
    hide ElementText, First, Last, CanonicalElement;
    assert texts[0] == ElementText(Element(5, 5)) && texts[1] == ElementText(Element(3, 3));
  }

  /** A number beyond 64 bits passes as what it wraps to, alone and as the end of a range:
      18446744073709551621 passes as 5, and 3-18446744073709551621 as 3-5. */
  lemma WrappedNumbersPass(wraps: nat, lo: nat, cpu: nat)
    requires wraps > 0 && lo < cpu <= MAX_CPU
    ensures var part := Decimal(WORD * wraps + cpu); IsAccepted(part) && !LineFits(part) && !IsCompression(part)
    ensures var part := Decimal(lo) + "-" + Decimal(WORD * wraps + cpu);
      IsAccepted(part) && !LineFits(part) && !IsCompression(part)
  {
    hide ParseElement, Decimal, IsAccepted, LineFits, IsCompression;
    var n := WORD * wraps + cpu;
    assert n >= HALF && Wrapped(n) == cpu && Wrapped(lo) == lo;
    OneParses(n);
    TwoParse(lo, n);
    OneFieldPasses(Decimal(n));
    OneFieldPasses(Decimal(lo) + "-" + Decimal(n));
  }

  lemma OneFieldPasses(part: string)
    requires CanonicalElement(part) && !Fits(part) && Without(part, ',') && Without(part, '\n') && part != ""
    ensures IsAccepted(part) && !LineFits(part) && !IsCompression(part)
  {
    hide CanonicalElement, Fits, IsCompression, Split;
    SplitWhole(part, '\n');
    SplitWhole(part, ',');
    assert Trimmed(part) == part;
    assert CanonicalFields([part]);
    AcceptedIff(part);
  }

  // Intersection.

  /** What a reader of diag_cpulist_expand's output sees: nothing, when the list does not parse. */
  function Ids(list: string): seq<nat> { match Expanded(list) case Some(ids) => ids case None => [] }

  /** diag_cpulist_intersect. */
  method Intersect(left: string, right: string) returns (r: string)
    ensures Expanded(r).Some? && Increasing(Expanded(r).value) && r == Compressed(Expanded(r).value)
    ensures forall cpu :: cpu in Expanded(r).value <==> cpu in Ids(left) && cpu in Ids(right)
  {
    hide Expanded, Compressed, SortUnique;
    var permitted: set<nat> := {};
    var out := Expand(right);
    var ids := match out case Some(ids) => ids case None => [];
    for i := 0 to |ids|
      invariant forall c :: c in permitted <==> c in ids[..i]
    {
      permitted := permitted + {ids[i]};
      assert ids[..i + 1] == ids[..i] + [ids[i]];
    }
    assert ids[..|ids|] == ids && ids == Ids(right);
    out := Expand(left);
    ids := match out case Some(ids) => ids case None => [];
    var overlap: seq<nat> := [];
    for i := 0 to |ids|
      invariant forall c :: c in overlap <==> c in ids[..i] && c in permitted
    {
      if ids[i] in permitted { overlap := overlap + [ids[i]]; }
      assert ids[..i + 1] == ids[..i] + [ids[i]];
    }
    assert ids[..|ids|] == ids && ids == Ids(left);
    SortUniqueSorts(overlap);
    ExpandUndoesCompress(SortUnique(overlap));
    r := Compress(SortUnique(overlap));
  }

  /** diag_cpulist_contains. */
  method ListContains(list: string, wanted: nat) returns (found: bool)
    ensures found <==> wanted in Ids(list)
  {
    hide Expanded;
    var out := Expand(list);
    var ids := match out case Some(ids) => ids case None => [];
    for i := 0 to |ids|
      invariant wanted !in ids[..i]
    {
      if ids[i] == wanted { return true; }
    }
    assert ids[..|ids|] == ids;
    return false;
  }
}
