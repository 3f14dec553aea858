/**
 Line sets as text, such as "3,7-9": the printer and the parser of two packages that exchange
 them.
 */
module LineRanges {
  import opened Wrappers

  // ----- numbers -----

  predicate IsDigit(c: char) { '0' <= c <= '9' }

  function DigitChar(d: nat): char
    requires d < 10
  {
    '0' + d as char
  }

  function DigitValue(c: char): nat
    requires IsDigit(c)
  {
    (c - '0') as nat
  }

  function Decimal(n: nat): (s: string)
    ensures |s| > 0 && forall i :: 0 <= i < |s| ==> IsDigit(s[i])
  {
    if n < 10 then [DigitChar(n)] else Decimal(n / 10) + [DigitChar(n % 10)]
  }

  function Print(n: int): string {
    if n < 0 then "-" + Decimal(-n) else Decimal(n)
  }

  predicate IsSpace(c: char) {
    c == ' ' || '\t' <= c <= '\r' || '\U{1C}' <= c <= '\U{1F}'
  }

  function StripLeft(s: string): string {
    if s != "" && IsSpace(s[0]) then StripLeft(s[1..]) else s
  }

  function StripRight(s: string): string {
    if s != "" && IsSpace(s[|s| - 1]) then StripRight(s[..|s| - 1]) else s
  }

  function Strip(s: string): string {
    StripRight(StripLeft(s))
  }

  /** Digits, with single underscores allowed between them. */
  function ParseDigits(s: string): Option<nat> {
    if s == "" || !IsDigit(s[|s| - 1]) then None
    else
      var last, init := DigitValue(s[|s| - 1]), s[..|s| - 1];
      if init == "" then Some(last)
      else match ParseDigits(if init[|init| - 1] == '_' then init[..|init| - 1] else init)
        case None => None
        case Some(high) => Some(10 * high + last)
  }

  /** Python's int() of a string, restricted to ASCII digits. */
  function ParseInt(text: string): Option<int> {
    var s := Strip(text);
    if s == "" then None
    else if s[0] == '+' then ToInt(ParseDigits(s[1..]), 1)
    else if s[0] == '-' then ToInt(ParseDigits(s[1..]), -1)
    else ToInt(ParseDigits(s), 1)
  }

  function ToInt(n: Option<nat>, sign: int): Option<int> {
    match n case None => None case Some(v) => Some(sign * v)
  }

  lemma DigitRoundTrip(d: nat)
    requires d < 10
    ensures IsDigit(DigitChar(d)) && DigitValue(DigitChar(d)) == d
  {
  }

  lemma {:induction false} DecimalRoundTrip(n: nat)
    ensures ParseDigits(Decimal(n)) == Some(n)
  {
    if n < 10 {
      DigitRoundTrip(n);
      assert Decimal(n)[..0] == "";
    } else {
      DecimalRoundTrip(n / 10);
      DigitRoundTrip(n % 10);
      var s := Decimal(n);
      assert s[..|s| - 1] == Decimal(n / 10);
    }
  }

  lemma NoSpaceNoStrip(s: string)
    requires s != "" && !IsSpace(s[0]) && !IsSpace(s[|s| - 1])
    ensures Strip(s) == s
  {
  }

  lemma IntRoundTrip(n: nat)
    ensures ParseInt(Decimal(n)) == Some(n)
  {
    var s := Decimal(n);
    assert IsDigit(s[0]) && IsDigit(s[|s| - 1]);
    NoSpaceNoStrip(s);
    DecimalRoundTrip(n);
  }

  // ----- splitting and joining -----

  function Split(s: string, sep: char): (parts: seq<string>)
    ensures |parts| > 0
  {
    if s == "" then [""]
    else
      var parts := Split(s[1..], sep);
      if s[0] == sep then [""] + parts else [[s[0]] + parts[0]] + parts[1..]
  }

  function Join(parts: seq<string>, sep: char): string {
    if parts == [] then "" else if |parts| == 1 then parts[0] else parts[0] + [sep] + Join(parts[1..], sep)
  }

  lemma {:induction false} SplitAfter(s: string, rest: string, sep: char)
    requires sep !in s
    ensures Split(s + [sep] + rest, sep) == [s] + Split(rest, sep)
    decreases |s|
  {
    var all := s + [sep] + rest;
    if s == "" {
      assert all[1..] == rest;
    } else {
      SplitAfter(s[1..], rest, sep);
      assert all[1..] == s[1..] + [sep] + rest;
      assert all[0] == s[0] && [s[0]] + s[1..] == s;
    }
  }

  lemma {:induction false} SplitNone(s: string, sep: char)
    requires sep !in s
    ensures Split(s, sep) == [s]
    decreases |s|
  {
    if s != "" {
      SplitNone(s[1..], sep);
      assert [s[0]] + s[1..] == s;
    }
  }

  lemma {:induction false} SplitJoin(parts: seq<string>, sep: char)
    requires |parts| > 0 && forall i :: 0 <= i < |parts| ==> sep !in parts[i]
    ensures Split(Join(parts, sep), sep) == parts
    decreases |parts|
  {
    if |parts| == 1 {
      SplitNone(parts[0], sep);
    } else {
      SplitJoin(parts[1..], sep);
      SplitAfter(parts[0], Join(parts[1..], sep), sep);
    }
  }

  /** The text before and after the first dash. */
  function SplitDash(s: string): (string, string)
    requires '-' in s
  {
    if s[0] == '-' then ("", s[1..])
    else var (a, b) := SplitDash(s[1..]); ([s[0]] + a, b)
  }

  lemma {:induction false} SplitDashAfter(a: string, b: string)
    requires '-' !in a
    ensures '-' in a + "-" + b && SplitDash(a + "-" + b) == (a, b)
    decreases |a|
  {
    var all := a + "-" + b;
    assert all[|a|] == '-';
    if a == "" {
      assert all[1..] == b;
    } else {
      SplitDashAfter(a[1..], b);
      assert all[1..] == a[1..] + "-" + b;
      assert all[0] == a[0] && [a[0]] + a[1..] == a;
    }
  }

  // ----- sorted values -----

  predicate Ascending(values: seq<int>) {
    forall i, j :: 0 <= i < j < |values| ==> values[i] < values[j]
  }

  ghost predicate Sorts(values: seq<int>, s: set<int>) {
    Ascending(values) && forall x :: x in values <==> x in s
  }

  method Insert(values: seq<int>, x: int) returns (r: seq<int>)
    requires Ascending(values) && x !in values
    ensures Ascending(r) && forall y :: y in r <==> y == x || y in values
  {
    var i := 0;
    while i < |values| && values[i] < x
      invariant i <= |values| && forall k :: 0 <= k < i ==> values[k] < x
    {
      i := i + 1;
    }
    r := values[..i] + [x] + values[i..];
    assert values == values[..i] + values[i..];
  }

  lemma Inhabited(s: set<int>)
    ensures s == {} || exists x :: x in s
  {
    if forall x :: x !in s {
      assert s == {};
    }
  }

  method Sorted(s: set<int>) returns (values: seq<int>)
    ensures Sorts(values, s)
  {
    values := [];
    var rest := s;
    while rest != {}
      invariant rest <= s && Sorts(values, s - rest)
    {
      Inhabited(rest);
      var x :| x in rest;
      values := Insert(values, x);
      rest := rest - {x};
    }
  }

  /** A set has one sorted listing. */
  lemma {:induction false} SortedUnique(a: seq<int>, b: seq<int>)
    requires Ascending(a) && Ascending(b) && forall x :: x in a <==> x in b
    ensures a == b
    decreases |a|
  {
    if a != [] || b != [] {
      assert a != [] && b != [] by {
        assert a != [] ==> a[0] in a;
        assert b != [] ==> b[0] in b;
      }
      assert a[0] in b && b[0] in a;
      assert a[0] == b[0];
      var ta, tb := a[1..], b[1..];
      forall x ensures x in ta <==> x in tb {
        assert x in a <==> x == a[0] || x in ta;
        assert x in b <==> x == b[0] || x in tb;
      }
      SortedUnique(ta, tb);
      assert a == [a[0]] + ta && b == [b[0]] + tb;
    }
  }

  // ----- the printer -----

  datatype Run = Run(first: int, last: int)

  predicate Within(x: int, run: Run) { run.first <= x <= run.last }

  function RunText(run: Run): string {
    if run.first == run.last then Print(run.first) else Print(run.first) + "-" + Print(run.last)
  }

  function RunTexts(runs: seq<Run>): (texts: seq<string>)
    ensures |texts| == |runs| && forall i :: 0 <= i < |runs| ==> texts[i] == RunText(runs[i])
  {
    seq(|runs|, i requires 0 <= i < |runs| => RunText(runs[i]))
  }

  /** Ascending, disjoint, with a missing number between any two of them. */
  predicate Separate(runs: seq<Run>) {
    && (forall i :: 0 <= i < |runs| ==> runs[i].first <= runs[i].last)
    && (forall i, j :: 0 <= i < j < |runs| ==> runs[i].last + 1 < runs[j].first)
  }

  ghost predicate Member(x: int, runs: seq<Run>) {
    exists i :: 0 <= i < |runs| && Within(x, runs[i])
  }

  ghost predicate Covers(runs: seq<Run>, s: set<int>) {
    forall x :: x in s <==> Member(x, runs)
  }

  lemma MemberAppend(x: int, runs: seq<Run>, run: Run)
    ensures Member(x, runs + [run]) <==> Member(x, runs) || Within(x, run)
  {
    var all := runs + [run];
    if i :| 0 <= i < |runs| && Within(x, runs[i]) {
      assert Within(x, all[i]);
    }
    assert all[|runs|] == run;
  }

  /** text lists the maximal runs of consecutive members of s. */
  ghost predicate Prints(text: string, s: set<int>) {
    exists runs :: Separate(runs) && Covers(runs, s) && text == Join(RunTexts(runs), ',')
  }

  function Elements(values: seq<int>): set<int> { set x | x in values }

  lemma ElementsStep(values: seq<int>, k: nat)
    requires k < |values|
    ensures Elements(values[..k + 1]) == Elements(values[..k]) + {values[k]}
  {
    assert values[..k + 1] == values[..k] + [values[k]];
  }

  method Compress(lines: seq<int>) returns (text: string)
    ensures Prints(text, Elements(lines))
  {
    hide Print, Member, Join;
    var values := Sorted(Elements(lines));
    assert forall x :: x in Elements(values) <==> x in Elements(lines);
    if values == [] {
      EmptyPrints();
      return "";
    }
    var ranges: seq<string> := [];
    var start, previous := values[0], values[0];
    ghost var runs: seq<Run> := [];
    SinglePrints(values[0]);
    assert Elements(values[..1]) == {values[0]} && runs + [Run(start, previous)] == [Run(start, previous)];
    for k := 1 to |values|
      invariant previous == values[k - 1]
      invariant ranges == RunTexts(runs)
      invariant Separate(runs + [Run(start, previous)])
      invariant Covers(runs + [Run(start, previous)], Elements(values[..k]))
    {
      var value := values[k];
      ElementsStep(values, k);
      if value == previous + 1 {
        Extended(runs, start, previous, Elements(values[..k]));
        previous := value;
      } else {
        ghost var longer := runs + [Run(start, previous)];
        Opened(longer, value, Elements(values[..k]));
        assert RunTexts(longer) == RunTexts(runs) + [RunText(Run(start, previous))];
        ranges := ranges + [if start == previous then Print(start) else Print(start) + "-" + Print(previous)];
        start, previous := value, value;
        runs := longer;
      }
    }
    ghost var all := runs + [Run(start, previous)];
    assert RunTexts(all) == RunTexts(runs) + [RunText(Run(start, previous))];
    ranges := ranges + [if start == previous then Print(start) else Print(start) + "-" + Print(previous)];
    assert values[..|values|] == values;
    return Join(ranges, ',');
  }

  lemma EmptyPrints()
    ensures Prints("", {})
  {
    var none: seq<Run> := [];
    assert Separate(none) && Covers(none, {}) && Join(RunTexts(none), ',') == "";
  }

  lemma SinglePrints(value: int)
    ensures Covers([Run(value, value)], {value})
  {
    var runs := [Run(value, value)];
    assert Within(value, runs[0]);
  }

  /** The last run grows by the number that follows it. */
  lemma Extended(runs: seq<Run>, start: int, previous: int, s: set<int>)
    requires Separate(runs + [Run(start, previous)]) && Covers(runs + [Run(start, previous)], s)
    ensures Separate(runs + [Run(start, previous + 1)])
    ensures Covers(runs + [Run(start, previous + 1)], s + {previous + 1})
  {
    hide Member;
    var a, b := runs + [Run(start, previous)], runs + [Run(start, previous + 1)];
    assert a[|runs|].first <= a[|runs|].last;
    assert forall i :: 0 <= i < |b| ==> b[i].first == a[i].first;
    forall x: int ensures x in s + {previous + 1} <==> Member(x, b) {
      MemberAppend(x, runs, Run(start, previous));
      MemberAppend(x, runs, Run(start, previous + 1));
      assert x in s <==> Member(x, a);
    }
  }

  /** A number past the gap opens a run of its own. */
  lemma Opened(runs: seq<Run>, value: int, s: set<int>)
    requires Separate(runs) && Covers(runs, s)
    requires runs != [] && runs[|runs| - 1].last + 1 < value
    ensures Separate(runs + [Run(value, value)])
    ensures Covers(runs + [Run(value, value)], s + {value})
  {
    hide Member;
    forall x: int ensures x in s + {value} <==> Member(x, runs + [Run(value, value)]) {
      MemberAppend(x, runs, Run(value, value));
    }
    assert forall i :: 0 <= i < |runs| ==> runs[i].last <= runs[|runs| - 1].last;
  }

  // ----- the parser -----

  datatype Expansion =
    | Lines(lines: seq<int>)
    | InvalidRange(part: string)
    | NoLines

  /** What one part, already stripped, stands for: no run when int() fails or the ends are reversed. */
  function PartRun(part: string): Option<Run> {
    if '-' in part then
      var (first, last) := SplitDash(part);
      match (ParseInt(first), ParseInt(last))
      case (Some(a), Some(b)) => if a > b then None else Some(Run(a, b))
      case _ => None
    else
      match ParseInt(part)
      case Some(a) => Some(Run(a, a))
      case None => None
  }

  predicate Blank(part: string) { Strip(part) == "" }

  predicate Good(part: string) { Blank(part) || PartRun(Strip(part)).Some? }

  ghost predicate Denotes(part: string, x: int) {
    !Blank(part) && PartRun(Strip(part)).Some? && Within(x, PartRun(Strip(part)).value)
  }

  ghost predicate Named(parts: seq<string>, x: int) {
    exists i :: 0 <= i < |parts| && Denotes(parts[i], x)
  }

  /** The meaning of a comma-separated text. */
  ghost predicate Expands(text: string, r: Expansion) {
    var parts := Split(text, ',');
    match r
    case Lines(lines) =>
      && lines != [] && Ascending(lines)
      && (forall i :: 0 <= i < |parts| ==> Good(parts[i]))
      && (forall x :: x in lines <==> Named(parts, x))
    case InvalidRange(part) =>
      exists i :: 0 <= i < |parts| && !Good(parts[i]) && part == Strip(parts[i])
                  && forall j :: 0 <= j < i ==> Good(parts[j])
    case NoLines =>
      forall i :: 0 <= i < |parts| ==> Blank(parts[i])
  }

  function Range(first: int, last: int): (r: set<int>)
    ensures forall x :: x in r <==> first <= x <= last
    decreases last - first
  {
    if first > last then {} else {first} + Range(first + 1, last)
  }

  method Expand(text: string) returns (r: Expansion)
    ensures Expands(text, r)
  {
    hide Strip, SplitDash, ParseInt, Split;
    var lines: set<int> := {};
    var parts := Split(text, ',');
    for k := 0 to |parts|
      invariant forall i :: 0 <= i < k ==> Good(parts[i])
      invariant forall x :: x in lines <==> Named(parts[..k], x)
      invariant lines == {} ==> forall i :: 0 <= i < k ==> Blank(parts[i])
    {
      NamedStep(parts, k);
      var part := Strip(parts[k]);
      if part == "" {
        continue;
      }
      if '-' in part {
        var (firstText, lastText) := SplitDash(part);
        var first, last := ParseInt(firstText), ParseInt(lastText);
        if first.None? || last.None? || first.value > last.value {
          return InvalidRange(part);
        }
        lines := lines + Range(first.value, last.value);
        assert first.value in lines;
      } else {
        var only := ParseInt(part);
        if only.None? {
          return InvalidRange(part);
        }
        lines := lines + {only.value};
      }
    }
    assert parts[..|parts|] == parts;
    if lines == {} {
      return NoLines;
    }
    var values := Sorted(lines);
    Inhabited(lines);
    return Lines(values);
  }

  lemma NamedStep(parts: seq<string>, k: nat)
    requires k < |parts|
    ensures forall x :: Named(parts[..k + 1], x) <==> Named(parts[..k], x) || Denotes(parts[k], x)
  {
    hide Denotes;
    assert parts[..k + 1] == parts[..k] + [parts[k]];
    forall x ensures Named(parts[..k + 1], x) <==> Named(parts[..k], x) || Denotes(parts[k], x) {
      NamedAppend(parts[..k], parts[k], x);
    }
  }

  lemma NamedAppend(parts: seq<string>, part: string, x: int)
    ensures Named(parts + [part], x) <==> Named(parts, x) || Denotes(part, x)
  {
    hide Denotes;
    var all := parts + [part];
    if i :| 0 <= i < |parts| && Denotes(parts[i], x) {
      assert Denotes(all[i], x);
    }
    assert all[|parts|] == part;
  }

  lemma NamesSomething(text: string, r: Expansion)
    requires r.Lines? && Expands(text, r)
    ensures !Expands(text, NoLines) && forall part :: !Expands(text, InvalidRange(part))
  {
    assert r.lines[0] in r.lines;
  }

  /** A text means one thing. */
  lemma ExpandsUnique(text: string, a: Expansion, b: Expansion)
    requires Expands(text, a) && Expands(text, b)
    ensures a == b
  {
    if a.Lines? && b.Lines? {
      SortedUnique(a.lines, b.lines);
    } else if a.Lines? {
      NamesSomething(text, a);
    } else if b.Lines? {
      NamesSomething(text, b);
    }
  }

  // ----- the round trip -----

  lemma NatRunText(run: Run)
    requires 0 <= run.first <= run.last
    ensures var t := RunText(run); Strip(t) == t && t != "" && ',' !in t && PartRun(t) == Some(run)
  {
    var t, a, b := RunText(run), Decimal(run.first), Decimal(run.last);
    IntRoundTrip(run.first);
    IntRoundTrip(run.last);
    if run.first != run.last {
      SplitDashAfter(a, b);
      assert t[0] == a[0] && t[|t| - 1] == b[|b| - 1];
    }
    NoSpaceNoStrip(t);
  }

  lemma PrintedChars(n: int)
    ensures |Print(n)| > 0 && forall i :: 0 <= i < |Print(n)| ==> IsDigit(Print(n)[i]) || Print(n)[i] == '-'
  {
  }

  /** A run that starts below zero prints with a leading dash, which the parser takes for the separator. */
  lemma NegativeRunText(run: Run)
    requires run.first < 0 && run.first <= run.last
    ensures var t := RunText(run); Strip(t) == t && t != "" && ',' !in t && PartRun(t) == None
  {
    var t := RunText(run);
    PrintedChars(run.first);
    PrintedChars(run.last);
    assert t[0] == '-';
    assert forall i :: 0 <= i < |t| ==> IsDigit(t[i]) || t[i] == '-';
    NoSpaceNoStrip(t);
    assert SplitDash(t).0 == "";
  }

  lemma RunTextHasNoComma(run: Run)
    requires run.first <= run.last
    ensures ',' !in RunText(run)
  {
    if run.first < 0 { NegativeRunText(run); } else { NatRunText(run); }
  }

  /**
   Parsing what the printer wrote gives the sorted set back exactly when the set is non-empty and holds
   no negative number.
   */
  lemma ExpandUndoesCompress(text: string, s: set<int>, r: Expansion)
    requires Prints(text, s) && Expands(text, r)
    ensures s == {} ==> r == NoLines
    ensures s != {} && (forall x :: x in s ==> x >= 0) ==> r.Lines? && Sorts(r.lines, s)
    ensures (exists x :: x in s && x < 0) ==> r.InvalidRange?
  {
    hide Split, RunTexts, Expands, Member;
    var runs: seq<Run> :| Separate(runs) && Covers(runs, s) && text == Join(RunTexts(runs), ',');
    if runs == [] {
      NoRuns(s);
      EmptyText(r);
    } else {
      TextsSplit(runs);
      if runs[0].first < 0 {
        NegativeRuns(runs, s, r);
      } else {
        NonNegativeRuns(runs, s, r);
      }
    }
  }

  lemma NoRuns(s: set<int>)
    requires Covers([], s)
    ensures s == {} && Join(RunTexts([]), ',') == ""
  {
    assert forall x :: x !in s;
  }

  lemma TextsSplit(runs: seq<Run>)
    requires runs != [] && Separate(runs)
    ensures Split(Join(RunTexts(runs), ','), ',') == RunTexts(runs)
  {
    hide RunText, Split, Join;
    var texts := RunTexts(runs);
    forall i | 0 <= i < |texts| ensures ',' !in texts[i] { RunTextHasNoComma(runs[i]); }
    SplitJoin(texts, ',');
  }

  lemma EmptyText(r: Expansion)
    requires Expands("", r)
    ensures r == NoLines
  {
    var parts := Split("", ',');
    assert parts == [""] && Blank(parts[0]);
    ExpandsUnique("", r, NoLines);
  }

  lemma NegativeRuns(runs: seq<Run>, s: set<int>, r: Expansion)
    requires runs != [] && runs[0].first < 0 && Separate(runs) && Covers(runs, s)
    requires Split(Join(RunTexts(runs), ','), ',') == RunTexts(runs) && Expands(Join(RunTexts(runs), ','), r)
    ensures r.InvalidRange? && runs[0].first in s
  {
    hide RunText, PartRun, Strip, Split, Join;
    var texts := RunTexts(runs);
    NegativeRunText(runs[0]);
    assert Within(runs[0].first, runs[0]);
    assert !Good(texts[0]);
  }

  lemma NonNegativeRuns(runs: seq<Run>, s: set<int>, r: Expansion)
    requires runs != [] && runs[0].first >= 0 && Separate(runs) && Covers(runs, s)
    requires Split(Join(RunTexts(runs), ','), ',') == RunTexts(runs) && Expands(Join(RunTexts(runs), ','), r)
    ensures r.Lines? && Sorts(r.lines, s) && runs[0].first in s && forall x :: x in s ==> x >= 0
  {
    hide RunText, PartRun, Strip, Split, Join;
    assert Within(runs[0].first, runs[0]);
    var texts := RunTexts(runs);
    forall i | 0 <= i < |runs|
      ensures 0 <= runs[i].first && !Blank(texts[i]) && Good(texts[i])
      ensures forall x :: Denotes(texts[i], x) <==> Within(x, runs[i])
    {
      NatRunText(runs[i]);
    }
    forall x ensures Named(texts, x) <==> x in s {
      if Member(x, runs) {
        var i :| 0 <= i < |runs| && Within(x, runs[i]);
        assert Denotes(texts[i], x);
      }
      if Named(texts, x) {
        var i :| 0 <= i < |texts| && Denotes(texts[i], x);
        assert Within(x, runs[i]);
      }
    }
  }

  // ----- text that the printer does not write -----

  predicate AllSpace(s: string) {
    forall i :: 0 <= i < |s| ==> IsSpace(s[i])
  }

  lemma {:induction false} StripLeftPads(a: string, s: string)
    requires AllSpace(a)
    ensures StripLeft(a + s) == StripLeft(s)
    decreases |a|
  {
    if a == "" {
      assert a + s == s;
    } else {
      assert (a + s)[1..] == a[1..] + s;
      StripLeftPads(a[1..], s);
    }
  }

  lemma {:induction false} StripRightPads(s: string, b: string)
    requires AllSpace(b)
    ensures StripRight(s + b) == StripRight(s)
    decreases |b|
  {
    if b == "" {
      assert s + b == s;
    } else {
      assert (s + b)[..|s + b| - 1] == s + b[..|b| - 1];
      StripRightPads(s, b[..|b| - 1]);
    }
  }

  lemma {:induction false} StripLeftThrough(s: string, b: string)
    requires AllSpace(b)
    ensures StripLeft(s + b) == (if StripLeft(s) == "" then "" else StripLeft(s) + b)
    decreases |s|
  {
    if s == "" {
      StripLeftPads(b, "");
      assert s + b == b && b + "" == b;
    } else if IsSpace(s[0]) {
      assert (s + b)[1..] == s[1..] + b;
      StripLeftThrough(s[1..], b);
    }
  }

  /** White space around a part does not matter. */
  lemma PaddingIsIgnored(a: string, part: string, b: string, x: int)
    requires AllSpace(a) && AllSpace(b)
    ensures Strip(a + part + b) == Strip(part)
    ensures Good(a + part + b) == Good(part) && Denotes(a + part + b, x) == Denotes(part, x)
  {
    hide StripLeft, StripRight, PartRun;
    assert a + part + b == a + (part + b);
    StripLeftPads(a, part + b);
    StripLeftThrough(part, b);
    if StripLeft(part) != "" {
      StripRightPads(StripLeft(part), b);
    }
  }

  /** A range whose ends are the wrong way round is no range. */
  lemma ReversedRange(a: nat, b: nat)
    requires a > b
    ensures PartRun(Decimal(a) + "-" + Decimal(b)) == None
  {
    IntRoundTrip(a);
    IntRoundTrip(b);
    SplitDashAfter(Decimal(a), Decimal(b));
  }

  /** Numbers may carry a sign. */
  lemma SignedNumber(n: nat)
    ensures var z: int := n; ParseInt("+" + Decimal(n)) == Some(z) && ParseInt("-" + Decimal(n)) == Some(-z)
  {
    var s := Decimal(n);
    DecimalRoundTrip(n);
    assert IsDigit(s[|s| - 1]);
    var plus, minus := "+" + s, "-" + s;
    assert plus[1..] == s && minus[1..] == s;
    assert plus[|plus| - 1] == s[|s| - 1] && minus[|minus| - 1] == s[|s| - 1];
    NoSpaceNoStrip(plus);
    NoSpaceNoStrip(minus);
  }

  /** So a signed number is a part of its own only with a plus: a minus is taken for the separator. */
  lemma SignedPart(n: nat)
    ensures PartRun("+" + Decimal(n)) == Some(Run(n, n)) && PartRun("-" + Decimal(n)) == None
  {
    hide ParseDigits, Strip;
    var s := Decimal(n);
    SignedNumber(n);
    assert forall i :: 0 <= i < |s| ==> s[i] != '-';
    assert '-' !in "+" + s;
    assert ("-" + s)[0] == '-';
    EmptyNumber();
  }

  lemma EmptyNumber()
    ensures ParseInt("") == None
  {
  }

  /** How a small set is printed. */
  lemma PrintExample()
    ensures Decimal(0) == "0" && Decimal(1203) == "1203" && Prints("3,7-9", {3, 7, 8, 9})
  {
    assert Decimal(1) == "1" && Decimal(12) == "12" && Decimal(120) == "120";
    assert Decimal(3) == "3" && Decimal(7) == "7" && Decimal(9) == "9";
    assert RunText(Run(3, 3)) == "3" && RunText(Run(7, 9)) == "7-9";
    PrintedRuns();
  }

  lemma PrintedRuns()
    requires RunText(Run(3, 3)) == "3" && RunText(Run(7, 9)) == "7-9"
    ensures Prints("3,7-9", {3, 7, 8, 9})
  {
    hide RunText;
    var runs := [Run(3, 3), Run(7, 9)];
    assert RunTexts(runs) == ["3", "7-9"];
    assert ["3", "7-9"][1..] == ["7-9"];
    assert Join(["7-9"], ',') == "7-9";
    forall x: int
      ensures x in {3, 7, 8, 9} <==> Member(x, runs)
    {
      assert Member(x, runs) <==> Within(x, runs[0]) || Within(x, runs[1]);
    }
    assert Separate(runs) && Covers(runs, {3, 7, 8, 9});
  }
}
