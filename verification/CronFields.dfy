/**
 The five fields of a cron expression: which texts the validator accepts, which numbers the
 candidate parser reads out of an accepted text, and when those are the numbers the text denotes.
 */
module CronFields {
  import opened Arithmetic
  import opened Text
  import opened Decimal

  datatype Rule = Rule(min: nat, max: nat)

  /** minute, hour, day of month, month, day of week */
  const FIELD_RULES := [Rule(0, 59), Rule(0, 23), Rule(1, 31), Rule(1, 12), Rule(0, 7)]

  lemma SplitShortens(s: string, sep: char)
    requires sep in s
    ensures var pieces := Split(s, sep); |pieces| >= 2 && |pieces[0]| < |s|
  {
  }

  predicate ValidateSubPart(part: string, rule: Rule)
    decreases |part|
  {
    if part == "*" then true
    else if '/' in part then
      var pieces := Split(part, '/');
      SplitShortens(part, '/');
      && IsNumeral(pieces[1])
      && 0 < NatOf(pieces[1]) <= rule.max
      && (pieces[0] == "*" || ValidateSubPart(pieces[0], rule))
    else if '-' in part then
      var pieces := Split(part, '-');
      SplitShortens(part, '-');
      && IsNumeral(pieces[0]) && IsNumeral(pieces[1])
      && rule.min <= NatOf(pieces[0]) <= NatOf(pieces[1]) <= rule.max
    else
      IsNumeral(part) && rule.min <= NatOf(part) <= rule.max
  }

  predicate ValidateField(field: string, rule: Rule) {
    field != "" && forall part :: part in Split(field, ',') ==> ValidateSubPart(part, rule)
  }

  datatype Validation = Valid | Empty | WrongFieldCount(found: nat) | InvalidField(index: nat)

  function RunLength(s: string): (n: nat)
    ensures n <= |s|
    ensures s != "" && !JsSpace(s[0]) ==> n > 0
  {
    if s == "" || JsSpace(s[0]) then 0 else 1 + RunLength(s[1..])
  }

  /** trim() followed by split(/\s+/): the maximal runs of characters that are not white space. */
  function Words(s: string): (words: seq<string>)
    ensures forall w :: w in words ==> w != ""
    decreases |s|
  {
    var t := TrimLeft(s, JsSpace);
    if t == "" then [] else
      var n := RunLength(t);
      [t[..n]] + Words(t[n..])
  }

  function FirstInvalid(fields: seq<string>, i: nat): (k: nat)
    requires |fields| == 5 && i <= 5
    ensures i <= k <= 5
    ensures forall j :: i <= j < k ==> ValidateField(fields[j], FIELD_RULES[j])
    ensures k < 5 ==> !ValidateField(fields[k], FIELD_RULES[k])
    decreases 5 - i
  {
    if i == 5 || !ValidateField(fields[i], FIELD_RULES[i]) then i else FirstInvalid(fields, i + 1)
  }

  function ValidateCron(expr: string): (v: Validation)
    ensures v.Valid? <==> |Words(expr)| == 5 && forall i :: 0 <= i < 5 ==> ValidateField(Words(expr)[i], FIELD_RULES[i])
  {
    var fields := Words(expr);
    if fields == [] then Empty
    else if |fields| != 5 then WrongFieldCount(|fields|)
    else
      var k := FirstInvalid(fields, 0);
      if k == 5 then Valid else InvalidField(k)
  }

  // Candidates.

  predicate Between(lo: int, x: int, hi: int) {
    lo <= x <= hi
  }

  /** `x` is a whole number of steps away from `base`. */
  predicate OnStep(base: int, x: int, step: int)
    requires step > 0
  {
    (x - base) % step == 0
  }

  function Interval(lo: int, hi: int): (s: set<int>)
    ensures forall x :: x in s <==> Between(lo, x, hi)
  {
    set x: int | lo <= x <= hi && Between(lo, x, hi)
  }

  function Multiples(rule: Rule, step: int): (s: set<int>)
    requires step > 0
    ensures forall x :: x in s <==> Between(rule.min, x, rule.max) && OnStep(rule.min, x, step)
  {
    set x: int | rule.min <= x <= rule.max && Between(rule.min, x, rule.max) && OnStep(rule.min, x, step)
  }

  /** What follows the star-slash of an accepted part reads as its positive step. */
  lemma StepOf(part: string, rule: Rule)
    requires ValidateSubPart(part, rule) && "*/" <= part
    ensures ParseInt(part[2..]) == Some(NatOf(Split(part, '/')[1])) && NatOf(Split(part, '/')[1]) > 0
  {
    assert part[1] == '/';
    assert part != "*";
    var i := IndexOf(part, '/');
    assert part == "*" + part[1..];
    IndexOfPrefix("*", part[1..], '/');
    var rest := part[2..];
    var step := Split(rest, '/')[0];
    assert Split(part, '/')[1] == step;
    var j := IndexOf(rest, '/');
    assert step == rest[..j];
    assert rest == step + rest[j..];
    ParseIntOf(step, rest[j..]);
  }

  /** The numbers one comma-separated part of an accepted field contributes. */
  function PartCandidates(part: string, rule: Rule): set<int>
    requires ValidateSubPart(part, rule)
  {
    if part == "*" then Interval(rule.min, rule.max)
    else if "*/" <= part then
      StepOf(part, rule);
      Multiples(rule, ParseInt(part[2..]).value)
    else if '-' in part then
      SplitShortens(part, '-');
      var bounds := Split(part, '-');
      var start, end := ParseInt(bounds[0]), ParseInt(bounds[1]);
      // a NaN bound makes the loop's guard false at once
      if start.Some? && end.Some? then Interval(start.value, end.value) else {}
    else if IsNumeral(part) then
      {NatOf(part)}
    else {}
  }

  function FieldCandidates(parts: seq<string>, rule: Rule): (s: set<int>)
    requires forall part :: part in parts ==> ValidateSubPart(part, rule)
    ensures forall part :: part in parts ==> PartCandidates(part, rule) <= s
    ensures forall x :: x in s ==> exists part :: part in parts && x in PartCandidates(part, rule)
  {
    if parts == [] then {} else
      assert parts[0] in parts && forall part :: part in parts[1..] ==> part in parts;
      PartCandidates(parts[0], rule) + FieldCandidates(parts[1..], rule)
  }

  predicate StrictlyIncreasing(s: seq<int>) {
    forall i, j :: 0 <= i < j < |s| ==> s[i] < s[j]
  }

  lemma {:induction false} FieldCandidatesSnoc(parts: seq<string>, part: string, rule: Rule)
    requires forall p :: p in parts + [part] ==> ValidateSubPart(p, rule)
    ensures forall p :: p in parts ==> ValidateSubPart(p, rule)
    ensures ValidateSubPart(part, rule)
    ensures FieldCandidates(parts + [part], rule) == FieldCandidates(parts, rule) + PartCandidates(part, rule)
  {
    var all := parts + [part];
    assert forall p :: p in parts ==> p in all;
    assert part in all by { assert all[|parts|] == part; }
    if parts == [] {
      assert all[1..] == [];
    } else {
      assert all[1..] == parts[1..] + [part];
      FieldCandidatesSnoc(parts[1..], part, rule);
    }
  }

  lemma StepOne(base: int)
    ensures forall x: int :: OnStep(base, x, 1)
  {
    forall x: int ensures OnStep(base, x, 1) {
      DivModUnique(x - base, 1, x - base, 0);
    }
  }

  lemma ModOf(n: int, step: int, r: int)
    requires 0 <= r < step
    ensures (n * step + r) % step == r
  {
    DivModUnique(n * step + r, step, n, r);
  }

  /** for (let i = lo; i <= hi; i += step) set.add(i) */
  method AddRange(s: set<int>, lo: int, hi: int, step: int) returns (r: set<int>)
    requires step > 0
    ensures forall x :: x in r <==> x in s || (Between(lo, x, hi) && OnStep(lo, x, step))
  {
    r := s;
    var i := lo;
    ghost var n := 0;
    while i <= hi
      invariant i == lo + n * step && n >= 0
      invariant forall x :: x in r <==> x in s || (Between(lo, x, hi) && x < i && OnStep(lo, x, step))
      decreases hi - i
    {
      r := r + {i};
      forall x | Between(i + 1, x, i + step - 1) ensures !OnStep(lo, x, step) {
        ModOf(n, step, x - i);
      }
      ModOf(n, step, 0);
      i := i + step;
      n := n + 1;
    }
  }

  /** One round of the parser's loop over the parts. */
  method AddPart(s: set<int>, part: string, rule: Rule) returns (r: set<int>)
    requires ValidateSubPart(part, rule)
    ensures r == s + PartCandidates(part, rule)
  {
    hide ValidateSubPart, NatOf, Split, ParseInt, OnStep;
    r := s;
    StepOne(rule.min);
    if part == "*" {
      r := AddRange(s, rule.min, rule.max, 1);
      assert forall x :: x in r <==> x in s + Interval(rule.min, rule.max);
    } else if "*/" <= part {
      StepOf(part, rule);
      var step := ParseInt(part[2..]);
      r := AddRange(s, rule.min, rule.max, step.value);
      assert forall x :: x in r <==> x in s + Multiples(rule, step.value);
    } else if '-' in part {
      SplitShortens(part, '-');
      var bounds := Split(part, '-');
      var start, end := ParseInt(bounds[0]), ParseInt(bounds[1]);
      if start.Some? && end.Some? {
        StepOne(start.value);
        r := AddRange(s, start.value, end.value, 1);
        assert forall x :: x in r <==> x in s + Interval(start.value, end.value);
      }
    } else if IsNumeral(part) {
      r := s + {NatOf(part)};
    }
  }

  lemma HasElement(s: set<int>)
    requires s != {}
    ensures exists x :: x in s
  {
    assert (forall x :: x !in s) ==> s == {};
  }

  method Least(s: set<int>) returns (least: int)
    requires s != {}
    ensures least in s && forall y :: y in s ==> least <= y
  {
    HasElement(s);
    least :| least in s;
    var rest := s - {least};
    while rest != {}
      invariant rest <= s && least in s
      invariant forall y :: y in s ==> y in rest || least <= y
      decreases rest
    {
      HasElement(rest);
      var x :| x in rest;
      rest := rest - {x};
      if x < least {
        least := x;
      }
    }
  }

  /** Array.from(set).sort((a, b) => a - b) */
  method SortAscending(s: set<int>) returns (r: seq<int>)
    ensures StrictlyIncreasing(r)
    ensures forall x :: x in r <==> x in s
  {
    r := [];
    var left := s;
    while left != {}
      invariant forall x :: x in s <==> x in r || x in left
      invariant StrictlyIncreasing(r)
      invariant forall x, y :: x in r && y in left ==> x < y
      decreases left
    {
      var least := Least(left);
      assert least in left;
      assert forall k :: 0 <= k < |r| ==> r[k] in r;
      r := r + [least];
      left := left - {least};
    }
  }

  /** The closure inside getNextCronRun: collect into a set, then sort. */
  method ParseFieldCandidates(field: string, rule: Rule) returns (candidates: seq<int>)
    requires ValidateField(field, rule)
    ensures StrictlyIncreasing(candidates)
    ensures forall x :: x in candidates <==> x in FieldCandidates(Split(field, ','), rule)
  {
    var found: set<int> := {};
    var subParts := Split(field, ',');
    for k := 0 to |subParts|
      invariant forall part :: part in subParts[..k] ==> ValidateSubPart(part, rule)
      invariant found == FieldCandidates(subParts[..k], rule)
    {
      assert subParts[..k + 1] == subParts[..k] + [subParts[k]];
      assert forall p :: p in subParts[..k + 1] ==> p in subParts;
      FieldCandidatesSnoc(subParts[..k], subParts[k], rule);
      found := AddPart(found, subParts[k], rule);
    }
    assert subParts[..|subParts|] == subParts;
    candidates := SortAscending(found);
  }

  // The texts a well-formed field is made of, and what they denote.

  /** The digit strings are kept as written: leading zeros are allowed. */
  datatype Part =
    | Star
    | EveryN(step: string)
    | Range(first: string, last: string)
    | Number(n: string)
    | SteppedRange(first: string, last: string, step: string)
    | SteppedNumber(n: string, step: string)
  {
    predicate WellFormed() {
      match this
      case Star => true
      case EveryN(step) => IsNumeral(step)
      case Range(first, last) => IsNumeral(first) && IsNumeral(last)
      case Number(n) => IsNumeral(n)
      case SteppedRange(first, last, step) => IsNumeral(first) && IsNumeral(last) && IsNumeral(step)
      case SteppedNumber(n, step) => IsNumeral(n) && IsNumeral(step)
    }

    function Text(): string {
      match this
      case Star => "*"
      case EveryN(step) => "*/" + step
      case Range(first, last) => first + "-" + last
      case Number(n) => n
      case SteppedRange(first, last, step) => first + "-" + last + "/" + step
      case SteppedNumber(n, step) => n + "/" + step
    }

    /** The bounds a part has to keep. */
    predicate InBounds(rule: Rule)
      requires WellFormed()
    {
      match this
      case Star => true
      case EveryN(step) => 0 < NatOf(step) <= rule.max
      case Range(first, last) => rule.min <= NatOf(first) <= NatOf(last) <= rule.max
      case Number(n) => rule.min <= NatOf(n) <= rule.max
      case SteppedRange(first, last, step) =>
        rule.min <= NatOf(first) <= NatOf(last) <= rule.max && 0 < NatOf(step) <= rule.max
      case SteppedNumber(n, step) => rule.min <= NatOf(n) <= rule.max && 0 < NatOf(step) <= rule.max
    }

    /** The numbers a part stands for: a step counts from the part's first number. */
    predicate Denotes(rule: Rule, x: int)
      requires WellFormed() && InBounds(rule)
    {
      && Between(rule.min, x, rule.max)
      && (EveryN? ==> OnStep(rule.min, x, NatOf(step)))
      && (Range? || SteppedRange? ==> Between(NatOf(first), x, NatOf(last)))
      && (SteppedRange? ==> OnStep(NatOf(first), x, NatOf(step)))
      && (Number? ==> x == NatOf(n))
      && (SteppedNumber? ==> NatOf(n) <= x && OnStep(NatOf(n), x, NatOf(step)))
    }

    /** What the candidate parser makes of it: the step of a range is dropped, and all of a stepped number. */
    function Read(rule: Rule): set<int>
      requires WellFormed() && InBounds(rule)
    {
      if Star? then Interval(rule.min, rule.max)
      else if EveryN? then Multiples(rule, NatOf(step))
      else if Range? || SteppedRange? then Interval(NatOf(first), NatOf(last))
      else if Number? then {NatOf(n)}
      else {}
    }

    /** The parts the candidate parser reads as written. */
    predicate ReadAsWritten()
      requires WellFormed()
    {
      match this
      case SteppedRange(first, last, step) => NatOf(step) == 1 || NatOf(first) == NatOf(last)
      case SteppedNumber(_, _) => false
      case _ => true
    }
  }

  lemma DigitsHaveNoMark(d: string, mark: char)
    requires AllDigits(d) && !IsDigit(mark)
    ensures mark !in d
  {
  }

  lemma SplitTwo(a: string, b: string, sep: char)
    requires sep !in a && sep !in b
    ensures Split(a + [sep] + b, sep) == [a, b]
  {
    assert Join([a, b], [sep]) == a + [sep] + b by { assert [a, b][1..] == [b]; }
    SplitJoin([a, b], sep);
  }

  lemma NoMarks(d: string)
    requires IsNumeral(d)
    ensures ',' !in d && '/' !in d && '-' !in d && d[0] != '*'
  {
    DigitsHaveNoMark(d, ',');
    DigitsHaveNoMark(d, '/');
    DigitsHaveNoMark(d, '-');
  }

  /** The text of a part holds the marks its form has and no others. */
  lemma PartMarks(p: Part)
    requires p.WellFormed()
    ensures ',' !in p.Text()
    ensures '/' in p.Text() <==> p.EveryN? || p.SteppedRange? || p.SteppedNumber?
    ensures '-' in p.Text() <==> p.Range? || p.SteppedRange?
    ensures p.Text() != "" && (p.Text()[0] == '*' <==> p.Star? || p.EveryN?)
  {
    match p
    case Star =>
    case EveryN(step) => NoMarks(step);
      assert p.Text()[1] == '/';
    case Range(first, last) => NoMarks(first); NoMarks(last);
      assert p.Text()[|first|] == '-';
    case Number(n) => NoMarks(n);
    case SteppedRange(first, last, step) => NoMarks(first); NoMarks(last); NoMarks(step);
      assert p.Text()[|first|] == '-';
      assert p.Text()[|first| + 1 + |last|] == '/';
    case SteppedNumber(n, step) => NoMarks(n); NoMarks(step);
      assert p.Text()[|n|] == '/';
  }

  lemma RangeAccepted(first: string, last: string, rule: Rule)
    requires IsNumeral(first) && IsNumeral(last)
    ensures ValidateSubPart(first + "-" + last, rule) <==> rule.min <= NatOf(first) <= NatOf(last) <= rule.max
  {
    var p := Part.Range(first, last);
    PartMarks(p);
    NoMarks(first);
    NoMarks(last);
    SplitTwo(first, last, '-');
    assert p.Text() == first + "-" + last;
  }

  lemma NumberAccepted(n: string, rule: Rule)
    requires IsNumeral(n)
    ensures ValidateSubPart(n, rule) <==> rule.min <= NatOf(n) <= rule.max
  {
    NoMarks(n);
  }

  lemma StepAccepted(base: string, step: string, rule: Rule)
    requires '/' !in base && IsNumeral(step)
    ensures ValidateSubPart(base + "/" + step, rule) <==>
            0 < NatOf(step) <= rule.max && (base == "*" || ValidateSubPart(base, rule))
  {
    var s := base + "/" + step;
    assert s[|base|] == '/';
    NoMarks(step);
    SplitTwo(base, step, '/');
  }

  lemma StarAccepted(rule: Rule)
    ensures ValidateSubPart("*", rule)
  {
  }

  /** The validator accepts a part exactly when it keeps its bounds. */
  lemma PartAccepted(p: Part, rule: Rule)
    requires p.WellFormed()
    ensures ValidateSubPart(p.Text(), rule) <==> p.InBounds(rule)
  {
    hide ValidateSubPart, NatOf, IsNumeral;
    match p
    case Star => StarAccepted(rule);
    case EveryN(step) =>
      StepAccepted("*", step, rule);
      assert "*" + "/" + step == "*/" + step;
    case Range(first, last) => RangeAccepted(first, last, rule);
    case Number(n) => NumberAccepted(n, rule);
    case SteppedRange(first, last, step) =>
      PartMarks(Part.Range(first, last));
      assert Part.Range(first, last).Text() == first + "-" + last;
      assert (first + "-" + last)[0] != '*';
      StepAccepted(first + "-" + last, step, rule);
      RangeAccepted(first, last, rule);
    case SteppedNumber(n, step) =>
      NoMarks(n);
      StepAccepted(n, step, rule);
      NumberAccepted(n, rule);
  }

  // Exactly the texts the validator accepts, well-formed or not.

  function DashedText(first: string, last: string, rest: string): string {
    first + "-" + (last + rest)
  }

  function SlashedText(base: string, step: string, rest: string): string {
    base + "/" + (step + rest)
  }

  /** A number in bounds, or two of them in order with a dash between; a second dash may be followed by anything. */
  ghost predicate IsBase(s: string, rule: Rule) {
    || (IsNumeral(s) && rule.min <= NatOf(s) <= rule.max)
    || exists first, last, rest ::
         && s == DashedText(first, last, rest) && (rest == "" || rest[0] == '-')
         && IsNumeral(first) && IsNumeral(last) && rule.min <= NatOf(first) <= NatOf(last) <= rule.max
  }

  /** A star or base, perhaps with a slash and a step; a second slash may be followed by anything. */
  ghost predicate IsAcceptedText(s: string, rule: Rule) {
    || ('/' !in s && (s == "*" || IsBase(s, rule)))
    || exists base, step, rest ::
         && s == SlashedText(base, step, rest) && (rest == "" || rest[0] == '/')
         && '/' !in base && (base == "*" || IsBase(base, rule)) && IsNumeral(step) && 0 < NatOf(step) <= rule.max
  }

  lemma SplitStep(s: string, sep: char)
    ensures var i := IndexOf(s, sep);
            && Split(s, sep)[0] == s[..i]
            && (i < |s| ==> s == s[..i] + [sep] + s[i + 1..] && Split(s, sep)[1..] == Split(s[i + 1..], sep))
  {
  }

  lemma Halves(s: string, n: nat)
    requires n <= |s|
    ensures s == s[..n] + s[n..]
  {
  }

  /** What precedes the first separator, what lies between it and the second, and what follows. */
  lemma FirstPieces(s: string, sep: char) returns (rest: string)
    requires sep in s
    ensures var pieces := Split(s, sep);
            |pieces| >= 2 && s == pieces[0] + [sep] + (pieces[1] + rest) && (rest == "" || rest[0] == sep)
  {
    SplitShortens(s, sep);
    hide Split, IndexOf;
    SplitStep(s, sep);
    var tail := s[IndexOf(s, sep) + 1..];
    SplitStep(tail, sep);
    rest := tail[IndexOf(tail, sep)..];
    Halves(tail, IndexOf(tail, sep));
    assert Split(s, sep)[1] == Split(s, sep)[1..][0];
  }

  lemma PiecesOf(first: string, second: string, rest: string, sep: char)
    requires sep !in first && sep !in second && (rest == "" || rest[0] == sep)
    ensures var s := first + [sep] + (second + rest);
            sep in s && |Split(s, sep)| >= 2 && Split(s, sep)[0] == first && Split(s, sep)[1] == second
  {
    var tail := second + rest;
    var s := first + [sep] + tail;
    assert s[|first|] == sep;
    assert s == first + ([sep] + tail);
    IndexOfPrefix(first, [sep] + tail, sep);
    assert s[..|first|] == first && s[|first| + 1..] == tail;
    IndexOfPrefix(second, rest, sep);
    assert tail[..|second|] == second;
  }

  lemma BaseAccepted(s: string, rule: Rule)
    requires '/' !in s && s != "*"
    ensures ValidateSubPart(s, rule) <==> IsBase(s, rule)
  {
    hide NatOf, Split;
    if '-' in s {
      var rest := FirstPieces(s, '-');
      assert s == DashedText(Split(s, '-')[0], Split(s, '-')[1], rest);
    }
    if first, last, rest :|
      && s == DashedText(first, last, rest) && (rest == "" || rest[0] == '-')
      && IsNumeral(first) && IsNumeral(last) && rule.min <= NatOf(first) <= NatOf(last) <= rule.max
    {
      NoMarks(first);
      NoMarks(last);
      PiecesOf(first, last, rest, '-');
    } else if IsNumeral(s) {
      NoMarks(s);
    }
  }

  /** The validator accepts exactly these texts. */
  lemma AcceptedTexts(s: string, rule: Rule)
    ensures ValidateSubPart(s, rule) <==> IsAcceptedText(s, rule)
  {
    hide NatOf, Split, IsBase;
    if '/' !in s {
      if s != "*" {
        BaseAccepted(s, rule);
      }
    } else {
      var rest := FirstPieces(s, '/');
      var base, step := Split(s, '/')[0], Split(s, '/')[1];
      assert s == SlashedText(base, step, rest);
      assert '/' !in base by { assert base in Split(s, '/'); }
      if base != "*" {
        BaseAccepted(base, rule);
      }
      if base', step', rest' :|
        && s == SlashedText(base', step', rest') && (rest' == "" || rest'[0] == '/')
        && '/' !in base' && (base' == "*" || IsBase(base', rule)) && IsNumeral(step') && 0 < NatOf(step') <= rule.max
      {
        NoMarks(step');
        PiecesOf(base', step', rest', '/');
      }
    }
  }

  /** What follows a second dash is not read: 1-5-x is accepted and read as 1 to 5. */
  lemma DashedRead(first: string, last: string, rest: string, rule: Rule)
    requires IsNumeral(first) && IsNumeral(last) && rule.min <= NatOf(first) <= NatOf(last) <= rule.max
    requires (rest == "" || rest[0] == '-') && '/' !in rest
    ensures ValidateSubPart(DashedText(first, last, rest), rule)
    ensures PartCandidates(DashedText(first, last, rest), rule) == Interval(NatOf(first), NatOf(last))
  {
    hide NatOf, Split, ParseInt;
    var s := DashedText(first, last, rest);
    NoMarks(first);
    NoMarks(last);
    PiecesOf(first, last, rest, '-');
    assert '/' !in s && s != "*" && !("*/" <= s) by { assert s[0] == first[0]; }
    ParseIntOf(first, "");
    ParseIntOf(last, "");
    assert first + "" == first && last + "" == last;
  }

  lemma StepRead(step: string, rule: Rule)
    requires IsNumeral(step) && ValidateSubPart("*/" + step, rule)
    ensures NatOf(step) > 0 && PartCandidates("*/" + step, rule) == Multiples(rule, NatOf(step))
  {
    hide NatOf, ValidateSubPart;
    var text := "*/" + step;
    StepOf(text, rule);
    assert text[2..] == step + "";
    ParseIntOf(step, "");
    assert text != "*" by { assert |text| > 1; }
  }

  lemma RangeRead(first: string, last: string, tail: string)
    requires IsNumeral(first) && IsNumeral(last) && '-' !in tail && (tail != "" ==> !IsDigit(tail[0]))
    ensures var bounds := Split(first + "-" + (last + tail), '-');
            && |bounds| == 2
            && ParseInt(bounds[0]) == Some(NatOf(first))
            && ParseInt(bounds[1]) == Some(NatOf(last))
  {
    hide NatOf, ParseInt, Split;
    NoMarks(first);
    NoMarks(last);
    SplitTwo(first, last + tail, '-');
    assert first + "" == first;
    ParseIntOf(first, "");
    ParseIntOf(last, tail);
  }

  lemma RangePartRead(p: Part, rule: Rule)
    requires p.Range? || p.SteppedRange?
    requires p.WellFormed() && ValidateSubPart(p.Text(), rule)
    ensures PartCandidates(p.Text(), rule) == Interval(NatOf(p.first), NatOf(p.last))
  {
    hide NatOf, ValidateSubPart, Split, ParseInt;
    var text := p.Text();
    PartMarks(p);
    assert !("*/" <= text);
    assert text != "*";
    if p.Range? {
      RangeRead(p.first, p.last, "");
      assert text == p.first + "-" + (p.last + "");
    } else {
      NoMarks(p.step);
      RangeRead(p.first, p.last, "/" + p.step);
      assert text == p.first + "-" + (p.last + ("/" + p.step));
    }
  }

  /** The candidate parser reads the text of an accepted part as Read says. */
  lemma PartRead(p: Part, rule: Rule)
    requires p.WellFormed() && p.InBounds(rule)
    ensures ValidateSubPart(p.Text(), rule)
    ensures PartCandidates(p.Text(), rule) == p.Read(rule)
  {
    PartAccepted(p, rule);
    if p.Star? {
    } else if p.EveryN? {
      StepRead(p.step, rule);
    } else if p.Range? || p.SteppedRange? {
      RangePartRead(p, rule);
    } else if p.Number? {
      NoMarks(p.n);
    } else {
      PartMarks(p);
      assert p.Text()[|p.n|] == '/' && !IsDigit('/');
    }
  }

  /**
   For every accepted part, the candidates are the numbers the part denotes exactly when it has no
   step on anything but a star, or a step that leaves nothing out.
   */
  lemma CandidatesAreDenoted(p: Part, rule: Rule)
    requires p.WellFormed() && p.InBounds(rule)
    ensures ValidateSubPart(p.Text(), rule)
    ensures (forall x :: x in PartCandidates(p.Text(), rule) <==> p.Denotes(rule, x)) <==> p.ReadAsWritten()
  {
    hide NatOf, PartCandidates, ValidateSubPart;
    PartRead(p, rule);
    match p
    case SteppedRange(first, last, step) =>
      var a, b, n := NatOf(first), NatOf(last), NatOf(step);
      if n == 1 || a == b {
        assert n == 1 ==> forall x: int :: OnStep(a, x, n);
      } else {
        ModOf(0, n, 1);
        assert a + 1 in PartCandidates(p.Text(), rule) && !p.Denotes(rule, a + 1);
      }
    case SteppedNumber(n, step) =>
      assert p.Denotes(rule, NatOf(n)) by { ModOf(0, NatOf(step), 0); }
      assert NatOf(n) !in PartCandidates(p.Text(), rule);
    case _ =>
  }

  // Candidates of an accepted field may lie outside the rule's bounds, but never all of them.

  lemma {:induction false} LeadingDigitsPrefix(p: string, rest: string)
    requires rest != "" && !IsDigit(rest[0])
    ensures LeadingDigits(p + rest) == LeadingDigits(p)
  {
    if p == "" {
      assert p + rest == rest;
    } else {
      assert (p + rest)[1..] == p[1..] + rest;
      LeadingDigitsPrefix(p[1..], rest);
    }
  }

  /** The first piece of a text has the leading digits of the whole. */
  lemma FirstPieceDigits(s: string, sep: char)
    requires sep in s && !IsDigit(sep)
    ensures LeadingDigits(Split(s, sep)[0]) == LeadingDigits(s)
  {
    var i := IndexOf(s, sep);
    assert s == s[..i] + s[i..];
    LeadingDigitsPrefix(s[..i], s[i..]);
  }

  lemma NumeralDigits(s: string)
    requires IsNumeral(s)
    ensures LeadingDigits(s) == s && s != ""
  {
    LeadingDigitsOf(s, "");
    assert s + "" == s;
  }

  /** An accepted part that does not start with a star starts with a number within the bounds. */
  lemma {:induction false} StartsInBounds(part: string, rule: Rule)
    requires ValidateSubPart(part, rule) && part != "*" && !("*/" <= part)
    ensures var d := LeadingDigits(part); d != "" && rule.min <= NatOf(d) <= rule.max
    decreases |part|
  {
    hide NatOf, LeadingDigits, IsNumeral;
    if '/' in part {
      SplitShortens(part, '/');
      var first := Split(part, '/')[0];
      FirstPieceDigits(part, '/');
      assert part[..|first| + 1] == first + "/";
      hide Split;
      StartsInBounds(first, rule);
    } else if '-' in part {
      SplitShortens(part, '-');
      FirstPieceDigits(part, '-');
      NumeralDigits(Split(part, '-')[0]);
    } else {
      NumeralDigits(part);
    }
  }

  lemma ParseIntOfDigits(s: string)
    requires LeadingDigits(s) != ""
    ensures ParseInt(s) == Some(NatOf(LeadingDigits(s)))
  {
    DigitStarts(s[0]);
    hide NatOf, JsSpace;
  }

  lemma PartReachesBounds(part: string, rule: Rule)
    requires rule.min <= rule.max && ValidateSubPart(part, rule) && PartCandidates(part, rule) != {}
    ensures exists x :: x in PartCandidates(part, rule) && Between(rule.min, x, rule.max)
  {
    hide NatOf, ParseInt, LeadingDigits, ValidateSubPart;
    if part == "*" {
      assert rule.min in PartCandidates(part, rule);
    } else if "*/" <= part {
      StepOf(part, rule);
      ModOf(0, ParseInt(part[2..]).value, 0);
      assert rule.min in PartCandidates(part, rule);
    } else {
      StartsInBounds(part, rule);
      if '-' in part {
        SplitShortens(part, '-');
        FirstPieceDigits(part, '-');
        ParseIntOfDigits(Split(part, '-')[0]);
        assert NatOf(LeadingDigits(part)) in PartCandidates(part, rule);
      } else {
        NumeralDigits(part);
        assert NatOf(part) in PartCandidates(part, rule);
      }
    }
  }

  /** The candidates of an accepted field are empty, or one of them lies within the rule's bounds. */
  lemma FieldReachesBounds(field: string, rule: Rule)
    requires rule.min <= rule.max && ValidateField(field, rule)
    ensures FieldCandidates(Split(field, ','), rule) != {} ==>
              exists x :: x in FieldCandidates(Split(field, ','), rule) && Between(rule.min, x, rule.max)
  {
    hide ValidateSubPart, PartCandidates, Split;
    var all := FieldCandidates(Split(field, ','), rule);
    if all != {} {
      HasElement(all);
      var x :| x in all;
      var part :| part in Split(field, ',') && x in PartCandidates(part, rule);
      PartReachesBounds(part, rule);
    }
  }

  function Texts(parts: seq<Part>): (texts: seq<string>)
    ensures |texts| == |parts|
    ensures forall i :: 0 <= i < |parts| ==> texts[i] == parts[i].Text()
  {
    seq(|parts|, i requires 0 <= i < |parts| => parts[i].Text())
  }

  lemma FieldSplits(parts: seq<Part>)
    requires parts != [] && forall p :: p in parts ==> p.WellFormed()
    ensures Split(Join(Texts(parts), ","), ',') == Texts(parts)
    ensures Join(Texts(parts), ",") != ""
  {
    var texts := Texts(parts);
    forall t | t in texts ensures ',' !in t && t != "" {
      var i :| 0 <= i < |texts| && texts[i] == t;
      assert parts[i] in parts;
      PartMarks(parts[i]);
    }
    SplitJoin(texts, ',');
    assert texts[0] in texts;
  }

  /** A field is accepted exactly when each of its parts keeps its bounds. */
  lemma FieldAccepted(parts: seq<Part>, rule: Rule)
    requires parts != [] && forall p :: p in parts ==> p.WellFormed()
    ensures ValidateField(Join(Texts(parts), ","), rule) <==> forall p :: p in parts ==> p.InBounds(rule)
  {
    FieldSplits(parts);
    var texts := Texts(parts);
    forall p | p in parts ensures p.Text() in texts && (ValidateSubPart(p.Text(), rule) <==> p.InBounds(rule)) {
      var i :| 0 <= i < |parts| && parts[i] == p;
      assert texts[i] == p.Text();
      PartAccepted(p, rule);
    }
    forall t | t in texts ensures exists p :: p in parts && p.Text() == t {
      var i :| 0 <= i < |texts| && texts[i] == t;
      assert parts[i] in parts;
    }
  }

  lemma DenotesSomething(p: Part, rule: Rule)
    requires rule.min <= rule.max && p.WellFormed() && p.InBounds(rule)
    ensures exists x :: p.Denotes(rule, x)
  {
    match p
    case Star => assert p.Denotes(rule, rule.min);
    case EveryN(step) => assert p.Denotes(rule, rule.min) by { ModOf(0, NatOf(step), 0); }
    case Range(first, _) => assert p.Denotes(rule, NatOf(first));
    case Number(n) => assert p.Denotes(rule, NatOf(n));
    case SteppedRange(first, _, step) => assert p.Denotes(rule, NatOf(first)) by { ModOf(0, NatOf(step), 0); }
    case SteppedNumber(n, step) => assert p.Denotes(rule, NatOf(n)) by { ModOf(0, NatOf(step), 0); }
  }

  /**
   An accepted field whose parts are all read as written yields candidates that are not empty, lie
   inside the rule's bounds, and are exactly the numbers some part denotes.
   */
  lemma FieldDenotation(parts: seq<Part>, rule: Rule)
    requires rule.min <= rule.max
    requires parts != [] && forall p :: p in parts ==> p.WellFormed() && p.ReadAsWritten()
    requires ValidateField(Join(Texts(parts), ","), rule)
    ensures var c := FieldCandidates(Split(Join(Texts(parts), ","), ','), rule);
            && c != {}
            && (forall x :: x in c ==> rule.min <= x <= rule.max)
            && (forall p :: p in parts ==> p.InBounds(rule))
            && forall x :: x in c <==> exists p :: p in parts && p.Denotes(rule, x)
  {
    FieldSplits(parts);
    FieldAccepted(parts, rule);
    var texts := Texts(parts);
    var c := FieldCandidates(texts, rule);
    forall p | p in parts
      ensures p.Text() in texts && forall x :: x in PartCandidates(p.Text(), rule) <==> p.Denotes(rule, x)
    {
      var i :| 0 <= i < |parts| && parts[i] == p;
      assert texts[i] == p.Text();
      CandidatesAreDenoted(p, rule);
    }
    forall x | x in c ensures exists p :: p in parts && p.Denotes(rule, x) {
      var t :| t in texts && x in PartCandidates(t, rule);
      var i :| 0 <= i < |texts| && texts[i] == t;
      assert parts[i] in parts;
    }
    assert parts[0] in parts;
    DenotesSomething(parts[0], rule);
  }

  lemma ReadSomething(p: Part, rule: Rule)
    requires rule.min <= rule.max && p.WellFormed() && p.InBounds(rule)
    ensures p.Read(rule) == {} <==> p.SteppedNumber?
  {
    match p
    case Star => assert rule.min in p.Read(rule);
    case EveryN(step) => assert rule.min in p.Read(rule) by { ModOf(0, NatOf(step), 0); }
    case Range(first, _) => assert NatOf(first) in p.Read(rule);
    case Number(n) => assert NatOf(n) in p.Read(rule);
    case SteppedRange(first, _, _) => assert NatOf(first) in p.Read(rule);
    case SteppedNumber(_, _) =>
  }

  /** The field reads as nothing at all exactly when every part of it is a stepped number. */
  lemma NothingRead(parts: seq<Part>, rule: Rule)
    requires rule.min <= rule.max && parts != [] && forall p :: p in parts ==> p.WellFormed()
    requires ValidateField(Join(Texts(parts), ","), rule)
    ensures FieldCandidates(Split(Join(Texts(parts), ","), ','), rule) == {} <==>
            forall p :: p in parts ==> p.SteppedNumber?
  {
    hide ValidateSubPart, PartCandidates, NatOf;
    FieldSplits(parts);
    FieldAccepted(parts, rule);
    var texts := Texts(parts);
    forall p | p in parts
      ensures p.Text() in texts && (PartCandidates(p.Text(), rule) == {} <==> p.SteppedNumber?)
    {
      var i :| 0 <= i < |parts| && parts[i] == p;
      assert texts[i] == p.Text();
      PartRead(p, rule);
      ReadSomething(p, rule);
    }
    forall text | text in texts ensures exists p :: p in parts && p.Text() == text {
      var i :| 0 <= i < |texts| && texts[i] == text;
      assert parts[i] in parts;
    }
  }

  // Whole expressions.

  predicate NoSpace(s: string) {
    forall i :: 0 <= i < |s| ==> !JsSpace(s[i])
  }

  lemma {:induction false} RunLengthOf(word: string, rest: string)
    requires NoSpace(word) && (rest == "" || JsSpace(rest[0]))
    ensures RunLength(word + rest) == |word|
  {
    if word == "" {
      assert word + rest == rest;
    } else {
      assert (word + rest)[1..] == word[1..] + rest;
      RunLengthOf(word[1..], rest);
    }
  }

  /** The first word, when a blank or nothing follows it. */
  lemma WordsStep(word: string, rest: string)
    requires word != "" && NoSpace(word) && (rest == "" || JsSpace(rest[0]))
    ensures Words(word + rest) == [word] + Words(rest)
  {
    hide JsSpace;
    RunLengthOf(word, rest);
    assert (word + rest)[0] == word[0];
    assert (word + rest)[..|word|] == word && (word + rest)[|word|..] == rest;
  }

  lemma WordsAfterBlank(s: string)
    ensures JsSpace(' ') && Words(" " + s) == Words(s)
  {
    assert JsSpace(' ');
    hide JsSpace;
    assert (" " + s)[1..] == s;
  }

  lemma NoWords()
    ensures Words("") == []
  {
  }

  /** Words undoes joining with blanks. */
  lemma {:induction false} WordsOfJoin(words: seq<string>)
    requires forall w :: w in words ==> w != "" && NoSpace(w)
    ensures Words(Join(words, " ")) == words
  {
    hide Words, JsSpace, NoSpace;
    if words == [] {
      NoWords();
    } else {
      assert words[0] in words && forall w :: w in words[1..] ==> w in words;
      var tail := Join(words[1..], " ");
      var rest := if |words| == 1 then "" else " " + tail;
      assert Join(words, " ") == words[0] + rest;
      WordsAfterBlank(tail);
      WordsStep(words[0], rest);
      NoWords();
      WordsOfJoin(words[1..]);
    }
  }

  lemma NumeralHasNoSpace(d: string)
    requires AllDigits(d)
    ensures NoSpace(d)
  {
    forall i | 0 <= i < |d| ensures !JsSpace(d[i]) {
      DigitStarts(d[i]);
    }
  }

  lemma PartHasNoSpace(p: Part)
    requires p.WellFormed()
    ensures NoSpace(p.Text())
  {
    assert !JsSpace('*') && !JsSpace('/') && !JsSpace('-');
    hide JsSpace;
    match p
    case Star =>
    case EveryN(step) => NumeralHasNoSpace(step);
    case Range(first, last) => NumeralHasNoSpace(first); NumeralHasNoSpace(last);
    case Number(n) => NumeralHasNoSpace(n);
    case SteppedRange(first, last, step) => NumeralHasNoSpace(first); NumeralHasNoSpace(last); NumeralHasNoSpace(step);
    case SteppedNumber(n, step) => NumeralHasNoSpace(n); NumeralHasNoSpace(step);
  }

  lemma {:induction false} JoinHasNoSpace(texts: seq<string>)
    requires forall text :: text in texts ==> NoSpace(text)
    ensures NoSpace(Join(texts, ","))
  {
    assert !JsSpace(',');
    hide JsSpace;
    if |texts| <= 1 {
    } else {
      JoinHasNoSpace(texts[1..]);
      assert NoSpace(texts[0]);
    }
  }

  /** The fields of an expression, each a list of parts. */
  predicate IsExpression(fields: seq<seq<Part>>) {
    |fields| == 5 && forall i :: 0 <= i < 5 ==> fields[i] != [] && forall p :: p in fields[i] ==> p.WellFormed()
  }

  function FieldTexts(fields: seq<seq<Part>>): (texts: seq<string>)
    ensures |texts| == |fields|
    ensures forall i :: 0 <= i < |fields| ==> texts[i] == Join(Texts(fields[i]), ",")
  {
    seq(|fields|, i requires 0 <= i < |fields| => Join(Texts(fields[i]), ","))
  }

  function ExpressionText(fields: seq<seq<Part>>): string {
    Join(FieldTexts(fields), " ")
  }

  lemma FieldHasNoSpace(parts: seq<Part>)
    requires forall p :: p in parts ==> p.WellFormed()
    ensures NoSpace(Join(Texts(parts), ","))
  {
    var texts := Texts(parts);
    forall text | text in texts ensures NoSpace(text) {
      var i :| 0 <= i < |texts| && texts[i] == text;
      assert parts[i] in parts;
      PartHasNoSpace(parts[i]);
    }
    JoinHasNoSpace(texts);
  }

  /** A whole expression is valid exactly when each part of it keeps the bounds of its field. */
  lemma ExpressionAccepted(fields: seq<seq<Part>>)
    requires IsExpression(fields)
    ensures Words(ExpressionText(fields)) == FieldTexts(fields)
    ensures ValidateCron(ExpressionText(fields)).Valid? <==>
            forall i :: 0 <= i < 5 ==> forall p :: p in fields[i] ==> p.InBounds(FIELD_RULES[i])
  {
    hide ValidateField, Words, NoSpace, Part.InBounds;
    var texts := FieldTexts(fields);
    forall i | 0 <= i < 5
      ensures texts[i] != "" && NoSpace(texts[i])
      ensures ValidateField(texts[i], FIELD_RULES[i]) <==> forall p :: p in fields[i] ==> p.InBounds(FIELD_RULES[i])
    {
      FieldSplits(fields[i]);
      FieldAccepted(fields[i], FIELD_RULES[i]);
      FieldHasNoSpace(fields[i]);
    }
    WordsOfJoin(texts);
  }

  function NumberFields(numbers: seq<nat>): (fields: seq<seq<Part>>)
    ensures |fields| == |numbers|
    ensures forall i :: 0 <= i < |numbers| ==> fields[i] == [Part.Number(ShowNat(numbers[i]))]
  {
    seq(|numbers|, i requires 0 <= i < |numbers| => [Part.Number(ShowNat(numbers[i]))])
  }

  lemma NumberWithin(number: nat, rule: Rule)
    ensures (forall p: Part :: p in [Part.Number(ShowNat(number))] ==> p.InBounds(rule)) <==>
            rule.min <= number <= rule.max
  {
    NatOfShowNat(number);
    assert Part.Number(ShowNat(number)) in [Part.Number(ShowNat(number))];
    hide NatOf, ShowNat;
  }

  /** Five single numbers are valid exactly within the bounds of minute, hour, day, month and day of week. */
  lemma NumbersAccepted(numbers: seq<nat>)
    requires |numbers| == 5
    ensures ValidateCron(ExpressionText(NumberFields(numbers))).Valid? <==>
            numbers[0] <= 59 && numbers[1] <= 23 && 1 <= numbers[2] <= 31 && 1 <= numbers[3] <= 12 && numbers[4] <= 7
  {
    hide ValidateCron, ExpressionText, NatOf, ShowNat;
    var fields := NumberFields(numbers);
    ExpressionAccepted(fields);
    forall i | 0 <= i < 5
      ensures (forall p: Part :: p in fields[i] ==> p.InBounds(FIELD_RULES[i])) <==>
              FIELD_RULES[i].min <= numbers[i] <= FIELD_RULES[i].max
    {
      NumberWithin(numbers[i], FIELD_RULES[i]);
    }
  }
}
