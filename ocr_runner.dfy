/** The server-side passport reader's number extraction: the check digit of
    ICAO Doc 9303 Part 3 (section 4.9), the five strategies that look for the
    document number in the recognised text, and the "looks like a passport"
    test. The text is upper-cased first; every regular expression is written
    out as the search the engine performs. */
module OcrRunner {
  import opened Prelude

  // ---------------------------------------------------------------------
  // Check digit
  // ---------------------------------------------------------------------

  /** `_mrz_char_value`: digits count their face value, `A`..`Z` count
      10..35, the filler `<` and everything else 0. */
  function MrzCharValue(ch: char): (v: nat)
    ensures v <= 35
  {
    if ch == '<' then 0
    else if IsDigit(ch) then ch as int - '0' as int
    else if IsUpper(ch) then ch as int - 55
    else 0
  }

  /** The values of `[A-Z0-9]` are pairwise distinct: 0..9 for the digits,
      10..35 for the letters; only the filler shares 0 with `0`. */
  lemma MrzCharValueInjective(a: char, b: char)
    requires IsUpperAlnum(a) && IsUpperAlnum(b) && a != b
    ensures MrzCharValue(a) != MrzCharValue(b)
    ensures IsDigit(a) ==> MrzCharValue(a) < 10
    ensures IsUpper(a) ==> 10 <= MrzCharValue(a) <= 35
  {
  }

  /** The weights 7, 3, 1, repeating. */
  function Weight(i: nat): (w: nat)
    ensures w == 7 || w == 3 || w == 1
  {
    [7, 3, 1][i % 3]
  }

  /** The weighted sum of the values from position `i` on. */
  function SumFrom(s: string, i: nat): nat
    decreases |s| - i
  {
    if i >= |s| then 0 else MrzCharValue(s[i]) * Weight(i) + SumFrom(s, i + 1)
  }

  /** The weighted sum of all values. */
  function CheckSum(s: string): nat { SumFrom(s, 0) }

  /** The check digit: the weighted sum modulo 10, as a digit character. */
  function CheckDigit(s: string): (c: char)
    ensures IsDigit(c) && DigitValue(c) == CheckSum(s) % 10
  {
    DigitChar(CheckSum(s) % 10)
  }

  /** `_mrz_check_digit`: the loop that accumulates the weighted sum. */
  method MrzCheckDigit(value: string) returns (r: string)
    ensures r == [CheckDigit(value)]
    ensures |r| == 1 && IsDigit(r[0])
  {
    var total := 0;
    var i := 0;
    while i < |value|
      invariant 0 <= i <= |value|
      invariant total + SumFrom(value, i) == CheckSum(value)
    {
      total := total + MrzCharValue(value[i]) * Weight(i);
      i := i + 1;
    }
    r := [DigitChar(total % 10)];
  }

  /** Replacing one character changes the sum by the difference of the
      values times that position's weight. */
  lemma {:induction false} SumFromUpdate(s: string, i: nat, j: nat, c: char)
    requires i <= j < |s|
    ensures SumFrom(s[j := c], i) == SumFrom(s, i) + Weight(j) * (MrzCharValue(c) - MrzCharValue(s[j]))
    decreases j - i
  {
    var t := s[j := c];
    if i < j {
      SumFromUpdate(s, i + 1, j, c);
    } else {
      SumFromSame(s, t, i + 1);
      Distribute(Weight(j), MrzCharValue(c), MrzCharValue(s[j]));
    }
  }

  lemma Distribute(w: int, a: int, b: int)
    ensures a * w - b * w == w * (a - b)
  {
  }

  /** Positions past a change contribute the same. */
  lemma {:induction false} SumFromSame(s: string, t: string, i: nat)
    requires |s| == |t| && forall k :: i <= k < |s| ==> s[k] == t[k]
    ensures SumFrom(s, i) == SumFrom(t, i)
    decreases |s| - i
  {
    if i < |s| {
      SumFromSame(s, t, i + 1);
    }
  }

  /** The check digit catches every single wrong digit: 7, 3 and 1 are prime
      to 10, so a change of one digit by 1..9 changes the sum modulo 10. */
  lemma CheckDigitDetectsDigitError(s: string, j: nat, c: char)
    requires j < |s| && IsDigit(s[j]) && IsDigit(c) && c != s[j]
    ensures CheckDigit(s[j := c]) != CheckDigit(s)
  {
    SumFromUpdate(s, 0, j, c);
    var d := MrzCharValue(c) - MrzCharValue(s[j]);
    assert -9 <= d <= 9 && d != 0;
    var w := Weight(j);
    WeightedShift(CheckSum(s), w, d);
  }

  /** Adding 7, 3 or 1 times a non-zero amount within 9 of zero always
      changes the last decimal digit. */
  lemma WeightedShift(a: int, w: int, d: int)
    requires w == 7 || w == 3 || w == 1
    requires -9 <= d <= 9 && d != 0
    ensures (a + w * d) % 10 != a % 10
  {
    if w == 7 {
      assert w * d == 7 * d;
    } else if w == 3 {
      assert w * d == 3 * d;
    } else {
      assert w * d == d;
    }
  }

  /** The check digit of the document number of the ICAO Doc 9303 specimen. */
  lemma SpecimenCheckDigit()
    ensures CheckDigit("L898902C3") == '6'
  {
    var s := "L898902C3";
    assert SumFrom(s, 9) == 0;
    assert SumFrom(s, 8) == 3;
    assert SumFrom(s, 7) == 39;
    assert SumFrom(s, 6) == 53;
    assert SumFrom(s, 5) == 53;
    assert SumFrom(s, 4) == 80;
    assert SumFrom(s, 3) == 136;
    assert SumFrom(s, 2) == 145;
    assert SumFrom(s, 1) == 169;
    assert SumFrom(s, 0) == 316;
  }

  // ---------------------------------------------------------------------
  // Lines and compact text
  // ---------------------------------------------------------------------

  predicate NotPySpace(c: char) { !IsPySpace(c) }

  /** `[line for line in text.splitlines() if line.strip()]`. Splitting at
      every line-boundary character gives the same non-blank lines: the
      extra empty piece between `\r` and `\n` is blank and dropped. */
  function PyLines(t: string): (lines: seq<string>)
    ensures forall k :: 0 <= k < |lines| ==> !IsBlank(lines[k], IsPySpace)
  {
    NonBlank(Split(t, IsPyLineBreak), IsPySpace)
  }

  /** `re.sub(r'\s+', '', text)` */
  function Compact(t: string): (c: string)
    ensures forall ch :: ch in c ==> !IsPySpace(ch)
  {
    Filter(t, NotPySpace)
  }

  predicate NotFiller(c: char) { c != '<' }

  /** `field.replace('<', '')` */
  function RemoveFillers(s: string): (r: string)
    ensures forall c :: c in r ==> c in s && c != '<'
    ensures |r| <= |s|
  {
    Filter(s, NotFiller)
  }

  // ---------------------------------------------------------------------
  // Fixed-length machine-readable-zone patterns
  // ---------------------------------------------------------------------

  /** The character classes of the fixed-length patterns. */
  datatype Cls = MrzCls | Digit | Letter | Sex | DateSep

  predicate InCls(k: Cls, c: char) {
    match k
    case MrzCls => IsMrzChar(c)
    case Digit => IsDigit(c)
    case Letter => IsUpper(c)
    case Sex => c == 'M' || c == 'F' || c == '<'
    case DateSep => c == '/' || c == '-'
  }

  function Rep(k: Cls, n: nat): (r: seq<Cls>)
    ensures |r| == n && forall i :: 0 <= i < n ==> r[i] == k
  {
    seq(n, _ => k)
  }

  /** Document number, check digit, nationality, birth date, check digit,
      sex: `[A-Z0-9<]{9}\d[A-Z]{3}\d{6}\d[MF<]`. */
  const PersonalData: seq<Cls> := Rep(MrzCls, 9) + [Digit] + Rep(Letter, 3) + Rep(Digit, 6) + [Digit] + [Sex]

  /** The same, followed by the expiry date and its check digit. */
  const CompactData: seq<Cls> := PersonalData + Rep(Digit, 6) + [Digit]

  predicate MatchesAt(c: string, i: nat, pat: seq<Cls>) {
    i + |pat| <= |c| && forall k :: 0 <= k < |pat| ==> InCls(pat[k], c[i + k])
  }

  /** The leftmost position at which the pattern matches. */
  function Search(c: string, pat: seq<Cls>): (r: Option<nat>)
    ensures r.Some? ==> MatchesAt(c, r.value, pat) && forall j :: 0 <= j < r.value ==> !MatchesAt(c, j, pat)
    ensures r.None? ==> forall j :: 0 <= j < |c| ==> !MatchesAt(c, j, pat)
  {
    var p := (i: nat) => MatchesAt(c, i, pat);
    var r := FirstIndex(0, |c|, p);
    assert forall j: nat :: p(j) == MatchesAt(c, j, pat);
    r
  }

  lemma PersonalDataShape()
    ensures |PersonalData| == 21 && |CompactData| == 28
    ensures forall k :: 0 <= k < 9 ==> PersonalData[k] == MrzCls
    ensures PersonalData[9] == Digit
    ensures forall k :: 10 <= k < 13 ==> PersonalData[k] == Letter
    ensures forall k :: 13 <= k < 20 ==> PersonalData[k] == Digit
    ensures forall k :: 0 <= k < 21 ==> CompactData[k] == PersonalData[k]
  {
  }

  // ---------------------------------------------------------------------
  // The five strategies of `extract_passport_number`
  // ---------------------------------------------------------------------

  /** `re.sub(r'[^A-Z0-9<]', '', line)` */
  function CleanMrz(line: string): (r: string)
    ensures forall c :: c in r ==> IsMrzChar(c)
  {
    Filter(line, IsMrzChar)
  }

  function MrzLines(t: string): (lines: seq<string>)
    ensures forall k :: 0 <= k < |lines| ==> forall c :: c in lines[k] ==> IsMrzChar(c)
  {
    MapStrings(PyLines(t), CleanMrz)
  }

  /** The document-number field of a data line `l2` under the line `l1`:
      `l1` opens a passport, the field's check digit holds, and without
      fillers it is 6 to 9 characters long. */
  function TwoLineAt(l1: string, l2: string): (r: Option<string>)
    ensures r.Some? ==> (StartsWith(l1, "P<") && |l2| >= 10 && IsDigit(l2[9]) && CheckDigit(l2[..9]) == l2[9]
                         && r.value == RemoveFillers(l2[..9]) && 6 <= |r.value| <= 9)
  {
    if StartsWith(l1, "P<") && |l2| >= 10 then
      var field := l2[..9];
      var checkDigit := l2[9];
      if IsDigit(checkDigit) && CheckDigit(field) == checkDigit then
        var num := RemoveFillers(field);
        if 6 <= |num| <= 9 then Some(num) else None
      else None
    else None
  }

  /** Strategy 1: the first pair of consecutive lines that yields a number. */
  function TwoLine(lines: seq<string>): Option<string>
  {
    FirstMatch(0, if |lines| > 0 then |lines| - 1 else 0,
      (i: nat) => if i + 1 < |lines| then TwoLineAt(lines[i], lines[i + 1]) else None)
  }

  /** Strategy 2: the leftmost 28-character data block of the compact text,
      when its document number's check digit holds; a failing first block
      ends the strategy. */
  function CompactMrz(t: string): (r: Option<string>)
    ensures r.Some? ==> 6 <= |r.value| <= 9
  {
    var c := Compact(t);
    match Search(c, CompactData)
    case None => None
    case Some(i) =>
      var field := c[i..i + 9];
      if CheckDigit(field) == c[i + 9] then
        var num := RemoveFillers(field);
        if 6 <= |num| <= 9 then Some(num) else None
      else None
  }

  predicate IsLabelSep(c: char) { IsPySpace(c) || c == ':' || c == '#' || c == '/' || c == '\\' || c == '-' }

  /** Where the number group can start after `PASSPORT` ends at `q`, in the
      order tried: `\s*(NO|NUMBER)?[\s:#/\\\-]*`. */
  function LabelCandidates(t: string, q: nat): seq<nat>
  {
    Bind(Star(t, q, IsPySpace), (s1: nat) =>
      Bind(Alts(t, s1, ["NO", "NUMBER"]), (g: nat) =>
        Star(t, g, IsLabelSep)))
  }

  function LabeledAt(t: string, p: nat): (r: Option<string>)
    ensures r.Some? ==> 6 <= |r.value| <= 10 && forall c :: c in r.value ==> IsUpperAlnum(c)
  {
    if !OccursAt(t, "PASSPORT", p) then None
    else match FirstFitting(t, LabelCandidates(t, p + 8), IsUpperAlnum, 6)
      case None => None
      case Some(q) => Some(Greedy(t, q, IsUpperAlnum, 6, 10))
  }

  /** Strategy 3: `PASSPORT\s*(NO|NUMBER)?[\s:#/\\\-]*([A-Z0-9]{6,10})`. */
  function Labeled(t: string): (r: Option<string>)
    ensures r.Some? ==> 6 <= |r.value| <= 10 && forall c :: c in r.value ==> IsUpperAlnum(c)
  {
    FirstMatch(0, |t| + 1, (p: nat) => LabeledAt(t, p))
  }

  /** Where `PASSPORT\s*(NO|NUMBER)?` ends when it starts at `p`: the greedy
      spaces, then `NO` or `NUMBER` if present. */
  function MarkerEnd(t: string, p: nat): (e: nat)
    requires OccursAt(t, "PASSPORT", p)
    ensures p + 8 <= e <= |t|
  {
    var s1 := p + 8 + Run(t, p + 8, IsPySpace);
    if OccursAt(t, "NO", s1) then s1 + 2
    else if OccursAt(t, "NUMBER", s1) then s1 + 6
    else s1
  }

  /** `n` capital letters at `i` followed by at least seven digits. */
  predicate LettersThenDigits(s: string, i: nat, n: nat) {
    i + n <= |s| && (forall k :: i <= k < i + n ==> IsUpper(s[k])) && Run(s, i + n, IsDigit) >= 7
  }

  /** `([A-Z]{1,2}[0-9]{7,8})` at `i`: two letters tried before one, then as
      many digits as there are, up to eight. */
  function NearAt(s: string, i: nat): (r: Option<string>)
    ensures r.Some? ==> 8 <= |r.value| <= 10 && forall c :: c in r.value ==> IsUpperAlnum(c)
  {
    if LettersThenDigits(s, i, 2) then
      var d := Greedy(s, i + 2, IsDigit, 7, 8);
      assert forall c :: c in s[i..i + 2] ==> IsUpper(c);
      Some(s[i..i + 2] + d)
    else if LettersThenDigits(s, i, 1) then
      var d := Greedy(s, i + 1, IsDigit, 7, 8);
      Some(s[i..i + 1] + d)
    else None
  }

  /** Strategy 4: a letters-and-digits number within the 120 characters
      after the first `PASSPORT` marker. */
  function NearMarker(t: string): (r: Option<string>)
    ensures r.Some? ==> 8 <= |r.value| <= 10 && forall c :: c in r.value ==> IsUpperAlnum(c)
  {
    match FirstIndex(0, |t| + 1, (p: nat) => OccursAt(t, "PASSPORT", p))
    case None => None
    case Some(p) =>
      var e := MarkerEnd(t, p);
      var tail := t[e..if e + 120 <= |t| then e + 120 else |t|];
      FirstMatch(0, |tail|, (i: nat) => NearAt(tail, i))
  }

  /** `\b` at position `i`. */
  predicate WordBoundary(s: string, i: nat) {
    (0 < i <= |s| && IsWordChar(s[i - 1])) != (i < |s| && IsWordChar(s[i]))
  }

  /** `n` capital letters then exactly `d` digits at `i`, followed by `\b`. */
  predicate TokenAt(s: string, i: nat, n: nat, d: nat) {
    i + n + d <= |s| && (forall k :: i <= k < i + n ==> IsUpper(s[k]))
    && (forall k :: i + n <= k < i + n + d ==> IsDigit(s[k])) && WordBoundary(s, i + n + d)
  }

  /** `\b([A-Z]{1,2}[0-9]{7,8})\b` at `i`, the counts tried greedily. */
  function GenericAt(s: string, i: nat): (r: Option<string>)
    ensures r.Some? ==> 8 <= |r.value| <= 10 && forall c :: c in r.value ==> IsUpperAlnum(c)
  {
    if !WordBoundary(s, i) then None
    else if TokenAt(s, i, 2, 8) then Some(s[i..i + 10])
    else if TokenAt(s, i, 2, 7) then Some(s[i..i + 9])
    else if TokenAt(s, i, 1, 8) then Some(s[i..i + 9])
    else if TokenAt(s, i, 1, 7) then Some(s[i..i + 8])
    else None
  }

  /** Strategy 5: a standalone number-like token anywhere. */
  function GenericToken(t: string): (r: Option<string>)
    ensures r.Some? ==> 8 <= |r.value| <= 10 && forall c :: c in r.value ==> IsUpperAlnum(c)
  {
    FirstMatch(0, |t| + 1, (i: nat) => GenericAt(t, i))
  }

  /** The five strategies. */
  datatype Strategy = TwoLines | CompactBlock | LabelledNumber | NearMarkerNumber | StandaloneToken

  /** The order in which they are tried. */
  const StrategyOrder: seq<Strategy> := [TwoLines, CompactBlock, LabelledNumber, NearMarkerNumber, StandaloneToken]

  function Apply(s: Strategy, t: string): Option<string>
  {
    match s
    case TwoLines => TwoLine(MrzLines(t))
    case CompactBlock => CompactMrz(t)
    case LabelledNumber => Labeled(t)
    case NearMarkerNumber => NearMarker(t)
    case StandaloneToken => GenericToken(t)
  }

  /** The first strategy that finds a number. */
  function FirstStrategy(t: string): Option<string>
  {
    FirstOf(StrategyOrder, (s: Strategy) => Apply(s, t))
  }

  lemma FirstOfCons<T, U>(x: T, xs: seq<T>, f: T -> Option<U>)
    ensures FirstOf([x] + xs, f) == if f(x).Some? then f(x) else FirstOf(xs, f)
  {
    assert ([x] + xs)[1..] == xs;
  }

  /** Stepping past position `k` of a scan. */
  lemma FirstOfStep<T, U>(xs: seq<T>, k: nat, f: T -> Option<U>)
    requires k < |xs|
    ensures FirstOf(xs[k..], f) == if f(xs[k]).Some? then f(xs[k]) else FirstOf(xs[k + 1..], f)
  {
    assert xs[k..] == [xs[k]] + xs[k + 1..];
    FirstOfCons(xs[k], xs[k + 1..], f);
  }

  /** The first of five candidates that yields something. */
  lemma FirstOfFive<T, U>(a: T, b: T, c: T, d: T, e: T, f: T -> Option<U>)
    ensures FirstOf([a, b, c, d, e], f) ==
      if f(a).Some? then f(a) else if f(b).Some? then f(b) else if f(c).Some? then f(c)
      else if f(d).Some? then f(d) else f(e)
  {
    assert [a, b, c, d, e] == [a] + [b, c, d, e];
    FirstOfCons(a, [b, c, d, e], f);
    FirstOfFour(b, c, d, e, f);
  }

  lemma FirstOfFour<T, U>(b: T, c: T, d: T, e: T, f: T -> Option<U>)
    ensures FirstOf([b, c, d, e], f) ==
      if f(b).Some? then f(b) else if f(c).Some? then f(c) else if f(d).Some? then f(d) else f(e)
  {
    assert [b, c, d, e] == [b] + [c, d, e];
    FirstOfCons(b, [c, d, e], f);
    FirstOfThree(c, d, e, f);
  }

  lemma FirstOfThree<T, U>(c: T, d: T, e: T, f: T -> Option<U>)
    ensures FirstOf([c, d, e], f) == if f(c).Some? then f(c) else if f(d).Some? then f(d) else f(e)
  {
    assert [c, d, e] == [c] + [d, e];
    FirstOfCons(c, [d, e], f);
    FirstOfTwo(d, e, f);
  }

  lemma FirstOfTwo<T, U>(d: T, e: T, f: T -> Option<U>)
    ensures FirstOf([d, e], f) == if f(d).Some? then f(d) else f(e)
  {
    assert [d, e] == [d] + [e];
    FirstOfCons(d, [e], f);
    assert [e] == [e] + [];
    FirstOfCons(e, [], f);
  }

  /** The strategies tried one after another. */
  lemma FirstStrategySteps(t: string)
    ensures FirstStrategy(t) ==
      if Apply(TwoLines, t).Some? then Apply(TwoLines, t)
      else if Apply(CompactBlock, t).Some? then Apply(CompactBlock, t)
      else if Apply(LabelledNumber, t).Some? then Apply(LabelledNumber, t)
      else if Apply(NearMarkerNumber, t).Some? then Apply(NearMarkerNumber, t)
      else Apply(StandaloneToken, t)
  {
    FirstOfFive(TwoLines, CompactBlock, LabelledNumber, NearMarkerNumber, StandaloneToken, (s: Strategy) => Apply(s, t));
  }

  /** A found number is 6 to 10 characters of `[A-Z0-9]`. */
  predicate WellFormedNumber(r: Option<string>) {
    r.Some? ==> 6 <= |r.value| <= 10 && forall c :: c in r.value ==> IsUpperAlnum(c)
  }

  /** `extract_passport_number` */
  function PassportNumberOf(text: string): string
  {
    match FirstStrategy(Upper(text))
    case None => ""
    case Some(n) => n
  }

  /** The first-line strategy's result reads the number off a data line
      under a `P<` line, with a valid check digit. */
  lemma TwoLineSound(lines: seq<string>)
    ensures var r := TwoLine(lines);
      r.Some? ==> exists i :: 0 <= i < |lines| - 1 && TwoLineAt(lines[i], lines[i + 1]) == r
  {
    var m := (i: nat) => if i + 1 < |lines| then TwoLineAt(lines[i], lines[i + 1]) else None;
    var r := TwoLine(lines);
    if r.Some? {
      var i: nat :| i < (if |lines| > 0 then |lines| - 1 else 0) && m(i) == r;
      assert TwoLineAt(lines[i], lines[i + 1]) == r;
    }
  }

  lemma TwoLineShape(lines: seq<string>)
    requires forall k :: 0 <= k < |lines| ==> forall c :: c in lines[k] ==> IsMrzChar(c)
    ensures var r := TwoLine(lines);
      r.Some? ==> 6 <= |r.value| <= 9 && forall c :: c in r.value ==> IsUpperAlnum(c)
  {
    TwoLineSound(lines);
    var r := TwoLine(lines);
    if r.Some? {
      var i :| 0 <= i < |lines| - 1 && TwoLineAt(lines[i], lines[i + 1]) == r;
      var l2 := lines[i + 1];
      var field := l2[..9];
      assert forall c :: c in field ==> c in l2;
    }
  }

  lemma CompactShape(t: string)
    ensures var r := CompactMrz(t);
      r.Some? ==> forall ch :: ch in r.value ==> IsUpperAlnum(ch)
  {
    var c := Compact(t);
    var found := Search(c, CompactData);
    if found.Some? {
      var i := found.value;
      var field := c[i..i + 9];
      PersonalDataShape();
      forall k | 0 <= k < 9
        ensures IsMrzChar(field[k])
      {
        assert InCls(CompactData[k], c[i + k]);
      }
    }
  }

  lemma ApplyShape(s: Strategy, t: string)
    ensures WellFormedNumber(Apply(s, t))
  {
    match s
    case TwoLines => TwoLineShape(MrzLines(t));
    case CompactBlock => CompactShape(t);
    case LabelledNumber =>
    case NearMarkerNumber =>
    case StandaloneToken =>
  }

  /** `extract_passport_number` returns 6 to 10 characters of `[A-Z0-9]`,
      or `''` exactly when every strategy fails. */
  lemma PassportNumberShape(text: string)
    ensures var r := PassportNumberOf(text);
      r == "" || (6 <= |r| <= 10 && forall c :: c in r ==> IsUpperAlnum(c))
    ensures PassportNumberOf(text) == "" <==> forall s :: s in StrategyOrder ==> Apply(s, Upper(text)).None?
  {
    var t := Upper(text);
    FirstStrategySteps(t);
    ApplyShape(TwoLines, t);
    ApplyShape(CompactBlock, t);
    ApplyShape(LabelledNumber, t);
    ApplyShape(NearMarkerNumber, t);
    ApplyShape(StandaloneToken, t);
    AllFail(t);
  }

  /** No strategy finds a number exactly when each of them fails. */
  lemma AllFail(t: string)
    ensures FirstStrategy(t).None? <==> forall s :: s in StrategyOrder ==> Apply(s, t).None?
  {
    FirstStrategySteps(t);
    if FirstStrategy(t).None? {
      forall s | s in StrategyOrder ensures Apply(s, t).None? {
        assert s == TwoLines || s == CompactBlock || s == LabelledNumber || s == NearMarkerNumber || s == StandaloneToken;
      }
    } else {
      assert TwoLines in StrategyOrder && CompactBlock in StrategyOrder && LabelledNumber in StrategyOrder;
      assert NearMarkerNumber in StrategyOrder && StandaloneToken in StrategyOrder;
    }
  }

  /** A data line whose first nine characters hold no filler and carry
      their check digit yields those nine characters. */
  lemma TwoLineAccepts(l1: string, field: string, cd: char, tail: string)
    requires StartsWith(l1, "P<") && |field| == 9 && IsDigit(cd) && CheckDigit(field) == cd
    requires forall c :: c in field ==> c != '<'
    ensures TwoLineAt(l1, field + [cd] + tail) == Some(field)
  {
    var l2 := field + [cd] + tail;
    assert l2[..9] == field && l2[9] == cd;
    NoFillers(field);
  }

  /** A wrong check digit rejects the line pair. */
  lemma TwoLineRejects(l1: string, field: string, cd: char, tail: string)
    requires |field| == 9 && CheckDigit(field) != cd
    ensures TwoLineAt(l1, field + [cd] + tail) == None
  {
    var l2 := field + [cd] + tail;
    assert l2[..9] == field && l2[9] == cd;
  }

  /** The name line of the ICAO Doc 9303 specimen passport. */
  const SpecimenNameLine: string := "P<" + "UTOERIKSSON<<ANNA<MARIA<<<<<<<<<<<<<<<<<<<"

  /** Its data line after the document number and the number's check digit. */
  const SpecimenDataTail: string := "UTO7408122F1204159ZE184226B<<<<<10"

  /** The specimen's data line under its name line yields the document
      number; with a wrong check digit it yields nothing. */
  lemma SpecimenTwoLine()
    ensures TwoLineAt(SpecimenNameLine, "L898902C3" + "6" + SpecimenDataTail) == Some("L898902C3")
    ensures TwoLineAt(SpecimenNameLine, "L898902C3" + "5" + SpecimenDataTail) == None
  {
    SpecimenCheckDigit();
    assert SpecimenNameLine[..2] == "P<";
    TwoLineAccepts(SpecimenNameLine, "L898902C3", '6', SpecimenDataTail);
    TwoLineRejects(SpecimenNameLine, "L898902C3", '5', SpecimenDataTail);
  }

  lemma NoFillers(s: string)
    requires forall c :: c in s ==> c != '<'
    ensures RemoveFillers(s) == s
  {
    FilterKeepsAll(s, NotFiller);
  }

  /** `extract_passport_number` with the first strategy's loop over line
      pairs and its early return. */
  method ExtractPassportNumber(text: string) returns (r: string)
    ensures r == PassportNumberOf(text)
  {
    var t := Upper(text);
    FirstStrategySteps(t);
    var two := ScanLinePairs(MrzLines(t));
    assert two == Apply(TwoLines, t);
    if two.Some? {
      return two.value;
    }
    var rest := Apply(CompactBlock, t);
    if rest.None? { rest := Apply(LabelledNumber, t); }
    if rest.None? { rest := Apply(NearMarkerNumber, t); }
    if rest.None? { rest := Apply(StandaloneToken, t); }
    r := if rest.Some? then rest.value else "";
  }

  /** The loop over consecutive line pairs. */
  method ScanLinePairs(lines: seq<string>) returns (r: Option<string>)
    ensures r == TwoLine(lines)
  {
    var n := if |lines| > 0 then |lines| - 1 else 0;
    var m := (i: nat) => if i + 1 < |lines| then TwoLineAt(lines[i], lines[i + 1]) else None;
    var i := 0;
    while i < n
      invariant 0 <= i <= n
      invariant FirstMatch(i, n, m) == FirstMatch(0, n, m)
    {
      var found := TwoLineAt(lines[i], lines[i + 1]);
      assert found == m(i);
      if found.Some? {
        return found;
      }
      i := i + 1;
    }
    return None;
  }

  // ---------------------------------------------------------------------
  // `is_likely_passport`
  // ---------------------------------------------------------------------

  const Hints: seq<string> := ["NATIONALITY", "SURNAME", "GIVEN", "DATE OF BIRTH", "SEX"]

  predicate HasKeyword(t: string) {
    Contains(t, "PASSPORT") || Contains(t, "护照") || Contains(t, "護照") || Contains(t, "旅券")
  }

  predicate IsLikelyPassport(text: string) {
    var t := Upper(text);
    HasKeyword(t) || (Contains(t, "P<") && Contains(t, "<")) || CountContained(t, Hints) >= 2
  }

  /** The `'<' in t` test adds nothing: `P<` already holds `<`. */
  lemma IsLikelyPassportIff(text: string)
    ensures var t := Upper(text);
      IsLikelyPassport(text) <==> HasKeyword(t) || Contains(t, "P<") || CountContained(t, Hints) >= 2
  {
    var t := Upper(text);
    if Contains(t, "P<") {
      ContainsIff(t, "P<");
      var i: nat :| OccursAt(t, "P<", i);
      assert t[i + 1] == '<';
      ContainsChar(t, '<');
    }
  }

  /** More text never makes a passport look less like one. */
  lemma IsLikelyPassportMonotone(a: string, b: string)
    requires IsLikelyPassport(a)
    ensures IsLikelyPassport(a + b)
  {
    UpperAppend(a, b);
    var t, u := Upper(a), Upper(b);
    assert Upper(a + b) == t + u;
    if Contains(t, "PASSPORT") { ContainsAppend(t, u, "PASSPORT"); }
    if Contains(t, "护照") { ContainsAppend(t, u, "护照"); }
    if Contains(t, "護照") { ContainsAppend(t, u, "護照"); }
    if Contains(t, "旅券") { ContainsAppend(t, u, "旅券"); }
    if Contains(t, "P<") && Contains(t, "<") {
      ContainsAppend(t, u, "P<");
      ContainsAppend(t, u, "<");
    }
    CountContainedAppend(t, u, Hints);
  }
}
