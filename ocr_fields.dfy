/** The server-side passport reader's other fields: the holder's name, the
    age computed from the date of birth, and the nationality. The text is
    upper-cased first; `today` stands for the clock the source reads. */
module OcrFields {
  import opened Prelude
  import opened OcrRunner

  // ---------------------------------------------------------------------
  // Lines
  // ---------------------------------------------------------------------

  /** `[ln.strip() for ln in t.splitlines() if ln.strip()]` */
  function StrippedLines(t: string): (lines: seq<string>)
    ensures |lines| == |PyLines(t)|
    ensures forall k :: 0 <= k < |lines| ==> lines[k] == PyStrip(PyLines(t)[k])
  {
    MapStrings(PyLines(t), PyStrip)
  }

  // ---------------------------------------------------------------------
  // Names
  // ---------------------------------------------------------------------

  /** `[A-Z,\s]`, what a name line keeps. */
  predicate NameLineChar(c: char) { IsUpper(c) || c == ',' || IsPySpace(c) }

  predicate SpaceOrComma(c: char) { c == ' ' || c == ',' }

  predicate IsComma(c: char) { c == ',' }

  /** `re.sub(r'[^A-Z,\s]', '', raw.upper()).strip(' ,')` */
  function CleanName(raw: string): (r: string)
    ensures forall c :: c in r ==> NameLineChar(c)
  {
    var kept := Filter(Upper(raw), NameLineChar);
    TrimSubset(kept, SpaceOrComma);
    Trim(kept, SpaceOrComma)
  }

  /** `[p.strip() for p in cleaned.split(',') if p.strip()]` */
  function NameParts(cleaned: string): seq<string>
  {
    MapStrings(NonBlank(Split(cleaned, IsComma), IsPySpace), PyStrip)
  }

  lemma NamePartsShape(cleaned: string)
    ensures forall k :: 0 <= k < |NameParts(cleaned)| ==>
      NameParts(cleaned)[k] != [] && forall c :: c in NameParts(cleaned)[k] ==> c in cleaned && c != ','
  {
    var pieces := NonBlank(Split(cleaned, IsComma), IsPySpace);
    forall k | 0 <= k < |pieces|
      ensures PyStrip(pieces[k]) != [] && forall c :: c in PyStrip(pieces[k]) ==> c in cleaned && c != ','
    {
      TrimSubset(pieces[k], IsPySpace);
      TrimEmptyIff(pieces[k], IsPySpace);
    }
  }

  /** `_normalize_name`: `SURNAME, GIVEN` becomes `GIVEN SURNAME`; otherwise
      the commas become spaces. */
  function NormalizeName(raw: string): string
  {
    NormalizeCleaned(CleanName(raw))
  }

  /** `_normalize_name` after the cleaning step. */
  function NormalizeCleaned(cleaned: string): string
  {
    if cleaned == [] then ""
    else if ',' in cleaned && |NameParts(cleaned)| >= 2 then
      var parts := NameParts(cleaned);
      PyStrip(parts[1] + " " + parts[0])
    else PyStrip(ReplaceChar(cleaned, ',', ' '))
  }

  /** A name is made of capital letters and white space. */
  predicate NameText(s: string) { forall c :: c in s ==> IsUpper(c) || IsPySpace(c) }

  lemma NormalizeNameText(raw: string)
    ensures NameText(NormalizeName(raw))
  {
    NormalizeCleanedText(CleanName(raw));
  }

  lemma NormalizeCleanedText(cleaned: string)
    requires forall c :: c in cleaned ==> NameLineChar(c)
    ensures NameText(NormalizeCleaned(cleaned))
  {
    if cleaned != [] {
      if ',' in cleaned && |NameParts(cleaned)| >= 2 {
        SwappedText(cleaned);
      } else {
        SpacedText(cleaned);
      }
    }
  }

  lemma SwappedText(cleaned: string)
    requires forall c :: c in cleaned ==> NameLineChar(c)
    requires |NameParts(cleaned)| >= 2
    ensures NameText(PyStrip(NameParts(cleaned)[1] + " " + NameParts(cleaned)[0]))
  {
    var parts := NameParts(cleaned);
    NamePartsShape(cleaned);
    var joined := parts[1] + " " + parts[0];
    assert forall c :: c in joined ==> c in parts[1] || c == ' ' || c in parts[0];
    TrimSubset(joined, IsPySpace);
  }

  lemma SpacedText(cleaned: string)
    requires forall c :: c in cleaned ==> NameLineChar(c)
    ensures NameText(PyStrip(ReplaceChar(cleaned, ',', ' ')))
  {
    var replaced := ReplaceChar(cleaned, ',', ' ');
    assert forall c :: c in replaced ==> c in cleaned || c == ' ';
    TrimSubset(replaced, IsPySpace);
  }

  lemma UpperKeeps(s: string)
    requires forall c :: c in s ==> !IsLower(c)
    ensures Upper(s) == s
  {
  }

  /** A word of capital letters is not blank and has no white space to strip. */
  lemma CapitalWord(w: string)
    requires w != [] && forall c :: c in w ==> IsUpper(c)
    ensures !IsPySpace(w[0]) && !IsPySpace(w[|w| - 1])
    ensures !IsBlank(w, IsPySpace) && PyStrip(w) == w
  {
    assert w[0] in w && w[|w| - 1] in w;
    TrimNoop(w, IsPySpace);
  }

  lemma StripSpaceBefore(b: string)
    requires b != [] && !IsPySpace(b[0]) && !IsPySpace(b[|b| - 1])
    ensures PyStrip(" " + b) == b
  {
    assert (" " + b)[1..] == b;
    assert TrimStart(" " + b, IsPySpace) == TrimStart(b, IsPySpace);
  }

  /** `SURNAME, GIVEN` is turned around into `GIVEN SURNAME`. */
  lemma NormalizeNameSwaps(surname: string, given: string)
    requires surname != [] && given != []
    requires forall c :: c in surname ==> IsUpper(c)
    requires forall c :: c in given ==> IsUpper(c)
    ensures NormalizeName(surname + ", " + given) == given + " " + surname
  {
    var s := surname + ", " + given;
    CleanNameKeeps(surname, given);
    NamePartsOfPair(surname, given);
    assert ',' in s by { assert s[|surname|] == ','; }
    SwappedCleaned(s, surname, given);
    StripWords(given, surname);
  }

  lemma SwappedCleaned(s: string, surname: string, given: string)
    requires ',' in s && NameParts(s) == [surname, given]
    ensures NormalizeCleaned(s) == PyStrip(given + " " + surname)
  {
  }

  lemma StripWords(a: string, b: string)
    requires a != [] && b != []
    requires forall c :: c in a ==> IsUpper(c)
    requires forall c :: c in b ==> IsUpper(c)
    ensures PyStrip(a + " " + b) == a + " " + b
  {
    CapitalWord(a);
    CapitalWord(b);
    var r := a + " " + b;
    assert r[0] == a[0] && r[|r| - 1] == b[|b| - 1];
    TrimNoop(r, IsPySpace);
  }

  lemma CleanNameKeeps(surname: string, given: string)
    requires surname != [] && given != []
    requires forall c :: c in surname ==> IsUpper(c)
    requires forall c :: c in given ==> IsUpper(c)
    ensures CleanName(surname + ", " + given) == surname + ", " + given
  {
    var s := surname + ", " + given;
    PairChars(surname, given);
    UpperKeeps(s);
    FilterKeepsAll(s, NameLineChar);
    PairEnds(surname, given);
    TrimNoop(s, SpaceOrComma);
  }

  /** The characters of `SURNAME, GIVEN`: capitals, the comma and the space. */
  lemma PairChars(surname: string, given: string)
    requires forall c :: c in surname ==> IsUpper(c)
    requires forall c :: c in given ==> IsUpper(c)
    ensures forall c :: c in surname + ", " + given ==> !IsLower(c) && NameLineChar(c)
  {
    forall c | c in surname + ", " + given ensures !IsLower(c) && NameLineChar(c) {
      assert c in surname || c in ", " || c in given;
    }
  }

  /** `SURNAME, GIVEN` neither starts nor ends with a space or a comma. */
  lemma PairEnds(surname: string, given: string)
    requires surname != [] && given != []
    requires forall c :: c in surname ==> IsUpper(c)
    requires forall c :: c in given ==> IsUpper(c)
    ensures var s := surname + ", " + given; !SpaceOrComma(s[0]) && !SpaceOrComma(s[|s| - 1])
  {
    var s := surname + ", " + given;
    assert s[0] == surname[0] && s[|s| - 1] == given[|given| - 1];
    assert surname[0] in surname && given[|given| - 1] in given;
  }

  lemma NamePartsOfPair(surname: string, given: string)
    requires surname != [] && given != []
    requires forall c :: c in surname ==> IsUpper(c)
    requires forall c :: c in given ==> IsUpper(c)
    ensures NameParts(surname + ", " + given) == [surname, given]
  {
    CapitalWord(surname);
    CapitalWord(given);
    StripSpaceBefore(given);
    SplitAtComma(surname, given);
    assert !IsBlank(" " + given, IsPySpace) by { assert (" " + given)[1] in " " + given; }
    NonBlankPair(surname, " " + given, IsPySpace);
    var parts := MapStrings([surname, " " + given], PyStrip);
    assert parts == [PyStrip(surname), PyStrip(" " + given)];
  }

  lemma SplitAtComma(surname: string, given: string)
    requires forall c :: c in surname ==> IsUpper(c)
    requires forall c :: c in given ==> IsUpper(c)
    ensures Split(surname + ", " + given, IsComma) == [surname, " " + given]
  {
    assert surname + ", " + given == surname + [','] + (" " + given);
    assert forall c :: c in surname ==> !IsComma(c);
    assert forall c :: c in " " + given ==> !IsComma(c);
    SplitConcat(surname, ',', " " + given, IsComma);
    SplitNoSep(" " + given, IsComma);
  }

  lemma NonBlankPair(a: string, b: string, space: char -> bool)
    requires !IsBlank(a, space) && !IsBlank(b, space)
    ensures NonBlank([a, b], space) == [a, b]
  {
    var xs := [a, b];
    assert xs[1..] == [b];
    assert xs[1..][1..] == [];
  }

  /** `'NAME' in line` on a line followed by one that normalises to a name. */
  function NameAfterLabel(lines: seq<string>, i: nat): (r: Option<string>)
    ensures r.Some? ==> i + 1 < |lines| && Contains(lines[i], "NAME") && r.value == NormalizeName(lines[i + 1]) && r.value != ""
  {
    if i + 1 < |lines| && Contains(lines[i], "NAME") then
      var candidate := NormalizeName(lines[i + 1]);
      if candidate != "" then Some(candidate) else None
    else None
  }

  /** `[A-Z<]` */
  predicate NameFieldChar(c: char) { IsUpper(c) || c == '<' }

  /** The largest index in `[lo, hi)` that satisfies `p`. */
  function LastIndex(lo: nat, hi: nat, p: nat -> bool): (r: Option<nat>)
    ensures r.Some? ==> lo <= r.value < hi && p(r.value) && forall j :: r.value < j < hi ==> !p(j)
    ensures r.None? ==> forall j :: lo <= j < hi ==> !p(j)
    decreases hi
  {
    if hi <= lo then None else if p(hi - 1) then Some(hi - 1) else LastIndex(lo, hi - 1, p)
  }

  /** `P<[A-Z<]{3}([A-Z<]+)<<([A-Z<]+)` at `p`: the first group takes as
      much of the run of `[A-Z<]` as still leaves a `<<` and one more
      character, the second group the rest of the run. */
  function MrzNameAt(c: string, p: nat): (r: Option<(string, string)>)
    ensures r.Some? ==> (|r.value.0| >= 1 && |r.value.1| >= 1
                         && (forall ch :: ch in r.value.0 ==> NameFieldChar(ch))
                         && (forall ch :: ch in r.value.1 ==> NameFieldChar(ch)))
  {
    if OccursAt(c, "P<", p) && p + 5 <= |c| && NameFieldChar(c[p + 2]) && NameFieldChar(c[p + 3]) && NameFieldChar(c[p + 4]) then
      var start := p + 5;
      var run := Run(c, start, NameFieldChar);
      match LastIndex(1, if run >= 3 then run - 2 else 0, (l: nat) => OccursAt(c, "<<", start + l))
      case None => None
      case Some(l) =>
        assert forall j :: start <= j < start + l ==> NameFieldChar(c[j]);
        assert forall j :: start + l + 2 <= j < start + run ==> NameFieldChar(c[j]);
        Some((c[start..start + l], c[start + l + 2..start + run]))
    else None
  }

  /** `group.replace('<', ' ').strip()` */
  function NameWords(g: string): (r: string)
    ensures (forall c :: c in g ==> NameFieldChar(c)) ==> forall c :: c in r ==> IsUpper(c) || c == ' '
  {
    var spaced := ReplaceChar(g, '<', ' ');
    FillersToSpaces(g);
    TrimSubset(spaced, IsPySpace);
    PyStrip(spaced)
  }

  lemma FillersToSpaces(g: string)
    ensures (forall c :: c in g ==> NameFieldChar(c)) ==>
      forall c :: c in ReplaceChar(g, '<', ' ') ==> IsUpper(c) || c == ' '
  {
    var spaced := ReplaceChar(g, '<', ' ');
    if forall c :: c in g ==> NameFieldChar(c) {
      forall c | c in spaced
        ensures IsUpper(c) || c == ' '
      {
        var k :| 0 <= k < |spaced| && spaced[k] == c;
        assert g[k] in g;
      }
    }
  }

  /** The name read from the machine-readable zone: given names first. */
  function MrzName(t: string): (r: Option<string>)
    ensures r.Some? ==> r.value != "" && NameText(r.value)
  {
    var c := Compact(t);
    match FirstMatch(0, |c| + 1, (p: nat) => MrzNameAt(c, p))
    case None => None
    case Some(groups) =>
      var surname := NameWords(groups.0);
      var given := NameWords(groups.1);
      var full := PyStrip(given + " " + surname);
      TrimSubset(given + " " + surname, IsPySpace);
      if full != "" then Some(full) else None
  }

  /** The first labelled name. */
  function LabelledName(lines: seq<string>): Option<string>
  {
    FirstMatch(0, |lines|, (i: nat) => NameAfterLabel(lines, i))
  }

  /** `extract_name` */
  function NameOf(text: string): string
  {
    NameFrom(Upper(text))
  }

  function NameFrom(t: string): string
  {
    match LabelledName(StrippedLines(t))
    case Some(name) => name
    case None =>
      match MrzName(t)
      case Some(name) => name
      case None => ""
  }

  lemma LabelledNameText(lines: seq<string>)
    ensures LabelledName(lines).Some? ==> NameText(LabelledName(lines).value)
  {
    var m := (i: nat) => NameAfterLabel(lines, i);
    var r := FirstMatch(0, |lines|, m);
    if r.Some? {
      var i :| 0 <= i < |lines| && m(i) == r;
      NormalizeNameText(lines[i + 1]);
    }
  }

  /** Every name the reader returns is capital letters and spaces. */
  lemma NameOfText(text: string)
    ensures NameText(NameOf(text))
  {
    LabelledNameText(StrippedLines(Upper(text)));
  }

  /** The first line that mentions `NAME` and is followed by a line that
      normalises to a non-empty name gives the labelled name. */
  lemma LabelledNameFirst(lines: seq<string>, i: nat)
    requires i + 1 < |lines| && Contains(lines[i], "NAME") && NormalizeName(lines[i + 1]) != ""
    requires forall j :: 0 <= j < i ==> NameAfterLabel(lines, j).None?
    ensures LabelledName(lines) == Some(NormalizeName(lines[i + 1]))
  {
    var m := (k: nat) => NameAfterLabel(lines, k);
    assert m(i).Some?;
    var r := FirstMatch(0, |lines|, m);
    var k :| 0 <= k < |lines| && m(k) == r && forall j :: 0 <= j < k ==> m(j).None?;
    assert k == i;
  }

  /** A labelled name wins over the machine-readable zone. */
  lemma NameOfLabelled(text: string)
    requires LabelledName(StrippedLines(Upper(text))).Some?
    ensures NameOf(text) == LabelledName(StrippedLines(Upper(text))).value
  {
  }

  /** `extract_name`, with its loop over the lines and its early return. */
  method ExtractName(text: string) returns (name: string)
    ensures name == NameOf(text)
    ensures NameText(name)
  {
    NameOfText(text);
    var t := Upper(text);
    var lines := StrippedLines(t);
    var m := (i: nat) => NameAfterLabel(lines, i);
    assert LabelledName(lines) == FirstMatch(0, |lines|, m);
    var i := 0;
    while i < |lines|
      invariant 0 <= i <= |lines|
      invariant FirstMatch(i, |lines|, m) == FirstMatch(0, |lines|, m)
    {
      if Contains(lines[i], "NAME") && i + 1 < |lines| {
        var candidate := NormalizeName(lines[i + 1]);
        if candidate != "" {
          assert m(i) == Some(candidate);
          return candidate;
        }
      }
      assert m(i).None?;
      i := i + 1;
    }
    var mrz := MrzName(t);
    name := if mrz.Some? then mrz.value else "";
  }

  // ---------------------------------------------------------------------
  // Dates of birth
  // ---------------------------------------------------------------------

  /** A date of the proleptic Gregorian calendar, as `datetime.date` holds it. */
  datatype Date = Date(year: int, month: int, day: int)

  predicate IsLeapYear(y: int) { y % 4 == 0 && (y % 100 != 0 || y % 400 == 0) }

  function DaysInMonth(y: int, m: int): (n: int)
    requires 1 <= m <= 12
    ensures 28 <= n <= 31
  {
    if m == 2 then (if IsLeapYear(y) then 29 else 28)
    else if m == 4 || m == 6 || m == 9 || m == 11 then 30
    else 31
  }

  /** What `datetime.date(year, month, day)` accepts without raising. */
  predicate ValidDate(d: Date) {
    1 <= d.year <= 9999 && 1 <= d.month <= 12 && 1 <= d.day <= DaysInMonth(d.year, d.month)
  }

  /** What parsing a token gives: a date, `None`, or a `ValueError` that
      escapes from the call. */
  datatype ParseOutcome = Parsed(date: Date) | NoDate | Raises

  const MonthNames: seq<string> := ["JAN", "FEB", "MAR", "APR", "MAY", "JUN", "JUL", "AUG", "SEP", "OCT", "NOV", "DEC"]

  /** `month_map.get(name)` */
  function MonthNumber(name: string): (r: Option<int>)
    ensures r.Some? ==> 1 <= r.value <= 12 && MonthNames[r.value - 1] == name
    ensures r.None? ==> forall k :: 0 <= k < 12 ==> MonthNames[k] != name
  {
    if name == "JAN" then Some(1) else if name == "FEB" then Some(2) else if name == "MAR" then Some(3)
    else if name == "APR" then Some(4) else if name == "MAY" then Some(5) else if name == "JUN" then Some(6)
    else if name == "JUL" then Some(7) else if name == "AUG" then Some(8) else if name == "SEP" then Some(9)
    else if name == "OCT" then Some(10) else if name == "NOV" then Some(11) else if name == "DEC" then Some(12)
    else None
  }

  /** `int(...)` of two ASCII digits at `i`. */
  function Two(s: string, i: nat): (v: nat)
    requires i + 2 <= |s| && IsDigit(s[i]) && IsDigit(s[i + 1])
    ensures v < 100
  {
    10 * DigitValue(s[i]) + DigitValue(s[i + 1])
  }

  /** `int(...)` of four ASCII digits at `i`. */
  function Four(s: string, i: nat): (v: nat)
    requires i + 4 <= |s| && IsDigit(s[i]) && IsDigit(s[i + 1]) && IsDigit(s[i + 2]) && IsDigit(s[i + 3])
    ensures v < 10000
  {
    100 * Two(s, i) + Two(s, i + 2)
  }

  predicate IsDateSep(c: char) { c == '/' || c == '-' }

  /** `\d{2}[A-Z]{3}\d{4}` at `i` */
  predicate MonthFormAt(s: string, i: nat) {
    i + 9 <= |s| && IsDigit(s[i]) && IsDigit(s[i + 1]) && IsUpper(s[i + 2]) && IsUpper(s[i + 3]) && IsUpper(s[i + 4])
    && IsDigit(s[i + 5]) && IsDigit(s[i + 6]) && IsDigit(s[i + 7]) && IsDigit(s[i + 8])
  }

  /** `\d{2}[/-]\d{2}[/-]\d{4}` at `i` */
  predicate DayFirstAt(s: string, i: nat) {
    i + 10 <= |s| && IsDigit(s[i]) && IsDigit(s[i + 1]) && IsDateSep(s[i + 2]) && IsDigit(s[i + 3]) && IsDigit(s[i + 4])
    && IsDateSep(s[i + 5]) && IsDigit(s[i + 6]) && IsDigit(s[i + 7]) && IsDigit(s[i + 8]) && IsDigit(s[i + 9])
  }

  /** `\d{4}[/-]\d{2}[/-]\d{2}` at `i` */
  predicate YearFirstAt(s: string, i: nat) {
    i + 10 <= |s| && IsDigit(s[i]) && IsDigit(s[i + 1]) && IsDigit(s[i + 2]) && IsDigit(s[i + 3]) && IsDateSep(s[i + 4])
    && IsDigit(s[i + 5]) && IsDigit(s[i + 6]) && IsDateSep(s[i + 7]) && IsDigit(s[i + 8]) && IsDigit(s[i + 9])
  }

  /** The date of a `DDMONYYYY` token whose month name is known, before
      `date(...)` checks it. */
  function MonthFormDate(tok: string): (r: Option<Date>)
    ensures r.Some? ==> |tok| == 9 && MonthFormAt(tok, 0)
  {
    if |tok| == 9 && MonthFormAt(tok, 0) then
      match MonthNumber(tok[2..5])
      case None => None
      case Some(m) => Some(Date(Four(tok, 5), m, Two(tok, 0)))
    else None
  }

  /** `datetime.strptime(...).date()` with a `ValueError` caught. */
  function Checked(d: Date): (r: ParseOutcome)
    ensures r.Parsed? <==> ValidDate(d)
    ensures r.Parsed? ==> r.date == d
  {
    if ValidDate(d) then Parsed(d) else NoDate
  }

  /** The formats `%d/%m/%Y`, `%Y/%m/%d`, `%d-%m-%Y`, `%Y-%m-%d`, each tried in
      turn, on the two-digit and four-digit fields the scanner produces. */
  function NumericDate(tok: string): (r: ParseOutcome)
    ensures r != Raises
  {
    if |tok| == 10 && DayFirstAt(tok, 0) && tok[2] == '/' && tok[5] == '/' then
      Checked(Date(Four(tok, 6), Two(tok, 3), Two(tok, 0)))
    else if |tok| == 10 && YearFirstAt(tok, 0) && tok[4] == '/' && tok[7] == '/' then
      Checked(Date(Four(tok, 0), Two(tok, 5), Two(tok, 8)))
    else if |tok| == 10 && DayFirstAt(tok, 0) && tok[2] == '-' && tok[5] == '-' then
      Checked(Date(Four(tok, 6), Two(tok, 3), Two(tok, 0)))
    else if |tok| == 10 && YearFirstAt(tok, 0) && tok[4] == '-' && tok[7] == '-' then
      Checked(Date(Four(tok, 0), Two(tok, 5), Two(tok, 8)))
    else NoDate
  }

  /** `_parse_date_token` as written: every `O` becomes `0` before the month
      name is read, and `date(...)` on the `DDMONYYYY` form is not guarded. */
  function ParseDateTokenAsWritten(token: string): ParseOutcome
  {
    var tok := ReplaceChar(PyStrip(Upper(token)), 'O', '0');
    match MonthFormDate(tok)
    case Some(d) => if ValidDate(d) then Parsed(d) else Raises
    case None => NumericDate(tok)
  }

  /** `O` read as `0` only where a digit belongs: outside the month name of
      a nine-character token. */
  function ZeroForO(s: string): (r: string)
    ensures |r| == |s|
    ensures forall i :: 0 <= i < |s| ==> r[i] == (if s[i] == 'O' && !(|s| == 9 && 2 <= i < 5) then '0' else s[i])
  {
    seq(|s|, i requires 0 <= i < |s| => if s[i] == 'O' && !(|s| == 9 && 2 <= i < 5) then '0' else s[i])
  }

  /** `_parse_date_token` as intended: the month name keeps its letters,
      and an impossible date gives `None` like the other formats. */
  function ParseDateToken(token: string): (r: ParseOutcome)
    ensures r != Raises
    ensures r.Parsed? ==> ValidDate(r.date)
  {
    var tok := ZeroForO(PyStrip(Upper(token)));
    match MonthFormDate(tok)
    case Some(d) => Checked(d)
    case None => NumericDate(tok)
  }

  /** Two digits, `0`-padded. */
  function Pad2(n: nat): (r: string)
    requires n < 100
    ensures |r| == 2 && IsDigit(r[0]) && IsDigit(r[1]) && Two(r, 0) == n
  {
    [DigitChar(n / 10), DigitChar(n % 10)]
  }

  /** Four digits, `0`-padded. */
  function Pad4(n: nat): (r: string)
    requires n < 10000
    ensures |r| == 4 && IsDigit(r[0]) && IsDigit(r[1]) && IsDigit(r[2]) && IsDigit(r[3]) && Four(r, 0) == n
  {
    var r := Pad2(n / 100) + Pad2(n % 100);
    assert Two(r, 0) == n / 100 && Two(r, 2) == n % 100;
    r
  }

  /** A day, month and year printed as `DDMONYYYY`. */
  function DateText(day: nat, month: int, year: nat): (s: string)
    requires day < 100 && 1 <= month <= 12 && year < 10000
    ensures |s| == 9
  {
    Pad2(day) + MonthNames[month - 1] + Pad4(year)
  }

  /** A date as a passport prints it. */
  function MonthFormText(d: Date): (s: string)
    requires ValidDate(d)
    ensures |s| == 9
  {
    DateText(d.day, d.month, d.year)
  }

  lemma MonthNamesCapital(k: nat)
    requires k < 12
    ensures |MonthNames[k]| == 3 && forall c :: c in MonthNames[k] ==> IsUpper(c)
    ensures MonthNumber(MonthNames[k]) == Some(k + 1)
  {
    if k < 6 {
      if k == 0 {} else if k == 1 {} else if k == 2 {} else if k == 3 {} else if k == 4 {} else {}
    } else {
      if k == 6 {} else if k == 7 {} else if k == 8 {} else if k == 9 {} else if k == 10 {} else {}
    }
  }

  /** Text of digits and capital letters is left alone by `upper()` and `strip()`. */
  lemma AlreadyClean(s: string)
    requires s != [] && forall i :: 0 <= i < |s| ==> IsDigit(s[i]) || IsUpper(s[i])
    ensures Upper(s) == s && PyStrip(s) == s
  {
    NoLowerKept(s);
    CleanCharNotSpace(s[0]);
    CleanCharNotSpace(s[|s| - 1]);
    NoSpaceStripped(s);
  }

  lemma CleanCharNotSpace(c: char)
    requires IsDigit(c) || IsUpper(c)
    ensures !IsPySpace(c)
  {
  }

  lemma NoLowerKept(s: string)
    requires forall i :: 0 <= i < |s| ==> IsDigit(s[i]) || IsUpper(s[i])
    ensures Upper(s) == s
  {
    assert forall i :: 0 <= i < |s| ==> UpperChar(s[i]) == s[i];
  }

  lemma NoSpaceStripped(s: string)
    requires s != [] && !IsPySpace(s[0]) && !IsPySpace(s[|s| - 1])
    ensures PyStrip(s) == s
  {
    TrimNoop(s, IsPySpace);
  }

  /** The printed form, its pieces in place. */
  lemma DateTextShape(day: nat, month: int, year: nat)
    requires day < 100 && 1 <= month <= 12 && year < 10000
    ensures var s := DateText(day, month, year);
      MonthFormAt(s, 0) && s[2..5] == MonthNames[month - 1] && Two(s, 0) == day && Four(s, 5) == year
      && forall i :: 0 <= i < 9 ==> ((i < 2 || 5 <= i) ==> IsDigit(s[i])) && IsUpperAlnum(s[i])
  {
    var s := DateText(day, month, year);
    var name := MonthNames[month - 1];
    MonthNamesCapital(month - 1);
    assert s[2..5] == name;
    assert s[2] in name && s[3] in name && s[4] in name;
    assert s[5..] == Pad4(year);
  }

  /** Every valid date printed as `DDMONYYYY` reads back as itself. */
  lemma ParseDateTokenRoundTrip(d: Date)
    requires ValidDate(d)
    ensures ParseDateToken(MonthFormText(d)) == Parsed(d)
  {
    var s := MonthFormText(d);
    DateTextShape(d.day, d.month, d.year);
    AlreadyClean(s);
    MonthNamesCapital(d.month - 1);
    assert ZeroForO(s) == s;
  }

  /** As written, a date in October or November never parses from its
      `DDMONYYYY` form: the `O` of `OCT` and `NOV` has become `0`. */
  lemma ParseDateTokenAsWrittenMissesOctNov(d: Date)
    requires ValidDate(d) && (d.month == 10 || d.month == 11)
    ensures ParseDateTokenAsWritten(MonthFormText(d)) == NoDate
  {
    var s := MonthFormText(d);
    DateTextShape(d.day, d.month, d.year);
    AlreadyClean(s);
    var tok := ReplaceChar(s, 'O', '0');
    if d.month == 10 {
      assert s[2] == 'O';
      assert !IsUpper(tok[2]);
    } else {
      assert s[3] == 'O';
      assert !IsUpper(tok[3]);
    }
  }

  /** As written, a `DDMONYYYY` token naming a day the month does not have
      (`31FEB1990`, `00JAN1990`) raises out of the parser; as intended it
      gives no date. */
  lemma ImpossibleDate(day: nat, month: int, year: nat)
    requires day < 100 && 1 <= month <= 12 && month != 10 && month != 11 && year < 10000
    requires !ValidDate(Date(year, month, day))
    ensures ParseDateTokenAsWritten(DateText(day, month, year)) == Raises
    ensures ParseDateToken(DateText(day, month, year)) == NoDate
  {
    var s := DateText(day, month, year);
    DateTextShape(day, month, year);
    MonthNamesCapital(month - 1);
    AlreadyClean(s);
    NoLetterO(day, month, year);
    assert ReplaceChar(s, 'O', '0') == s;
    assert ZeroForO(s) == s;
  }

  /** Only `OCT` and `NOV` hold an `O`. */
  lemma NoLetterO(day: nat, month: int, year: nat)
    requires day < 100 && 1 <= month <= 12 && month != 10 && month != 11 && year < 10000
    ensures forall i :: 0 <= i < 9 ==> DateText(day, month, year)[i] != 'O'
  {
    var s := DateText(day, month, year);
    DateTextShape(day, month, year);
    var name := MonthNames[month - 1];
    assert 'O' !in name by {
      if month < 7 {
        if month == 1 {} else if month == 2 {} else if month == 3 {} else if month == 4 {} else if month == 5 {} else {}
      } else {
        if month == 7 {} else if month == 8 {} else if month == 9 {} else {}
      }
    }
    assert s[2] in name && s[3] in name && s[4] in name;
  }

  // ---------------------------------------------------------------------
  // Age
  // ---------------------------------------------------------------------

  /** `a` comes strictly before `b`. */
  predicate Earlier(a: Date, b: Date) {
    a.year < b.year || (a.year == b.year && (a.month < b.month || (a.month == b.month && a.day < b.day)))
  }

  /** `today.year - dob.year - ((today.month, today.day) < (dob.month, dob.day))` */
  function AgeOn(today: Date, dob: Date): int
  {
    today.year - dob.year - (if today.month < dob.month || (today.month == dob.month && today.day < dob.day) then 1 else 0)
  }

  /** The age is the number of birthdays completed by `today`: the birthday
      of that age is not after `today`, the next one is. */
  lemma AgeOnCompletedYears(today: Date, dob: Date)
    ensures var a := AgeOn(today, dob);
      !Earlier(today, Date(dob.year + a, dob.month, dob.day)) && Earlier(today, Date(dob.year + a + 1, dob.month, dob.day))
  {
  }

  /** The length of the date that `findall` takes at `i`, its three
      alternatives tried in order; 0 when none matches. */
  function DateMatchAt(s: string, i: nat): (n: nat)
    ensures n == 0 || n == 9 || n == 10
    ensures n == 9 ==> MonthFormAt(s, i)
    ensures n == 10 ==> DayFirstAt(s, i) || YearFirstAt(s, i)
  {
    if MonthFormAt(s, i) then 9
    else if DayFirstAt(s, i) || YearFirstAt(s, i) then 10
    else 0
  }

  /** A token that matches one of the three date shapes in full. */
  predicate DateShaped(tok: string) {
    (|tok| == 9 && MonthFormAt(tok, 0)) || (|tok| == 10 && (DayFirstAt(tok, 0) || YearFirstAt(tok, 0)))
  }

  /** `re.findall(r'(\d{2}[A-Z]{3}\d{4}|\d{2}[/-]\d{2}[/-]\d{4}|\d{4}[/-]\d{2}[/-]\d{2})', s[i:])`:
      the non-overlapping matches from left to right. */
  function DateTokens(s: string, i: nat): (r: seq<string>)
    ensures forall k :: 0 <= k < |r| ==> DateShaped(r[k])
    decreases |s| - i
  {
    if i >= |s| then []
    else
      var n := DateMatchAt(s, i);
      if n == 0 then DateTokens(s, i + 1)
      else
        var tok := s[i..i + n];
        assert DateShaped(tok);
        [tok] + DateTokens(s, i + n)
  }

  /** What looking for the date of birth gives. */
  datatype AgeOutcome = Age(years: int) | NoAge | Raised

  /** The age a token gives, if in `0..120`; a parser exception ends the
      whole search. */
  function TokenAge(tok: string, today: Date, parse: string -> ParseOutcome): (r: Option<AgeOutcome>)
    ensures r.Some? && r.value.Age? ==> 0 <= r.value.years <= 120
    ensures r == Some(Raised) <==> parse(tok) == Raises
    ensures r.Some? ==> r.value != NoAge
  {
    match parse(tok)
    case Raises => Some(Raised)
    case NoDate => None
    case Parsed(dob) =>
      var a := AgeOn(today, dob);
      if 0 <= a <= 120 then Some(Age(a)) else None
  }

  /** `'DATE OF BIRTH' in line or 'BIRTH' in line` */
  predicate MentionsBirth(line: string) {
    Contains(line, "DATE OF BIRTH") || Contains(line, "BIRTH")
  }

  /** `' '.join(lines[i:i + 3])` */
  function Nearby(lines: seq<string>, i: nat): string
    requires i < |lines|
  {
    Join(lines[i..if i + 3 <= |lines| then i + 3 else |lines|], " ")
  }

  /** The first token near a birth marker on line `i` that decides. */
  function BirthLineAge(lines: seq<string>, i: nat, today: Date, parse: string -> ParseOutcome): Option<AgeOutcome>
  {
    if i < |lines| && MentionsBirth(lines[i]) then
      FirstOf(DateTokens(Nearby(lines, i), 0), (tok: string) => TokenAge(tok, today, parse))
    else None
  }

  /** The first birth line that decides. */
  function BirthAge(lines: seq<string>, today: Date, parse: string -> ParseOutcome): Option<AgeOutcome>
  {
    FirstMatch(0, |lines|, (i: nat) => BirthLineAge(lines, i, today, parse))
  }

  /** `1900 + yy if yy > today.year % 100 else 2000 + yy` */
  function PivotYear(yy: nat, todayYear: int): int
  {
    if yy > todayYear % 100 then 1900 + yy else 2000 + yy
  }

  /** A two-digit year is placed in the 20th or 21st century, and, while
      `today` is in the 21st, in the hundred years up to this one. */
  lemma PivotYearWindow(yy: nat, todayYear: int)
    requires yy < 100
    ensures PivotYear(yy, todayYear) % 100 == yy
    ensures 1900 <= PivotYear(yy, todayYear) <= 2099
    ensures 2000 <= todayYear <= 2099 ==> todayYear - 100 < PivotYear(yy, todayYear) <= todayYear
  {
  }

  /** The machine-readable-zone fallback: the birth date `YYMMDD` of the
      first personal-data block of the compact text. */
  function MrzBirthDate(t: string, todayYear: int): (r: Option<Date>)
    ensures r.Some? ==> ValidDate(r.value)
  {
    var c := Compact(t);
    match Search(c, PersonalData)
    case None => None
    case Some(i) =>
      PersonalDataShape();
      assert InCls(PersonalData[13], c[i + 13]) && InCls(PersonalData[14], c[i + 14]);
      assert InCls(PersonalData[15], c[i + 15]) && InCls(PersonalData[16], c[i + 16]);
      assert InCls(PersonalData[17], c[i + 17]) && InCls(PersonalData[18], c[i + 18]);
      var dob := Date(PivotYear(Two(c, i + 13), todayYear), Two(c, i + 15), Two(c, i + 17));
      if ValidDate(dob) then Some(dob) else None
  }

  /** The fallback's age, if in `0..120`. */
  function MrzAge(t: string, today: Date): (r: Option<int>)
    ensures r.Some? ==> 0 <= r.value <= 120
  {
    match MrzBirthDate(t, today.year)
    case None => None
    case Some(dob) =>
      var a := AgeOn(today, dob);
      if 0 <= a <= 120 then Some(a) else None
  }

  /** `extract_age` with a given date parser, on upper-cased text. */
  function AgeFrom(t: string, today: Date, parse: string -> ParseOutcome): AgeOutcome
  {
    match BirthAge(StrippedLines(t), today, parse)
    case Some(outcome) => outcome
    case None =>
      match MrzAge(t, today)
      case Some(a) => Age(a)
      case None => NoAge
  }

  /** `extract_age` as written: a `ValueError` from the parser escapes. */
  function AgeOfAsWritten(text: string, today: Date): AgeOutcome
  {
    AgeFrom(Upper(text), today, ParseDateTokenAsWritten)
  }

  /** `extract_age` with the intended parser. */
  function AgeOf(text: string, today: Date): AgeOutcome
  {
    AgeFrom(Upper(text), today, ParseDateToken)
  }

  lemma TokenAgesDecide(toks: seq<string>, today: Date, parse: string -> ParseOutcome)
    ensures var r := FirstOf(toks, (tok: string) => TokenAge(tok, today, parse));
      r.Some? ==> r.value != NoAge && (r.value.Age? ==> 0 <= r.value.years <= 120)
  {
    var f := (tok: string) => TokenAge(tok, today, parse);
    var r := FirstOf(toks, f);
    if r.Some? {
      var k :| 0 <= k < |toks| && f(toks[k]) == r;
    }
  }

  lemma BirthAgeDecides(lines: seq<string>, today: Date, parse: string -> ParseOutcome)
    ensures var r := BirthAge(lines, today, parse);
      r.Some? ==> r.value != NoAge && (r.value.Age? ==> 0 <= r.value.years <= 120)
  {
    var m := (i: nat) => BirthLineAge(lines, i, today, parse);
    var r := FirstMatch(0, |lines|, m);
    if r.Some? {
      var i :| 0 <= i < |lines| && m(i) == r;
      TokenAgesDecide(DateTokens(Nearby(lines, i), 0), today, parse);
    }
  }

  /** Whatever the parser, a reported age lies in `0..120`. */
  lemma AgeFromRange(t: string, today: Date, parse: string -> ParseOutcome)
    ensures AgeFrom(t, today, parse).Age? ==> 0 <= AgeFrom(t, today, parse).years <= 120
  {
    BirthAgeDecides(StrippedLines(t), today, parse);
  }

  lemma TokenAgesNeverRaise(toks: seq<string>, today: Date, parse: string -> ParseOutcome)
    requires forall tok :: parse(tok) != Raises
    ensures FirstOf(toks, (tok: string) => TokenAge(tok, today, parse)) != Some(Raised)
  {
    var f := (tok: string) => TokenAge(tok, today, parse);
    var r := FirstOf(toks, f);
    if r.Some? {
      var k :| 0 <= k < |toks| && f(toks[k]) == r;
    }
  }

  lemma BirthAgeNeverRaises(lines: seq<string>, today: Date, parse: string -> ParseOutcome)
    requires forall tok :: parse(tok) != Raises
    ensures BirthAge(lines, today, parse) != Some(Raised)
  {
    var m := (i: nat) => BirthLineAge(lines, i, today, parse);
    var r := FirstMatch(0, |lines|, m);
    if r.Some? {
      var i :| 0 <= i < |lines| && m(i) == r;
      TokenAgesNeverRaise(DateTokens(Nearby(lines, i), 0), today, parse);
    }
  }

  /** A parser that never raises makes a search that never raises. */
  lemma AgeFromNeverRaises(t: string, today: Date, parse: string -> ParseOutcome)
    requires forall tok :: parse(tok) != Raises
    ensures AgeFrom(t, today, parse) != Raised
  {
    BirthAgeNeverRaises(StrippedLines(t), today, parse);
  }

  /** The intended `extract_age` yields an age in `0..120` or nothing, and
      never an exception. */
  lemma AgeOfDecides(text: string, today: Date)
    ensures AgeOf(text, today) != Raised
    ensures AgeOf(text, today).Age? ==> 0 <= AgeOf(text, today).years <= 120
  {
    AgeFromRange(Upper(text), today, ParseDateToken);
    AgeFromNeverRaises(Upper(text), today, ParseDateToken);
  }

  /** A single birth line holding a single date token decides by that token. */
  lemma OneBirthLine(line: string, tok: string, today: Date, parse: string -> ParseOutcome)
    requires MentionsBirth(line) && DateTokens(line, 0) == [tok]
    ensures BirthAge([line], today, parse) == TokenAge(tok, today, parse)
  {
    var lines := [line];
    assert Nearby(lines, 0) == line by { assert lines[0..1] == [line]; }
    var f := (tok: string) => TokenAge(tok, today, parse);
    FirstOfCons(tok, [], f);
    assert [tok] == [tok] + [];
    var m := (i: nat) => BirthLineAge(lines, i, today, parse);
    assert FirstMatch(1, 1, m) == None;
  }

  /** `BIRTH ` followed by a `DDMONYYYY` token. */
  lemma BirthLineTokens(tok: string)
    requires |tok| == 9 && MonthFormAt(tok, 0)
    ensures MentionsBirth("BIRTH " + tok)
    ensures DateTokens("BIRTH " + tok, 0) == [tok]
  {
    var line := "BIRTH " + tok;
    assert line[..5] == "BIRTH";
    assert OccursAt(line, "BIRTH", 0);
    assert line[6..15] == tok;
    assert forall k :: 0 <= k < 9 ==> line[6 + k] == tok[k];
    assert DateMatchAt(line, 6) == 9;
    assert DateTokens(line, 15) == [];
    assert DateTokens(line, 6) == [tok];
    assert !IsDigit(line[5]) && DateTokens(line, 5) == [tok];
    assert !IsDigit(line[4]) && DateTokens(line, 4) == [tok];
    assert !IsDigit(line[3]) && DateTokens(line, 3) == [tok];
    assert !IsDigit(line[2]) && DateTokens(line, 2) == [tok];
    assert !IsDigit(line[1]) && DateTokens(line, 1) == [tok];
    assert !IsDigit(line[0]);
  }

  /** As written, one impossible date on a birth line (`BIRTH 31FEB1990`)
      ends the whole reading with an exception, while the intended parser
      skips it and goes on. */
  lemma ImpossibleBirthDate(today: Date, day: nat, month: int, year: nat)
    requires day < 100 && 1 <= month <= 12 && month != 10 && month != 11 && year < 10000
    requires !ValidDate(Date(year, month, day))
    ensures BirthAge(["BIRTH " + DateText(day, month, year)], today, ParseDateTokenAsWritten) == Some(Raised)
    ensures BirthAge(["BIRTH " + DateText(day, month, year)], today, ParseDateToken) == None
  {
    var tok := DateText(day, month, year);
    DateTextShape(day, month, year);
    BirthLineTokens(tok);
    ImpossibleDate(day, month, year);
    OneBirthLine("BIRTH " + tok, tok, today, ParseDateTokenAsWritten);
    OneBirthLine("BIRTH " + tok, tok, today, ParseDateToken);
  }

  /** `extract_age`, with its loops over the birth lines and their tokens
      and their early returns, on the intended parser. */
  method ExtractAge(text: string, today: Date) returns (age: Option<int>)
    ensures match AgeOf(text, today)
      case Age(years) => age == Some(years)
      case _ => age == None
    ensures age.Some? ==> 0 <= age.value <= 120
  {
    AgeOfDecides(text, today);
    var t := Upper(text);
    var lines := StrippedLines(t);
    var m := (i: nat) => BirthLineAge(lines, i, today, ParseDateToken);
    assert BirthAge(lines, today, ParseDateToken) == FirstMatch(0, |lines|, m);
    var i := 0;
    while i < |lines|
      invariant 0 <= i <= |lines|
      invariant FirstMatch(i, |lines|, m) == FirstMatch(0, |lines|, m)
    {
      if MentionsBirth(lines[i]) {
        var found := ScanDateTokens(DateTokens(Nearby(lines, i), 0), today);
        assert m(i) == found;
        if found.Some? {
          return Some(found.value.years);
        }
      }
      i := i + 1;
    }
    var mrz := MrzAge(t, today);
    age := mrz;
  }

  /** The loop over one line's date tokens. */
  method ScanDateTokens(toks: seq<string>, today: Date) returns (r: Option<AgeOutcome>)
    ensures r == FirstOf(toks, (tok: string) => TokenAge(tok, today, ParseDateToken))
    ensures r.Some? ==> r.value.Age?
  {
    var f := (tok: string) => TokenAge(tok, today, ParseDateToken);
    var k := 0;
    while k < |toks|
      invariant 0 <= k <= |toks|
      invariant FirstOf(toks[k..], f) == FirstOf(toks, f)
    {
      FirstOfStep(toks, k, f);
      IntendedTokenAge(toks[k], today);
      var dob := ParseDateToken(toks[k]);
      if dob.Parsed? {
        var a := AgeOn(today, dob.date);
        if 0 <= a <= 120 {
          return Some(Age(a));
        }
      }
      k := k + 1;
    }
    assert toks[k..] == [];
    r := None;
  }

  /** On the intended parser a token yields an age or nothing. */
  lemma IntendedTokenAge(tok: string, today: Date)
    ensures var dob := ParseDateToken(tok);
      TokenAge(tok, today, ParseDateToken) ==
        if dob.Parsed? && 0 <= AgeOn(today, dob.date) <= 120 then Some(Age(AgeOn(today, dob.date))) else None
  {
  }
}
