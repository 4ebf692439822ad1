/** The browser-side passport reader: two scanners for the passport number
    (a labelled "PASSPORT NO" field and the machine-readable zone), the
    "looks like a passport" classifier, and the three-attempt retry loop
    around the browser's text detector. The regular expressions of the
    scanners are written out as the searches a backtracking engine performs. */
module PassportOcr {
  import opened Prelude

  // ---------------------------------------------------------------------
  // Whitespace handling
  // ---------------------------------------------------------------------

  predicate NotJsSpace(c: char) { !IsJsSpace(c) }

  /** `replace(/\s+/g, ' ')`: every maximal run of whitespace becomes one space. */
  function CollapseSpaces(s: string): (r: string)
    ensures forall c :: c in r ==> c == ' ' || (c in s && !IsJsSpace(c))
    decreases |s|
  {
    if s == [] then []
    else if IsJsSpace(s[0]) then " " + CollapseSpaces(s[Run(s, 0, IsJsSpace)..])
    else [s[0]] + CollapseSpaces(s[1..])
  }

  /** `replace(/\s+/g, '')` */
  function RemoveSpaces(s: string): (r: string)
    ensures forall c :: c in r ==> c in s && !IsJsSpace(c)
  {
    Filter(s, NotJsSpace)
  }

  predicate IsNewline(c: char) { c == '\n' }

  // ---------------------------------------------------------------------
  // The machine-readable-zone scan (`extractMrzPassportNumber`)
  // ---------------------------------------------------------------------

  predicate NonEmpty(l: string) { l != "" }

  /** The lines the scan looks at: the upper-cased text split at line feeds,
      each line with its whitespace removed, empty lines dropped. Splitting
      at `\r?\n` gives the same lines, because a carriage return left at the
      end of a piece is whitespace and removed with the rest. */
  function MrzLines(raw: string): (lines: seq<string>)
    ensures forall k :: 0 <= k < |lines| ==> lines[k] != ""
  {
    var pieces := MapStrings(Split(Upper(raw), IsNewline), RemoveSpaces);
    var lines := Filter(pieces, NonEmpty);
    assert forall k :: 0 <= k < |lines| ==> lines[k] in lines;
    lines
  }

  /** `/[A-Z0-9<]{8,9}[0-9]/` tried at position `i`: the greedy count takes
      nine characters first and falls back to eight. */
  function MrzMatchAt(c: string, i: nat): (m: Option<string>)
    ensures m.Some? ==> (|m.value| == 9 || |m.value| == 10) && forall ch :: ch in m.value ==> IsMrzChar(ch)
    ensures m.Some? ==> i + |m.value| <= |c| && m.value == c[i..i + |m.value|] && IsDigit(m.value[|m.value| - 1])
  {
    var run := Run(c, i, IsMrzChar);
    if run >= 9 && i + 9 < |c| && IsDigit(c[i + 9]) then Some(c[i..i + 10])
    else if run >= 8 && i + 8 < |c| && IsDigit(c[i + 8]) then Some(c[i..i + 9])
    else None
  }

  /** The leftmost match in a line. */
  function MrzMatch(c: string): (m: Option<string>)
    ensures m.Some? ==> (|m.value| == 9 || |m.value| == 10) && forall ch :: ch in m.value ==> IsMrzChar(ch)
  {
    FirstMatch(0, |c|, (i: nat) => MrzMatchAt(c, i))
  }

  predicate NotFiller(c: char) { c != '<' }

  /** What one line yields: nothing unless it holds `<<`; otherwise the
      leftmost match of its `[A-Z0-9<]` characters with the fillers removed,
      when that is 6 to 10 characters long. No check digit is computed. */
  function MrzLineCandidate(line: string): (r: Option<string>)
    ensures r.Some? ==> Contains(line, "<<")
    ensures r.Some? ==> 6 <= |r.value| <= 10 && forall c :: c in r.value ==> IsUpperAlnum(c)
  {
    if !Contains(line, "<<") then None
    else
      var cleaned := Filter(line, IsMrzChar);
      match MrzMatch(cleaned)
      case None => None
      case Some(m) =>
        var candidate := Filter(m, NotFiller);
        if 6 <= |candidate| <= 10 then Some(candidate) else None
  }

  /** The candidate of the first line that yields one, or `''`. */
  function MrzScanLines(lines: seq<string>): string
  {
    match FirstOf(lines, MrzLineCandidate)
    case None => ""
    case Some(c) => c
  }

  function MrzScan(raw: string): string { MrzScanLines(MrzLines(raw)) }

  /** Line `k` yields `r`, and no earlier line yields anything. */
  predicate FirstYielding(lines: seq<string>, k: nat, r: string) {
    k < |lines| && MrzLineCandidate(lines[k]) == Some(r)
    && forall j :: 0 <= j < k ==> MrzLineCandidate(lines[j]).None?
  }

  /** The scan returns `''` exactly when no line yields a candidate, and
      otherwise the candidate of the first line that does: a line holding
      `<<`, with 6 to 10 characters of `[A-Z0-9]`. */
  lemma MrzScanFirst(lines: seq<string>)
    ensures MrzScanLines(lines) == "" <==> forall k :: 0 <= k < |lines| ==> MrzLineCandidate(lines[k]).None?
    ensures var r := MrzScanLines(lines);
      r != "" ==> 6 <= |r| <= 10 && (forall c :: c in r ==> IsUpperAlnum(c)) && exists k :: FirstYielding(lines, k, r)
    ensures forall k: nat :: FirstYielding(lines, k, MrzScanLines(lines)) ==> Contains(lines[k], "<<")
  {
    var found := FirstOf(lines, MrzLineCandidate);
    if found.Some? {
      var k :| 0 <= k < |lines| && MrzLineCandidate(lines[k]) == found
        && forall j :: 0 <= j < k ==> MrzLineCandidate(lines[j]).None?;
      assert FirstYielding(lines, k, found.value);
    }
  }

  /** An occurrence in a suffix is an occurrence in the whole. */
  lemma ContainsInSuffix(pre: string, tail: string, p: string)
    requires Contains(tail, p)
    ensures Contains(pre + tail, p)
  {
    ContainsIff(tail, p);
    var i: nat :| OccursAt(tail, p, i);
    assert (pre + tail)[|pre| + i..|pre| + i + |p|] == tail[i..i + |p|];
    assert OccursAt(pre + tail, p, |pre| + i);
    ContainsIff(pre + tail, p);
  }

  /** A cleaned line whose tenth character is a digit matches at its start. */
  lemma MrzMatchAtStart(c: string)
    requires |c| >= 10 && IsDigit(c[9]) && forall i :: 0 <= i < |c| ==> IsMrzChar(c[i])
    ensures MrzMatch(c) == Some(c[..10])
  {
    var run := Run(c, 0, IsMrzChar);
    assert run == |c|;
    assert MrzMatchAt(c, 0) == Some(c[0..10]);
  }

  /** No check digit is computed: a line of `[A-Z0-9<]` characters that
      starts with nine letters and digits and a tenth digit, and holds `<<`
      further on, yields all ten characters, whatever the tenth one is. */
  lemma MrzKeepsCheckDigit(field: string, cd: char, tail: string)
    requires |field| == 9 && forall c :: c in field ==> IsUpperAlnum(c)
    requires IsDigit(cd) && Contains(tail, "<<") && forall c :: c in tail ==> IsMrzChar(c)
    ensures MrzLineCandidate(field + [cd] + tail) == Some(field + [cd])
  {
    var line := field + [cd] + tail;
    var m := field + [cd];
    DataLineFacts(field, cd, tail);
    CleanLineCandidate(line, m);
  }

  lemma DataLineFacts(field: string, cd: char, tail: string)
    requires |field| == 9 && forall c :: c in field ==> IsUpperAlnum(c)
    requires IsDigit(cd) && Contains(tail, "<<") && forall c :: c in tail ==> IsMrzChar(c)
    ensures Contains(field + [cd] + tail, "<<")
    ensures Filter(field + [cd] + tail, IsMrzChar) == field + [cd] + tail
    ensures MrzMatch(field + [cd] + tail) == Some(field + [cd])
    ensures Filter(field + [cd], NotFiller) == field + [cd]
  {
    ContainsInSuffix(field + [cd], tail, "<<");
    DataLineKept(field, cd, tail);
    DataLineMatch(field, cd, tail);
    FieldKept(field, cd);
  }

  lemma DataLineKept(field: string, cd: char, tail: string)
    requires |field| == 9 && forall c :: c in field ==> IsUpperAlnum(c)
    requires IsDigit(cd) && forall c :: c in tail ==> IsMrzChar(c)
    ensures Filter(field + [cd] + tail, IsMrzChar) == field + [cd] + tail
  {
    AllMrzChars(field, cd, tail);
    FilterKeepsAll(field + [cd] + tail, IsMrzChar);
  }

  lemma DataLineMatch(field: string, cd: char, tail: string)
    requires |field| == 9 && forall c :: c in field ==> IsUpperAlnum(c)
    requires IsDigit(cd) && forall c :: c in tail ==> IsMrzChar(c)
    ensures MrzMatch(field + [cd] + tail) == Some(field + [cd])
  {
    var line := field + [cd] + tail;
    AllMrzChars(field, cd, tail);
    MrzMatchAtStart(line);
    assert line[..10] == field + [cd];
  }

  lemma FieldKept(field: string, cd: char)
    requires forall c :: c in field ==> IsUpperAlnum(c)
    requires IsDigit(cd)
    ensures Filter(field + [cd], NotFiller) == field + [cd]
  {
    FilterKeepsAll(field + [cd], NotFiller);
  }

  /** A line already made of `[A-Z0-9<]` yields its match without fillers. */
  lemma CleanLineCandidate(line: string, m: string)
    requires Contains(line, "<<") && Filter(line, IsMrzChar) == line
    requires MrzMatch(line) == Some(m) && Filter(m, NotFiller) == m && 6 <= |m| <= 10
    ensures MrzLineCandidate(line) == Some(m)
  {
  }

  lemma AllMrzChars(field: string, cd: char, tail: string)
    requires |field| == 9 && forall c :: c in field ==> IsUpperAlnum(c)
    requires IsDigit(cd) && forall c :: c in tail ==> IsMrzChar(c)
    ensures forall i :: 0 <= i < |field + [cd] + tail| ==> IsMrzChar((field + [cd] + tail)[i])
  {
    var line := field + [cd] + tail;
    forall i | 0 <= i < |line| ensures IsMrzChar(line[i]) {
      if i < 9 { assert line[i] == field[i]; assert field[i] in field; }
      else if i > 9 { assert line[i] == tail[i - 10]; assert tail[i - 10] in tail; }
    }
  }

  /** A line without digits yields nothing. */
  lemma NoDigitNoCandidate(line: string)
    requires forall c :: c in line ==> !IsDigit(c)
    ensures MrzLineCandidate(line).None?
  {
    var cleaned := Filter(line, IsMrzChar);
    assert forall i: nat :: MrzMatchAt(cleaned, i).None? by {
      forall i: nat ensures MrzMatchAt(cleaned, i).None? {
        if i + 8 < |cleaned| {
          assert cleaned[i + 8] in cleaned;
        }
        if i + 9 < |cleaned| {
          assert cleaned[i + 9] in cleaned;
        }
      }
    }
  }

  /** The specimen passport's two machine-readable lines, a name line
      without digits followed by the data line, give the document number
      together with its check digit, so a wrong check digit is not
      rejected either. */
  lemma MrzPairKeepsCheckDigit(nameLine: string, field: string, cd: char, tail: string)
    requires forall c :: c in nameLine ==> !IsDigit(c)
    requires |field| == 9 && forall c :: c in field ==> IsUpperAlnum(c)
    requires IsDigit(cd) && Contains(tail, "<<") && forall c :: c in tail ==> IsMrzChar(c)
    ensures MrzScanLines([nameLine, field + [cd] + tail]) == field + [cd]
  {
    var dataLine := field + [cd] + tail;
    var lines := [nameLine, dataLine];
    NoDigitNoCandidate(nameLine);
    MrzKeepsCheckDigit(field, cd, tail);
    assert lines[1..] == [dataLine];
    assert FirstOf([dataLine], MrzLineCandidate) == Some(field + [cd]);
    assert FirstOf(lines, MrzLineCandidate) == FirstOf([dataLine], MrzLineCandidate);
  }

  /** `extractMrzPassportNumber` */
  method ExtractMrzPassportNumber(rawText: string) returns (r: string)
    ensures r == MrzScan(rawText)
  {
    r := ScanMrzLines(MrzLines(rawText));
  }

  /** The loop of `extractMrzPassportNumber` over the lines, with its early return. */
  method ScanMrzLines(lines: seq<string>) returns (r: string)
    ensures r == MrzScanLines(lines)
  {
    var k := 0;
    while k < |lines|
      invariant 0 <= k <= |lines|
      invariant FirstOf(lines[k..], MrzLineCandidate) == FirstOf(lines, MrzLineCandidate)
    {
      var line := lines[k];
      assert lines[k..][1..] == lines[k + 1..];
      if !Contains(line, "<<") {
        assert MrzLineCandidate(line).None?;
        k := k + 1;
        continue;
      }
      var cleaned := Filter(line, IsMrzChar);
      var found := MrzMatch(cleaned);
      if found.None? {
        assert MrzLineCandidate(line).None?;
        k := k + 1;
        continue;
      }
      var candidate := Filter(found.value, NotFiller);
      if 6 <= |candidate| <= 10 {
        assert MrzLineCandidate(line) == Some(candidate);
        return candidate;
      }
      assert MrzLineCandidate(line).None?;
      k := k + 1;
    }
    return "";
  }

  // ---------------------------------------------------------------------
  // The labelled scan (`extractLabeledPassportNumber`)
  // ---------------------------------------------------------------------

  /** Where the number group can start after `PASSPORT` ends at `q`, in the
      order the engine tries them: `\s*(NO|NUMBER)?\s*[:：]?\s*`. */
  function LabelCandidates(t: string, q: nat): seq<nat>
  {
    Bind(Star(t, q, IsJsSpace), (s1: nat) =>
      Bind(Alts(t, s1, ["NO", "NUMBER"]), (g: nat) =>
        Bind(Star(t, g, IsJsSpace), (s2: nat) =>
          Bind(Alts(t, s2, [":", "："]), (c: nat) =>
            Star(t, c, IsJsSpace)))))
  }

  lemma LabelCandidatesHasEnd(t: string, q: nat)
    ensures q in LabelCandidates(t, q)
  {
    var f4 := (c: nat) => Star(t, c, IsJsSpace);
    var f3 := (s2: nat) => Bind(Alts(t, s2, [":", "："]), f4);
    var f2 := (g: nat) => Bind(Star(t, g, IsJsSpace), f3);
    var f1 := (s1: nat) => Bind(Alts(t, s1, ["NO", "NUMBER"]), f2);
    BindMember(Alts(t, q, [":", "："]), f4, q, q);
    BindMember(Star(t, q, IsJsSpace), f3, q, q);
    BindMember(Alts(t, q, ["NO", "NUMBER"]), f2, q, q);
    BindMember(Star(t, q, IsJsSpace), f1, q, q);
  }

  /** `([A-Z0-9]{6,10})` can start at `r`. */
  predicate NumberFits(t: string, r: nat) { Run(t, r, IsUpperAlnum) >= 6 }

  /** The greedy group: up to ten characters. */
  function NumberAt(t: string, r: nat): (n: string)
    requires NumberFits(t, r)
    ensures 6 <= |n| <= 10 && forall c :: c in n ==> IsUpperAlnum(c)
    ensures r + |n| <= |t| && n == t[r..r + |n|]
  {
    Greedy(t, r, IsUpperAlnum, 6, 10)
  }

  /** The match that starts at `p`, if one does. */
  function LabeledAt(t: string, p: nat): Option<string>
  {
    if !OccursAt(t, "PASSPORT", p) then None
    else match FirstFitting(t, LabelCandidates(t, p + 8), IsUpperAlnum, 6)
      case None => None
      case Some(r) => Some(NumberAt(t, r))
  }

  /** `PASSPORT` occurs at `p` and the number `r` stands at the candidate position `q`. */
  predicate LabelNumberAt(t: string, p: nat, q: nat, r: string) {
    OccursAt(t, "PASSPORT", p) && q in LabelCandidates(t, p + 8) && q + |r| <= |t| && t[q..q + |r|] == r
  }

  lemma LabeledAtShape(t: string, p: nat)
    ensures var m := LabeledAt(t, p);
      m.Some? ==> (6 <= |m.value| <= 10 && (forall c :: c in m.value ==> IsUpperAlnum(c))
        && exists q: nat :: LabelNumberAt(t, p, q, m.value))
  {
    if LabeledAt(t, p).Some? {
      var q := FirstFitting(t, LabelCandidates(t, p + 8), IsUpperAlnum, 6).value;
      assert LabelNumberAt(t, p, q, NumberAt(t, q));
    }
  }

  lemma LabeledAtFinds(t: string, p: nat)
    requires OccursAt(t, "PASSPORT", p) && NumberFits(t, p + 8)
    ensures LabeledAt(t, p).Some?
  {
    LabelCandidatesHasEnd(t, p + 8);
  }

  /** The leftmost match's number group in the normalised text, or `''`. */
  function LabeledIn(t: string): string
  {
    match FirstMatch(0, |t| + 1, (p: nat) => LabeledAt(t, p))
    case None => ""
    case Some(n) => n
  }

  /** The text the labelled scan searches: upper-cased, whitespace runs
      collapsed to one space. */
  function LabelText(raw: string): string { CollapseSpaces(Upper(raw)) }

  /** `extractLabeledPassportNumber` */
  function ExtractLabeled(rawText: string): string { LabeledIn(LabelText(rawText)) }

  /** A labelled result is `''` or 6 to 10 characters of `[A-Z0-9]` that the
      text holds right after `PASSPORT`, an optional `NO`/`NUMBER`, an
      optional colon and spaces. */
  lemma LabeledShape(t: string)
    ensures var r := LabeledIn(t);
      r != "" ==> (6 <= |r| <= 10 && (forall c :: c in r ==> IsUpperAlnum(c))
        && exists p: nat, q: nat :: LabelNumberAt(t, p, q, r))
  {
    var found := FirstMatch(0, |t| + 1, (p: nat) => LabeledAt(t, p));
    if found.Some? {
      var p: nat :| p < |t| + 1 && LabeledAt(t, p) == found;
      LabeledAtShape(t, p);
    }
  }

  /** Whenever `PASSPORT` is directly followed by six letters or digits,
      the labelled scan finds a number. */
  lemma LabeledComplete(t: string, p: nat)
    requires OccursAt(t, "PASSPORT", p)
    requires NumberFits(t, p + 8)
    ensures LabeledIn(t) != ""
  {
    LabeledAtFinds(t, p);
    var m := (x: nat) => LabeledAt(t, x);
    assert p < |t| + 1 && m(p).Some?;
    var found := FirstMatch(0, |t| + 1, m);
    var x: nat :| x < |t| + 1 && m(x) == found;
    LabeledAtShape(t, x);
  }

  /** `extractPassportNumberFromText`: the labelled number, else the
      machine-readable-zone scan. */
  function ExtractPassportNumber(rawText: string): (r: string)
    ensures ExtractLabeled(rawText) != "" ==> r == ExtractLabeled(rawText)
    ensures ExtractLabeled(rawText) == "" ==> r == MrzScan(rawText)
  {
    var fromLabel := ExtractLabeled(rawText);
    if fromLabel != "" then fromLabel else MrzScan(rawText)
  }

  // ---------------------------------------------------------------------
  // The classifier (`isLikelyPassportDocument`)
  // ---------------------------------------------------------------------

  const PassportKeywords: seq<string> := ["passport", "pasport", "passeport", "旅券", "护照", "護照"]
  const DocHints: seq<string> := ["nationality", "surname", "given", "sex", "date of birth", "issuing"]

  /** `normalizeText(raw).toLowerCase()` */
  function DocText(raw: string): string { Lower(JsTrim(CollapseSpaces(Upper(raw)))) }

  predicate AnyContained(s: string, words: seq<string>) {
    exists k :: 0 <= k < |words| && Contains(s, words[k])
  }

  /** Twenty machine-readable-zone characters in a row start at `i`. */
  predicate MrzRunAt(s: string, i: nat) { i + 20 <= |s| && forall j :: i <= j < i + 20 ==> IsMrzChar(s[j]) }

  /** `/[A-Z0-9<]{20,}/.test(raw.toUpperCase()) && raw.includes('<<')` */
  predicate HasMrz(raw: string) {
    (exists i :: 0 <= i < |raw| && MrzRunAt(Upper(raw), i)) && Contains(raw, "<<")
  }

  predicate IsLikelyPassportDocument(rawText: string) {
    var normalized := DocText(rawText);
    AnyContained(normalized, PassportKeywords) || HasMrz(rawText) || CountContained(normalized, DocHints) >= 2
  }

  /** An occurrence of a word that starts with a kept character survives
      `TrimStart`, shifted by what was removed. */
  lemma TrimStartKeeps(s: string, w: string, i: nat, strip: char -> bool)
    requires OccursAt(s, w, i) && w != [] && !strip(w[0])
    ensures var a := TrimStart(s, strip); |s| - |a| <= i && OccursAt(a, w, i - (|s| - |a|))
  {
    var a := TrimStart(s, strip);
    TrimStartSpec(s, strip);
    assert s[i] == w[0];
  }

  /** An occurrence of a word that ends with a kept character survives `TrimEnd`. */
  lemma TrimEndKeeps(a: string, w: string, j: nat, strip: char -> bool)
    requires OccursAt(a, w, j) && w != [] && !strip(w[|w| - 1])
    ensures OccursAt(TrimEnd(a, strip), w, j)
  {
    var b := TrimEnd(a, strip);
    TrimEndSpec(a, strip);
    assert a[j + |w| - 1] == w[|w| - 1];
    assert b[j..j + |w|] == a[j..j + |w|];
  }

  /** An occurrence of a word without strip characters survives trimming. */
  lemma TrimKeepsOccurrence(s: string, w: string, i: nat, strip: char -> bool)
    requires OccursAt(s, w, i) && w != []
    requires forall c :: c in w ==> !strip(c)
    ensures Contains(Trim(s, strip), w)
  {
    assert w[0] in w && w[|w| - 1] in w;
    TrimStartKeeps(s, w, i, strip);
    var a := TrimStart(s, strip);
    TrimEndKeeps(a, w, i - (|s| - |a|), strip);
    ContainsIff(Trim(s, strip), w);
  }

  lemma LowerKeepsOccurrence(s: string, w: string)
    requires Contains(s, w)
    ensures Contains(Lower(s), Lower(w))
  {
    ContainsIff(s, w);
    var i: nat :| OccursAt(s, w, i);
    LowerOccursAt(s, w, i);
    ContainsIff(Lower(s), Lower(w));
  }

  lemma LowerOccursAt(s: string, w: string, i: nat)
    requires OccursAt(s, w, i)
    ensures OccursAt(Lower(s), Lower(w), i)
  {
    var ls, lw := Lower(s), Lower(w);
    forall j | 0 <= j < |w|
      ensures ls[i..i + |w|][j] == lw[j]
    {
      assert s[i + j] == s[i..i + |w|][j];
    }
    assert ls[i..i + |w|] == lw;
  }

  lemma LowerPassport()
    ensures Lower("PASSPORT") == "passport"
  {
  }

  /** The normalised text the labelled scan finds a number in holds
      `passport` once trimmed and lower-cased. */
  lemma LabeledHasKeyword(t: string)
    requires LabeledIn(t) != ""
    ensures Contains(Lower(JsTrim(t)), "passport")
  {
    LabeledShape(t);
    var p: nat, q: nat :| LabelNumberAt(t, p, q, LabeledIn(t));
    KeywordSurvives(t, p);
  }

  lemma KeywordSurvives(t: string, p: nat)
    requires OccursAt(t, "PASSPORT", p)
    ensures Contains(Lower(JsTrim(t)), "passport")
  {
    PassportHasNoSpace();
    TrimKeepsOccurrence(t, "PASSPORT", p, IsJsSpace);
    LowerKeepsOccurrence(JsTrim(t), "PASSPORT");
    LowerPassport();
  }

  lemma PassportHasNoSpace()
    ensures forall c :: c in "PASSPORT" ==> !IsJsSpace(c)
  {
    assert forall c :: c in "PASSPORT" ==> IsUpper(c);
  }

  lemma KeywordMakesLikely(rawText: string)
    requires Contains(DocText(rawText), "passport")
    ensures IsLikelyPassportDocument(rawText)
  {
    assert PassportKeywords[0] == "passport";
  }

  /** Text from which the labelled scan reads a number is classified as a
      passport: it contains the keyword. */
  lemma LabeledImpliesLikely(rawText: string)
    requires ExtractLabeled(rawText) != ""
    ensures IsLikelyPassportDocument(rawText)
  {
    LabeledHasKeyword(LabelText(rawText));
    KeywordMakesLikely(rawText);
  }

  // ---------------------------------------------------------------------
  // The retry loop (`runLocalPassportOCR`)
  // ---------------------------------------------------------------------

  /** The image treatment of an attempt. */
  datatype Transform = Plain | Grayscale

  const Transforms: seq<Transform> := [Plain, Grayscale, Plain]

  datatype OcrResult = OcrResult(success: bool, isPassport: bool, passportNumber: string, text: string,
                                 attempts: nat, unsupported: bool)

  /** What an attempt concludes from a text. */
  datatype Verdict = Verdict(isPassport: bool, passportNumber: string)

  /** The browser's verdict: the classifier and the number scanners. */
  function Judge(text: string): (v: Verdict)
    ensures v.isPassport == IsLikelyPassportDocument(text) && v.passportNumber == ExtractPassportNumber(text)
  {
    Verdict(IsLikelyPassportDocument(text), ExtractPassportNumber(text))
  }

  /** An attempt ends the loop with success. */
  predicate Accepted(judge: string -> Verdict, text: string) {
    judge(text).isPassport && judge(text).passportNumber != ""
  }

  function Detected(detect: (nat, Transform) -> string, k: nat): string
    requires k < |Transforms|
  {
    detect(k, Transforms[k])
  }

  /** The attempts from `attempt` on; `detect(k, t)` is the text the browser's
      detector reports for the `k`-th picture, drawn with treatment `t`, and
      `judge` reads a verdict off a text. */
  function Attempts(detect: (nat, Transform) -> string, judge: string -> Verdict, attempt: nat, bestText: string): OcrResult
    decreases |Transforms| - attempt
  {
    if attempt >= |Transforms| then
      OcrResult(false, judge(bestText).isPassport, judge(bestText).passportNumber, bestText, |Transforms|, false)
    else
      var text := detect(attempt, Transforms[attempt]);
      var best := if text != "" then text else bestText;
      var v := judge(text);
      if v.isPassport && v.passportNumber != "" then OcrResult(true, true, v.passportNumber, text, attempt + 1, false)
      else if !v.isPassport && attempt == |Transforms| - 1 then OcrResult(false, false, "", text, |Transforms|, false)
      else Attempts(detect, judge, attempt + 1, best)
  }

  /** `runLocalPassportOCR`; `hasDetector` says whether the browser offers a
      text detector. */
  function LocalOcr(hasDetector: bool, detect: (nat, Transform) -> string): OcrResult
  {
    if !hasDetector then OcrResult(false, false, "", "", 0, true)
    else Attempts(detect, Judge, 0, "")
  }

  /** Success comes from the first accepted attempt, reports its number and
      text and how many attempts were made; it happens exactly when one of
      the remaining attempts is accepted. Otherwise all three are made. */
  lemma {:induction false} AttemptsSuccess(detect: (nat, Transform) -> string, judge: string -> Verdict,
                                           attempt: nat, bestText: string)
    requires attempt <= |Transforms|
    ensures var r := Attempts(detect, judge, attempt, bestText);
      (r.success <==> exists k :: attempt <= k < |Transforms| && Accepted(judge, Detected(detect, k)))
      && (r.success ==> (r.isPassport && attempt + 1 <= r.attempts <= |Transforms|
            && r.text == Detected(detect, r.attempts - 1) && Accepted(judge, r.text)
            && r.passportNumber == judge(r.text).passportNumber
            && forall k :: attempt <= k < r.attempts - 1 ==> !Accepted(judge, Detected(detect, k))))
      && (!r.success ==> r.attempts == |Transforms|)
      && !r.unsupported
    decreases |Transforms| - attempt
  {
    if attempt < |Transforms| {
      var text := Detected(detect, attempt);
      var best := if text != "" then text else bestText;
      if !Accepted(judge, text) {
        AttemptsSuccess(detect, judge, attempt + 1, best);
      }
    }
  }

  /** Facts about the whole loop: without a detector nothing is tried; with
      one, one to three attempts are made, success happens exactly when an
      attempt is accepted, and it means a passport with a number. */
  lemma LocalOcrContract(hasDetector: bool, detect: (nat, Transform) -> string)
    ensures var r := LocalOcr(hasDetector, detect);
      r.attempts <= 3
      && (!hasDetector ==> r == OcrResult(false, false, "", "", 0, true))
      && (hasDetector ==> (1 <= r.attempts && !r.unsupported
            && (r.success <==> exists k :: 0 <= k < 3 && Accepted(Judge, Detected(detect, k)))))
      && (r.success ==> (r.isPassport && r.passportNumber != "" && r.text == Detected(detect, r.attempts - 1)
            && r.passportNumber == ExtractPassportNumber(r.text) && IsLikelyPassportDocument(r.text)))
  {
    if hasDetector {
      AttemptsSuccess(detect, Judge, 0, "");
    }
  }

  /** When neither earlier attempt is accepted and the third text is not
      passport-like, the loop reports a non-passport after three attempts. */
  lemma ThirdAttemptRejects(detect: (nat, Transform) -> string, judge: string -> Verdict, bestText: string)
    requires !Accepted(judge, Detected(detect, 0)) && !Accepted(judge, Detected(detect, 1))
    requires !judge(Detected(detect, 2)).isPassport
    ensures Attempts(detect, judge, 0, bestText) == OcrResult(false, false, "", Detected(detect, 2), 3, false)
  {
    var t0 := Detected(detect, 0);
    var b0 := if t0 != "" then t0 else bestText;
    var t1 := Detected(detect, 1);
    var b1 := if t1 != "" then t1 else b0;
    assert Attempts(detect, judge, 2, b1) == OcrResult(false, false, "", Detected(detect, 2), 3, false);
    assert Attempts(detect, judge, 1, b0) == Attempts(detect, judge, 2, b1);
  }

  lemma ThirdAttemptNotPassport(detect: (nat, Transform) -> string)
    requires !Accepted(Judge, Detected(detect, 0)) && !Accepted(Judge, Detected(detect, 1))
    requires !IsLikelyPassportDocument(Detected(detect, 2))
    ensures LocalOcr(true, detect) == OcrResult(false, false, "", Detected(detect, 2), 3, false)
  {
    ThirdAttemptRejects(detect, Judge, "");
  }

  /** The loop as the browser runs it. `calls` counts the detector calls. */
  method RunLocalPassportOcr(hasDetector: bool, detect: (nat, Transform) -> string) returns (r: OcrResult, calls: nat)
    ensures r == LocalOcr(hasDetector, detect)
    ensures calls == r.attempts && calls <= 3
  {
    var transforms := Transforms;
    var bestText := "";
    calls := 0;
    if !hasDetector {
      return OcrResult(false, false, "", "", 0, true), 0;
    }
    var attempt := 0;
    while attempt < |transforms|
      invariant 0 <= attempt <= |transforms| && calls == attempt
      invariant Attempts(detect, Judge, attempt, bestText) == LocalOcr(hasDetector, detect)
    {
      var text := detect(attempt, transforms[attempt]);
      calls := calls + 1;
      bestText := if text != "" then text else bestText;
      var isPassport := IsLikelyPassportDocument(text);
      var passportNumber := ExtractPassportNumber(text);
      if isPassport && passportNumber != "" {
        return OcrResult(true, true, passportNumber, text, attempt + 1, false), calls;
      }
      if !isPassport && attempt == |transforms| - 1 {
        return OcrResult(false, false, "", text, |transforms|, false), calls;
      }
      attempt := attempt + 1;
    }
    r := OcrResult(false, IsLikelyPassportDocument(bestText), ExtractPassportNumber(bestText), bestText,
                   |transforms|, false);
  }
}
