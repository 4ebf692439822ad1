/** The server-side passport reader's nationality field: the MRZ
    nationality code, else a nationality adjective, else the word after a
    `NATIONALITY` label, each reported with the ISO alpha-2 code the two
    tables give it. */
module OcrNationality {
  import opened Prelude
  import opened OcrRunner

  /** `ISO3_TO_ISO2`, in its insertion order. */
  const Iso3ToIso2: seq<(string, string)> := [
    ("CHN", "CN"), ("JPN", "JP"), ("KOR", "KR"), ("USA", "US"), ("GBR", "GB"), ("CAN", "CA"),
    ("AUS", "AU"), ("FRA", "FR"), ("DEU", "DE"), ("ITA", "IT"), ("ESP", "ES"), ("RUS", "RU"),
    ("IND", "IN"), ("PHL", "PH"), ("VNM", "VN"), ("MYS", "MY"), ("THA", "TH"), ("IDN", "ID"),
    ("SGP", "SG"), ("TWN", "TW"), ("HKG", "HK"), ("MAC", "MO"), ("NLD", "NL"), ("CHE", "CH"),
    ("SWE", "SE"), ("NOR", "NO"), ("DNK", "DK"), ("FIN", "FI"), ("NZL", "NZ"), ("BRA", "BR"),
    ("MEX", "MX"), ("ARG", "AR"), ("TUR", "TR"), ("SAU", "SA"), ("ARE", "AE"), ("ZAF", "ZA")]

  /** `NATIONALITY_KEYWORDS`, in its insertion order (the order the loop
      tries them). */
  const NationalityKeywords: seq<(string, string)> := [
    ("CHINESE", "CN"), ("JAPANESE", "JP"), ("KOREAN", "KR"), ("AMERICAN", "US"),
    ("BRITISH", "GB"), ("CANADIAN", "CA"), ("AUSTRALIAN", "AU"), ("FRENCH", "FR"),
    ("GERMAN", "DE"), ("ITALIAN", "IT"), ("SPANISH", "ES"), ("RUSSIAN", "RU"),
    ("INDIAN", "IN"), ("FILIPINO", "PH"), ("VIETNAMESE", "VN"), ("MALAYSIAN", "MY"),
    ("THAI", "TH"), ("INDONESIAN", "ID"), ("SINGAPOREAN", "SG")]

  /** Every alpha-3 key has three letters, every keyword more than three,
      and every code is two letters long. */
  predicate WellShaped(iso3ToIso2: seq<(string, string)>, keywords: seq<(string, string)>)
  {
    IsoShaped(iso3ToIso2) && KeywordsShaped(keywords)
  }

  predicate IsoShaped(iso3ToIso2: seq<(string, string)>) {
    forall k :: 0 <= k < |iso3ToIso2| ==> |iso3ToIso2[k].0| == 3 && |iso3ToIso2[k].1| == 2
  }

  predicate KeywordsShaped(keywords: seq<(string, string)>) {
    forall k :: 0 <= k < |keywords| ==> |keywords[k].0| > 3 && |keywords[k].1| == 2
  }

  lemma TablesShape()
    ensures WellShaped(Iso3ToIso2, NationalityKeywords)
  {
    IsoTableShape();
    KeywordTableShape();
  }

  lemma IsoTableShape()
    ensures IsoShaped(Iso3ToIso2)
  {
  }

  lemma KeywordTableShape()
    ensures KeywordsShaped(NationalityKeywords)
  {
  }

  /** `table.get(key)`: the value of the first entry with that key. */
  function Lookup(table: seq<(string, string)>, key: string): (r: Option<string>)
    ensures r.Some? ==> exists k :: 0 <= k < |table| && table[k] == (key, r.value)
    ensures r.None? ==> forall k :: 0 <= k < |table| ==> table[k].0 != key
  {
    var f := (e: (string, string)) => if e.0 == key then Some(e.1) else None;
    var r := FirstOf(table, f);
    assert forall e: (string, string) :: f(e) == (if e.0 == key then Some(e.1) else None);
    r
  }

  /** The entry found is the first one carrying the key. */
  lemma {:induction false} LookupAt(table: seq<(string, string)>, k: nat)
    requires k < |table| && forall j :: 0 <= j < k ==> table[j].0 != table[k].0
    ensures Lookup(table, table[k].0) == Some(table[k].1)
  {
    if k > 0 {
      assert table[1..][k - 1] == table[k];
      LookupAt(table[1..], k - 1);
      assert Lookup(table, table[k].0) == Lookup(table[1..], table[k].0);
    }
  }

  /** What `extract_nationality` returns: the ISO alpha-2 code (or `''`)
      and the text it was read from (or `''`). */
  datatype Nationality = Nationality(code: string, raw: string)

  // ---------------------------------------------------------------------
  // The three branches
  // ---------------------------------------------------------------------

  /** `re.search(r'[A-Z0-9<]{9}\d([A-Z]{3})\d{6}\d[MF<]', compact)`: group 1. */
  function MrzNationality(t: string): (r: Option<string>)
    ensures r.Some? ==> |r.value| == 3 && forall c :: c in r.value ==> IsUpper(c)
  {
    var c := Compact(t);
    match Search(c, PersonalData)
    case None => None
    case Some(i) =>
      MrzFieldUpper(c, i);
      Some(c[i + 10..i + 13])
  }

  /** The nationality field of a personal-data block is three capitals. */
  lemma MrzFieldUpper(c: string, i: nat)
    requires MatchesAt(c, i, PersonalData)
    ensures forall ch :: ch in c[i + 10..i + 13] ==> IsUpper(ch)
  {
    PersonalDataShape();
    forall j | i + 10 <= j < i + 13 ensures IsUpper(c[j]) {
      assert InCls(PersonalData[j - i], c[i + (j - i)]);
    }
    assert c[i + 10..i + 13] == [c[i + 10], c[i + 11], c[i + 12]];
  }

  function KeywordHit(t: string, e: (string, string)): Option<Nationality>
  {
    if Contains(t, e.0) then Some(Nationality(e.1, e.0)) else None
  }

  /** The loop over `NATIONALITY_KEYWORDS.items()` with `keyword in t`. */
  function KeywordNationality(t: string, keywords: seq<(string, string)>): Option<Nationality>
  {
    FirstOf(keywords, (e: (string, string)) => KeywordHit(t, e))
  }

  predicate NotUpperAlnum(c: char) { !IsUpperAlnum(c) }

  const NationalityLabel: string := "NATIONALITY"

  /** `\bNATIONALITY\b[^A-Z0-9]{0,8}([A-Z]{3,15})` at `p`: group 1. Giving
      back separator characters never helps, since a separator is not a
      letter, so only the maximal run of them is tried. */
  function LabelAt(t: string, p: nat): (r: Option<string>)
    ensures r.Some? ==> 3 <= |r.value| <= 15 && forall c :: c in r.value ==> IsUpper(c)
  {
    if WordBoundary(t, p) && OccursAt(t, NationalityLabel, p) && WordBoundary(t, p + 11) then
      var k := Run(t, p + 11, NotUpperAlnum);
      if k <= 8 && Run(t, p + 11 + k, IsUpper) >= 3 then Some(Greedy(t, p + 11 + k, IsUpper, 3, 15)) else None
    else None
  }

  function LabelledNationality(t: string): (r: Option<string>)
    ensures r.Some? ==> 3 <= |r.value| <= 15 && forall c :: c in r.value ==> IsUpper(c)
  {
    FirstMatch(0, |t| + 1, (p: nat) => LabelAt(t, p))
  }

  /** The three tests on the labelled word `raw`. */
  function ClassifyRaw(raw: string, iso3ToIso2: seq<(string, string)>, keywords: seq<(string, string)>): Nationality
  {
    if |raw| == 3 && Lookup(iso3ToIso2, raw).Some? then Nationality(Lookup(iso3ToIso2, raw).value, raw)
    else if Lookup(keywords, raw).Some? then Nationality(Lookup(keywords, raw).value, raw)
    else Nationality("", raw)
  }

  /** `extract_nationality` */
  function NationalityOf(text: string): Nationality
  {
    NationalityFrom(Upper(text), Iso3ToIso2, NationalityKeywords)
  }

  /** The three branches on the upper-cased text `t`, with the two tables. */
  function NationalityFrom(t: string, iso3ToIso2: seq<(string, string)>, keywords: seq<(string, string)>): Nationality
  {
    match MrzNationality(t)
    case Some(iso3) =>
      Nationality(match Lookup(iso3ToIso2, iso3) case Some(iso2) => iso2 case None => "", iso3)
    case None =>
      match KeywordNationality(t, keywords)
      case Some(n) => n
      case None =>
        match LabelledNationality(t)
        case Some(raw) => ClassifyRaw(raw, iso3ToIso2, keywords)
        case None => Nationality("", "")
  }

  // ---------------------------------------------------------------------
  // Properties
  // ---------------------------------------------------------------------

  lemma LabelAtInText(t: string, p: nat)
    requires LabelAt(t, p).Some?
    ensures Contains(t, LabelAt(t, p).value)
  {
    var q := p + 11 + Run(t, p + 11, NotUpperAlnum);
    var g := LabelAt(t, p).value;
    assert g == Greedy(t, q, IsUpper, 3, 15);
    OccursInText(t, g, q);
  }

  lemma OccursInText(t: string, g: string, q: nat)
    requires OccursAt(t, g, q)
    ensures Contains(t, g)
  {
    ContainsIff(t, g);
  }

  /** The labelled word is a piece of the text. */
  lemma LabelledInText(t: string)
    requires LabelledNationality(t).Some?
    ensures Contains(t, LabelledNationality(t).value)
  {
    var m := (p: nat) => LabelAt(t, p);
    var r := FirstMatch(0, |t| + 1, m);
    var p :| 0 <= p < |t| + 1 && m(p) == r;
    LabelAtInText(t, p);
  }

  /** `if raw in NATIONALITY_KEYWORDS` can never hold: a keyword occurring
      in the text was already returned by the keyword loop. */
  lemma KeywordTestUnreachable(t: string, keywords: seq<(string, string)>)
    requires KeywordNationality(t, keywords).None? && LabelledNationality(t).Some?
    ensures Lookup(keywords, LabelledNationality(t).value).None?
  {
    var raw := LabelledNationality(t).value;
    LabelledInText(t);
    var f := (e: (string, string)) => KeywordHit(t, e);
    assert forall k :: 0 <= k < |keywords| ==> !f(keywords[k]).Some?;
  }

  /** The keyword loop reports the first keyword, in table order, that
      occurs in the text. */
  lemma KeywordOrder(t: string, keywords: seq<(string, string)>, k: nat)
    requires k < |keywords| && Contains(t, keywords[k].0)
    requires forall j :: 0 <= j < k ==> !Contains(t, keywords[j].0)
    ensures KeywordNationality(t, keywords) == Some(Nationality(keywords[k].1, keywords[k].0))
  {
    var f := (e: (string, string)) => KeywordHit(t, e);
    var r := FirstOf(keywords, f);
    assert f(keywords[k]).Some?;
    var x :| 0 <= x < |keywords| && f(keywords[x]) == r && forall j :: 0 <= j < x ==> f(keywords[j]).None?;
    assert x == k;
  }

  /** A reported code agrees with the tables: an empty code means neither
      table knows the text it came from, and a code is the one a table
      gives that text. */
  predicate Consistent(n: Nationality, iso3ToIso2: seq<(string, string)>, keywords: seq<(string, string)>)
  {
    if n.code == "" then Lookup(iso3ToIso2, n.raw).None? && Lookup(keywords, n.raw).None?
    else Lookup(iso3ToIso2, n.raw) == Some(n.code) || Lookup(keywords, n.raw) == Some(n.code)
  }

  /** The hit the keyword loop reports is the table's own entry for it. */
  lemma KeywordIsEntry(t: string, keywords: seq<(string, string)>)
    requires KeywordNationality(t, keywords).Some?
    ensures var n := KeywordNationality(t, keywords).value;
      Lookup(keywords, n.raw) == Some(n.code) && exists k :: 0 <= k < |keywords| && keywords[k] == (n.raw, n.code)
  {
    var f := (e: (string, string)) => KeywordHit(t, e);
    var r := FirstOf(keywords, f);
    var k :| 0 <= k < |keywords| && f(keywords[k]) == r && forall j :: 0 <= j < k ==> f(keywords[j]).None?;
    forall j | 0 <= j < k ensures keywords[j].0 != keywords[k].0 {
      assert f(keywords[j]).None?;
    }
    LookupAt(keywords, k);
  }

  lemma MrzConsistent(iso3: string, iso3ToIso2: seq<(string, string)>, keywords: seq<(string, string)>)
    requires |iso3| == 3 && WellShaped(iso3ToIso2, keywords)
    ensures Consistent(Nationality(match Lookup(iso3ToIso2, iso3) case Some(iso2) => iso2 case None => "", iso3), iso3ToIso2, keywords)
  {
    assert Lookup(keywords, iso3).None?;
  }

  lemma KeywordConsistent(t: string, iso3ToIso2: seq<(string, string)>, keywords: seq<(string, string)>)
    requires KeywordNationality(t, keywords).Some? && WellShaped(iso3ToIso2, keywords)
    ensures Consistent(KeywordNationality(t, keywords).value, iso3ToIso2, keywords)
    ensures KeywordNationality(t, keywords).value.raw != ""
  {
    KeywordIsEntry(t, keywords);
  }

  lemma LabelledConsistent(t: string, iso3ToIso2: seq<(string, string)>, keywords: seq<(string, string)>)
    requires KeywordNationality(t, keywords).None? && LabelledNationality(t).Some? && WellShaped(iso3ToIso2, keywords)
    ensures Consistent(ClassifyRaw(LabelledNationality(t).value, iso3ToIso2, keywords), iso3ToIso2, keywords)
  {
    var raw := LabelledNationality(t).value;
    KeywordTestUnreachable(t, keywords);
    if |raw| != 3 {
      assert Lookup(iso3ToIso2, raw).None?;
    }
  }

  /** Whatever the branch, the result agrees with the tables, and an empty
      source text comes with an empty code. */
  lemma NationalityFromConsistent(t: string, iso3ToIso2: seq<(string, string)>, keywords: seq<(string, string)>)
    requires WellShaped(iso3ToIso2, keywords)
    ensures Consistent(NationalityFrom(t, iso3ToIso2, keywords), iso3ToIso2, keywords)
    ensures NationalityFrom(t, iso3ToIso2, keywords).raw == "" ==> NationalityFrom(t, iso3ToIso2, keywords).code == ""
  {
    match MrzNationality(t)
    case Some(iso3) =>
      MrzConsistent(iso3, iso3ToIso2, keywords);
    case None =>
      match KeywordNationality(t, keywords)
      case Some(n) =>
        KeywordConsistent(t, iso3ToIso2, keywords);
      case None =>
        match LabelledNationality(t)
        case Some(raw) =>
          LabelledConsistent(t, iso3ToIso2, keywords);
        case None =>
          assert Lookup(iso3ToIso2, "").None? && Lookup(keywords, "").None?;
  }

  lemma NationalityConsistent(text: string)
    ensures Consistent(NationalityOf(text), Iso3ToIso2, NationalityKeywords)
    ensures NationalityOf(text).raw == "" ==> NationalityOf(text).code == ""
  {
    TablesShape();
    NationalityFromConsistent(Upper(text), Iso3ToIso2, NationalityKeywords);
  }

  /** A machine-readable zone decides alone: the result is its alpha-3
      code, with the mapped alpha-2 code or `''` when the code is not in
      the table. */
  lemma MrzDecides(text: string, iso3: string)
    requires MrzNationality(Upper(text)) == Some(iso3)
    ensures NationalityOf(text).raw == iso3 && |iso3| == 3
    ensures NationalityOf(text).code == "" <==> forall k :: 0 <= k < |Iso3ToIso2| ==> Iso3ToIso2[k].0 != iso3
    ensures NationalityOf(text).code != "" ==> exists k :: 0 <= k < |Iso3ToIso2| && Iso3ToIso2[k] == (iso3, NationalityOf(text).code)
  {
    TablesShape();
  }

  /** Without a machine-readable zone, the first keyword of
      `NATIONALITY_KEYWORDS` that the text contains decides. */
  lemma KeywordDecides(text: string, k: nat)
    requires MrzNationality(Upper(text)).None?
    requires k < |NationalityKeywords| && Contains(Upper(text), NationalityKeywords[k].0)
    requires forall j :: 0 <= j < k ==> !Contains(Upper(text), NationalityKeywords[j].0)
    ensures NationalityOf(text) == Nationality(NationalityKeywords[k].1, NationalityKeywords[k].0)
  {
    KeywordOrder(Upper(text), NationalityKeywords, k);
  }
}
