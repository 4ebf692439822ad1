/** The guest record the check-in wizard edits and the client-side validation
    run before a registration is submitted. */
module FormValidation {
  import opened Prelude

  /** A guest as the wizard holds it (every field of the guest template).
      `passportPhoto` is the data URL of the uploaded image, `None` before upload. */
  datatype Guest = Guest(
    id: string,
    kind: string,
    isResident: bool,
    name: string,
    age: string,
    phone: string,
    address: string,
    postalCode: string,
    nationality: string,
    passportNumber: string,
    passportPhoto: Option<string>,
    guardianName: string,
    guardianPhone: string,
    passportOcrStatus: string,
    passportOcrMessage: string,
    isEditable: bool)

  /** A fresh adult guest; `id` comes from the caller's random source. */
  function GuestTemplate(id: string, kind: string): (g: Guest)
    ensures g.id == id && g.kind == kind && g.isResident && g.isEditable
    ensures g.name == g.age == g.phone == g.address == g.nationality == g.passportNumber == ""
    ensures g.guardianName == g.guardianPhone == "" && g.passportPhoto.None?
    ensures g.passportOcrStatus == "idle"
  {
    Guest(id, kind, true, "", "", "", "", "", "", "", None, "", "", "idle", "", true)
  }

  /** A text field counts as filled when it is not empty after trimming. */
  predicate Filled(s: string) { JsTrim(s) != "" }

  lemma FilledFromFirst(s: string)
    requires s != [] && !IsJsSpace(s[0])
    ensures Filled(s)
  {
    FilledIff(s);
    assert s[0] in s;
  }

  lemma FilledIff(s: string)
    ensures Filled(s) <==> !IsBlank(s, IsJsSpace)
  {
    TrimEmptyIff(s, IsJsSpace);
  }

  // ---------------------------------------------------------------------
  // parseAge
  // ---------------------------------------------------------------------

  /** The digits at the front of `s`. */
  function LeadingDigits(s: string): (d: string)
    ensures |d| <= |s| && d == s[..|d|] && forall c :: c in d ==> IsDigit(c)
    ensures |d| < |s| ==> !IsDigit(s[|d|])
  {
    s[..Run(s, 0, IsDigit)]
  }

  /** `parseInt(text, 10)` on text without leading whitespace: an optional sign
      and the longest run of decimal digits after it; `None` is `NaN`. */
  function ParseIntPrefix(s: string): (r: Option<int>)
    ensures r.None? <==> LeadingDigits(if s != [] && (s[0] == '+' || s[0] == '-') then s[1..] else s) == ""
  {
    var negative := s != [] && s[0] == '-';
    var body := if s != [] && (s[0] == '+' || s[0] == '-') then s[1..] else s;
    var digits := LeadingDigits(body);
    if digits == "" then None
    else Some(if negative then -(DecimalValue(digits) as int) else DecimalValue(digits))
  }

  /** `parseAge`: trim the text, then parse a leading base-10 integer. */
  function ParseAge(age: string): (r: Option<int>)
    ensures r.Some? ==> JsTrim(age) != [] && (IsDigit(JsTrim(age)[0]) || JsTrim(age)[0] == '+' || JsTrim(age)[0] == '-')
  {
    ParseIntPrefix(JsTrim(age))
  }

  /** A run of digits followed by text that does not start with a digit (a
      fractional part, a unit) parses to the value of the digits. */
  lemma ParseAgeOfDigits(d: string, suffix: string)
    requires d != [] && forall c :: c in d ==> IsDigit(c)
    requires suffix == [] || (!IsDigit(suffix[0]) && !IsJsSpace(suffix[|suffix| - 1]))
    ensures ParseAge(d + suffix) == Some(DecimalValue(d))
  {
    var s := d + suffix;
    assert d[0] in d;
    assert s[0] == d[0] && !IsJsSpace(s[0]);
    assert s[|s| - 1] == (if suffix == [] then d[|d| - 1] else suffix[|suffix| - 1]);
    assert d[|d| - 1] in d;
    TrimNoop(s, IsJsSpace);
    RunOfDigits(d, suffix);
    assert LeadingDigits(s) == d;
  }

  /** `parseAge` on any text of the form leading whitespace, optional sign,
      digits, then anything that does not continue the digits: the trimmed
      text's sign and leading digits give the value, and the rest (a
      fractional part, a unit, trailing whitespace) is ignored. */
  lemma ParseAgeOfInteger(w1: string, sign: string, d: string, suffix: string)
    requires forall c :: c in w1 ==> IsJsSpace(c)
    requires sign == "" || sign == "+" || sign == "-"
    requires d != [] && forall c :: c in d ==> IsDigit(c)
    requires suffix == [] || !IsDigit(suffix[0])
    ensures ParseAge(w1 + sign + d + suffix)
      == Some(if sign == "-" then -(DecimalValue(d) as int) else DecimalValue(d))
  {
    var p := TrimSigned(w1, sign, d, suffix);
    ParseSigned(sign, d, p);
  }

  /** Trimming keeps the sign and the digits, and a prefix of what follows. */
  lemma TrimSigned(w1: string, sign: string, d: string, suffix: string) returns (p: string)
    requires forall c :: c in w1 ==> IsJsSpace(c)
    requires sign == "" || sign == "+" || sign == "-"
    requires d != [] && forall c :: c in d ==> IsDigit(c)
    ensures JsTrim(w1 + sign + d + suffix) == sign + d + p
    ensures p == [] || (suffix != [] && p[0] == suffix[0])
  {
    var head := sign + d;
    var core := head + suffix;
    assert w1 + sign + d + suffix == w1 + core;
    assert d[0] in d && d[|d| - 1] in d;
    assert core[0] == (if sign == "" then d[0] else sign[0]);
    TrimStartSkip(w1, core, IsJsSpace);
    assert head[|head| - 1] == d[|d| - 1];
    p := TrimEndKeeps(head, suffix, IsJsSpace);
  }

  /** `TrimEnd` stops at the last kept character, so it keeps a text that
      ends with a kept one, and a prefix of what follows it. */
  lemma TrimEndKeeps(head: string, tail: string, strip: char -> bool) returns (p: string)
    requires head != [] && !strip(head[|head| - 1])
    ensures TrimEnd(head + tail, strip) == head + p
    ensures p == [] || (tail != [] && p[0] == tail[0])
  {
    var core := head + tail;
    var r := TrimEnd(core, strip);
    TrimEndSpec(core, strip);
    assert core[|head| - 1] == head[|head| - 1];
    assert |r| >= |head|;
    p := tail[..|r| - |head|];
    assert core[..|r|] == head + p;
  }

  /** `parseInt` of a sign, digits and a part that does not start with a digit. */
  lemma ParseSigned(sign: string, d: string, p: string)
    requires sign == "" || sign == "+" || sign == "-"
    requires d != [] && forall c :: c in d ==> IsDigit(c)
    requires p == [] || !IsDigit(p[0])
    ensures ParseIntPrefix(sign + d + p)
      == Some(if sign == "-" then -(DecimalValue(d) as int) else DecimalValue(d))
  {
    if sign == "" {
      ParseUnsigned(sign, d, p);
    } else {
      ParseWithSign(sign, sign[0], d, p);
    }
  }

  lemma ParseUnsigned(sign: string, d: string, p: string)
    requires sign == []
    requires d != [] && forall c :: c in d ==> IsDigit(c)
    requires p == [] || !IsDigit(p[0])
    ensures ParseIntPrefix(sign + d + p) == Some(DecimalValue(d))
  {
    var s := sign + d + p;
    assert s == d + p;
    assert d[0] in d;
    assert s[0] == d[0];
    LeadingDigitsOf(d, p);
    ParseIntPrefixUnsigned(s, d);
  }

  lemma ParseWithSign(sign: string, c: char, d: string, p: string)
    requires sign == [c] && (c == '+' || c == '-')
    requires d != [] && forall c :: c in d ==> IsDigit(c)
    requires p == [] || !IsDigit(p[0])
    ensures ParseIntPrefix(sign + d + p) == Some(if c == '-' then -(DecimalValue(d) as int) else DecimalValue(d))
  {
    var s := sign + d + p;
    assert s[0] == c;
    assert s[1..] == d + p;
    LeadingDigitsOf(d, p);
    ParseIntPrefixSigned(s, d);
  }

  lemma ParseIntPrefixUnsigned(s: string, d: string)
    requires s != [] && IsDigit(s[0]) && LeadingDigits(s) == d && d != []
    ensures ParseIntPrefix(s) == Some(DecimalValue(d))
  {
  }

  lemma ParseIntPrefixSigned(s: string, d: string)
    requires s != [] && (s[0] == '+' || s[0] == '-') && LeadingDigits(s[1..]) == d && d != []
    ensures ParseIntPrefix(s) == Some(if s[0] == '-' then -(DecimalValue(d) as int) else DecimalValue(d))
  {
  }

  /** The leading digits of digits followed by a non-digit are those digits. */
  lemma LeadingDigitsOf(d: string, p: string)
    requires forall c :: c in d ==> IsDigit(c)
    requires p == [] || !IsDigit(p[0])
    ensures LeadingDigits(d + p) == d
  {
    RunOfDigits(d, p);
    assert (d + p)[..|d|] == d;
  }

  /** Leading `strip` characters before a text that starts with a kept one are
      exactly what `TrimStart` removes. */
  lemma {:induction false} TrimStartSkip(w: string, t: string, strip: char -> bool)
    requires forall c :: c in w ==> strip(c)
    requires t != [] && !strip(t[0])
    ensures TrimStart(w + t, strip) == t
  {
    if w == [] {
      assert w + t == t;
    } else {
      assert w[0] in w;
      assert (w + t)[1..] == w[1..] + t;
      assert forall c :: c in w[1..] ==> c in w;
      TrimStartSkip(w[1..], t, strip);
    }
  }

  /** The decimal text of every age parses back to that age. */
  lemma ParseAgeOfDecimal(n: nat)
    ensures ParseAge(NatToDecimal(n)) == Some(n)
  {
    ParseAgeOfDigits(NatToDecimal(n), "");
    assert NatToDecimal(n) + "" == NatToDecimal(n);
    DecimalRoundTrip(n);
  }

  lemma RunOfDigits(d: string, suffix: string)
    requires forall c :: c in d ==> IsDigit(c)
    requires suffix == [] || !IsDigit(suffix[0])
    ensures Run(d + suffix, 0, IsDigit) == |d|
  {
    var s := d + suffix;
    assert forall j :: 0 <= j < |d| ==> s[j] == d[j] && d[j] in d;
    assert |s| > |d| ==> s[|d|] == suffix[0];
  }

  lemma ParseAgeTrimExample()
    ensures ParseAge(" 16 ") == Some(16)
  {
    TrimSixteen();
    TwoDigitAge('1', '6');
    TrimNoop("16", IsJsSpace);
  }

  lemma TrimSixteen()
    ensures JsTrim(" 16 ") == "16"
  {
    assert TrimStart(" 16 ", IsJsSpace) == "16 ";
    assert TrimEnd("16 ", IsJsSpace) == "16";
  }

  lemma ParseAgeNaNExample()
    ensures ParseAge("abc") == None
  {
    TrimNoop("abc", IsJsSpace);
    assert Run("abc", 0, IsDigit) == 0;
  }

  lemma ParseAgeFractionExample()
    ensures ParseAge("17.9") == Some(17)
  {
    ParseAgeOfDigits("17", ".9");
    assert "17" + ".9" == "17.9";
    assert DecimalValue("17") == 17 by {
      assert "17"[..1] == "1";
    }
  }

  // ---------------------------------------------------------------------
  // validateGuestForm / isRegistrationValid
  // ---------------------------------------------------------------------

  /** The age, when it parses to an integer in 0..120. */
  function ValidAge(g: Guest): (r: Option<int>)
    ensures r.Some? <==> ParseAge(g.age).Some? && 0 <= ParseAge(g.age).value <= 120
    ensures r.Some? ==> r == ParseAge(g.age)
  {
    match ParseAge(g.age)
    case Some(a) => if 0 <= a <= 120 then Some(a) else None
    case None => None
  }

  /** `validateGuestForm`, with the source's early returns. */
  function ValidateGuestForm(g: Guest): (ok: bool)
    // The same rules stated as one conjunction.
    ensures ok <==>
      Filled(g.name) && ValidAge(g).Some?
      && (ValidAge(g).value < 18 ==> Filled(g.guardianName) && Filled(g.guardianPhone))
      && (g.isResident ==> Filled(g.address) && (ValidAge(g).value >= 16 ==> Filled(g.phone)))
      && (!g.isResident ==> g.nationality != "" && Filled(g.passportNumber)
                            && g.passportPhoto.Some? && g.passportPhoto.value != "")
  {
    var age := ValidAge(g);
    if !Filled(g.name) || age.None? then false
    else if age.value < 18 && !(Filled(g.guardianName) && Filled(g.guardianPhone)) then false
    else if g.isResident then
      var needsPhone := age.value >= 16;
      Filled(g.address) && (!needsPhone || Filled(g.phone))
    else
      g.nationality != "" && Filled(g.passportNumber) && g.passportPhoto.Some? && g.passportPhoto.value != ""
  }

  function AllValid(guests: seq<Guest>): (ok: bool)
    ensures ok <==> forall i :: 0 <= i < |guests| ==> ValidateGuestForm(guests[i])
  {
    if guests == [] then true else ValidateGuestForm(guests[0]) && AllValid(guests[1..])
  }

  /** `isRegistrationValid`: `None` stands for a value that is not an array. */
  function IsRegistrationValid(guests: Option<seq<Guest>>): (ok: bool)
    ensures ok <==> guests.Some? && |guests.value| > 0
                    && forall i :: 0 <= i < |guests.value| ==> ValidateGuestForm(guests.value[i])
  {
    match guests
    case None => false
    case Some(gs) => |gs| > 0 && AllValid(gs)
  }

  /** Validity of a list is validity of each part. */
  lemma {:induction false} AllValidAppend(a: seq<Guest>, b: seq<Guest>)
    ensures AllValid(a + b) == (AllValid(a) && AllValid(b))
  {
    if a != [] {
      assert (a + b)[1..] == a[1..] + b;
      AllValidAppend(a[1..], b);
    } else {
      assert a + b == b;
    }
  }

  // ---------------------------------------------------------------------
  // The cases of the unit tests
  // ---------------------------------------------------------------------

  function Resident(age: string, phone: string, address: string, guardianName: string, guardianPhone: string): Guest
  {
    Guest("r", "adult", true, "Resident Guest", age, phone, address, "", "", "", None,
          guardianName, guardianPhone, "idle", "", true)
  }

  function Visitor(nationality: string, passportNumber: string, passportPhoto: Option<string>): Guest
  {
    Guest("v", "adult", false, "Visitor Guest", "22", "", "", "", nationality, passportNumber, passportPhoto,
          "", "", "idle", "", true)
  }

  lemma AgeExample(d: string, n: nat)
    requires d != [] && forall c :: c in d ==> IsDigit(c)
    requires DecimalValue(d) == n
    ensures ParseAge(d) == Some(n)
  {
    ParseAgeOfDigits(d, "");
    assert d + "" == d;
  }

  lemma OneDigitAge(a: char)
    requires IsDigit(a)
    ensures ParseAge([a]) == Some(DigitValue(a))
  {
    assert [a][..0] == [];
    AgeExample([a], DecimalValue([a]));
  }

  lemma TwoDigitAge(a: char, b: char)
    requires IsDigit(a) && IsDigit(b)
    ensures ParseAge([a, b]) == Some(DigitValue(a) * 10 + DigitValue(b))
  {
    TwoDigitValue(a, b);
    AgeExample([a, b], DecimalValue([a, b]));
  }

  lemma TwoDigitValue(a: char, b: char)
    requires IsDigit(a) && IsDigit(b)
    ensures DecimalValue([a, b]) == DigitValue(a) * 10 + DigitValue(b)
  {
    assert [a, b][..1] == [a] && [a][..0] == [];
    assert DecimalValue([a]) == DigitValue(a);
  }

  lemma ThreeDigitAge(a: char, b: char, c: char)
    requires IsDigit(a) && IsDigit(b) && IsDigit(c)
    ensures ParseAge([a, b, c]) == Some(DigitValue(a) * 100 + DigitValue(b) * 10 + DigitValue(c))
  {
    ThreeDigitValue(a, b, c);
    AgeExample([a, b, c], DecimalValue([a, b, c]));
  }

  lemma ThreeDigitValue(a: char, b: char, c: char)
    requires IsDigit(a) && IsDigit(b) && IsDigit(c)
    ensures DecimalValue([a, b, c]) == DigitValue(a) * 100 + DigitValue(b) * 10 + DigitValue(c)
  {
    TwoDigitValue(a, b);
    DecimalSnoc([a, b], c);
    assert [a, b] + [c] == [a, b, c];
  }

  lemma DecimalSnoc(s: string, c: char)
    requires IsDigit(c) && forall d :: d in s ==> IsDigit(d)
    ensures DecimalValue(s + [c]) == DecimalValue(s) * 10 + DigitValue(c)
  {
    assert (s + [c])[..|s|] == s;
  }

  lemma NegativeAge()
    ensures ParseAge("-1") == Some(-1)
  {
    TrimNoop("-1", IsJsSpace);
    assert "-1"[1..] == "1";
    assert Run("1", 0, IsDigit) == 1;
    assert LeadingDigits("1") == "1";
    assert DecimalValue("1") == 1 by { assert "1"[..0] == ""; }
  }

  /** The text fields the examples use: filled or blank. */
  lemma ExampleNames()
    ensures Filled("Resident Guest") && Filled("Visitor Guest") && Filled("Osaka") && Filled("Tokyo")
    ensures Filled("Parent") && Filled("P123")
  {
    FilledFromFirst("Resident Guest");
    FilledFromFirst("Visitor Guest");
    FilledFromFirst("Osaka");
    FilledFromFirst("Tokyo");
    FilledFromFirst("Parent");
    FilledFromFirst("P123");
  }

  lemma ExamplePhones()
    ensures Filled("090") && Filled("09012345678") && Filled("08000000000") && !Filled("") && !Filled(" ")
  {
    FilledFromFirst("090");
    FilledFromFirst("09012345678");
    FilledFromFirst("08000000000");
    FilledIff("");
    FilledIff(" ");
  }

  /** Residents under 16 need no phone but still need an address. The test's
      second guest (blank address, no guardian) is rejected, but already by
      the guardian rule; the third clause adds the guardian the test leaves
      out, so that the address rule alone rejects it. */
  lemma ResidentUnder16Example()
    ensures ValidateGuestForm(Resident("15", "", "Osaka", "Parent", "090"))
    ensures !ValidateGuestForm(Resident("15", "09012345678", " ", "", ""))
    ensures !ValidateGuestForm(Resident("15", "", " ", "Parent", "090"))
  {
    TwoDigitAge('1', '5');
    ExampleNames();
    ExamplePhones();
  }

  /** Residents of 16 and over need a phone. The test's first guest (no
      phone, no guardian) is rejected, but already by the guardian rule; the
      second clause adds the guardian the test leaves out, so that the phone
      rule alone rejects it. */
  lemma Resident16Example()
    ensures !ValidateGuestForm(Resident("16", "", "Osaka", "", ""))
    ensures !ValidateGuestForm(Resident("16", "", "Osaka", "Parent", "090"))
    ensures ValidateGuestForm(Resident("16", "08000000000", "Osaka", "Parent", "090"))
  {
    TwoDigitAge('1', '6');
    ExampleNames();
    ExamplePhones();
  }

  /** Minors need a guardian's name and phone. */
  lemma MinorExample()
    ensures !ValidateGuestForm(Resident("17", "09012345678", "Osaka", "", "090"))
    ensures ValidateGuestForm(Resident("17", "09012345678", "Osaka", "Parent", "090"))
  {
    TwoDigitAge('1', '7');
    ExampleNames();
    ExamplePhones();
  }

  /** Visitors need a nationality, a passport number and a passport photo. */
  lemma VisitorExample()
    ensures !ValidateGuestForm(Visitor("", "P123", Some("data:image/png;base64,aGVsbG8=")))
    ensures !ValidateGuestForm(Visitor("US", " ", Some("data:image/png;base64,aGVsbG8=")))
    ensures !ValidateGuestForm(Visitor("US", "P123", None))
    ensures ValidateGuestForm(Visitor("US", "P123", Some("data:image/png;base64,aGVsbG8=")))
  {
    TwoDigitAge('2', '2');
    ExampleNames();
    ExamplePhones();
  }

  /** The age bounds 0 and 120 are inclusive; -1 and 121 are rejected. */
  lemma AgeBoundsExample()
    ensures ValidateGuestForm(Resident("0", "", "Tokyo", "Parent", "090"))
    ensures ValidateGuestForm(Resident("120", "09012345678", "Osaka", "", ""))
    ensures !ValidateGuestForm(Resident("-1", "09012345678", "Osaka", "", ""))
    ensures !ValidateGuestForm(Resident("121", "09012345678", "Osaka", "", ""))
  {
    AgeZeroValid();
    Age120Valid();
    AgeMinusOneInvalid();
    Age121Invalid();
  }

  lemma AgeZeroValid()
    ensures ValidateGuestForm(Resident("0", "", "Tokyo", "Parent", "090"))
  {
    OneDigitAge('0');
    FilledFromFirst("Resident Guest");
    FilledFromFirst("Tokyo");
    FilledFromFirst("Parent");
    FilledFromFirst("090");
  }

  lemma Age120Valid()
    ensures ValidateGuestForm(Resident("120", "09012345678", "Osaka", "", ""))
  {
    ThreeDigitAge('1', '2', '0');
    FilledFromFirst("Resident Guest");
    FilledFromFirst("Osaka");
    FilledFromFirst("09012345678");
  }

  lemma AgeMinusOneInvalid()
    ensures !ValidateGuestForm(Resident("-1", "09012345678", "Osaka", "", ""))
  {
    NegativeAge();
    FilledFromFirst("Resident Guest");
  }

  lemma Age121Invalid()
    ensures !ValidateGuestForm(Resident("121", "09012345678", "Osaka", "", ""))
  {
    ThreeDigitAge('1', '2', '1');
    FilledFromFirst("Resident Guest");
  }

  /** A registration needs at least one guest and every guest valid. */
  lemma RegistrationExample()
    ensures !IsRegistrationValid(Some([]))
    ensures IsRegistrationValid(Some([Resident("20", "09012345678", "Osaka", "", ""),
                                      Visitor("US", "P123", Some("data:image/png;base64,aGVsbG8="))]))
    ensures !IsRegistrationValid(Some([Resident("20", "09012345678", "Osaka", "", ""),
                                       Visitor("US", "P123", Some(""))]))
  {
    var r := Resident("20", "09012345678", "Osaka", "", "");
    var v := Visitor("US", "P123", Some("data:image/png;base64,aGVsbG8="));
    var w := Visitor("US", "P123", Some(""));
    AdultResidentValid();
    VisitorExample();
    assert ValidateGuestForm(r) && ValidateGuestForm(v) && !ValidateGuestForm(w);
    assert [r, v][0] == r && [r, v][1] == v && [r, w][1] == w;
  }

  lemma AdultResidentValid()
    ensures ValidateGuestForm(Resident("20", "09012345678", "Osaka", "", ""))
  {
    TwoDigitAge('2', '0');
    FilledFromFirst("Resident Guest");
    FilledFromFirst("Osaka");
    FilledFromFirst("09012345678");
  }
}
