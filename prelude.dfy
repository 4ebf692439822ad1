/** Shared vocabulary of the model: an Option type, the character classes the
    source's regular expressions use, and the string operations (case mapping,
    filtering, stripping, splitting, substring search, leftmost search) from
    which the scanners of the other modules are built. */
module Prelude {

  datatype Option<+T> = None | Some(value: T)

  // ---------------------------------------------------------------------
  // Character classes (ASCII, as in `[A-Z0-9<]` and friends)
  // ---------------------------------------------------------------------

  predicate IsDigit(c: char) { '0' <= c <= '9' }
  predicate IsUpper(c: char) { 'A' <= c <= 'Z' }
  predicate IsLower(c: char) { 'a' <= c <= 'z' }

  /** `[A-Z0-9]` */
  predicate IsUpperAlnum(c: char) { IsUpper(c) || IsDigit(c) }

  /** `[A-Z0-9<]`, the machine-readable-zone alphabet */
  predicate IsMrzChar(c: char) { IsUpper(c) || IsDigit(c) || c == '<' }

  /** ASCII word characters, the ones `\b` looks at */
  predicate IsWordChar(c: char) { IsUpper(c) || IsLower(c) || IsDigit(c) || c == '_' }

  /** Python's `str.isspace` and its regular-expression class `\s` */
  predicate IsPySpace(c: char) {
    c == ' ' || c == '\t' || c == '\n' || c == '\r' || c == '\U{000B}' || c == '\U{000C}'
    || c == '\U{001C}' || c == '\U{001D}' || c == '\U{001E}' || c == '\U{001F}'
    || c == '\U{0085}' || c == '\U{00A0}' || c == '\U{1680}'
    || ('\U{2000}' <= c <= '\U{200A}')
    || c == '\U{2028}' || c == '\U{2029}' || c == '\U{202F}' || c == '\U{205F}' || c == '\U{3000}'
  }

  /** The line boundaries of Python's `str.splitlines` */
  predicate IsPyLineBreak(c: char) {
    c == '\n' || c == '\r' || c == '\U{000B}' || c == '\U{000C}'
    || c == '\U{001C}' || c == '\U{001D}' || c == '\U{001E}'
    || c == '\U{0085}' || c == '\U{2028}' || c == '\U{2029}'
  }

  /** JavaScript's `\s` and the set `String.prototype.trim` removes */
  predicate IsJsSpace(c: char) {
    c == ' ' || c == '\t' || c == '\n' || c == '\r' || c == '\U{000B}' || c == '\U{000C}'
    || c == '\U{00A0}' || c == '\U{1680}'
    || ('\U{2000}' <= c <= '\U{200A}')
    || c == '\U{2028}' || c == '\U{2029}' || c == '\U{202F}' || c == '\U{205F}'
    || c == '\U{3000}' || c == '\U{FEFF}'
  }

  lemma PyLineBreakIsSpace(c: char)
    ensures IsPyLineBreak(c) ==> IsPySpace(c)
  {
  }

  // ---------------------------------------------------------------------
  // Case mapping (ASCII letters only)
  // ---------------------------------------------------------------------

  function UpperChar(c: char): (r: char)
    ensures IsLower(c) ==> IsUpper(r) && r as int == c as int - 32
    ensures !IsLower(c) ==> r == c
  {
    if IsLower(c) then (c as int - 32) as char else c
  }

  function LowerChar(c: char): (r: char)
    ensures IsUpper(c) ==> IsLower(r) && r as int == c as int + 32
    ensures !IsUpper(c) ==> r == c
  {
    if IsUpper(c) then (c as int + 32) as char else c
  }

  function Upper(s: string): (r: string)
    ensures |r| == |s|
    ensures forall i :: 0 <= i < |s| ==> r[i] == UpperChar(s[i])
  {
    if s == [] then [] else [UpperChar(s[0])] + Upper(s[1..])
  }

  function Lower(s: string): (r: string)
    ensures |r| == |s|
    ensures forall i :: 0 <= i < |s| ==> r[i] == LowerChar(s[i])
  {
    if s == [] then [] else [LowerChar(s[0])] + Lower(s[1..])
  }

  lemma UpperAppend(a: string, b: string)
    ensures Upper(a + b) == Upper(a) + Upper(b)
  {
    var l, r := Upper(a + b), Upper(a) + Upper(b);
    forall i | 0 <= i < |l|
      ensures l[i] == r[i]
    {
      if i < |a| {
        assert (a + b)[i] == a[i];
      } else {
        assert (a + b)[i] == b[i - |a|];
      }
    }
  }

  // ---------------------------------------------------------------------
  // Filtering, mapping, stripping
  // ---------------------------------------------------------------------

  /** Keep the elements that satisfy `keep`, in order (`Array.prototype.filter`;
      on text, `re.sub` of the complement with ''). */
  function Filter<T>(s: seq<T>, keep: T -> bool): (r: seq<T>)
    ensures |r| <= |s|
    ensures forall c :: c in r ==> c in s && keep(c)
    ensures forall c :: c in s && keep(c) ==> c in r
  {
    if s == [] then [] else (if keep(s[0]) then [s[0]] else []) + Filter(s[1..], keep)
  }

  lemma {:induction false} FilterAppend<T>(a: seq<T>, b: seq<T>, keep: T -> bool)
    ensures Filter(a + b, keep) == Filter(a, keep) + Filter(b, keep)
  {
    if a == [] {
      assert a + b == b;
    } else {
      ConsParts(a, b);
      FilterAppend(a[1..], b, keep);
      FilterStep(a + b, keep);
      FilterStep(a, keep);
      var x, y := Filter(a[1..], keep), Filter(b, keep);
      if keep(a[0]) {
        assert [a[0]] + (x + y) == ([a[0]] + x) + y;
      } else {
        assert [] + (x + y) == x + y && [] + x == x;
      }
    }
  }

  /** One step of a filter. */
  lemma FilterStep<T>(s: seq<T>, keep: T -> bool)
    requires s != []
    ensures Filter(s, keep) == (if keep(s[0]) then [s[0]] else []) + Filter(s[1..], keep)
  {
  }

  lemma {:induction false} FilterKeepsAll<T>(s: seq<T>, keep: T -> bool)
    requires forall c :: c in s ==> keep(c)
    ensures Filter(s, keep) == s
  {
    if s != [] {
      FilterKeepsAll(s[1..], keep);
    }
  }

  /** Two complementary filters split a sequence: every element lands in
      exactly one of them, as often as it occurs. */
  lemma {:induction false} FilterPartition<T>(s: seq<T>, p: T -> bool, q: T -> bool)
    requires forall x :: q(x) == !p(x)
    ensures multiset(Filter(s, p)) + multiset(Filter(s, q)) == multiset(s)
    ensures |Filter(s, p)| + |Filter(s, q)| == |s|
  {
    if s != [] {
      FilterPartition(s[1..], p, q);
      assert s == [s[0]] + s[1..];
    }
  }

  /** Replace every occurrence of character `a` with `b` (`str.replace` / a global regex replace). */
  function ReplaceChar(s: string, a: char, b: char): (r: string)
    ensures |r| == |s|
    ensures forall i :: 0 <= i < |s| ==> r[i] == (if s[i] == a then b else s[i])
  {
    if s == [] then [] else [if s[0] == a then b else s[0]] + ReplaceChar(s[1..], a, b)
  }

  function TrimStart(s: string, strip: char -> bool): (r: string)
    ensures |r| <= |s|
    ensures r != [] ==> !strip(r[0])
  {
    if s != [] && strip(s[0]) then TrimStart(s[1..], strip) else s
  }

  function TrimEnd(s: string, strip: char -> bool): (r: string)
    ensures |r| <= |s|
    ensures r != [] ==> !strip(r[|r| - 1])
  {
    if s != [] && strip(s[|s| - 1]) then TrimEnd(s[..|s| - 1], strip) else s
  }

  /** What `TrimStart` removes is a prefix of `strip` characters. */
  lemma {:induction false} TrimStartSpec(s: string, strip: char -> bool)
    ensures var r := TrimStart(s, strip);
      r == s[|s| - |r|..] && forall i :: 0 <= i < |s| - |r| ==> strip(s[i])
  {
    if s != [] && strip(s[0]) {
      TrimStartSpec(s[1..], strip);
    }
  }

  /** What `TrimEnd` removes is a suffix of `strip` characters. */
  lemma {:induction false} TrimEndSpec(s: string, strip: char -> bool)
    ensures var r := TrimEnd(s, strip);
      r == s[..|r|] && forall i :: |r| <= i < |s| ==> strip(s[i])
  {
    if s != [] && strip(s[|s| - 1]) {
      TrimEndSpec(s[..|s| - 1], strip);
    }
  }

  /** Remove leading and trailing characters satisfying `strip` (Python `strip`, JS `trim`). */
  function Trim(s: string, strip: char -> bool): (r: string)
    ensures |r| <= |s|
    ensures r != [] ==> !strip(r[0]) && !strip(r[|r| - 1])
  {
    var t := TrimStart(s, strip);
    TrimEndSpec(t, strip);
    TrimEnd(t, strip)
  }

  /** Trimming only removes characters. */
  lemma TrimSubset(s: string, strip: char -> bool)
    ensures forall c :: c in Trim(s, strip) ==> c in s
  {
    var t := TrimStart(s, strip);
    TrimStartSpec(s, strip);
    TrimEndSpec(t, strip);
    assert forall c :: c in t ==> c in s;
  }

  lemma TrimEmptyIff(s: string, strip: char -> bool)
    ensures Trim(s, strip) == [] <==> forall c :: c in s ==> strip(c)
  {
    var t := TrimStart(s, strip);
    TrimStartSpec(s, strip);
    TrimEndSpec(t, strip);
    assert t != [] ==> t[0] == s[|s| - |t|];
    if !forall c :: c in s ==> strip(c) {
      var c :| c in s && !strip(c);
      var i :| 0 <= i < |s| && s[i] == c;
      assert i >= |s| - |t|;
    }
  }

  lemma TrimNoop(s: string, strip: char -> bool)
    requires s != [] ==> !strip(s[0]) && !strip(s[|s| - 1])
    ensures Trim(s, strip) == s
  {
  }

  /** Python `str.strip()` */
  function PyStrip(s: string): string { Trim(s, IsPySpace) }

  /** JavaScript `String.prototype.trim()` */
  function JsTrim(s: string): string { Trim(s, IsJsSpace) }

  /** Python `not s.strip()` / JavaScript `!s.trim()`: the string is empty or only whitespace. */
  predicate IsBlank(s: string, space: char -> bool) { forall c :: c in s ==> space(c) }

  // ---------------------------------------------------------------------
  // Splitting and joining
  // ---------------------------------------------------------------------

  /** Split at every separator character, keeping empty pieces (Python `split(',')`, JS `split`). */
  function Split(s: string, isSep: char -> bool): (r: seq<string>)
    ensures |r| >= 1
    ensures forall k :: 0 <= k < |r| ==> forall c :: c in r[k] ==> c in s && !isSep(c)
  {
    if s == [] then [""]
    else
      var rest := Split(s[1..], isSep);
      if isSep(s[0]) then [""] + rest else [[s[0]] + rest[0]] + rest[1..]
  }

  lemma {:induction false} SplitNoSep(s: string, isSep: char -> bool)
    requires forall c :: c in s ==> !isSep(c)
    ensures Split(s, isSep) == [s]
  {
    if s != [] {
      SplitNoSep(s[1..], isSep);
      assert [s[0]] + s[1..] == s;
    }
  }

  lemma {:induction false} SplitConcat(a: string, sep: char, b: string, isSep: char -> bool)
    requires isSep(sep)
    requires forall c :: c in a ==> !isSep(c)
    ensures Split(a + [sep] + b, isSep) == [a] + Split(b, isSep)
  {
    if a == [] {
      assert a + [sep] + b == [sep] + b;
      assert ([sep] + b)[1..] == b;
    } else {
      var s, s1 := a + [sep] + b, a[1..] + [sep] + b;
      ConsParts(a, [sep] + b);
      assert s == a + ([sep] + b) && s1 == a[1..] + ([sep] + b);
      TailKeepsNoSep(a, isSep);
      SplitConcat(a[1..], sep, b, isSep);
      SplitKeepStep(s, isSep);
      var rest := [a[1..]] + Split(b, isSep);
      assert rest[0] == a[1..] && rest[1..] == Split(b, isSep);
    }
  }

  /** The first character and the rest of a concatenation. */
  lemma ConsParts<T>(a: seq<T>, b: seq<T>)
    requires a != []
    ensures (a + b)[0] == a[0] && (a + b)[1..] == a[1..] + b && [a[0]] + a[1..] == a
  {
  }

  lemma TailKeepsNoSep(a: string, isSep: char -> bool)
    requires a != [] && forall c :: c in a ==> !isSep(c)
    ensures !isSep(a[0]) && forall c :: c in a[1..] ==> !isSep(c)
  {
    assert a[0] in a;
    assert forall c :: c in a[1..] ==> c in a;
  }

  /** A non-separator joins the first piece of the rest. */
  lemma SplitKeepStep(s: string, isSep: char -> bool)
    requires s != [] && !isSep(s[0])
    ensures Split(s, isSep) == [[s[0]] + Split(s[1..], isSep)[0]] + Split(s[1..], isSep)[1..]
  {
  }

  /** Keep the pieces that are not blank (`if line.strip()`, `.filter(Boolean)`). */
  function NonBlank(xs: seq<string>, space: char -> bool): (r: seq<string>)
    ensures |r| <= |xs|
    ensures forall k :: 0 <= k < |r| ==> r[k] in xs && !IsBlank(r[k], space)
  {
    if xs == [] then []
    else (if IsBlank(xs[0], space) then [] else [xs[0]]) + NonBlank(xs[1..], space)
  }

  function MapStrings(xs: seq<string>, f: string -> string): (r: seq<string>)
    ensures |r| == |xs|
    ensures forall k :: 0 <= k < |xs| ==> r[k] == f(xs[k])
  {
    if xs == [] then [] else [f(xs[0])] + MapStrings(xs[1..], f)
  }

  /** `sep.join(xs)` */
  function Join(xs: seq<string>, sep: string): string
  {
    if xs == [] then "" else if |xs| == 1 then xs[0] else xs[0] + sep + Join(xs[1..], sep)
  }

  // ---------------------------------------------------------------------
  // Substrings
  // ---------------------------------------------------------------------

  predicate StartsWith(s: string, p: string) { |p| <= |s| && s[..|p|] == p }

  /** `p in s` (Python), `s.includes(p)` (JavaScript) */
  predicate Contains(s: string, p: string)
  {
    StartsWith(s, p) || (|s| > |p| && Contains(s[1..], p))
  }

  /** `p` occurs in `s` at position `i` */
  predicate OccursAt(s: string, p: string, i: nat) { i + |p| <= |s| && s[i..i + |p|] == p }

  lemma {:induction false} ContainsIff(s: string, p: string)
    ensures Contains(s, p) <==> exists i: nat :: OccursAt(s, p, i)
  {
    if StartsWith(s, p) {
      assert OccursAt(s, p, 0);
    } else if |s| > |p| {
      ContainsIff(s[1..], p);
      if Contains(s[1..], p) {
        var i: nat :| OccursAt(s[1..], p, i);
        assert s[1..][i..i + |p|] == s[i + 1..i + 1 + |p|];
        assert OccursAt(s, p, i + 1);
      }
      if exists i: nat :: OccursAt(s, p, i) {
        var i: nat :| OccursAt(s, p, i);
        assert i != 0;
        assert s[1..][i - 1..i - 1 + |p|] == s[i..i + |p|];
        assert OccursAt(s[1..], p, i - 1);
      }
    } else {
      assert forall i: nat :: OccursAt(s, p, i) ==> i == 0;
    }
  }

  /** Appending text never removes an occurrence. */
  lemma ContainsAppend(s: string, t: string, p: string)
    requires Contains(s, p)
    ensures Contains(s + t, p)
  {
    ContainsIff(s, p);
    var i: nat :| OccursAt(s, p, i);
    assert (s + t)[i..i + |p|] == s[i..i + |p|];
    assert OccursAt(s + t, p, i);
    ContainsIff(s + t, p);
  }

  lemma ContainsChar(s: string, c: char)
    ensures Contains(s, [c]) <==> c in s
  {
    ContainsIff(s, [c]);
    if c in s {
      var i :| 0 <= i < |s| && s[i] == c;
      assert OccursAt(s, [c], i);
    }
    if exists i: nat :: OccursAt(s, [c], i) {
      var i: nat :| OccursAt(s, [c], i);
      assert s[i] == s[i..i + 1][0];
    }
  }

  /** How many of the words occur in `s` */
  function CountContained(s: string, words: seq<string>): (n: nat)
    ensures n <= |words|
  {
    if words == [] then 0 else (if Contains(s, words[0]) then 1 else 0) + CountContained(s, words[1..])
  }

  lemma {:induction false} CountContainedAppend(s: string, t: string, words: seq<string>)
    ensures CountContained(s, words) <= CountContained(s + t, words)
  {
    if words != [] {
      if Contains(s, words[0]) {
        ContainsAppend(s, t, words[0]);
      }
      CountContainedAppend(s, t, words[1..]);
    }
  }

  // ---------------------------------------------------------------------
  // Runs and leftmost search
  // ---------------------------------------------------------------------

  /** Length of the maximal run of `cls` characters starting at `i` (0 past the end). */
  function Run(s: string, i: nat, cls: char -> bool): (k: nat)
    ensures i <= |s| ==> i + k <= |s|
    ensures i > |s| ==> k == 0
    ensures forall j :: i <= j < i + k ==> j < |s| && cls(s[j])
    ensures i + k < |s| ==> !cls(s[i + k])
    decreases |s| - i
  {
    if i < |s| && cls(s[i]) then 1 + Run(s, i + 1, cls) else 0
  }

  /** The first index in `[i, n)` that satisfies `p`: what a regular-expression
      search does when it tries the start positions from left to right. */
  function FirstIndex(i: nat, n: nat, p: nat -> bool): (r: Option<nat>)
    ensures r.Some? ==> i <= r.value < n && p(r.value) && forall j :: i <= j < r.value ==> !p(j)
    ensures r.None? ==> forall j :: i <= j < n ==> !p(j)
    decreases n - i
  {
    if i >= n then None else if p(i) then Some(i) else FirstIndex(i + 1, n, p)
  }

  /** The first match among the start positions `[i, n)`, tried from left
      to right, as a regular-expression search does. */
  function FirstMatch<U>(i: nat, n: nat, m: nat -> Option<U>): (r: Option<U>)
    ensures r.Some? ==> exists x :: i <= x < n && m(x) == r && forall j :: i <= j < x ==> m(j).None?
    ensures r.None? ==> forall x :: i <= x < n ==> m(x).None?
    decreases n - i
  {
    if i >= n then None else if m(i).Some? then m(i) else FirstMatch(i + 1, n, m)
  }

  /** The first element for which `f` yields something, and what it yields
      (a loop over a list with an early return). */
  function FirstOf<T, U>(xs: seq<T>, f: T -> Option<U>): (r: Option<U>)
    ensures r.Some? ==> exists k :: 0 <= k < |xs| && f(xs[k]) == r && forall j :: 0 <= j < k ==> f(xs[j]).None?
    ensures r.None? ==> forall k :: 0 <= k < |xs| ==> f(xs[k]).None?
  {
    if xs == [] then None
    else if f(xs[0]).Some? then f(xs[0])
    else
      var r := FirstOf(xs[1..], f);
      assert forall k :: 1 <= k < |xs| ==> xs[k] == xs[1..][k - 1];
      r
  }

  // ---------------------------------------------------------------------
  // Backtracking, for the regular expressions with optional parts
  // ---------------------------------------------------------------------

  /** The positions `\s*` can stop at from `i`, in the order the greedy
      quantifier tries them: longest first. */
  function Star(t: string, i: nat, cls: char -> bool): (r: seq<nat>)
    ensures i in r
  {
    StarDown(i, Run(t, i, cls))
  }

  function StarDown(i: nat, k: nat): (r: seq<nat>)
    ensures i in r
    decreases k
  {
    if k == 0 then [i] else [i + k] + StarDown(i, k - 1)
  }

  /** The positions `(a|b|…)?` can stop at from `i`, in the order tried:
      each alternative that occurs there, then the empty choice. */
  function Alts(t: string, i: nat, alts: seq<string>): (r: seq<nat>)
    ensures i in r
  {
    if alts == [] then [i]
    else (if OccursAt(t, alts[0], i) then [i + |alts[0]|] else []) + Alts(t, i, alts[1..])
  }

  /** Backtracking over a sequence of choices: the continuations of every
      choice, in the choices' order. */
  function Bind(xs: seq<nat>, f: nat -> seq<nat>): seq<nat>
  {
    if xs == [] then [] else f(xs[0]) + Bind(xs[1..], f)
  }

  lemma {:induction false} BindMember(xs: seq<nat>, f: nat -> seq<nat>, x: nat, y: nat)
    requires x in xs && y in f(x)
    ensures y in Bind(xs, f)
  {
    if xs[0] != x {
      BindMember(xs[1..], f, x, y);
    }
  }

  /** The first of the positions `xs` at which at least `least` characters
      of `cls` follow. */
  function FirstFitting(t: string, xs: seq<nat>, cls: char -> bool, least: nat): (r: Option<nat>)
    ensures r.Some? ==> r.value in xs && Run(t, r.value, cls) >= least
    ensures r.None? ==> forall x :: x in xs ==> Run(t, x, cls) < least
  {
    if xs == [] then None
    else if Run(t, xs[0], cls) >= least then Some(xs[0])
    else FirstFitting(t, xs[1..], cls, least)
  }

  /** A greedy `cls{least,most}` group at `r`: as many characters as there
      are, up to `most`. */
  function Greedy(t: string, r: nat, cls: char -> bool, least: nat, most: nat): (g: string)
    requires Run(t, r, cls) >= least && 1 <= least <= most
    ensures least <= |g| <= most && forall c :: c in g ==> cls(c)
    ensures r + |g| <= |t| && g == t[r..r + |g|]
    ensures |g| == (if Run(t, r, cls) > most then most else Run(t, r, cls))
  {
    var k := Run(t, r, cls);
    t[r..r + (if k > most then most else k)]
  }

  // ---------------------------------------------------------------------
  // Decimal numerals
  // ---------------------------------------------------------------------

  function DigitChar(d: nat): (c: char)
    requires d < 10
    ensures IsDigit(c) && c as int - '0' as int == d
  {
    ('0' as int + d) as char
  }

  function DigitValue(c: char): (d: nat)
    requires IsDigit(c)
    ensures d < 10 && DigitChar(d) == c
  {
    c as int - '0' as int
  }

  /** Decimal text of a natural number without leading zeros (`String(n)`). */
  function NatToDecimal(n: nat): (r: string)
    ensures |r| >= 1
    ensures forall c :: c in r ==> IsDigit(c)
    decreases n
  {
    if n < 10 then [DigitChar(n)] else NatToDecimal(n / 10) + [DigitChar(n % 10)]
  }

  /** Value of a string of decimal digits. */
  function DecimalValue(s: string): (v: nat)
    requires forall c :: c in s ==> IsDigit(c)
    decreases |s|
  {
    if s == [] then 0 else DecimalValue(s[..|s| - 1]) * 10 + DigitValue(s[|s| - 1])
  }

  lemma {:induction false} DecimalRoundTrip(n: nat)
    ensures DecimalValue(NatToDecimal(n)) == n
    decreases n
  {
    if n >= 10 {
      var s := NatToDecimal(n / 10) + [DigitChar(n % 10)];
      assert s[..|s| - 1] == NatToDecimal(n / 10);
      DecimalRoundTrip(n / 10);
    }
  }
}
