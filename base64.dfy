/** Base 64 as the browser's `btoa`/`atob` implement it: the standard alphabet
    with padding (section 4 of RFC 4648), the URL- and filename-safe alphabet
    without padding (section 5 of RFC 4648) as a reference encoding, and the
    forgiving decoder of the WHATWG HTML standard that `atob` runs. */
module Base64 {
  import opened Prelude

  type byte = x: int | 0 <= x < 256
  type sextet = x: int | 0 <= x < 64

  /** Character `x` of the standard alphabet (`url` false) or of the
      URL-safe alphabet (`url` true); they differ only at 62 and 63. */
  function AlphabetChar(x: sextet, url: bool): (c: char)
    ensures c != '=' && !IsAsciiWhitespace(c)
  {
    if x < 26 then ('A' as int + x) as char
    else if x < 52 then ('a' as int + x - 26) as char
    else if x < 62 then ('0' as int + x - 52) as char
    else if x == 62 then (if url then '-' else '+')
    else (if url then '_' else '/')
  }

  /** The whitespace `atob` ignores: tab, line feed, form feed, carriage return, space. */
  predicate IsAsciiWhitespace(c: char) {
    c == '\t' || c == '\n' || c == '\U{000C}' || c == '\r' || c == ' '
  }

  predicate NotAsciiWhitespace(c: char) { !IsAsciiWhitespace(c) }

  /** Position of `c` in the standard alphabet. */
  function StdIndex(c: char): (r: Option<sextet>)
    ensures r.Some? ==> AlphabetChar(r.value, false) == c
    ensures r.None? ==> forall x: sextet :: AlphabetChar(x, false) != c
  {
    if 'A' <= c <= 'Z' then Some(c as int - 'A' as int)
    else if 'a' <= c <= 'z' then Some(c as int - 'a' as int + 26)
    else if '0' <= c <= '9' then Some(c as int - '0' as int + 52)
    else if c == '+' then Some(62)
    else if c == '/' then Some(63)
    else None
  }

  // ---------------------------------------------------------------------
  // Encoding
  // ---------------------------------------------------------------------

  /** Split the input into 3-byte groups, each giving four 6-bit values; a
      final group of one or two bytes gives two or three values, zero-filled. */
  function Sextets(b: seq<byte>): (r: seq<sextet>)
    ensures |r| == |b| / 3 * 4 + (if |b| % 3 == 0 then 0 else |b| % 3 + 1)
    ensures |r| % 4 != 1
    decreases |b|
  {
    if |b| == 0 then []
    else if |b| == 1 then [b[0] / 4, (b[0] % 4) * 16]
    else if |b| == 2 then [b[0] / 4, (b[0] % 4) * 16 + b[1] / 16, (b[1] % 16) * 4]
    else EncodeGroup(b[0], b[1], b[2]) + Sextets(b[3..])
  }

  /** Three bytes as four sextets. */
  function EncodeGroup(b0: byte, b1: byte, b2: byte): (r: seq<sextet>)
    ensures |r| == 4
  {
    [b0 / 4, (b0 % 4) * 16 + b1 / 16, (b1 % 16) * 4 + b2 / 64, b2 % 64]
  }

  /** Four sextets as three bytes. */
  function DecodeGroup(x0: sextet, x1: sextet, x2: sextet, x3: sextet): (r: seq<byte>)
    ensures |r| == 3
  {
    [x0 * 4 + x1 / 16, (x1 % 16) * 16 + x2 / 4, (x2 % 4) * 64 + x3]
  }

  function Render(xs: seq<sextet>, url: bool): (r: string)
    ensures |r| == |xs|
    ensures forall i :: 0 <= i < |xs| ==> r[i] == AlphabetChar(xs[i], url)
  {
    seq(|xs|, i requires 0 <= i < |xs| => AlphabetChar(xs[i], url))
  }

  /** The `=` characters that complete the last 4-character group. */
  function Padding(n: nat): (r: string)
    ensures forall c :: c in r ==> c == '='
  {
    if n % 3 == 1 then "==" else if n % 3 == 2 then "=" else ""
  }

  /** Standard base 64 with padding. */
  function Encode(b: seq<byte>): (r: string)
    ensures |r| % 4 == 0 && |r| == (|b| + 2) / 3 * 4
  {
    EncodedLength(|b|);
    Render(Sextets(b), false) + Padding(|b|)
  }

  lemma EncodedLength(n: nat)
    ensures var k := n / 3 * 4 + (if n % 3 == 0 then 0 else n % 3 + 1) + |Padding(n)|;
      k % 4 == 0 && k == (n + 2) / 3 * 4
  {
    var q, m := n / 3, n % 3;
    assert n == q * 3 + m;
    assert (n + 2) / 3 == if m == 0 then q else q + 1;
  }

  /** URL-safe base 64 without padding. */
  function UrlEncode(b: seq<byte>): (r: string)
    ensures |r| % 4 != 1
    ensures forall c :: c in r ==> c != '=' && c != '+' && c != '/'
  {
    Render(Sextets(b), true)
  }

  /** The string whose code units are the given bytes (`String.fromCharCode`). */
  function Latin1(b: seq<byte>): (r: string)
    ensures |r| == |b| && forall i :: 0 <= i < |b| ==> r[i] as int == b[i]
  {
    seq(|b|, i requires 0 <= i < |b| => b[i] as char)
  }

  /** The byte values of a string none of whose code units exceeds 255. */
  function CharCodes(s: string): (r: Option<seq<byte>>)
    ensures r.Some? <==> forall i :: 0 <= i < |s| ==> s[i] as int < 256
    ensures r.Some? ==> |r.value| == |s| && forall i :: 0 <= i < |s| ==> r.value[i] == s[i] as int
  {
    if forall i :: 0 <= i < |s| ==> s[i] as int < 256
    then Some(seq(|s|, i requires 0 <= i < |s| => s[i] as int as byte))
    else None
  }

  /** `btoa`: fails (throws) on a code unit above 255. */
  function Btoa(s: string): (r: Option<string>)
    ensures r.None? <==> exists i :: 0 <= i < |s| && s[i] as int >= 256
  {
    match CharCodes(s)
    case None => None
    case Some(b) => Some(Encode(b))
  }

  // ---------------------------------------------------------------------
  // Forgiving decoding (`atob`)
  // ---------------------------------------------------------------------

  function Indices(s: string): (r: Option<seq<sextet>>)
    ensures r.Some? <==> forall i :: 0 <= i < |s| ==> StdIndex(s[i]).Some?
    ensures r.Some? ==> |r.value| == |s| && forall i :: 0 <= i < |s| ==> AlphabetChar(r.value[i], false) == s[i]
  {
    if s == [] then Some([])
    else match (StdIndex(s[0]), Indices(s[1..]))
      case (Some(x), Some(rest)) => Some([x] + rest)
      case _ => None
  }

  function DecodeSextets(xs: seq<sextet>): (r: seq<byte>)
    requires |xs| % 4 != 1
    decreases |xs|
  {
    if |xs| == 0 then []
    else
      var x0, x1 := xs[0] as int, xs[1] as int;
      if |xs| == 2 then [x0 * 4 + x1 / 16]
      else
        var x2 := xs[2] as int;
        if |xs| == 3 then [x0 * 4 + x1 / 16, (x1 % 16) * 16 + x2 / 4]
        else DecodeGroup(xs[0], xs[1], xs[2], xs[3]) + DecodeSextets(xs[4..])
  }

  /** Drop one or two trailing `=` when the length is a multiple of four. */
  function StripPadding(d: string): (r: string)
    ensures |r| <= |d| && r == d[..|r|]
  {
    if |d| % 4 == 0 && |d| >= 2 && d[|d| - 2..] == "==" then d[..|d| - 2]
    else if |d| % 4 == 0 && |d| >= 1 && d[|d| - 1] == '=' then d[..|d| - 1]
    else d
  }

  /** The forgiving-base64 decode: `None` is the failure that makes `atob` throw. */
  function ForgivingDecode(s: string): (r: Option<seq<byte>>)
    ensures r.Some? ==> |StripPadding(Filter(s, NotAsciiWhitespace))| % 4 != 1
  {
    var d := StripPadding(Filter(s, NotAsciiWhitespace));
    if |d| % 4 == 1 then None
    else match Indices(d)
      case None => None
      case Some(xs) => Some(DecodeSextets(xs))
  }

  function Atob(s: string): (r: Option<string>)
    ensures r.Some? <==> ForgivingDecode(s).Some?
    ensures r.Some? ==> r.value == Latin1(ForgivingDecode(s).value)
  {
    match ForgivingDecode(s)
    case None => None
    case Some(b) => Some(Latin1(b))
  }

  // ---------------------------------------------------------------------
  // Round trips
  // ---------------------------------------------------------------------

  lemma GroupRoundTrip(b0: byte, b1: byte, b2: byte)
    ensures var g := EncodeGroup(b0, b1, b2); DecodeGroup(g[0], g[1], g[2], g[3]) == [b0, b1, b2]
  {
  }

  lemma {:induction false} DecodeSextetsRoundTrip(b: seq<byte>)
    ensures DecodeSextets(Sextets(b)) == b
    decreases |b|
  {
    if |b| == 0 {
    } else if |b| == 1 {
      OneByteRoundTrip(b);
    } else if |b| == 2 {
      TwoBytesRoundTrip(b);
    } else {
      GroupFirst(b);
      GroupRoundTrip(b[0], b[1], b[2]);
      DecodeSextetsRoundTrip(b[3..]);
      assert b == [b[0], b[1], b[2]] + b[3..];
    }
  }

  lemma OneByteRoundTrip(b: seq<byte>)
    requires |b| == 1
    ensures DecodeSextets(Sextets(b)) == b
  {
    OneByteSextets(b);
    OneByteDecode(b[0]);
    assert b == [b[0]];
  }

  lemma OneByteSextets(b: seq<byte>)
    requires |b| == 1
    ensures Sextets(b) == [b[0] / 4, (b[0] % 4) * 16]
  {
  }

  /** A final lone byte: its two sextets give it back. */
  lemma OneByteDecode(b0: byte)
    ensures DecodeSextets([b0 / 4, (b0 % 4) * 16]) == [b0]
  {
    var x0: sextet, x1: sextet := b0 / 4, (b0 % 4) * 16;
    SplitHigh(b0 % 4, 0);
    assert DecodeSextets([x0, x1]) == [x0 * 4 + x1 / 16];
  }

  lemma TwoBytesRoundTrip(b: seq<byte>)
    requires |b| == 2
    ensures DecodeSextets(Sextets(b)) == b
  {
    TwoBytesSextets(b);
    TwoBytesDecode(b[0], b[1]);
    assert b == [b[0], b[1]];
  }

  lemma TwoBytesSextets(b: seq<byte>)
    requires |b| == 2
    ensures Sextets(b) == [b[0] / 4, (b[0] % 4) * 16 + b[1] / 16, (b[1] % 16) * 4]
  {
  }

  /** The arithmetic of a final group of two bytes: its three sextets give them back. */
  lemma TwoBytesDecode(b0: byte, b1: byte)
    ensures DecodeSextets([b0 / 4, (b0 % 4) * 16 + b1 / 16, (b1 % 16) * 4]) == [b0, b1]
  {
    var x0: sextet, x1: sextet, x2: sextet := b0 / 4, (b0 % 4) * 16 + b1 / 16, (b1 % 16) * 4;
    SplitHigh(b0 % 4, b1 / 16);
    assert x2 / 4 == b1 % 16;
    assert DecodeSextets([x0, x1, x2]) == [x0 * 4 + x1 / 16, (x1 % 16) * 16 + x2 / 4];
  }

  /** A sextet built from a 2-bit high part and a 4-bit low part splits back into them. */
  lemma SplitHigh(h: int, l: int)
    requires 0 <= h < 4 && 0 <= l < 16
    ensures (h * 16 + l) / 16 == h && (h * 16 + l) % 16 == l
  {
  }

  /** The first group of three bytes is decoded from its own four sextets. */
  lemma GroupFirst(b: seq<byte>)
    requires |b| >= 3
    ensures var g := EncodeGroup(b[0], b[1], b[2]);
      DecodeSextets(Sextets(b)) == DecodeGroup(g[0], g[1], g[2], g[3]) + DecodeSextets(Sextets(b[3..]))
  {
    var g := EncodeGroup(b[0], b[1], b[2]);
    var xs := Sextets(b);
    assert xs == g + Sextets(b[3..]);
    assert xs[0] == g[0] && xs[1] == g[1] && xs[2] == g[2] && xs[3] == g[3];
    assert xs[4..] == Sextets(b[3..]);
  }

  lemma IndicesOfRender(xs: seq<sextet>)
    ensures Indices(Render(xs, false)) == Some(xs)
  {
    var s := Render(xs, false);
    forall i | 0 <= i < |s|
      ensures StdIndex(s[i]).Some?
    {
      assert s[i] == AlphabetChar(xs[i], false);
    }
    var r := Indices(s);
    assert r.Some?;
    forall i | 0 <= i < |xs|
      ensures r.value[i] == xs[i]
    {
      assert AlphabetChar(r.value[i], false) == s[i] == AlphabetChar(xs[i], false);
      AlphabetInjective(r.value[i], xs[i]);
    }
    assert r.value == xs;
  }

  lemma AlphabetInjective(x: sextet, y: sextet)
    requires AlphabetChar(x, false) == AlphabetChar(y, false)
    ensures x == y
  {
  }

  /** Decoding a padded or unpadded rendering of the sextets of `b` gives `b` back. */
  lemma DecodeRendered(b: seq<byte>, pad: string)
    requires pad == Padding(|b|) || pad == ""
    ensures ForgivingDecode(Render(Sextets(b), false) + pad) == Some(b)
  {
    var xs := Sextets(b);
    var body := Render(xs, false);
    CleanRendered(b, pad);
    assert StripPadding(Filter(body + pad, NotAsciiWhitespace)) == body;
    IndicesOfRender(xs);
    DecodeSextetsRoundTrip(b);
  }

  /** Whitespace removal and padding removal leave exactly the rendered sextets. */
  lemma CleanRendered(b: seq<byte>, pad: string)
    requires pad == Padding(|b|) || pad == ""
    ensures StripPadding(Filter(Render(Sextets(b), false) + pad, NotAsciiWhitespace)) == Render(Sextets(b), false)
  {
    var xs := Sextets(b);
    var body := Render(xs, false);
    NoWhitespaceInRendered(xs, pad);
    FilterKeepsAll(body + pad, NotAsciiWhitespace);
    PaddingFits(b);
    assert forall c :: c in body ==> c != '=';
    StripPaddingOf(body, pad);
  }

  lemma PaddingFits(b: seq<byte>)
    ensures var n := |Sextets(b)| % 4; var p := Padding(|b|);
      (p == "" && n == 0) || (p == "==" && n == 2) || (p == "=" && n == 3)
  {
    var q, m := |b| / 3, |b| % 3;
    var k := if m == 0 then 0 else m + 1;
    assert |Sextets(b)| == q * 4 + k;
    FourTimesPlus(q, k);
  }

  lemma FourTimesPlus(q: nat, k: nat)
    requires k < 4
    ensures (q * 4 + k) % 4 == k
  {
  }

  lemma NoWhitespaceInRendered(xs: seq<sextet>, pad: string)
    requires forall c :: c in pad ==> c == '='
    ensures forall c :: c in Render(xs, false) + pad ==> NotAsciiWhitespace(c)
  {
    var s := Render(xs, false) + pad;
    forall c | c in s
      ensures NotAsciiWhitespace(c)
    {
      var i :| 0 <= i < |s| && s[i] == c;
      if i < |xs| {
        assert c == AlphabetChar(xs[i], false);
      } else {
        assert c in pad;
      }
    }
  }

  lemma StripPaddingOf(body: string, pad: string)
    requires forall c :: c in body ==> c != '='
    requires pad == "" || (pad == "==" && |body| % 4 == 2) || (pad == "=" && |body| % 4 == 3)
    ensures StripPadding(body + pad) == body
  {
    var s := body + pad;
    if pad == "==" {
      assert s[|s| - 2..] == "==";
      assert s[..|s| - 2] == body;
    } else if pad == "=" {
      assert body[|body| - 1] in body;
      assert s[|s| - 2..][0] == body[|body| - 1];
      assert s[..|s| - 1] == body;
    } else {
      assert s == body;
      if |body| >= 1 {
        assert body[|body| - 1] in body;
      }
    }
  }

  /** `atob(btoa(s)) == s` for every string of code units up to 255. */
  lemma AtobBtoa(s: string)
    requires Btoa(s).Some?
    ensures Atob(Btoa(s).value) == Some(s)
  {
    var b := CharCodes(s).value;
    DecodeRendered(b, Padding(|b|));
    assert Latin1(b) == s;
  }
}
