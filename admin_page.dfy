/** The logic of the admin page: the URL-safe base 64 used to pass passkey
    buffers to and from the browser, the split of the guest list into active
    and deleted rows, the soft-delete update of the listed records and the
    editors of the step list. */
module AdminPage {
  import opened Prelude
  import opened Base64
  import opened Records
  import opened AppSteps

  // ---------------------------------------------------------------------
  // bufferToBase64Url
  // ---------------------------------------------------------------------

  predicate IsPad(c: char) { c == '=' }

  /** The character substitutions and the `/=+$/` removal applied to the
      output of `btoa`. */
  function StdToUrl(s: string): string {
    TrimEnd(ReplaceChar(ReplaceChar(s, '+', '-'), '/', '_'), IsPad)
  }

  /** `bufferToBase64Url`: every byte becomes one code unit of a string,
      `btoa` encodes that string, and the result is made URL-safe. */
  method BufferToBase64Url(buffer: array<byte>) returns (s: string)
    ensures s == UrlEncode(buffer[..])
  {
    var str := "";
    var i := 0;
    while i < buffer.Length
      invariant 0 <= i <= buffer.Length
      invariant |str| == i && forall j :: 0 <= j < i ==> str[j] as int == buffer[j]
    {
      str := str + [buffer[i] as char];
      i := i + 1;
    }
    assert str == Latin1(buffer[..]);
    BtoaOfLatin1(buffer[..]);
    s := StdToUrl(Btoa(str).value);
    StdToUrlOfEncode(buffer[..]);
  }

  /** `btoa` accepts every string of byte-valued code units. */
  lemma BtoaOfLatin1(b: seq<byte>)
    ensures Btoa(Latin1(b)) == Some(Encode(b))
  {
    var s := Latin1(b);
    assert forall i :: 0 <= i < |s| ==> s[i] as int < 256;
    var c := CharCodes(s);
    assert c.value == b;
  }

  /** The standard encoding turned URL-safe is the URL-safe encoding. */
  lemma StdToUrlOfEncode(b: seq<byte>)
    ensures StdToUrl(Encode(b)) == UrlEncode(b)
  {
    var xs := Sextets(b);
    var pad := Padding(|b|);
    var e := Render(xs, false) + pad;
    var swapped := ReplaceChar(ReplaceChar(e, '+', '-'), '/', '_');
    forall i | 0 <= i < |swapped|
      ensures swapped[i] == (Render(xs, true) + pad)[i]
    {
      if i >= |xs| {
        assert e[i] == pad[i - |xs|] && pad[i - |xs|] in pad;
      }
    }
    assert swapped == Render(xs, true) + pad;
    TrimEndPadding(Render(xs, true), pad);
  }

  lemma {:induction false} TrimEndPadding(body: string, pad: string)
    requires forall c :: c in pad ==> c == '='
    requires forall c :: c in body ==> c != '='
    ensures TrimEnd(body + pad, IsPad) == body
    decreases |pad|
  {
    if pad == [] {
      assert body + pad == body;
      if body != [] {
        assert body[|body| - 1] in body;
      }
    } else {
      var s := body + pad;
      assert pad[|pad| - 1] in pad;
      assert s[..|s| - 1] == body + pad[..|pad| - 1];
      var shorter := pad[..|pad| - 1];
      forall c | c in shorter
        ensures c == '='
      {
        assert c in pad;
      }
      TrimEndPadding(body, shorter);
    }
  }

  /** The URL-safe alphabet: letters, digits, `-` and `_`. */
  predicate IsUrlAlphabet(c: char) {
    IsUpper(c) || IsLower(c) || IsDigit(c) || c == '-' || c == '_'
  }

  /** The output uses only the URL-safe alphabet and carries no padding. */
  lemma UrlEncodeAlphabet(b: seq<byte>)
    ensures forall c :: c in UrlEncode(b) ==> IsUrlAlphabet(c)
  {
    var xs := Sextets(b);
    var r := Render(xs, true);
    forall c | c in r
      ensures IsUrlAlphabet(c)
    {
      var i :| 0 <= i < |r| && r[i] == c;
      assert c == AlphabetChar(xs[i], true);
    }
  }

  // ---------------------------------------------------------------------
  // base64UrlToBuffer
  // ---------------------------------------------------------------------

  /** `base64url.replace(/-/g, '+').replace(/_/g, '/')`. */
  function UrlToStd(s: string): string {
    ReplaceChar(ReplaceChar(s, '-', '+'), '_', '/')
  }

  /** `s.padEnd(n, c)`. */
  function PadEnd(s: string, n: nat, c: char): (r: string)
    ensures |r| == if |s| >= n then |s| else n
    ensures r[..|s|] == s && forall i :: |s| <= i < |r| ==> r[i] == c
  {
    if |s| >= n then s else s + seq(n - |s|, _ => c)
  }

  /** The text handed to `atob`: padded to the next multiple of four. */
  function Padded(s: string): (r: string)
    ensures |r| % 4 == 0
  {
    var base64 := UrlToStd(s);
    PadEnd(base64, (|base64| + 3) / 4 * 4, '=')
  }

  /** What `base64UrlToBuffer` returns; `None` is the exception `atob` throws. */
  function UrlDecode(s: string): Option<seq<byte>> {
    ForgivingDecode(Padded(s))
  }

  /** `base64UrlToBuffer`: decode through `atob`, then copy the code units
      into a fresh byte array. */
  method Base64UrlToBuffer(base64url: string) returns (r: Option<array<byte>>)
    ensures r.None? <==> UrlDecode(base64url).None?
    ensures r.Some? ==> fresh(r.value) && r.value[..] == UrlDecode(base64url).value
  {
    var padded := Padded(base64url);
    var binary := Atob(padded);
    if binary.None? {
      return None;
    }
    var text := binary.value;
    var bytes := CodeUnits(text);
    ghost var decoded := ForgivingDecode(padded).value;
    assert UrlDecode(base64url) == ForgivingDecode(padded);
    assert text == Latin1(decoded);
    forall j | 0 <= j < |text|
      ensures bytes[j] == decoded[j]
    {
      assert text[j] as int == decoded[j];
    }
    assert bytes[..] == decoded;
    return Some(bytes);
  }

  /** The index loop of `base64UrlToBuffer`: a fresh `Uint8Array` holding
      `charCodeAt(i)` of every position, each kept to its low eight bits. */
  method CodeUnits(text: string) returns (bytes: array<byte>)
    ensures fresh(bytes) && bytes.Length == |text|
    ensures forall j :: 0 <= j < |text| ==> bytes[j] == (text[j] as int) % 256
  {
    bytes := new byte[|text|];
    var i := 0;
    while i < |text|
      invariant 0 <= i <= |text| == bytes.Length
      invariant forall j :: 0 <= j < i ==> bytes[j] == (text[j] as int) % 256
    {
      bytes[i] := (text[i] as int) % 256;
      i := i + 1;
    }
  }

  /** Decoding the URL-safe encoding of any byte sequence gives it back
      (section 5 of RFC 4648, without padding). */
  lemma UrlRoundTrip(b: seq<byte>)
    ensures UrlDecode(UrlEncode(b)) == Some(b)
  {
    PaddingFits(b);
    PaddedOfRender(Sextets(b), Padding(|b|));
    DecodeRendered(b, Padding(|b|));
  }

  lemma UrlToStdOfRender(xs: seq<sextet>)
    ensures UrlToStd(Render(xs, true)) == Render(xs, false)
  {
  }

  /** Padding the standard rendering restores the `=` that the URL-safe
      encoding dropped. */
  lemma PaddedOfRender(xs: seq<sextet>, p: string)
    requires p == "" || (p == "==" && |xs| % 4 == 2) || (p == "=" && |xs| % 4 == 3)
    requires p == "" ==> |xs| % 4 == 0
    ensures Padded(Render(xs, true)) == Render(xs, false) + p
  {
    var s := Render(xs, false);
    assert UrlToStd(Render(xs, true)) == s by { UrlToStdOfRender(xs); }
    PaddedOf(Render(xs, true), s, p);
  }

  lemma PaddedOf(u: string, s: string, p: string)
    requires UrlToStd(u) == s && (|s| + 3) / 4 * 4 == |s| + |p|
    requires forall x :: x in p ==> x == '='
    ensures Padded(u) == s + p
  {
    PadEndWith(s, p, '=');
  }

  lemma PadEndWith(s: string, p: string, c: char)
    requires forall x :: x in p ==> x == c
    ensures PadEnd(s, |s| + |p|, c) == s + p
  {
    var r := PadEnd(s, |s| + |p|, c);
    forall i | 0 <= i < |r|
      ensures r[i] == (s + p)[i]
    {
      if i >= |s| {
        assert p[i - |s|] in p;
      } else {
        assert r[..|s|][i] == s[i];
      }
    }
  }

  // ---------------------------------------------------------------------
  // flatRows / activeRows / deletedRows
  // ---------------------------------------------------------------------

  datatype Row = Row(key: string, group: CheckinRecord, guest: StoredGuest)

  /** `${group.id}-${guest.id || idx}`. */
  function RowKey(group: CheckinRecord, idx: nat, guest: StoredGuest): string {
    group.id + "-" + (if guest.id.Some? && guest.id.value != "" then guest.id.value else NatToDecimal(idx))
  }

  function GroupRows(group: CheckinRecord): (r: seq<Row>)
    ensures |r| == |group.guests|
    ensures forall i :: 0 <= i < |r| ==> r[i].group == group && r[i].guest == group.guests[i]
  {
    seq(|group.guests|, i requires 0 <= i < |group.guests| => Row(RowKey(group, i, group.guests[i]), group, group.guests[i]))
  }

  /** `flatRows`: every guest of every record, records in order. */
  function FlatRows(records: seq<CheckinRecord>): (r: seq<Row>)
    ensures |r| == TotalGuests(records)
  {
    if records == [] then [] else GroupRows(records[0]) + FlatRows(records[1..])
  }

  function TotalGuests(records: seq<CheckinRecord>): nat {
    if records == [] then 0 else |records[0].guests| + TotalGuests(records[1..])
  }

  predicate RowActive(r: Row) { IsActive(r.guest) }

  predicate RowDeleted(r: Row) { IsDeleted(r.guest) }

  function ActiveRows(records: seq<CheckinRecord>): seq<Row> { Filter(FlatRows(records), RowActive) }

  function DeletedRows(records: seq<CheckinRecord>): seq<Row> { Filter(FlatRows(records), RowDeleted) }

  /** Active and deleted rows partition the flat rows: each row sits in
      exactly one list, chosen by `deleted === true`. */
  lemma RowsPartition(records: seq<CheckinRecord>)
    ensures multiset(ActiveRows(records)) + multiset(DeletedRows(records)) == multiset(FlatRows(records))
    ensures |ActiveRows(records)| + |DeletedRows(records)| == TotalGuests(records)
    ensures forall r :: r in ActiveRows(records) ==> r in FlatRows(records) && !IsDeleted(r.guest)
    ensures forall r :: r in DeletedRows(records) ==> r in FlatRows(records) && IsDeleted(r.guest)
    ensures forall r :: r in FlatRows(records) ==> (r in ActiveRows(records) <==> !IsDeleted(r.guest))
  {
    FilterPartition(FlatRows(records), RowActive, RowDeleted);
  }

  /** Both lists keep the records' order: the rows of an earlier record come
      first. */
  lemma RowsKeepOrder(a: seq<CheckinRecord>, b: seq<CheckinRecord>)
    ensures FlatRows(a + b) == FlatRows(a) + FlatRows(b)
    ensures ActiveRows(a + b) == ActiveRows(a) + ActiveRows(b)
    ensures DeletedRows(a + b) == DeletedRows(a) + DeletedRows(b)
  {
    FlatRowsAppend(a, b);
    FilterAppend(FlatRows(a), FlatRows(b), RowActive);
    FilterAppend(FlatRows(a), FlatRows(b), RowDeleted);
  }

  lemma {:induction false} FlatRowsAppend(a: seq<CheckinRecord>, b: seq<CheckinRecord>)
    ensures FlatRows(a + b) == FlatRows(a) + FlatRows(b)
  {
    if a == [] {
      assert a + b == b;
    } else {
      assert (a + b)[0] == a[0] && (a + b)[1..] == a[1..] + b;
      FlatRowsAppend(a[1..], b);
    }
  }

  // ---------------------------------------------------------------------
  // toggleGuestDeleted
  // ---------------------------------------------------------------------

  /** The listed records once the server has accepted the soft delete (or
      restore) of `guestId` in record `recordId`. */
  function SetGuestDeleted(records: seq<CheckinRecord>, recordId: string, guestId: string, deleted: bool): (r: seq<CheckinRecord>)
    ensures |r| == |records|
    ensures forall i :: 0 <= i < |r| && records[i].id != recordId ==> r[i] == records[i]
    ensures forall i :: 0 <= i < |r| && records[i].id == recordId ==>
      r[i] == records[i].(guests := MarkDeleted(records[i].guests, guestId, deleted))
  {
    seq(|records|, i requires 0 <= i < |records| =>
      if records[i].id != recordId then records[i]
      else records[i].(guests := MarkDeleted(records[i].guests, guestId, deleted)))
  }

  /** `toggleGuestDeleted`: the list changes only when the server call
      succeeds; a failed call leaves it as it was. */
  function ToggleGuestDeleted(records: seq<CheckinRecord>, recordId: string, guestId: string, deleted: bool, serverOk: bool): (r: seq<CheckinRecord>)
    ensures !serverOk ==> r == records
    ensures serverOk ==> r == SetGuestDeleted(records, recordId, guestId, deleted)
  {
    if serverOk then SetGuestDeleted(records, recordId, guestId, deleted) else records
  }

  /** After a delete the guest shows among the deleted rows, and after a
      restore among the active ones; every other row keeps its side. */
  lemma ToggleMovesRow(records: seq<CheckinRecord>, recordId: string, guestId: string, deleted: bool, i: nat, j: nat)
    requires i < |records| && j < |records[i].guests|
    ensures var g := SetGuestDeleted(records, recordId, guestId, deleted)[i].guests[j];
      if records[i].id == recordId && IdText(records[i].guests[j].id) == guestId
      then IsDeleted(g) == deleted
      else g == records[i].guests[j]
  {
  }

  // ---------------------------------------------------------------------
  // The step editors
  // ---------------------------------------------------------------------

  datatype StepField = Title | Subtitle | Content

  function WithField(s: Step, field: StepField, value: string): (r: Step)
    ensures r.id == s.id && r.enabled == s.enabled && r.kind == s.kind
  {
    match field
    case Title => s.(title := value)
    case Subtitle => s.(subtitle := value)
    case Content => s.(content := value)
  }

  /** `updateStepField`: only the steps with id `id` change, and only in `field`. */
  function UpdateStepField(steps: seq<Step>, id: string, field: StepField, value: string): (r: seq<Step>)
    ensures |r| == |steps|
    ensures forall i :: 0 <= i < |r| && steps[i].id != id ==> r[i] == steps[i]
    ensures forall i :: 0 <= i < |r| && steps[i].id == id ==> r[i] == WithField(steps[i], field, value)
  {
    seq(|steps|, i requires 0 <= i < |steps| => if steps[i].id == id then WithField(steps[i], field, value) else steps[i])
  }

  /** `toggleStepEnabled`: only the steps with id `id` change, and only in `enabled`. */
  function ToggleStepEnabled(steps: seq<Step>, id: string): (r: seq<Step>)
    ensures |r| == |steps|
    ensures forall i :: 0 <= i < |r| && steps[i].id != id ==> r[i] == steps[i]
    ensures forall i :: 0 <= i < |r| && steps[i].id == id ==>
      r[i].enabled == !steps[i].enabled && r[i].(enabled := steps[i].enabled) == steps[i]
  {
    seq(|steps|, i requires 0 <= i < |steps| => if steps[i].id == id then steps[i].(enabled := !steps[i].enabled) else steps[i])
  }

  /** Toggling the same step twice restores the list. */
  lemma ToggleTwice(steps: seq<Step>, id: string)
    ensures ToggleStepEnabled(ToggleStepEnabled(steps, id), id) == steps
  {
    var once := ToggleStepEnabled(steps, id);
    var twice := ToggleStepEnabled(once, id);
    forall i | 0 <= i < |steps|
      ensures twice[i] == steps[i]
    {
      assert once[i].id == steps[i].id;
    }
  }

  /** `addCustomStep`: one enabled custom step at the end; `stamp` is what
      `createStepId` draws. */
  function AddCustomStep(steps: seq<Step>, stamp: string): (r: seq<Step>)
    ensures |r| == |steps| + 1 && r[..|steps|] == steps
    ensures var s := r[|steps|];
      s.kind == Custom && s.enabled && s.content == "" && StartsWith(s.id, "custom-")
      && s.title == "新步骤" && s.subtitle == "Custom Step"
  {
    steps + [Step(NewStepId(stamp), "新步骤", "Custom Step", true, Custom, "")]
  }

  predicate IdIsNot(id: string, s: Step) { s.id != id }

  /** `removeCustomStep`: drop every step with id `id`, keep the rest in order. */
  function RemoveCustomStep(steps: seq<Step>, id: string): (r: seq<Step>)
    ensures forall s :: s in r ==> s in steps && s.id != id
    ensures forall s :: s in steps && s.id != id ==> s in r
  {
    Filter(steps, s => IdIsNot(id, s))
  }

  /** Removing distributes over concatenation, so the kept steps stay in
      their order; removing an id no step has changes nothing. */
  lemma RemoveCustomStepOrder(a: seq<Step>, b: seq<Step>, id: string)
    ensures RemoveCustomStep(a + b, id) == RemoveCustomStep(a, id) + RemoveCustomStep(b, id)
    ensures (forall s :: s in a ==> s.id != id) ==> RemoveCustomStep(a, id) == a
  {
    FilterAppend(a, b, s => IdIsNot(id, s));
    if forall s :: s in a ==> s.id != id {
      FilterKeepsAll(a, s => IdIsNot(id, s));
    }
  }

  /** Adding a custom step and removing it again gives the list back, when
      its id is new. */
  lemma RemoveAddedStep(steps: seq<Step>, stamp: string)
    requires forall s :: s in steps ==> s.id != NewStepId(stamp)
    ensures RemoveCustomStep(AddCustomStep(steps, stamp), NewStepId(stamp)) == steps
  {
    var added := AddCustomStep(steps, stamp);
    assert added == steps + [added[|steps|]];
    RemoveCustomStepOrder(steps, [added[|steps|]], NewStepId(stamp));
    assert RemoveCustomStep([added[|steps|]], NewStepId(stamp)) == [];
  }
}
