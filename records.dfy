/** The guest records that the server stores for each check-in and lists to
    the admin page, and the soft-delete update both sides apply to them. */
module Records {
  import opened Prelude

  /** A stored guest. `id` is `None` when absent; `deleted` is `None` when
      absent or not a boolean; `passportPhoto` is `None` when absent or not a
      string; `rest` holds every other property (name, age, phone, …). */
  datatype StoredGuest = StoredGuest(
    id: Option<string>,
    deleted: Option<bool>,
    passportPhoto: Option<string>,
    rest: map<string, string>)

  /** `String(guest.id)`. */
  function IdText(id: Option<string>): string {
    match id
    case None => "undefined"
    case Some(s) => s
  }

  /** `guest.deleted === true`. */
  predicate IsDeleted(g: StoredGuest) { g.deleted == Some(true) }

  predicate IsActive(g: StoredGuest) { !IsDeleted(g) }

  /** A check-in as the listing endpoint returns it. */
  datatype CheckinRecord = CheckinRecord(id: string, submittedAt: string, guests: seq<StoredGuest>)

  /** Set `deleted` on every guest whose id text is `guestId`. */
  function MarkDeleted(guests: seq<StoredGuest>, guestId: string, deleted: bool): (r: seq<StoredGuest>)
    ensures |r| == |guests|
    ensures forall i :: 0 <= i < |r| && IdText(guests[i].id) == guestId ==>
      r[i].deleted == Some(deleted) && r[i].(deleted := guests[i].deleted) == guests[i]
    ensures forall i :: 0 <= i < |r| && IdText(guests[i].id) != guestId ==> r[i] == guests[i]
  {
    seq(|guests|, i requires 0 <= i < |guests| =>
      if IdText(guests[i].id) == guestId then guests[i].(deleted := Some(deleted)) else guests[i])
  }

  predicate AnyWithId(guests: seq<StoredGuest>, guestId: string) {
    exists i :: 0 <= i < |guests| && IdText(guests[i].id) == guestId
  }

  /** The later of two marks of the same guest wins. */
  lemma MarkDeletedTwice(guests: seq<StoredGuest>, guestId: string, d1: bool, d2: bool)
    ensures MarkDeleted(MarkDeleted(guests, guestId, d1), guestId, d2) == MarkDeleted(guests, guestId, d2)
  {
    var once := MarkDeleted(guests, guestId, d1);
    var twice := MarkDeleted(once, guestId, d2);
    forall i | 0 <= i < |guests|
      ensures twice[i] == MarkDeleted(guests, guestId, d2)[i]
    {
      assert once[i].id == guests[i].id;
    }
  }

  /** Marking a guest with the flag it already has changes nothing; so
      deleting and then restoring a guest that was not deleted gives the
      list back. */
  lemma MarkDeletedRestores(guests: seq<StoredGuest>, guestId: string, d: bool)
    requires forall i :: 0 <= i < |guests| && IdText(guests[i].id) == guestId ==> guests[i].deleted == Some(d)
    ensures MarkDeleted(MarkDeleted(guests, guestId, !d), guestId, d) == guests
  {
    MarkDeletedTwice(guests, guestId, !d, d);
    var r := MarkDeleted(guests, guestId, d);
    forall i | 0 <= i < |guests|
      ensures r[i] == guests[i]
    {
    }
  }
}
