/** The hotel server's admin side: single-use login challenges, bearer
    sessions, the registered passkey credentials and the stored check-ins,
    with the request handlers that read and change them. The clock
    (`Date.now()`) is the parameter `now`, in milliseconds; the random bytes
    of `crypto.randomBytes`, and the id `uuidv4` draws, are parameters too. */
module AdminServer {
  import opened Prelude
  import opened Base64
  import opened Records

  // ---------------------------------------------------------------------
  // Constants
  // ---------------------------------------------------------------------

  const ChallengeTtlMs: nat := 5 * 60 * 1000
  const SessionTtlMs: nat := 24 * 60 * 60 * 1000
  const Port: nat := 3001

  /** `process.env.ADMIN_API_TOKEN || '8808'` */
  function AdminApiToken(env: Option<string>): (token: string)
    ensures token != ""
    ensures env.Some? && env.value != "" ==> token == env.value
  {
    match env
    case Some(t) => if t != "" then t else "8808"
    case None => "8808"
  }

  /** The two purposes the handlers issue challenges for. */
  datatype Purpose = Register | Auth

  datatype ChallengeEntry = ChallengeEntry(purpose: Purpose, expiresAt: int)

  /** What a handler sends back. */
  datatype Reply =
    | Failure(status: nat, error: string)
    | Success
    | ChallengeIssued(challenge: string)
    | AuthChallengeIssued(challenge: string, allowCredentials: set<string>)
    | SessionIssued(sessionToken: string)
    | PasskeyStatus(hasPasskey: bool)
    | Submitted(id: string)

  // ---------------------------------------------------------------------
  // Tokens
  // ---------------------------------------------------------------------

  predicate IsHexDigit(c: char) { '0' <= c <= '9' || 'a' <= c <= 'f' }

  function HexDigit(n: nat): (c: char)
    requires n < 16
    ensures IsHexDigit(c)
  {
    if n < 10 then ('0' as int + n) as char else ('a' as int + n - 10) as char
  }

  lemma HexDigitInjective(m: nat, n: nat)
    requires m < 16 && n < 16 && HexDigit(m) == HexDigit(n)
    ensures m == n
  {
  }

  /** `buffer.toString('hex')`: two lower-case hex digits per byte. */
  function Hex(b: seq<byte>): (r: string)
    ensures |r| == 2 * |b|
    ensures forall c :: c in r ==> IsHexDigit(c)
  {
    if b == [] then [] else [HexDigit(b[0] / 16), HexDigit(b[0] % 16)] + Hex(b[1..])
  }

  /** Different random bytes give different session tokens. */
  lemma {:induction false} HexInjective(a: seq<byte>, b: seq<byte>)
    requires Hex(a) == Hex(b)
    ensures a == b
  {
    if a != [] {
      assert |b| == |a|;
      var ha := Hex(a);
      assert ha[0] == HexDigit(a[0] / 16) && ha[1] == HexDigit(a[0] % 16);
      assert ha[0] == HexDigit(b[0] / 16) && ha[1] == HexDigit(b[0] % 16);
      HexDigitInjective(a[0] / 16, b[0] / 16);
      HexDigitInjective(a[0] % 16, b[0] % 16);
      assert ha[2..] == Hex(a[1..]) && ha[2..] == Hex(b[1..]);
      HexInjective(a[1..], b[1..]);
      assert a == [a[0]] + a[1..] && b == [b[0]] + b[1..];
    }
  }

  /** The caller's request headers and query, as far as the token goes:
      `None` for a header that is absent, or a query value that is not a
      string. */
  datatype Request = Request(authorization: Option<string>, sessionHeader: Option<string>, queryToken: Option<string>)

  const BearerPrefix: string := "Bearer "

  predicate IsBearer(authorization: Option<string>) {
    authorization.Some? && StartsWith(authorization.value, BearerPrefix)
  }

  predicate Truthy(s: Option<string>) { s.Some? && s.value != "" }

  /** `getAdminSessionFromRequest` */
  function SessionToken(req: Request): (token: string)
    ensures IsBearer(req.authorization) ==> BearerPrefix + token == req.authorization.value
    ensures !IsBearer(req.authorization) && Truthy(req.sessionHeader) ==> token == req.sessionHeader.value
    ensures !IsBearer(req.authorization) && !Truthy(req.sessionHeader) && Truthy(req.queryToken) ==> token == req.queryToken.value
    ensures !IsBearer(req.authorization) && !Truthy(req.sessionHeader) && !Truthy(req.queryToken) ==> token == ""
  {
    if IsBearer(req.authorization) then
      var a := req.authorization.value;
      assert a == a[..|BearerPrefix|] + a[|BearerPrefix|..];
      a[|BearerPrefix|..]
    else if Truthy(req.sessionHeader) then req.sessionHeader.value
    else if Truthy(req.queryToken) then req.queryToken.value
    else ""
  }

  /** A bearer header wins over the other two sources, even when the token
      after `Bearer ` is empty. */
  lemma BearerFirst(t: string, sessionHeader: Option<string>, queryToken: Option<string>)
    ensures SessionToken(Request(Some(BearerPrefix + t), sessionHeader, queryToken)) == t
  {
    assert (BearerPrefix + t)[..|BearerPrefix|] == BearerPrefix;
  }

  /** An `Authorization` header without the exact `Bearer ` prefix is not
      read at all. */
  lemma NonBearerIgnored(a: string, sessionHeader: Option<string>, queryToken: Option<string>)
    requires !StartsWith(a, BearerPrefix)
    ensures SessionToken(Request(Some(a), sessionHeader, queryToken)) == SessionToken(Request(None, sessionHeader, queryToken))
  {
  }

  /** The token is the empty string or one of the three sources. */
  lemma TokenFromRequest(req: Request)
    ensures var t := SessionToken(req);
      t == "" || (req.sessionHeader == Some(t) || req.queryToken == Some(t) || (req.authorization.Some? && req.authorization.value == BearerPrefix + t))
  {
  }

  // ---------------------------------------------------------------------
  // The acceptance tests on the two maps
  // ---------------------------------------------------------------------

  /** `consumeChallenge` answers true: the value is known, was issued for
      this purpose and has not expired (`expiresAt < now` is the only
      expiry, so the last millisecond still counts). */
  predicate ChallengeAccepted(challenges: map<string, ChallengeEntry>, challenge: string, purpose: Purpose, now: int) {
    challenge in challenges && challenges[challenge].purpose == purpose && !(challenges[challenge].expiresAt < now)
  }

  /** `requireAdminAuth` lets the request through. */
  predicate SessionAccepted(sessions: map<string, int>, token: string, now: int) {
    token != "" && token in sessions && sessions[token] != 0 && !(sessions[token] < now)
  }

  /** A challenge just issued is accepted for its purpose until its expiry
      inclusive, and never for the other purpose. */
  lemma IssuedChallenge(challenges: map<string, ChallengeEntry>, c: string, p: Purpose, q: Purpose, issued: nat, now: int)
    ensures ChallengeAccepted(challenges[c := ChallengeEntry(p, issued + ChallengeTtlMs)], c, q, now)
      <==> p == q && now <= issued + ChallengeTtlMs
  {
  }

  /** Once consumed, a challenge is gone: a second consume fails whatever
      the purpose and the time. */
  lemma ChallengeSingleUse(challenges: map<string, ChallengeEntry>, c: string, p: Purpose, now: int)
    ensures !ChallengeAccepted(challenges - {c}, c, p, now)
  {
  }

  /** Consuming an unknown value removes nothing. */
  lemma ConsumeUnknown(challenges: map<string, ChallengeEntry>, c: string)
    requires c !in challenges
    ensures challenges - {c} == challenges
  {
  }

  /** A session just minted is accepted until its expiry inclusive. */
  lemma IssuedSession(sessions: map<string, int>, token: string, issued: nat, now: int)
    requires token != ""
    ensures SessionAccepted(sessions[token := issued + SessionTtlMs], token, now) <==> now <= issued + SessionTtlMs
  {
  }

  /** A token removed from the map is refused at any time. */
  lemma RemovedSession(sessions: map<string, int>, token: string, now: int)
    ensures !SessionAccepted(sessions - {token}, token, now)
  {
  }

  /** Removing one token leaves the verdict on every other token as it was. */
  lemma RemovingOtherSession(sessions: map<string, int>, token: string, other: string, now: int)
    requires other != token
    ensures SessionAccepted(sessions - {token}, other, now) == SessionAccepted(sessions, other, now)
  {
  }

  /** The empty token is refused whatever the map holds. */
  lemma EmptyTokenRefused(sessions: map<string, int>, now: int)
    ensures !SessionAccepted(sessions, "", now)
  {
  }

  // ---------------------------------------------------------------------
  // Stored check-ins
  // ---------------------------------------------------------------------

  /** A `checkins` row: its date and its guest list, `None` when the stored
      JSON text does not parse. */
  datatype CheckinRow = CheckinRow(date: string, guests: Option<seq<StoredGuest>>)

  /** `parseRecordData`: the stored guests, or no guests when the text does
      not parse. */
  function ParseRecordData(row: CheckinRow): (guests: seq<StoredGuest>)
    ensures row.guests.None? ==> guests == []
    ensures row.guests.Some? ==> guests == row.guests.value
  {
    match row.guests
    case Some(g) => g
    case None => []
  }

  const AdminUploadsPath: string := "/api/admin/uploads/"
  const UploadsPath: string := "/uploads/"

  /** `http://localhost:3001/api/admin/uploads/` */
  function AdminUploadsUrl(): string
  {
    "http://localhost:" + NatToDecimal(Port) + AdminUploadsPath
  }

  /** The length of a leading `https?://[^/]+/uploads/`, or 0. The host is
      a maximal run of non-`/` characters, so no backtracking is possible. */
  function UploadsUrlPrefix(s: string): (n: nat)
    ensures n <= |s|
    ensures n > 0 ==> n >= |UploadsPath| && StartsWith(s[n - |UploadsPath|..], UploadsPath)
  {
    var scheme := if StartsWith(s, "https://") then 8 else if StartsWith(s, "http://") then 7 else 0;
    if scheme == 0 then 0
    else
      var host := Run(s, scheme, (c: char) => c != '/');
      if host >= 1 && OccursAt(s, UploadsPath, scheme + host) then
        var n := scheme + host + |UploadsPath|;
        assert s[n - |UploadsPath|..][..|UploadsPath|] == s[scheme + host..n];
        n
      else 0
  }

  /** The stored name of an upload: the `https?://host/uploads/` prefix
      and then a `/uploads/` prefix removed, one after the other. */
  function RawUploadName(photo: string): (name: string)
    ensures |name| <= |photo|
  {
    var a := photo[UploadsUrlPrefix(photo)..];
    if StartsWith(a, UploadsPath) then a[|UploadsPath|..] else a
  }

  /** `toAdminImageUrl`: `None` stands for a photo that is absent or not a
      string, which is passed through; `encode` is `encodeURIComponent`. */
  function ToAdminImageUrl(photo: Option<string>, sessionToken: string, encode: string -> string): (r: Option<string>)
    ensures !Truthy(photo) ==> r == photo
    ensures Truthy(photo) && StartsWith(photo.value, AdminUploadsPath) ==> r == photo
    ensures Truthy(photo) && !StartsWith(photo.value, AdminUploadsPath) ==>
      r == Some(AdminUploadsUrl() + encode(RawUploadName(photo.value)) + "?token=" + encode(sessionToken))
  {
    if !Truthy(photo) then photo
    else if StartsWith(photo.value, AdminUploadsPath) then photo
    else Some(AdminUploadsUrl() + encode(RawUploadName(photo.value)) + "?token=" + encode(sessionToken))
  }

  /** A plain file name, as a submit stores it, keeps its name in the URL. */
  lemma PlainNameUrl(name: string, sessionToken: string, encode: string -> string)
    requires name != "" && !StartsWith(name, "http://") && !StartsWith(name, "https://")
    requires !StartsWith(name, UploadsPath) && !StartsWith(name, AdminUploadsPath)
    ensures ToAdminImageUrl(Some(name), sessionToken, encode)
      == Some(AdminUploadsUrl() + encode(name) + "?token=" + encode(sessionToken))
  {
    assert UploadsUrlPrefix(name) == 0;
    assert name[0..] == name;
  }

  /** An older `/uploads/<name>` path is served under the same name. */
  lemma UploadsPathUrl(name: string, sessionToken: string, encode: string -> string)
    ensures ToAdminImageUrl(Some(UploadsPath + name), sessionToken, encode)
      == Some(AdminUploadsUrl() + encode(name) + "?token=" + encode(sessionToken))
  {
    var p := UploadsPath + name;
    assert p[..|UploadsPath|] == UploadsPath;
    assert p[..8] != "https://" && p[..7] != "http://" by {
      assert p[1] == 'u';
    }
    assert UploadsUrlPrefix(p) == 0;
    assert p[0..] == p;
    assert p[|UploadsPath|..] == name;
    assert !StartsWith(p, AdminUploadsPath) by {
      assert p[1] == 'u';
    }
  }

  /** A guest as the listing shows it: a boolean `deleted` and an admin
      image URL. */
  function ListedGuest(g: StoredGuest, sessionToken: string, encode: string -> string): (r: StoredGuest)
    ensures r.id == g.id && r.rest == g.rest
    ensures r.deleted == Some(IsDeleted(g))
  {
    g.(deleted := Some(IsDeleted(g)), passportPhoto := ToAdminImageUrl(g.passportPhoto, sessionToken, encode))
  }

  /** The guests of one row in the `/api/records` listing. */
  function ListedGuests(row: CheckinRow, sessionToken: string, encode: string -> string): (r: seq<StoredGuest>)
    ensures |r| == |ParseRecordData(row)|
    ensures forall i :: 0 <= i < |r| ==> r[i] == ListedGuest(ParseRecordData(row)[i], sessionToken, encode)
  {
    var g := ParseRecordData(row);
    seq(|g|, i requires 0 <= i < |g| => ListedGuest(g[i], sessionToken, encode))
  }

  // ---------------------------------------------------------------------
  // The data-URL test of `saveImagesLocally`
  // ---------------------------------------------------------------------

  const AllowedImageTypes: set<string> := {"image/jpeg", "image/jpg", "image/png", "image/webp", "image/heic", "image/heif"}

  const DataImagePrefix: string := "data:image"
  const Base64Marker: string := ";base64,"

  /** `[A-Za-z-+\/]` */
  predicate IsMimeChar(c: char) { IsUpper(c) || IsLower(c) || c == '-' || c == '+' || c == '/' }

  /** The characters `.` does not match. */
  predicate IsLineTerminator(c: char) { c == '\n' || c == '\r' || c == ' ' || c == ' ' }

  /** `/^data:([A-Za-z-+\/]+);base64,(.+)$/`: group 1. The type is the
      maximal run of type characters after `data:`, since `;` is not one of
      them; the payload must be non-empty and free of line terminators. */
  function DataUrlType(photo: string): (r: Option<string>)
    ensures r.Some? ==> StartsWith(photo, "data:" + r.value + Base64Marker)
    ensures r.Some? ==> |r.value| >= 1 && forall c :: c in r.value ==> IsMimeChar(c)
  {
    var k := Run(photo, 5, IsMimeChar);
    var e := 5 + k + |Base64Marker|;
    if StartsWith(photo, "data:") && k >= 1 && OccursAt(photo, Base64Marker, 5 + k) && e < |photo|
      && forall j :: e <= j < |photo| ==> !IsLineTerminator(photo[j])
    then
      var mime := photo[5..5 + k];
      assert photo[..e] == photo[..5] + mime + photo[5 + k..e];
      Some(mime)
    else None
  }

  predicate IsSlash(c: char) { c == '/' }

  /** `mime.split('/')[1]`, which is `undefined` when there is no `/`. */
  function Extension(mime: string): string
  {
    var parts := Split(mime, IsSlash);
    if |parts| >= 2 then parts[1] else "undefined"
  }

  lemma ExtensionOfType(top: string, sub: string)
    requires forall c :: c in top ==> !IsSlash(c)
    requires forall c :: c in sub ==> !IsSlash(c)
    ensures Extension(top + "/" + sub) == sub
  {
    SplitConcat(top, '/', sub, IsSlash);
    SplitNoSep(sub, IsSlash);
  }

  /** The image type of a photo `saveImagesLocally` writes to disk. */
  function SavedImageType(photo: Option<string>): (r: Option<string>)
    ensures r.Some? ==> r.value in AllowedImageTypes && Truthy(photo) && StartsWith(photo.value, DataImagePrefix)
  {
    if Truthy(photo) && StartsWith(photo.value, DataImagePrefix) then
      match DataUrlType(photo.value)
      case Some(mime) => if mime in AllowedImageTypes then Some(mime) else None
      case None => None
    else None
  }

  /** One guest of `saveImagesLocally`: a data URL of an allowed type is
      replaced by the file name the image is written under. */
  function SaveImage(g: StoredGuest): (r: StoredGuest)
    ensures r.id == g.id && r.deleted == g.deleted && r.rest == g.rest
    ensures SavedImageType(g.passportPhoto).None? ==> r == g
    ensures SavedImageType(g.passportPhoto).Some? ==>
      r.passportPhoto == Some(IdText(g.id) + "_passport." + Extension(SavedImageType(g.passportPhoto).value))
  {
    match SavedImageType(g.passportPhoto)
    case Some(mime) => g.(passportPhoto := Some(IdText(g.id) + "_passport." + Extension(mime)))
    case None => g
  }

  /** A well-formed data URL yields its type. */
  lemma DataUrlTypeOf(mime: string, payload: string)
    requires |mime| >= 1 && forall c :: c in mime ==> IsMimeChar(c)
    requires payload != [] && forall c :: c in payload ==> !IsLineTerminator(c)
    ensures DataUrlType("data:" + mime + Base64Marker + payload) == Some(mime)
  {
    var photo := "data:" + mime + Base64Marker + payload;
    var k := |mime|;
    assert forall j :: 5 <= j < 5 + k ==> photo[j] == mime[j - 5];
    assert photo[5 + k] == ';';
    RunExact(photo, 5, k, IsMimeChar);
    assert photo[..5] == "data:";
    assert photo[5 + k..5 + k + 8] == Base64Marker;
    forall j | 5 + k + 8 <= j < |photo| ensures !IsLineTerminator(photo[j]) {
      assert photo[j] == payload[j - (5 + k + 8)];
    }
    assert photo[5..5 + k] == mime;
  }

  /** A data URL of an allowed type `image/<sub>` is stored as
      `<id>_passport.<sub>`. */
  lemma AllowedSaved(g: StoredGuest, sub: string, payload: string)
    requires "image/" + sub in AllowedImageTypes
    requires payload != [] && forall c :: c in payload ==> !IsLineTerminator(c)
    requires g.passportPhoto == Some("data:" + ("image/" + sub) + Base64Marker + payload)
    ensures SaveImage(g).passportPhoto == Some(IdText(g.id) + "_passport." + sub)
  {
    var mime := "image/" + sub;
    SavedTypeOfAllowed(mime, payload);
    AllowedTypesShape(mime);
    assert mime[6..] == sub;
    assert mime == "image" + "/" + sub;
    ExtensionOfType("image", sub);
  }

  /** A data URL of an allowed type passes the checks of `saveImagesLocally`. */
  lemma SavedTypeOfAllowed(mime: string, payload: string)
    requires mime in AllowedImageTypes
    requires payload != [] && forall c :: c in payload ==> !IsLineTerminator(c)
    ensures SavedImageType(Some("data:" + mime + Base64Marker + payload)) == Some(mime)
  {
    AllowedTypesShape(mime);
    DataUrlTypeOf(mime, payload);
    ImagePrefixOf(mime, Base64Marker + payload);
    assert "data:" + mime + Base64Marker + payload == "data:" + mime + (Base64Marker + payload);
  }

  /** A data URL whose type starts with `image` starts with `data:image`. */
  lemma ImagePrefixOf(mime: string, rest: string)
    requires |mime| > 6 && mime[..6] == "image/"
    ensures StartsWith("data:" + mime + rest, DataImagePrefix)
  {
    var photo := "data:" + mime + rest;
    forall j | 0 <= j < 10 ensures photo[j] == DataImagePrefix[j] {
      if j >= 5 {
        assert photo[j] == mime[j - 5] == mime[..6][j - 5];
      }
    }
    assert photo[..10] == DataImagePrefix;
  }

  /** Every allowed type is `image/` and a subtype of letters. */
  lemma AllowedTypesShape(mime: string)
    requires mime in AllowedImageTypes
    ensures |mime| > 6 && mime[..6] == "image/" && forall c :: c in mime ==> IsMimeChar(c)
    ensures forall c :: c in mime[6..] ==> IsLower(c)
  {
  }

  /** A run of exactly `n` characters of `cls`. */
  lemma {:induction false} RunExact(s: string, i: nat, n: nat, cls: char -> bool)
    requires i + n < |s| && (forall j :: i <= j < i + n ==> cls(s[j])) && !cls(s[i + n])
    ensures Run(s, i, cls) == n
    decreases n
  {
    if n > 0 {
      RunExact(s, i + 1, n - 1, cls);
    }
  }

  /** A photo that is not a data URL of an allowed type is kept as sent. */
  lemma OtherPhotoKept(g: StoredGuest)
    requires g.passportPhoto.Some? && !StartsWith(g.passportPhoto.value, DataImagePrefix)
    ensures SaveImage(g) == g
  {
  }

  /** What a submit stores for each guest: the saved image and a boolean
      `deleted`. */
  function StoredForm(g: StoredGuest): (r: StoredGuest)
    ensures r.id == g.id && r.rest == g.rest && r.deleted == Some(IsDeleted(g))
    ensures r.passportPhoto == SaveImage(g).passportPhoto
  {
    SaveImage(g).(deleted := Some(IsDeleted(g)))
  }

  function StoredGuests(guests: seq<StoredGuest>): (r: seq<StoredGuest>)
    ensures |r| == |guests|
    ensures forall i :: 0 <= i < |r| ==> r[i] == StoredForm(guests[i])
  {
    seq(|guests|, i requires 0 <= i < |guests| => StoredForm(guests[i]))
  }

  /** The map of the PATCH handler, with its `found` flag. */
  method MarkGuests(guests: seq<StoredGuest>, guestId: string, deleted: bool) returns (updated: seq<StoredGuest>, found: bool)
    ensures updated == MarkDeleted(guests, guestId, deleted)
    ensures found <==> AnyWithId(guests, guestId)
  {
    updated := [];
    found := false;
    var i := 0;
    while i < |guests|
      invariant 0 <= i <= |guests|
      invariant updated == MarkDeleted(guests[..i], guestId, deleted)
      invariant found <==> AnyWithId(guests[..i], guestId)
    {
      var g := guests[i];
      assert guests[..i + 1] == guests[..i] + [g];
      if IdText(g.id) != guestId {
        updated := updated + [g];
      } else {
        found := true;
        updated := updated + [g.(deleted := Some(deleted))];
      }
      assert AnyWithId(guests[..i + 1], guestId) <==> AnyWithId(guests[..i], guestId) || IdText(g.id) == guestId by {
        if AnyWithId(guests[..i + 1], guestId) && IdText(g.id) != guestId {
          var j :| 0 <= j < i + 1 && IdText(guests[..i + 1][j].id) == guestId;
          assert guests[..i][j] == guests[..i + 1][j];
        }
        if AnyWithId(guests[..i], guestId) {
          var j :| 0 <= j < i && IdText(guests[..i][j].id) == guestId;
          assert guests[..i + 1][j] == guests[..i][j];
        }
        if IdText(g.id) == guestId {
          assert guests[..i + 1][i] == g;
        }
      }
      i := i + 1;
    }
    assert guests[..i] == guests;
  }

  // ---------------------------------------------------------------------
  // The server state and its handlers
  // ---------------------------------------------------------------------

  class Server {
    /** `adminChallenges`: challenge value to purpose and expiry. */
    var challenges: map<string, ChallengeEntry>
    /** `adminSessions`: session token to expiry. */
    var sessions: map<string, int>
    /** The `admin_passkeys` table: registered credential ids. */
    var passkeys: set<string>
    /** The `checkins` table, by record id. */
    var checkins: map<string, CheckinRow>
    /** `ADMIN_API_TOKEN` */
    const adminApiToken: string

    /** A server just started: nothing issued, stored or registered. */
    constructor(env: Option<string>)
      ensures adminApiToken == AdminApiToken(env)
      ensures challenges == map[] && sessions == map[] && passkeys == {} && checkins == map[]
    {
      adminApiToken := AdminApiToken(env);
      challenges := map[];
      sessions := map[];
      passkeys := {};
      checkins := map[];
    }

    /** `createChallenge`: the random bytes, in URL-safe base 64, valid
        for five minutes. */
    method CreateChallenge(purpose: Purpose, now: nat, random: seq<byte>) returns (challenge: string)
      modifies this
      ensures challenge == UrlEncode(random)
      ensures challenges == old(challenges)[challenge := ChallengeEntry(purpose, now + ChallengeTtlMs)]
      ensures sessions == old(sessions) && passkeys == old(passkeys) && checkins == old(checkins)
    {
      challenge := UrlEncode(random);
      challenges := challenges[challenge := ChallengeEntry(purpose, now + ChallengeTtlMs)];
    }

    /** `consumeChallenge`: a known value is always removed, whether or not
        it is accepted. */
    method ConsumeChallenge(challenge: string, purpose: Purpose, now: nat) returns (ok: bool)
      modifies this
      ensures ok == ChallengeAccepted(old(challenges), challenge, purpose, now)
      ensures challenges == old(challenges) - {challenge}
      ensures sessions == old(sessions) && passkeys == old(passkeys) && checkins == old(checkins)
    {
      if challenge !in challenges {
        return false;
      }
      var found := challenges[challenge];
      challenges := challenges - {challenge};
      if found.purpose != purpose {
        return false;
      }
      if found.expiresAt < now {
        return false;
      }
      return true;
    }

    /** `createSessionToken`: the random bytes in hex, valid for a day. */
    method CreateSessionToken(now: nat, random: seq<byte>) returns (token: string)
      modifies this
      ensures token == Hex(random)
      ensures sessions == old(sessions)[token := now + SessionTtlMs]
      ensures challenges == old(challenges) && passkeys == old(passkeys) && checkins == old(checkins)
    {
      token := Hex(random);
      sessions := sessions[token := now + SessionTtlMs];
    }

    /** `requireAdminAuth`: a refused non-empty token is dropped from the
        map; every other session stays. */
    method RequireAdminAuth(req: Request, now: nat) returns (ok: bool)
      modifies this
      ensures ok == SessionAccepted(old(sessions), SessionToken(req), now)
      ensures ok || SessionToken(req) == "" ==> sessions == old(sessions)
      ensures !ok && SessionToken(req) != "" ==> sessions == old(sessions) - {SessionToken(req)}
      ensures challenges == old(challenges) && passkeys == old(passkeys) && checkins == old(checkins)
    {
      var token := SessionToken(req);
      if token == "" || token !in sessions || sessions[token] == 0 || sessions[token] < now {
        if token != "" {
          sessions := sessions - {token};
        }
        return false;
      }
      return true;
    }

    /** `GET /api/admin/passkeys/status` */
    method Status() returns (r: Reply)
      ensures r == PasskeyStatus(passkeys != {})
    {
      r := PasskeyStatus(|passkeys| > 0);
    }

    /** `POST /api/admin/passkeys/register/options`: only while no
        credential exists, and only with the bootstrap token; the header
        wins over the body. */
    method RegisterOptions(adminTokenHeader: Option<string>, bodyToken: Option<string>, now: nat, random: seq<byte>) returns (r: Reply)
      modifies this
      ensures old(passkeys) != {} ==> r == Failure(403, "Passkey already configured") && challenges == old(challenges)
      ensures old(passkeys) == {} && (BootstrapToken(adminTokenHeader, bodyToken) == "" || BootstrapToken(adminTokenHeader, bodyToken) != adminApiToken) ==>
        r == Failure(401, "Invalid bootstrap token") && challenges == old(challenges)
      ensures old(passkeys) == {} && BootstrapToken(adminTokenHeader, bodyToken) != "" && BootstrapToken(adminTokenHeader, bodyToken) == adminApiToken ==>
        r == ChallengeIssued(UrlEncode(random))
        && challenges == old(challenges)[UrlEncode(random) := ChallengeEntry(Register, now + ChallengeTtlMs)]
      ensures sessions == old(sessions) && passkeys == old(passkeys) && checkins == old(checkins)
    {
      var bootstrap := BootstrapToken(adminTokenHeader, bodyToken);
      if |passkeys| > 0 {
        return Failure(403, "Passkey already configured");
      }
      if bootstrap == "" || bootstrap != adminApiToken {
        return Failure(401, "Invalid bootstrap token");
      }
      var challenge := CreateChallenge(Register, now, random);
      r := ChallengeIssued(challenge);
    }

    /** `POST /api/admin/passkeys/register/verify`: the posted credential id
        is stored as soon as the challenge is accepted; nothing about the
        credential itself is checked. */
    method RegisterVerify(challenge: Option<string>, credentialId: Option<string>, now: nat) returns (r: Reply)
      modifies this
      ensures !Truthy(challenge) || !Truthy(credentialId) ==>
        r == Failure(400, "challenge and credentialId are required") && challenges == old(challenges) && passkeys == old(passkeys)
      ensures Truthy(challenge) && Truthy(credentialId) ==> challenges == old(challenges) - {challenge.value}
      ensures Truthy(challenge) && Truthy(credentialId) && !ChallengeAccepted(old(challenges), challenge.value, Register, now) ==>
        r == Failure(400, "Invalid or expired challenge") && passkeys == old(passkeys)
      ensures Truthy(challenge) && Truthy(credentialId) && ChallengeAccepted(old(challenges), challenge.value, Register, now) ==>
        r == Success && passkeys == old(passkeys) + {credentialId.value}
      ensures sessions == old(sessions) && checkins == old(checkins)
    {
      if !Truthy(challenge) || !Truthy(credentialId) {
        return Failure(400, "challenge and credentialId are required");
      }
      var ok := ConsumeChallenge(challenge.value, Register, now);
      if !ok {
        return Failure(400, "Invalid or expired challenge");
      }
      passkeys := passkeys + {credentialId.value};
      r := Success;
    }

    /** `POST /api/admin/passkeys/auth/options`: every registered id is
        offered. */
    method AuthOptions(now: nat, random: seq<byte>) returns (r: Reply)
      modifies this
      ensures old(passkeys) == {} ==> r == Failure(404, "No passkey registered") && challenges == old(challenges)
      ensures old(passkeys) != {} ==>
        r == AuthChallengeIssued(UrlEncode(random), passkeys)
        && challenges == old(challenges)[UrlEncode(random) := ChallengeEntry(Auth, now + ChallengeTtlMs)]
      ensures sessions == old(sessions) && passkeys == old(passkeys) && checkins == old(checkins)
    {
      if |passkeys| == 0 {
        return Failure(404, "No passkey registered");
      }
      var challenge := CreateChallenge(Auth, now, random);
      r := AuthChallengeIssued(challenge, passkeys);
    }

    /** `POST /api/admin/passkeys/auth/verify`: a known credential id and
        an accepted challenge mint exactly one session; an unknown id burns
        the challenge all the same. */
    method AuthVerify(challenge: Option<string>, credentialId: Option<string>, now: nat, random: seq<byte>) returns (r: Reply)
      modifies this
      ensures !Truthy(challenge) || !Truthy(credentialId) ==>
        r == Failure(400, "challenge and credentialId are required") && challenges == old(challenges) && sessions == old(sessions)
      ensures Truthy(challenge) && Truthy(credentialId) ==> challenges == old(challenges) - {challenge.value}
      ensures Truthy(challenge) && Truthy(credentialId) && !ChallengeAccepted(old(challenges), challenge.value, Auth, now) ==>
        r == Failure(400, "Invalid or expired challenge") && sessions == old(sessions)
      ensures (Truthy(challenge) && Truthy(credentialId) && ChallengeAccepted(old(challenges), challenge.value, Auth, now)
        && credentialId.value !in passkeys) ==>
        r == Failure(401, "Unknown passkey") && sessions == old(sessions)
      ensures (Truthy(challenge) && Truthy(credentialId) && ChallengeAccepted(old(challenges), challenge.value, Auth, now)
        && credentialId.value in passkeys) ==>
        r == SessionIssued(Hex(random)) && sessions == old(sessions)[Hex(random) := now + SessionTtlMs]
      ensures passkeys == old(passkeys) && checkins == old(checkins)
    {
      if !Truthy(challenge) || !Truthy(credentialId) {
        return Failure(400, "challenge and credentialId are required");
      }
      var ok := ConsumeChallenge(challenge.value, Auth, now);
      if !ok {
        return Failure(400, "Invalid or expired challenge");
      }
      if credentialId.value !in passkeys {
        return Failure(401, "Unknown passkey");
      }
      var token := CreateSessionToken(now, random);
      r := SessionIssued(token);
    }

    /** `POST /api/admin/logout`: behind `requireAdminAuth`; the caller's
        token is gone afterwards either way. */
    method Logout(req: Request, now: nat) returns (r: Reply)
      modifies this
      ensures r == (if SessionAccepted(old(sessions), SessionToken(req), now) then Success else Failure(401, "Unauthorized"))
      ensures sessions == (if SessionToken(req) == "" then old(sessions) else old(sessions) - {SessionToken(req)})
      ensures challenges == old(challenges) && passkeys == old(passkeys) && checkins == old(checkins)
    {
      var ok := RequireAdminAuth(req, now);
      if !ok {
        return Failure(401, "Unauthorized");
      }
      var token := SessionToken(req);
      if token != "" {
        sessions := sessions - {token};
      }
      r := Success;
    }

    /** `PATCH /api/records/:recordId/guests/:guestId`: behind
        `requireAdminAuth`; writes only when some guest carries the id.
        `deleted` is `None` when the posted flag is not a boolean. */
    method PatchGuest(req: Request, recordId: string, guestId: string, deleted: Option<bool>, now: nat) returns (r: Reply)
      modifies this
      ensures !SessionAccepted(old(sessions), SessionToken(req), now) ==> r == Failure(401, "Unauthorized") && checkins == old(checkins)
      ensures SessionAccepted(old(sessions), SessionToken(req), now) && deleted.None? ==>
        r == Failure(400, "Invalid deleted flag") && checkins == old(checkins)
      ensures SessionAccepted(old(sessions), SessionToken(req), now) && deleted.Some? && recordId !in old(checkins) ==>
        r == Failure(404, "Record not found") && checkins == old(checkins)
      ensures (SessionAccepted(old(sessions), SessionToken(req), now) && deleted.Some? && recordId in old(checkins)
        && old(checkins)[recordId].guests.None?) ==>
        r == Failure(500, "Invalid record data") && checkins == old(checkins)
      ensures (SessionAccepted(old(sessions), SessionToken(req), now) && deleted.Some? && recordId in old(checkins)
        && old(checkins)[recordId].guests.Some? && !AnyWithId(old(checkins)[recordId].guests.value, guestId)) ==>
        r == Failure(404, "Guest not found") && checkins == old(checkins)
      ensures (SessionAccepted(old(sessions), SessionToken(req), now) && deleted.Some? && recordId in old(checkins)
        && old(checkins)[recordId].guests.Some? && AnyWithId(old(checkins)[recordId].guests.value, guestId)) ==>
        r == Success
        && checkins == old(checkins)[recordId := old(checkins)[recordId].(guests := Some(MarkDeleted(old(checkins)[recordId].guests.value, guestId, deleted.value)))]
      ensures SessionAccepted(old(sessions), SessionToken(req), now) ==> sessions == old(sessions)
      ensures !SessionAccepted(old(sessions), SessionToken(req), now) ==>
        sessions == (if SessionToken(req) == "" then old(sessions) else old(sessions) - {SessionToken(req)})
      ensures challenges == old(challenges) && passkeys == old(passkeys)
    {
      var ok := RequireAdminAuth(req, now);
      if !ok {
        return Failure(401, "Unauthorized");
      }
      if deleted.None? {
        return Failure(400, "Invalid deleted flag");
      }
      if recordId !in checkins {
        return Failure(404, "Record not found");
      }
      var row := checkins[recordId];
      if row.guests.None? {
        return Failure(500, "Invalid record data");
      }
      var updated, found := MarkGuests(row.guests.value, guestId, deleted.value);
      if !found {
        return Failure(404, "Guest not found");
      }
      checkins := checkins[recordId := row.(guests := Some(updated))];
      r := Success;
    }

    /** `POST /api/submit`: a non-empty guest list is stored under the
        fresh id with today's date; `guests` is `None` when the payload is
        not an array. A taken id fails the insert. */
    method Submit(guests: Option<seq<StoredGuest>>, submitId: string, today: string) returns (r: Reply)
      modifies this
      ensures guests.None? || guests.value == [] ==> r == Failure(400, "Invalid guest payload") && checkins == old(checkins)
      ensures guests.Some? && guests.value != [] && submitId in old(checkins) ==>
        r == Failure(500, "SQLITE_CONSTRAINT: UNIQUE constraint failed: checkins.id") && checkins == old(checkins)
      ensures guests.Some? && guests.value != [] && submitId !in old(checkins) ==>
        r == Submitted(submitId) && checkins == old(checkins)[submitId := CheckinRow(today, Some(StoredGuests(guests.value)))]
      ensures challenges == old(challenges) && sessions == old(sessions) && passkeys == old(passkeys)
    {
      if guests.None? || |guests.value| == 0 {
        return Failure(400, "Invalid guest payload");
      }
      var stored := StoredGuests(guests.value);
      if submitId in checkins {
        return Failure(500, "SQLITE_CONSTRAINT: UNIQUE constraint failed: checkins.id");
      }
      checkins := checkins[submitId := CheckinRow(today, Some(stored))];
      r := Submitted(submitId);
    }
  }

  /** `req.get('x-admin-token') || req.body?.bootstrapToken || ''` */
  function BootstrapToken(header: Option<string>, body: Option<string>): (t: string)
    ensures Truthy(header) ==> t == header.value
    ensures !Truthy(header) && Truthy(body) ==> t == body.value
    ensures !Truthy(header) && !Truthy(body) ==> t == ""
  {
    if Truthy(header) then header.value else if Truthy(body) then body.value else ""
  }

  /** The empty bootstrap token never opens registration, since the
      configured token is never empty. */
  lemma NoBootstrapRefused(env: Option<string>)
    ensures BootstrapToken(None, None) != AdminApiToken(env)
  {
  }

  // ---------------------------------------------------------------------
  // Properties across handlers
  // ---------------------------------------------------------------------

  /** A stored check-in lists back exactly the guests a submit stored. */
  lemma SubmittedListed(checkins: map<string, CheckinRow>, id: string, today: string, guests: seq<StoredGuest>)
    ensures ParseRecordData(checkins[id := CheckinRow(today, Some(StoredGuests(guests)))][id]) == StoredGuests(guests)
  {
  }

  /** After a successful PATCH, the listing shows the guest with the
      requested flag, and every other guest of the row with its old flag. */
  lemma PatchedListed(guests: seq<StoredGuest>, guestId: string, deleted: bool, sessionToken: string, encode: string -> string, i: nat)
    requires i < |guests|
    ensures var l := ListedGuests(CheckinRow("", Some(MarkDeleted(guests, guestId, deleted))), sessionToken, encode);
      |l| == |guests|
      && (IdText(guests[i].id) == guestId ==> l[i].deleted == Some(deleted))
      && (IdText(guests[i].id) != guestId ==> l[i] == ListedGuest(guests[i], sessionToken, encode))
  {
  }
}
