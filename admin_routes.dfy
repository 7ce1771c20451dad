/** The account routes: admin creation, login (which opens a session),
    and listing and removing a user's sessions. */
module AdminRoutes {
  import opened Common
  import opened Models
  import opened Collections
  import opened AuthMiddleware
  import opened Store

  const AllFieldsRequired := HttpError(400, "All fields are required", false)
  const AlreadyExists := HttpError(400, "Username or email already exists", false)
  const LoginUserNotFound := HttpError(401, "User Not Found", false)
  const InvalidCredentials := HttpError(401, "Invalid email or password", false)
  const InternalError := HttpError(500, "Internal Server Error", false)
  const DevicesUserNotFound := HttpError(404, "User Not Found", false)
  const DeviceNotFound := HttpError(404, "User not found with the specified device", false)

  /** What a successful login answers: the id, the role, and the token, here
      the claims it was signed over. */
  datatype LoginReply = LoginReply(id: Id, role: Role, token: Claims)

  /** A body field that is truthy: sent and not the empty string. */
  predicate Filled(field: Option<string>)
  {
    field.Some? && field.value != []
  }

  /** Some stored user already has this username or this email. */
  predicate Taken(users: seq<User>, username: string, email: string)
  {
    exists i | 0 <= i < |users| :: users[i].username == username || users[i].email == email
  }

  /** The session key: the User-Agent header (the text "undefined" when the
      header is absent), a space, and the ISO time of the login. */
  function DeviceIdOf(userAgent: Option<string>, isoNow: string): string
  {
    (if userAgent.Some? then userAgent.value else "undefined") + " " + isoNow
  }

  /** The credential check of login; on success, the position of the user. */
  function Authenticate(users: seq<User>, email: string, password: Option<string>,
                        bcryptMatches: (string, string) -> bool): Result<nat>
  {
    match IndexOf(users, EmailOf, email)
    case None => Err(LoginUserNotFound)
    case Some(i) =>
      if users[i].role == AdminRole then
        // bcrypt.compare throws on a missing password
        if password.None? then Err(InternalError)
        else if !bcryptMatches(password.value, users[i].password) then Err(InvalidCredentials)
        else Ok(i)
      else if password != Some(users[i].password) then Err(InvalidCredentials)
      else Ok(i)
  }

  /** Appends a session entry to the i-th user. */
  function StartSession(users: seq<User>, i: nat, entry: Device): (r: seq<User>)
    requires i < |users|
    ensures |r| == |users|
    ensures r[i] == users[i].(loggedInDevice := users[i].loggedInDevice + [entry])
    ensures forall k :: 0 <= k < |users| && k != i ==> r[k] == users[k]
  {
    users[i := users[i].(loggedInDevice := users[i].loggedInDevice + [entry])]
  }

  /** `loggedInDevice.pull({_id: entryId})`: the i-th user loses every entry
      with that id and keeps the others in order; no other user changes. */
  function EndSession(users: seq<User>, i: nat, entryId: Id): (r: seq<User>)
    requires i < |users|
    ensures |r| == |users|
    ensures r[i] == users[i].(loggedInDevice := RemoveKey(users[i].loggedInDevice, EntryIdOf, entryId))
    ensures forall k :: 0 <= k < |r[i].loggedInDevice| ==> r[i].loggedInDevice[k].entryId != entryId
    ensures forall k :: 0 <= k < |users| && k != i ==> r[k] == users[k]
  {
    users[i := users[i].(loggedInDevice := RemoveKey(users[i].loggedInDevice, EntryIdOf, entryId))]
  }

  // ---- Routes ----

  /** POST /create-admin (no guard). */
  method CreateAdmin(db: Db, username: Option<string>, password: Option<string>, email: Option<string>,
                     hash: string -> string, now: Time)
    returns (r: Result<User>)
    requires db.Valid()
    modifies db
    ensures db.Valid()
    ensures !(Filled(username) && Filled(password) && Filled(email)) ==> r == Err(AllFieldsRequired)
    ensures Filled(username) && Filled(password) && Filled(email) && Taken(old(db.users), username.value, email.value)
      ==> r == Err(AlreadyExists)
    ensures Filled(username) && Filled(password) && Filled(email) && !Taken(old(db.users), username.value, email.value)
      ==> r.Ok?
    ensures r.Err? ==> unchanged(db)
    ensures r.Ok? ==>
      && Filled(username) && Filled(password) && Filled(email)
      && !Taken(old(db.users), username.value, email.value)
      && r.value == User(old(db.nextId), username.value, hash(password.value), email.value, AdminRole, [], now)
      && db.users == old(db.users) + [r.value]
      && db.directories == old(db.directories) && db.files == old(db.files) && db.blobs == old(db.blobs)
      && db.nextId == old(db.nextId) + 1
  {
    if !(Filled(username) && Filled(password) && Filled(email)) {
      return Err(AllFieldsRequired);
    }
    if Taken(db.users, username.value, email.value) {
      return Err(AlreadyExists);
    }
    var u := db.InsertUser(username.value, hash(password.value), email.value, AdminRole, now);
    r := Ok(u);
  }

  /** POST /login: checks the credentials, appends one session entry and
      signs claims naming it. */
  method Login(db: Db, email: string, password: Option<string>, userAgent: Option<string>,
               isoNow: string, now: Time, bcryptMatches: (string, string) -> bool)
    returns (r: Result<LoginReply>)
    requires db.Valid()
    modifies db
    ensures db.Valid()
    ensures var a := Authenticate(old(db.users), email, password, bcryptMatches);
      a.Err? ==> r == Err(a.error) && unchanged(db)
    ensures var a := Authenticate(old(db.users), email, password, bcryptMatches);
      a.Ok? ==>
        var u := old(db.users)[a.value];
        var device := DeviceIdOf(userAgent, isoNow);
        && db.users == StartSession(old(db.users), a.value, Device(old(db.nextId), device, now))
        && r == Ok(LoginReply(u.id, u.role, Claims(device, u.id, u.role)))
        && db.directories == old(db.directories) && db.files == old(db.files) && db.blobs == old(db.blobs)
        && db.nextId == old(db.nextId) + 1
  {
    var a := Authenticate(db.users, email, password, bcryptMatches);
    if a.Err? {
      return Err(a.error);
    }
    var i := a.value;
    var device := DeviceIdOf(userAgent, isoNow);
    var entryId := db.NewId();
    var u := db.users[i];
    db.SetDevices(i, u.loggedInDevice + [Device(entryId, device, now)]);
    r := Ok(LoginReply(u.id, u.role, Claims(device, u.id, u.role)));
  }

  /** GET /loggedInDevices/:id, behind `verify` only: any live session may
      list the sessions of any user. */
  method LoggedInDevices(db: Db, header: Option<string>, verifyToken: string -> Option<Claims>, id: Id)
    returns (r: Result<seq<Device>>)
    requires db.Valid()
    ensures Verify(header, verifyToken, db.users).Err? ==> r == Err(Verify(header, verifyToken, db.users).error)
    ensures Verify(header, verifyToken, db.users).Ok? ==> (r.Ok? <==> StoredUser(db.users, id))
    ensures Verify(header, verifyToken, db.users).Ok? && r.Err? ==> r.error == DevicesUserNotFound
    ensures r.Ok? ==> exists i :: 0 <= i < |db.users| && db.users[i].id == id && r.value == db.users[i].loggedInDevice
  {
    var v := Verify(header, verifyToken, db.users);
    if v.Err? {
      return Err(v.error);
    }
    var found := IndexOf(db.users, UserIdOf, id);
    if found.None? {
      return Err(DevicesUserNotFound);
    }
    r := Ok(db.users[found.value].loggedInDevice);
  }

  /** DELETE /removeLoggedInDevice/:id/:deviceId, behind `verify` only. */
  method RemoveLoggedInDevice(db: Db, header: Option<string>, verifyToken: string -> Option<Claims>,
                              id: Id, deviceId: Id)
    returns (r: Result<string>)
    requires db.Valid()
    modifies db
    ensures db.Valid()
    ensures Verify(header, verifyToken, old(db.users)).Err? ==>
      r == Err(Verify(header, verifyToken, old(db.users)).error) && unchanged(db)
    ensures Verify(header, verifyToken, old(db.users)).Ok? ==>
      (r.Ok? <==> exists i, k :: 0 <= i < |old(db.users)| && old(db.users)[i].id == id
                    && 0 <= k < |old(db.users)[i].loggedInDevice|
                    && old(db.users)[i].loggedInDevice[k].entryId == deviceId)
    ensures r.Err? ==> unchanged(db)
    ensures Verify(header, verifyToken, old(db.users)).Ok? && r.Err? ==> r.error == DeviceNotFound
    ensures r.Ok? ==>
      && r.value == "Session Removed Successfully"
      && (exists i :: 0 <= i < |old(db.users)| && old(db.users)[i].id == id
            && db.users == EndSession(old(db.users), i, deviceId))
      && db.directories == old(db.directories) && db.files == old(db.files) && db.blobs == old(db.blobs)
      && db.nextId == old(db.nextId)
  {
    var v := Verify(header, verifyToken, db.users);
    if v.Err? {
      return Err(v.error);
    }
    var found := IndexOf(db.users, UserIdOf, id);
    if found.None? {
      return Err(DeviceNotFound);
    }
    var i := found.value;
    var devices := db.users[i].loggedInDevice;
    if IndexOf(devices, EntryIdOf, deviceId).None? {
      forall j, k | 0 <= j < |db.users| && db.users[j].id == id && 0 <= k < |db.users[j].loggedInDevice|
        ensures db.users[j].loggedInDevice[k].entryId != deviceId
      {
        IndexOfDistinct(db.users, UserIdOf, j);
      }
      return Err(DeviceNotFound);
    }
    RemoveKeyDistinct(devices, EntryIdOf, deviceId, EntryIdOf);
    db.SetDevices(i, RemoveKey(devices, EntryIdOf, deviceId));
    r := Ok("Session Removed Successfully");
  }

  // ---- Properties ----

  /** Login succeeds exactly for a stored e-mail whose password checks out:
      through bcrypt for an admin, by plain string equality for a user. */
  lemma AuthenticateOk(users: seq<User>, email: string, password: Option<string>,
                       bcryptMatches: (string, string) -> bool)
    requires Distinct(users, EmailOf)
    ensures Authenticate(users, email, password, bcryptMatches).Ok? <==>
      exists i :: 0 <= i < |users| && users[i].email == email
        && if users[i].role == AdminRole
           then password.Some? && bcryptMatches(password.value, users[i].password)
           else password == Some(users[i].password)
    ensures Authenticate(users, email, password, bcryptMatches).Ok? ==>
      var i := Authenticate(users, email, password, bcryptMatches).value;
      i < |users| && users[i].email == email
  {
    if i :| 0 <= i < |users| && users[i].email == email {
      IndexOfDistinct(users, EmailOf, i);
    }
  }

  /** Which error a failed login answers with. */
  lemma AuthenticateErrors(users: seq<User>, email: string, password: Option<string>,
                           bcryptMatches: (string, string) -> bool, i: nat)
    requires Distinct(users, EmailOf)
    ensures (forall j :: 0 <= j < |users| ==> users[j].email != email) ==>
      Authenticate(users, email, password, bcryptMatches) == Err(LoginUserNotFound)
    ensures (i < |users| && users[i].email == email && users[i].role == UserRole
             && password != Some(users[i].password)) ==>
      Authenticate(users, email, password, bcryptMatches) == Err(InvalidCredentials)
    ensures (i < |users| && users[i].email == email && users[i].role == AdminRole && password.Some?
             && !bcryptMatches(password.value, users[i].password)) ==>
      Authenticate(users, email, password, bcryptMatches) == Err(InvalidCredentials)
    ensures (i < |users| && users[i].email == email && users[i].role == AdminRole && password.None?) ==>
      Authenticate(users, email, password, bcryptMatches) == Err(InternalError)
  {
    if i < |users| && users[i].email == email {
      IndexOfDistinct(users, EmailOf, i);
    }
  }

  /** The claims signed at login pass `verify` against the users as login
      leaves them, and pass `adminVerify` as well when the user is an admin. */
  lemma LoginOpensSession(users: seq<User>, i: nat, entry: Device, header: Option<string>,
                          verifyToken: string -> Option<Claims>)
    requires Distinct(users, UserIdOf) && i < |users|
    requires HeaderPresent(header)
    requires Decode(header.value, verifyToken) == Some(Claims(entry.deviceID, users[i].id, users[i].role))
    ensures var c := Claims(entry.deviceID, users[i].id, users[i].role);
      Verify(header, verifyToken, StartSession(users, i, entry)) == Ok(c)
      && (users[i].role == AdminRole ==> AdminVerify(header, verifyToken, StartSession(users, i, entry)) == Ok(c))
  {
    var after := StartSession(users, i, entry);
    var devices := after[i].loggedInDevice;
    assert devices[|devices| - 1] == entry;
    assert HasDevice(devices, entry.deviceID);
    assert Distinct(after, UserIdOf);
    IndexOfDistinct(after, UserIdOf, i);
  }

  /** Opening a session takes nothing away: every request `verify` admitted
      before, it admits after. */
  lemma LoginKeepsSessions(users: seq<User>, i: nat, entry: Device, header: Option<string>,
                           verifyToken: string -> Option<Claims>)
    requires Distinct(users, UserIdOf) && i < |users|
    requires Verify(header, verifyToken, users).Ok?
    ensures Verify(header, verifyToken, StartSession(users, i, entry)) == Verify(header, verifyToken, users)
  {
    var c := Verify(header, verifyToken, users).value;
    var after := StartSession(users, i, entry);
    assert Distinct(after, UserIdOf);
    VerifyOk(header, verifyToken, users, c);
    VerifyOk(header, verifyToken, after, c);
    var j :| 0 <= j < |users| && users[j].id == c.id && HasDevice(users[j].loggedInDevice, c.loggedInDevice);
    var k :| 0 <= k < |users[j].loggedInDevice| && users[j].loggedInDevice[k].deviceID == c.loggedInDevice;
    assert after[j].loggedInDevice[k] == users[j].loggedInDevice[k];
  }

  /** Session entry ids are distinct within a user (the store keeps them so),
      so the pull removes exactly the one entry with that id. */
  lemma EndSessionPullsOne(users: seq<User>, i: nat, k: nat)
    requires i < |users| && k < |users[i].loggedInDevice|
    requires Distinct(users[i].loggedInDevice, EntryIdOf)
    ensures var devices := users[i].loggedInDevice;
      EndSession(users, i, devices[k].entryId)[i].loggedInDevice == devices[..k] + devices[k + 1..]
  {
    RemoveKeyUnique(users[i].loggedInDevice, EntryIdOf, k);
  }

  /** After a session entry is removed, a token still passes `verify` exactly
      when it passed before and its user keeps an entry with its device
      string, i.e. it belongs to another user or another entry of this user
      carries the same device string. */
  lemma EndSessionVerify(users: seq<User>, i: nat, entryId: Id, header: Option<string>,
                         verifyToken: string -> Option<Claims>, c: Claims)
    requires Distinct(users, UserIdOf) && i < |users|
    ensures Verify(header, verifyToken, EndSession(users, i, entryId)) == Ok(c) <==>
      && Verify(header, verifyToken, users) == Ok(c)
      && (c.id != users[i].id ||
          exists k :: 0 <= k < |users[i].loggedInDevice|
            && users[i].loggedInDevice[k].deviceID == c.loggedInDevice
            && users[i].loggedInDevice[k].entryId != entryId)
  {
    var after := EndSession(users, i, entryId);
    var devices := users[i].loggedInDevice;
    var kept := RemoveKey(devices, EntryIdOf, entryId);
    assert after[i].loggedInDevice == kept;
    assert Distinct(after, UserIdOf);
    VerifyOk(header, verifyToken, users, c);
    VerifyOk(header, verifyToken, after, c);
    if c.id == users[i].id {
      // the only stored user with this id is the i-th one
      forall j | 0 <= j < |users| && users[j].id == c.id ensures j == i { }
      if SessionLive(after, c) {
        var j :| 0 <= j < |after| && after[j].id == c.id && HasDevice(after[j].loggedInDevice, c.loggedInDevice);
        assert j == i;
        var m :| 0 <= m < |kept| && kept[m].deviceID == c.loggedInDevice;
        var k :| 0 <= k < |devices| && devices[k] == kept[m];
        assert devices[k].entryId != entryId;
      }
      if k :| (0 <= k < |devices| && devices[k].deviceID == c.loggedInDevice && devices[k].entryId != entryId) {
        assert devices[k] in kept;
        var m :| 0 <= m < |kept| && kept[m] == devices[k];
        assert HasDevice(after[i].loggedInDevice, c.loggedInDevice);
      }
    } else {
      if SessionLive(after, c) {
        var j :| 0 <= j < |after| && after[j].id == c.id && HasDevice(after[j].loggedInDevice, c.loggedInDevice);
        assert after[j] == users[j];
      }
      if SessionLive(users, c) {
        var j :| 0 <= j < |users| && users[j].id == c.id && HasDevice(users[j].loggedInDevice, c.loggedInDevice);
        assert after[j] == users[j];
      }
    }
  }

  /** Removing the entry a token was issued for ends that token's session: when
      no other entry of the user carries its device string, `verify` answers
      "Session Expired" although the token's signature is still good. */
  lemma RemovedSessionExpires(users: seq<User>, i: nat, k: nat, header: Option<string>,
                              verifyToken: string -> Option<Claims>)
    requires Distinct(users, UserIdOf) && i < |users| && k < |users[i].loggedInDevice|
    requires var e := users[i].loggedInDevice[k];
      forall m :: 0 <= m < |users[i].loggedInDevice| && users[i].loggedInDevice[m].deviceID == e.deviceID
        ==> users[i].loggedInDevice[m].entryId == e.entryId
    requires HeaderPresent(header)
    requires Decode(header.value, verifyToken) == Some(Claims(users[i].loggedInDevice[k].deviceID, users[i].id, users[i].role))
    ensures Verify(header, verifyToken, EndSession(users, i, users[i].loggedInDevice[k].entryId)) == Err(SessionExpired)
  {
    var e := users[i].loggedInDevice[k];
    var c := Claims(e.deviceID, users[i].id, users[i].role);
    var after := EndSession(users, i, e.entryId);
    EndSessionVerify(users, i, e.entryId, header, verifyToken, c);
    assert Distinct(after, UserIdOf);
    IndexOfDistinct(after, UserIdOf, i);
  }
}
