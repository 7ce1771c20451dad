/** The request guards: `verify` (a live session), `adminVerify` (a live
    admin session) and `checkPermission` (a capability on a directory).
    Each is a chain of early returns; the first failing check decides the
    response. Signature checking of the bearer token is the parameter
    `verifyToken`: it yields the claims of a token it accepts. */
module AuthMiddleware {
  import opened Common
  import opened Models
  import opened Collections
  import opened Text

  /** The token payload signed at login. */
  datatype Claims = Claims(loggedInDevice: string, id: Id, role: Role)

  const NotAuthenticated := HttpError(400, "You are not authenticated", true)
  const TokenNotValid := HttpError(401, "Token is not valid", true)
  const SessionExpired := HttpError(401, "Session Expired", true)
  const UserNotFound := HttpError(401, "User Not Found", true)
  const AccessDenied := HttpError(403, "Access Denied", true)
  const GateUserNotFound := HttpError(404, "User not found", true)
  const DirectoryNotFound := HttpError(404, "Directory not found", false)
  const GateAccessDenied := HttpError(403, "Access denied", false)
  /** The 404 the routes themselves answer for an unknown user. */
  const UnknownUser := HttpError(404, "User not found", false)

  /** `if (authHeader)`: the header is sent and is not the empty string. */
  predicate HeaderPresent(header: Option<string>)
  {
    header.Some? && header.value != []
  }

  /** `authHeader.split(" ")[1]`; undefined when there is no second field,
      which happens exactly when the header holds no space. */
  function TokenOf(header: string): (r: Option<string>)
    ensures r.None? <==> NoSpace(header)
    ensures r.Some? ==> NoSpace(r.value)
  {
    SplitJoin(header);
    var fields := Split(header);
    if |fields| >= 2 then
      assert header == fields[0] + " " + Join(fields[1..]);
      assert header[|fields[0]|] == ' ';
      Some(fields[1])
    else None
  }

  /** `jwt.verify` on the extracted token; an undefined token is rejected. */
  function Decode(header: string, verifyToken: string -> Option<Claims>): (r: Option<Claims>)
    ensures NoSpace(header) ==> r.None?
  {
    match TokenOf(header)
    case None => None
    case Some(t) => verifyToken(t)
  }

  /** `loggedInDevice.some(device => device.deviceID === deviceID)`. */
  predicate HasDevice(devices: seq<Device>, deviceID: string)
  {
    exists k | 0 <= k < |devices| :: devices[k].deviceID == deviceID
  }

  /** The claims name a stored user one of whose session entries carries the
      claimed device string. */
  ghost predicate SessionLive(users: seq<User>, c: Claims)
  {
    exists i :: 0 <= i < |users| && users[i].id == c.id && HasDevice(users[i].loggedInDevice, c.loggedInDevice)
  }

  /** `verify`: on success the claims become `req.user`; every refusal asks
      the client to log out. */
  function Verify(header: Option<string>, verifyToken: string -> Option<Claims>, users: seq<User>)
    : (r: Result<Claims>)
    ensures r.Ok? ==> HeaderPresent(header) && Decode(header.value, verifyToken) == Some(r.value)
                      && SessionLive(users, r.value)
    ensures r.Err? ==> r.error.logout && (r.error.status == 400 || r.error.status == 401)
  {
    if !HeaderPresent(header) then Err(NotAuthenticated)
    else match Decode(header.value, verifyToken)
      case None => Err(SessionExpired)
      case Some(c) =>
        match IndexOf(users, UserIdOf, c.id)
        case None => Err(UserNotFound)
        case Some(i) =>
          if HasDevice(users[i].loggedInDevice, c.loggedInDevice) then Ok(c) else Err(SessionExpired)
  }

  /** `adminVerify`: the token's role, then the user, then the stored role,
      then the session; every refusal asks the client to log out. */
  function AdminVerify(header: Option<string>, verifyToken: string -> Option<Claims>, users: seq<User>)
    : (r: Result<Claims>)
    ensures r.Ok? ==> r.value.role == AdminRole && HeaderPresent(header)
                      && Decode(header.value, verifyToken) == Some(r.value)
    ensures r.Err? ==> r.error.logout
  {
    if !HeaderPresent(header) then Err(NotAuthenticated)
    else match Decode(header.value, verifyToken)
      case None => Err(TokenNotValid)
      case Some(c) =>
        if c.role != AdminRole then Err(AccessDenied)
        else match IndexOf(users, UserIdOf, c.id)
          case None => Err(UserNotFound)
          case Some(i) =>
            if users[i].role != AdminRole then Err(AccessDenied)
            else if !HasDevice(users[i].loggedInDevice, c.loggedInDevice) then Err(SessionExpired)
            else Ok(c)
  }

  /** `checkPermission(t)` for the path parameters `userId` and `directoryId`. */
  function CheckPermission(users: seq<User>, directories: seq<Directory>, t: PermissionType,
                           userId: Id, directoryId: Id): (r: Result<()>)
    ensures r.Ok? ==> StoredUser(users, userId)
    ensures r.Err? ==> r.error == GateUserNotFound || r.error == DirectoryNotFound || r.error == GateAccessDenied
  {
    match IndexOf(users, UserIdOf, userId)
    case None => Err(GateUserNotFound)
    case Some(i) =>
      if users[i].role == AdminRole then Ok(())
      else match IndexOf(directories, DirectoryIdOf, directoryId)
        case None => Err(DirectoryNotFound)
        case Some(j) =>
          if userId in directories[j].permissions.Members(t) then Ok(()) else Err(GateAccessDenied)
  }

  /** The guard pipeline of every file route: `verify`, then `checkPermission`. */
  function Gate(header: Option<string>, verifyToken: string -> Option<Claims>, users: seq<User>,
                directories: seq<Directory>, t: PermissionType, userId: Id, directoryId: Id)
    : (r: Result<Claims>)
    ensures r.Ok? <==> Verify(header, verifyToken, users).Ok? && CheckPermission(users, directories, t, userId, directoryId).Ok?
    ensures r.Ok? ==> r == Verify(header, verifyToken, users)
    ensures Verify(header, verifyToken, users).Err? ==> r == Verify(header, verifyToken, users)
  {
    match Verify(header, verifyToken, users)
    case Err(e) => Err(e)
    case Ok(c) =>
      match CheckPermission(users, directories, t, userId, directoryId)
      case Err(e) => Err(e)
      case Ok(_) => Ok(c)
  }

  // ---- Header parsing ----

  /** A header "<scheme> <token>", possibly followed by more space-separated
      text, yields the token: the second field and nothing after it. */
  lemma TokenOfBearer(scheme: string, token: string, rest: string)
    requires NoSpace(scheme) && NoSpace(token)
    requires rest == [] || rest[0] == ' '
    ensures TokenOf(scheme + " " + token + rest) == Some(token)
  {
    SplitNoSpace(scheme);
    SplitNoSpace(token);
    if rest == [] {
      SplitAround(scheme, token);
      assert scheme + " " + token + rest == scheme + " " + token;
    } else {
      var more := rest[1..];
      assert scheme + " " + token + rest == scheme + " " + (token + " " + more);
      SplitAround(token, more);
      SplitAround(scheme, token + " " + more);
    }
  }

  // ---- verify ----

  /** `verify` accepts exactly a present header whose token verifies and
      whose device string is still among the stored user's session entries. */
  lemma VerifyOk(header: Option<string>, verifyToken: string -> Option<Claims>, users: seq<User>, c: Claims)
    requires Distinct(users, UserIdOf)
    ensures Verify(header, verifyToken, users) == Ok(c) <==>
      HeaderPresent(header) && Decode(header.value, verifyToken) == Some(c) && SessionLive(users, c)
  {
    if HeaderPresent(header) && Decode(header.value, verifyToken) == Some(c) && SessionLive(users, c) {
      var i :| 0 <= i < |users| && users[i].id == c.id && HasDevice(users[i].loggedInDevice, c.loggedInDevice);
      IndexOfDistinct(users, UserIdOf, i);
    }
  }

  /** Which error `verify` answers with. */
  lemma VerifyErrors(header: Option<string>, verifyToken: string -> Option<Claims>, users: seq<User>)
    requires Distinct(users, UserIdOf)
    ensures !HeaderPresent(header) ==> Verify(header, verifyToken, users) == Err(NotAuthenticated)
    ensures HeaderPresent(header) && Decode(header.value, verifyToken).None? ==>
      Verify(header, verifyToken, users) == Err(SessionExpired)
    ensures HeaderPresent(header) && Decode(header.value, verifyToken).Some? ==>
      var c := Decode(header.value, verifyToken).value;
      && ((forall i :: 0 <= i < |users| ==> users[i].id != c.id) ==>
            Verify(header, verifyToken, users) == Err(UserNotFound))
      && (forall i :: 0 <= i < |users| && users[i].id == c.id && !HasDevice(users[i].loggedInDevice, c.loggedInDevice) ==>
            Verify(header, verifyToken, users) == Err(SessionExpired))
  {
    if HeaderPresent(header) && Decode(header.value, verifyToken).Some? {
      var c := Decode(header.value, verifyToken).value;
      forall i | 0 <= i < |users| && users[i].id == c.id
        ensures IndexOf(users, UserIdOf, c.id) == Some(i)
      {
        IndexOfDistinct(users, UserIdOf, i);
      }
    }
  }

  // ---- adminVerify ----

  /** `adminVerify` accepts exactly an admin token whose user is stored as an
      admin and still holds the session. */
  lemma AdminVerifyOk(header: Option<string>, verifyToken: string -> Option<Claims>, users: seq<User>, c: Claims)
    requires Distinct(users, UserIdOf)
    ensures AdminVerify(header, verifyToken, users) == Ok(c) <==>
      && HeaderPresent(header) && Decode(header.value, verifyToken) == Some(c)
      && c.role == AdminRole
      && exists i :: 0 <= i < |users| && users[i].id == c.id && users[i].role == AdminRole
           && HasDevice(users[i].loggedInDevice, c.loggedInDevice)
  {
    if HeaderPresent(header) && Decode(header.value, verifyToken) == Some(c) && c.role == AdminRole {
      if i :| (0 <= i < |users| && users[i].id == c.id && users[i].role == AdminRole
               && HasDevice(users[i].loggedInDevice, c.loggedInDevice)) {
        IndexOfDistinct(users, UserIdOf, i);
      }
    }
  }

  /** Every request `adminVerify` admits, `verify` admits too. */
  lemma AdminVerifyStricter(header: Option<string>, verifyToken: string -> Option<Claims>, users: seq<User>)
    requires AdminVerify(header, verifyToken, users).Ok?
    ensures Verify(header, verifyToken, users) == AdminVerify(header, verifyToken, users)
  {
  }

  /** Which error `adminVerify` answers with before the stored role is
      consulted: no header, a token that does not verify, an admin token
      whose user is gone. */
  lemma AdminVerifyErrors(header: Option<string>, verifyToken: string -> Option<Claims>, users: seq<User>)
    ensures !HeaderPresent(header) ==> AdminVerify(header, verifyToken, users) == Err(NotAuthenticated)
    ensures HeaderPresent(header) && Decode(header.value, verifyToken).None? ==>
      AdminVerify(header, verifyToken, users) == Err(TokenNotValid)
    ensures HeaderPresent(header) && Decode(header.value, verifyToken).Some? ==>
      var c := Decode(header.value, verifyToken).value;
      c.role == AdminRole && (forall i :: 0 <= i < |users| ==> users[i].id != c.id) ==>
        AdminVerify(header, verifyToken, users) == Err(UserNotFound)
  {
  }

  /** A token whose claims are not an admin's is refused before the user is
      looked up, whatever the stored users are. */
  lemma AdminVerifyRoleFirst(header: Option<string>, verifyToken: string -> Option<Claims>, users: seq<User>)
    requires HeaderPresent(header) && Decode(header.value, verifyToken).Some?
    ensures Decode(header.value, verifyToken).value.role != AdminRole ==>
      AdminVerify(header, verifyToken, users) == Err(AccessDenied)
  {
  }

  /** After the token's role, the checks run in a fixed order: a user demoted
      since the token was signed is refused even though the token says admin
      and the session is live, and only then is the session checked. */
  lemma AdminVerifyOrder(header: Option<string>, verifyToken: string -> Option<Claims>, users: seq<User>, i: nat)
    requires Distinct(users, UserIdOf)
    requires HeaderPresent(header) && Decode(header.value, verifyToken).Some?
    requires i < |users|
    ensures var c := Decode(header.value, verifyToken).value;
      c.role == AdminRole && users[i].id == c.id && users[i].role != AdminRole ==>
      AdminVerify(header, verifyToken, users) == Err(AccessDenied)
    ensures var c := Decode(header.value, verifyToken).value;
      c.role == AdminRole && users[i].id == c.id && users[i].role == AdminRole
        && !HasDevice(users[i].loggedInDevice, c.loggedInDevice) ==>
      AdminVerify(header, verifyToken, users) == Err(SessionExpired)
  {
    IndexOfDistinct(users, UserIdOf, i);
  }

  // ---- checkPermission ----

  ghost predicate StoredUser(users: seq<User>, id: Id)
  {
    exists i :: 0 <= i < |users| && users[i].id == id
  }

  ghost predicate StoredAdmin(users: seq<User>, id: Id)
  {
    exists i :: 0 <= i < |users| && users[i].id == id && users[i].role == AdminRole
  }

  /** The directory exists and lists the user under capability t. */
  ghost predicate Granted(directories: seq<Directory>, t: PermissionType, userId: Id, directoryId: Id)
  {
    exists j :: 0 <= j < |directories| && directories[j].id == directoryId
      && userId in directories[j].permissions.Members(t)
  }

  /** The gate lets a request through exactly when the path user exists and is
      an admin, or holds the capability on the path directory. */
  lemma CheckPermissionOk(users: seq<User>, directories: seq<Directory>, t: PermissionType, userId: Id, directoryId: Id)
    requires Distinct(users, UserIdOf) && Distinct(directories, DirectoryIdOf)
    ensures CheckPermission(users, directories, t, userId, directoryId).Ok? <==>
      StoredUser(users, userId) && (StoredAdmin(users, userId) || Granted(directories, t, userId, directoryId))
  {
    if i :| 0 <= i < |users| && users[i].id == userId {
      IndexOfDistinct(users, UserIdOf, i);
      if j :| 0 <= j < |directories| && directories[j].id == directoryId {
        IndexOfDistinct(directories, DirectoryIdOf, j);
      }
    }
  }

  /** An admin passes every capability check, for every directory id, even one
      that does not exist. */
  lemma AdminBypass(users: seq<User>, directories: seq<Directory>, t: PermissionType, i: nat, directoryId: Id)
    requires Distinct(users, UserIdOf)
    requires i < |users| && users[i].role == AdminRole
    ensures CheckPermission(users, directories, t, users[i].id, directoryId) == Ok(())
  {
    IndexOfDistinct(users, UserIdOf, i);
  }

  /** Which error the gate answers with. */
  lemma CheckPermissionErrors(users: seq<User>, directories: seq<Directory>, t: PermissionType, userId: Id, directoryId: Id)
    requires Distinct(users, UserIdOf) && Distinct(directories, DirectoryIdOf)
    ensures !StoredUser(users, userId) ==>
      CheckPermission(users, directories, t, userId, directoryId) == Err(GateUserNotFound)
    ensures (StoredUser(users, userId) && !StoredAdmin(users, userId)
             && forall j :: 0 <= j < |directories| ==> directories[j].id != directoryId) ==>
      CheckPermission(users, directories, t, userId, directoryId) == Err(DirectoryNotFound)
    ensures (StoredUser(users, userId) && !StoredAdmin(users, userId)
             && (exists j :: 0 <= j < |directories| && directories[j].id == directoryId)
             && !Granted(directories, t, userId, directoryId)) ==>
      CheckPermission(users, directories, t, userId, directoryId) == Err(GateAccessDenied)
  {
    CheckPermissionOk(users, directories, t, userId, directoryId);
    if i :| 0 <= i < |users| && users[i].id == userId {
      IndexOfDistinct(users, UserIdOf, i);
    }
  }

  /** The gate never looks at who the token belongs to: any two requests that
      pass `verify`, whoever their users are, get the same answer for the same
      path `userId` and `directoryId`. */
  lemma GateIgnoresTokenIdentity(h1: Option<string>, h2: Option<string>, verifyToken: string -> Option<Claims>,
                                 users: seq<User>, directories: seq<Directory>, t: PermissionType,
                                 userId: Id, directoryId: Id)
    requires Verify(h1, verifyToken, users).Ok? && Verify(h2, verifyToken, users).Ok?
    ensures Gate(h1, verifyToken, users, directories, t, userId, directoryId).Ok? <==>
            Gate(h2, verifyToken, users, directories, t, userId, directoryId).Ok?
    ensures Gate(h1, verifyToken, users, directories, t, userId, directoryId).Err? ==>
            Gate(h1, verifyToken, users, directories, t, userId, directoryId) ==
            Gate(h2, verifyToken, users, directories, t, userId, directoryId)
  {
  }
}
