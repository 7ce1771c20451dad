/** The user-management routes, all behind `adminVerify`: user creation,
    the paged user list, the per-user permission matrix, and granting and
    revoking a capability on a directory. */
module UserRoutes {
  import opened Common
  import opened Models
  import opened Collections
  import opened Text
  import opened AuthMiddleware
  import opened AdminRoutes
  import opened Store

  const ServerError := HttpError(500, "Server Error", false)
  const InvalidPermissionType := HttpError(400, "Invalid permission type", false)
  /** The database refuses a negative `skip`; its message is passed on. */
  const NegativeSkip := HttpError(500, "skip must be non-negative", false)

  // ---- Permission lists ----

  /** Push `userId` unless it is already present. */
  function Grant(l: seq<Id>, u: Id): (r: seq<Id>)
    ensures u in r
    ensures forall x :: x in r <==> x in l || x == u
    ensures NoDuplicates(l) ==> NoDuplicates(r)
    ensures u in l ==> r == l
  {
    if u in l then l else l + [u]
  }

  /** `filter(id => id !== userId)`: drops every occurrence. */
  function Revoke(l: seq<Id>, u: Id): (r: seq<Id>)
    ensures u !in r
    ensures forall x :: x != u ==> (x in r <==> x in l)
    ensures |r| <= |l|
  {
    if |l| == 0 then []
    else if l[0] == u then Revoke(l[1..], u)
    else [l[0]] + Revoke(l[1..], u)
  }

  /** Granting twice is granting once. */
  lemma GrantIdempotent(l: seq<Id>, u: Id)
    ensures Grant(Grant(l, u), u) == Grant(l, u)
  {
  }

  /** Revoking keeps the other ids in their order, so revoking again changes
      nothing, and a duplicate-free list stays duplicate-free. */
  lemma {:induction false} RevokeProperties(l: seq<Id>, u: Id)
    ensures Revoke(Revoke(l, u), u) == Revoke(l, u)
    ensures NoDuplicates(l) ==> NoDuplicates(Revoke(l, u))
    ensures u !in l ==> Revoke(l, u) == l
  {
    if |l| > 0 {
      RevokeProperties(l[1..], u);
      if l[0] != u {
        var r := Revoke(l, u);
        assert r == [l[0]] + Revoke(l[1..], u);
        assert Revoke(r, u) == [l[0]] + Revoke(Revoke(l[1..], u), u);
        if NoDuplicates(l) {
          assert l[0] !in l[1..];
          assert l[0] !in Revoke(l[1..], u);
          assert NoDuplicates(l[1..]);
        }
        if u !in l {
          assert u !in l[1..];
        }
      } else {
        assert NoDuplicates(l) ==> NoDuplicates(l[1..]);
      }
    }
  }

  /** Grants capability t: that list gains u, the other four are untouched. */
  function GrantIn(p: Permissions, t: PermissionType, u: Id): (r: Permissions)
    ensures u in r.Members(t)
    ensures forall x :: x in r.Members(t) <==> x in p.Members(t) || x == u
    ensures forall t' :: t' != t ==> r.Members(t') == p.Members(t')
    ensures PermissionsNoDuplicates(p) ==> PermissionsNoDuplicates(r)
  {
    p.With(t, Grant(p.Members(t), u))
  }

  /** Revokes capability t: that list loses u, the other four are untouched. */
  function RevokeIn(p: Permissions, t: PermissionType, u: Id): (r: Permissions)
    ensures u !in r.Members(t)
    ensures forall x :: x != u ==> (x in r.Members(t) <==> x in p.Members(t))
    ensures forall t' :: t' != t ==> r.Members(t') == p.Members(t')
    ensures PermissionsNoDuplicates(p) ==> PermissionsNoDuplicates(r)
  {
    RevokeProperties(p.Members(t), u);
    p.With(t, Revoke(p.Members(t), u))
  }

  /** The directories after a grant on the j-th one: only that directory
      changes, and only in its permissions. */
  function GrantAt(directories: seq<Directory>, j: nat, t: PermissionType, u: Id): (r: seq<Directory>)
    requires j < |directories|
    ensures |r| == |directories|
    ensures r[j] == directories[j].(permissions := GrantIn(directories[j].permissions, t, u))
    ensures forall k :: 0 <= k < |directories| && k != j ==> r[k] == directories[k]
  {
    directories[j := directories[j].(permissions := GrantIn(directories[j].permissions, t, u))]
  }

  /** The directories after a revocation on the j-th one: only that
      directory changes, and only in its permissions. */
  function RevokeAt(directories: seq<Directory>, j: nat, t: PermissionType, u: Id): (r: seq<Directory>)
    requires j < |directories|
    ensures |r| == |directories|
    ensures r[j] == directories[j].(permissions := RevokeIn(directories[j].permissions, t, u))
    ensures forall k :: 0 <= k < |directories| && k != j ==> r[k] == directories[k]
  {
    directories[j := directories[j].(permissions := RevokeIn(directories[j].permissions, t, u))]
  }

  // ---- The permission matrix ----

  /** One row of `user-directories`. */
  datatype Capabilities = Capabilities(
    directoryId: Id,
    directoryName: string,
    canViewFiles: bool,
    canAddFiles: bool,
    canCommentFiles: bool,
    canDeleteFiles: bool,
    canDownloadFiles: bool)
  {
    function Flag(t: PermissionType): bool
    {
      match t
      case CanViewFiles => canViewFiles
      case CanAddFiles => canAddFiles
      case CanCommentFiles => canCommentFiles
      case CanDeleteFiles => canDeleteFiles
      case CanDownloadFiles => canDownloadFiles
    }
  }

  function Row(d: Directory, u: Id): (r: Capabilities)
    ensures r.directoryId == d.id && r.directoryName == d.name
    ensures forall t :: r.Flag(t) <==> u in d.permissions.Members(t)
  {
    var p := d.permissions;
    Capabilities(d.id, d.name, u in p.canViewFiles, u in p.canAddFiles, u in p.canCommentFiles,
                 u in p.canDeleteFiles, u in p.canDownloadFiles)
  }

  /** The matrix over the directories newest first. */
  function Matrix(directories: seq<Directory>, u: Id): (r: seq<Capabilities>)
    ensures |r| == |directories|
  {
    var sorted := SortDesc(directories, DirectoryCreatedAt);
    seq(|sorted|, k requires 0 <= k < |sorted| => Row(sorted[k], u))
  }

  /** One row per directory, newest first, and each flag is membership of the
      user in the list of that capability. */
  lemma MatrixRows(directories: seq<Directory>, u: Id)
    ensures |Matrix(directories, u)| == |directories|
    ensures exists sorted: seq<Directory> ::
      && SortedDesc(sorted, DirectoryCreatedAt) && multiset(sorted) == multiset(directories)
      && |sorted| == |directories|
      && forall k, t :: 0 <= k < |sorted| ==>
           Matrix(directories, u)[k].directoryId == sorted[k].id
           && Matrix(directories, u)[k].directoryName == sorted[k].name
           && (Matrix(directories, u)[k].Flag(t) <==> u in sorted[k].permissions.Members(t))
  {
    SortDescCorrect(directories, DirectoryCreatedAt);
    var sorted := SortDesc(directories, DirectoryCreatedAt);
    forall k, t | 0 <= k < |sorted|
      ensures Matrix(directories, u)[k].Flag(t) <==> u in sorted[k].permissions.Members(t)
    {
      assert Matrix(directories, u)[k] == Row(sorted[k], u);
    }
  }

  /** The flag shown for directory d under capability t is membership of u
      in that list of d. */
  lemma MatrixShows(directories: seq<Directory>, u: Id, j: nat, k: nat, t: PermissionType)
    requires Distinct(directories, DirectoryIdOf) && j < |directories|
    requires k < |Matrix(directories, u)| && Matrix(directories, u)[k].directoryId == directories[j].id
    ensures Matrix(directories, u)[k].Flag(t) <==> u in directories[j].permissions.Members(t)
  {
    var sorted := SortDesc(directories, DirectoryCreatedAt);
    SortDescMembers(directories, DirectoryCreatedAt);
    assert Matrix(directories, u)[k] == Row(sorted[k], u);
    assert sorted[k] in directories;
    var m :| 0 <= m < |directories| && directories[m] == sorted[k];
    assert m == j;
  }

  /** Replacing a directory's permissions keeps the ids distinct. */
  lemma SamePositionsDistinct(directories: seq<Directory>, j: nat, p: Permissions)
    requires Distinct(directories, DirectoryIdOf) && j < |directories|
    ensures Distinct(directories[j := directories[j].(permissions := p)], DirectoryIdOf)
  {
    var after := directories[j := directories[j].(permissions := p)];
    forall a, b | 0 <= a < b < |after| ensures DirectoryIdOf(after[a]) != DirectoryIdOf(after[b]) {
      assert DirectoryIdOf(after[a]) == DirectoryIdOf(directories[a]);
      assert DirectoryIdOf(after[b]) == DirectoryIdOf(directories[b]);
    }
  }

  /** After a grant the matrix shows the capability for that directory. */
  lemma GrantThenQuery(directories: seq<Directory>, j: nat, t: PermissionType, u: Id, k: nat)
    requires Distinct(directories, DirectoryIdOf) && j < |directories| && k < |directories|
    requires Matrix(GrantAt(directories, j, t, u), u)[k].directoryId == directories[j].id
    ensures Matrix(GrantAt(directories, j, t, u), u)[k].Flag(t)
  {
    var p := directories[j].permissions;
    SamePositionsDistinct(directories, j, GrantIn(p, t, u));
    MatrixShows(GrantAt(directories, j, t, u), u, j, k, t);
  }

  /** After a revocation the matrix no longer shows it. */
  lemma RevokeThenQuery(directories: seq<Directory>, j: nat, t: PermissionType, u: Id, k: nat)
    requires Distinct(directories, DirectoryIdOf) && j < |directories| && k < |directories|
    requires Matrix(RevokeAt(directories, j, t, u), u)[k].directoryId == directories[j].id
    ensures !Matrix(RevokeAt(directories, j, t, u), u)[k].Flag(t)
  {
    var p := directories[j].permissions;
    SamePositionsDistinct(directories, j, RevokeIn(p, t, u));
    MatrixShows(RevokeAt(directories, j, t, u), u, j, k, t);
  }

  /** For a regular user holding nothing on a directory, granting one
      capability opens the gate for exactly that capability and no other. */
  lemma GrantAuthorizesExactlyThat(users: seq<User>, directories: seq<Directory>, j: nat,
                                   t: PermissionType, u: Id, t': PermissionType)
    requires Distinct(users, UserIdOf) && Distinct(directories, DirectoryIdOf) && j < |directories|
    requires StoredUser(users, u) && !StoredAdmin(users, u)
    requires forall t'' :: u !in directories[j].permissions.Members(t'')
    ensures CheckPermission(users, GrantAt(directories, j, t, u), t', u, directories[j].id).Ok? <==> t' == t
  {
    var after := GrantAt(directories, j, t, u);
    SamePositionsDistinct(directories, j, GrantIn(directories[j].permissions, t, u));
    CheckPermissionOk(users, after, t', u, directories[j].id);
    if Granted(after, t', u, directories[j].id) {
      var m :| 0 <= m < |after| && after[m].id == directories[j].id && u in after[m].permissions.Members(t');
      assert m == j;
    }
    if t' == t {
      assert u in after[j].permissions.Members(t);
    }
  }

  // ---- The user list ----

  datatype UsersPage = UsersPage(totalRows: nat, data: seq<User>)

  /** The filter of `get-all-users`: a regular user whose email or username
      matches the search. */
  predicate Listed(u: User, matches: string -> bool)
  {
    u.role == UserRole && (matches(u.email) || matches(u.username))
  }

  function Listable(users: seq<User>, matches: string -> bool): (r: seq<User>)
    ensures forall i :: 0 <= i < |r| ==> r[i] in users && Listed(r[i], matches)
    ensures forall i :: 0 <= i < |users| && Listed(users[i], matches) ==> users[i] in r
  {
    if |users| == 0 then []
    else if Listed(users[0], matches) then [users[0]] + Listable(users[1..], matches)
    else Listable(users[1..], matches)
  }

  /** `find(query).sort({createdAt: -1}).skip((page - 1) * pageSize).limit(pageSize)`
      with the total count; a limit of 0 means no limit. */
  function ListUsers(users: seq<User>, matches: string -> bool, page: nat, pageSize: nat): (r: Result<UsersPage>)
    ensures r.Err? ==> r.error == NegativeSkip
    ensures r.Ok? ==> r.value.totalRows == |Listable(users, matches)|
    ensures r.Ok? && pageSize > 0 ==> |r.value.data| <= pageSize
  {
    var candidates := SortDesc(Listable(users, matches), UserCreatedAt);
    var skip := (page - 1) * pageSize;
    if skip < 0 then Err(NegativeSkip)
    else
      var rest := if skip < |candidates| then candidates[skip..] else [];
      var data := if pageSize == 0 || pageSize >= |rest| then rest else rest[..pageSize];
      Ok(UsersPage(|candidates|, data))
  }

  /** Only a first page below 1 with a non-zero size is refused (its skip
      is negative). */
  lemma ListUsersRefused(users: seq<User>, matches: string -> bool, page: nat, pageSize: nat)
    ensures ListUsers(users, matches, page, pageSize).Err? <==> page == 0 && pageSize > 0
  {
    if page == 0 && pageSize > 0 {
      assert (page - 1) * pageSize < 0;
    }
  }

  /** A page is the run of the newest-first candidate list that starts
      (page - 1) * pageSize into it, at most pageSize long, and its total is
      the number of candidates. */
  lemma ListUsersWindow(users: seq<User>, matches: string -> bool, page: nat, pageSize: nat)
    requires ListUsers(users, matches, page, pageSize).Ok?
    ensures var r := ListUsers(users, matches, page, pageSize).value;
      var candidates := SortDesc(Listable(users, matches), UserCreatedAt);
      && r.totalRows == |candidates|
      && (pageSize > 0 ==> |r.data| <= pageSize)
      && forall k :: 0 <= k < |r.data| ==>
           (page - 1) * pageSize + k < |candidates| && r.data[k] == candidates[(page - 1) * pageSize + k]
  {
  }

  /** Every user on a page is a stored regular user matching the search. */
  lemma ListUsersMembers(users: seq<User>, matches: string -> bool, page: nat, pageSize: nat)
    requires ListUsers(users, matches, page, pageSize).Ok?
    ensures var r := ListUsers(users, matches, page, pageSize).value;
      forall k :: 0 <= k < |r.data| ==> r.data[k] in users && Listed(r.data[k], matches)
  {
    var listed := Listable(users, matches);
    var candidates := SortDesc(listed, UserCreatedAt);
    SortDescMembers(listed, UserCreatedAt);
    ListUsersWindow(users, matches, page, pageSize);
    var data := ListUsers(users, matches, page, pageSize).value.data;
    forall k | 0 <= k < |data|
      ensures data[k] in users && Listed(data[k], matches)
    {
      var c := (page - 1) * pageSize + k;
      assert data[k] == candidates[c];
      var m :| 0 <= m < |listed| && listed[m] == candidates[c];
    }
  }

  /** A page is newest first. */
  lemma ListUsersSorted(users: seq<User>, matches: string -> bool, page: nat, pageSize: nat)
    requires ListUsers(users, matches, page, pageSize).Ok?
    ensures SortedDesc(ListUsers(users, matches, page, pageSize).value.data, UserCreatedAt)
  {
    var listed := Listable(users, matches);
    var candidates := SortDesc(listed, UserCreatedAt);
    SortDescCorrect(listed, UserCreatedAt);
    ListUsersWindow(users, matches, page, pageSize);
    var data := ListUsers(users, matches, page, pageSize).value.data;
    var skip := (page - 1) * pageSize;
    forall a, b | 0 <= a < b < |data|
      ensures UserCreatedAt(data[a]) >= UserCreatedAt(data[b])
    {
      assert data[a] == candidates[skip + a] && data[b] == candidates[skip + b];
    }
  }

  /** The query defaults `page = 1, pageSize = 5, search = ''`. */
  const DefaultPage: nat := 1
  const DefaultPageSize: nat := 5

  /** `new RegExp(search, 'i')` tested against a field, with `search = ''`
      when it is absent; `regexMatches(pattern, s)` is the regex test, and
      the empty pattern matches every string. */
  function SearchFilter(search: Option<string>, regexMatches: (string, string) -> bool): (m: string -> bool)
    ensures search.None? || search == Some("") ==> forall s :: m(s)
  {
    var pattern := if search.Some? then search.value else "";
    if pattern == [] then (s: string) => true else (s: string) => regexMatches(pattern, s)
  }

  /** With no query parameters the route answers the five newest regular
      users, and counts every regular user. */
  lemma DefaultListing(users: seq<User>, regexMatches: (string, string) -> bool)
    ensures var m := SearchFilter(None, regexMatches);
      var candidates := SortDesc(Listable(users, m), UserCreatedAt);
      var r := ListUsers(users, m, DefaultPage, DefaultPageSize);
      && r.Ok?
      && r.value.data == candidates[..if |candidates| < DefaultPageSize then |candidates| else DefaultPageSize]
      && forall i :: 0 <= i < |users| ==> (users[i] in Listable(users, m) <==> users[i].role == UserRole)
  {
    var m := SearchFilter(None, regexMatches);
    forall i | 0 <= i < |users| && users[i].role == UserRole ensures Listed(users[i], m) {
      assert m(users[i].email);
    }
  }

  // ---- Routes ----

  /** What `user-directories` answers about the user (password included). */
  datatype UserSummary = UserSummary(id: Id, username: string, email: string, password: string)

  datatype UserDirectories = UserDirectories(user: UserSummary, directories: seq<Capabilities>)

  /** POST /create-user: trims and lower-cases username and email, then
      stores a regular user with the plain-text password. */
  method CreateUser(db: Db, header: Option<string>, verifyToken: string -> Option<Claims>,
                    username: Option<string>, password: Option<string>, email: Option<string>, now: Time)
    returns (r: Result<string>)
    requires db.Valid()
    modifies db
    ensures db.Valid()
    ensures r.Err? ==> unchanged(db)
    ensures AdminVerify(header, verifyToken, old(db.users)).Err? ==>
      r == Err(AdminVerify(header, verifyToken, old(db.users)).error)
    ensures AdminVerify(header, verifyToken, old(db.users)).Ok? ==>
      && ((username.None? || email.None?) ==> r == Err(ServerError))
      && (username.Some? && email.Some? ==>
            var name, mail := Normalize(username.value), Normalize(email.value);
            && (!(Filled(password) && name != [] && mail != []) ==> r == Err(AllFieldsRequired))
            && (Filled(password) && name != [] && mail != [] && Taken(old(db.users), name, mail) ==>
                  r == Err(AlreadyExists))
            && (Filled(password) && name != [] && mail != [] && !Taken(old(db.users), name, mail) ==>
                  && r == Ok("User Created Successfully")
                  && db.users == old(db.users) + [User(old(db.nextId), name, password.value, mail, UserRole, [], now)]
                  && db.directories == old(db.directories) && db.files == old(db.files) && db.blobs == old(db.blobs)
                  && db.nextId == old(db.nextId) + 1))
  {
    var g := AdminVerify(header, verifyToken, db.users);
    if g.Err? {
      return Err(g.error);
    }
    if username.None? || email.None? {
      // trim() of a missing field throws
      return Err(ServerError);
    }
    var name, mail := Normalize(username.value), Normalize(email.value);
    if !(Filled(password) && name != [] && mail != []) {
      return Err(AllFieldsRequired);
    }
    if Taken(db.users, name, mail) {
      return Err(AlreadyExists);
    }
    var _ := db.InsertUser(name, password.value, mail, UserRole, now);
    r := Ok("User Created Successfully");
  }

  /** GET /get-all-users; an absent query parameter takes its default. */
  method GetAllUsers(db: Db, header: Option<string>, verifyToken: string -> Option<Claims>,
                     page: Option<nat>, pageSize: Option<nat>, search: Option<string>,
                     regexMatches: (string, string) -> bool)
    returns (r: Result<UsersPage>)
    requires db.Valid()
    ensures AdminVerify(header, verifyToken, db.users).Err? ==>
      r == Err(AdminVerify(header, verifyToken, db.users).error)
    ensures AdminVerify(header, verifyToken, db.users).Ok? ==>
      r == ListUsers(db.users, SearchFilter(search, regexMatches),
                     if page.Some? then page.value else DefaultPage,
                     if pageSize.Some? then pageSize.value else DefaultPageSize)
  {
    var g := AdminVerify(header, verifyToken, db.users);
    if g.Err? {
      return Err(g.error);
    }
    var p := if page.Some? then page.value else DefaultPage;
    var size := if pageSize.Some? then pageSize.value else DefaultPageSize;
    r := ListUsers(db.users, SearchFilter(search, regexMatches), p, size);
  }

  /** GET /user-directories/:userId. */
  method GetUserDirectories(db: Db, header: Option<string>, verifyToken: string -> Option<Claims>, userId: Id)
    returns (r: Result<UserDirectories>)
    requires db.Valid()
    ensures AdminVerify(header, verifyToken, db.users).Err? ==>
      r == Err(AdminVerify(header, verifyToken, db.users).error)
    ensures AdminVerify(header, verifyToken, db.users).Ok? ==>
      (r.Ok? <==> StoredUser(db.users, userId)) && (r.Err? ==> r.error == UnknownUser)
    ensures r.Ok? ==>
      && r.value.directories == Matrix(db.directories, userId)
      && exists i :: 0 <= i < |db.users| && db.users[i].id == userId
           && r.value.user == UserSummary(userId, db.users[i].username, db.users[i].email, db.users[i].password)
  {
    var g := AdminVerify(header, verifyToken, db.users);
    if g.Err? {
      return Err(g.error);
    }
    var found := IndexOf(db.users, UserIdOf, userId);
    if found.None? {
      return Err(UnknownUser);
    }
    var u := db.users[found.value];
    r := Ok(UserDirectories(UserSummary(userId, u.username, u.email, u.password), Matrix(db.directories, userId)));
  }

  /** PUT /directory/:directoryId/permissions. */
  method GrantPermission(db: Db, header: Option<string>, verifyToken: string -> Option<Claims>,
                         directoryId: Id, userId: Id, permissionType: Option<string>)
    returns (r: Result<string>)
    requires db.Valid()
    modifies db
    ensures db.Valid()
    ensures r.Err? ==> unchanged(db)
    ensures AdminVerify(header, verifyToken, old(db.users)).Err? ==>
      r == Err(AdminVerify(header, verifyToken, old(db.users)).error)
    ensures AdminVerify(header, verifyToken, old(db.users)).Ok? && ParsePermissionType(permissionType).None? ==>
      r == Err(InvalidPermissionType)
    ensures AdminVerify(header, verifyToken, old(db.users)).Ok? && ParsePermissionType(permissionType).Some? ==>
      (r.Ok? <==> exists j :: 0 <= j < |old(db.directories)| && old(db.directories)[j].id == directoryId)
      && (r.Err? ==> r.error == DirectoryNotFound)
    ensures r.Ok? ==>
      && r.value == "Permission updated successfully"
      && (exists j :: 0 <= j < |old(db.directories)| && old(db.directories)[j].id == directoryId
            && db.directories == GrantAt(old(db.directories), j, ParsePermissionType(permissionType).value, userId))
      && db.users == old(db.users) && db.files == old(db.files) && db.blobs == old(db.blobs)
      && db.nextId == old(db.nextId)
  {
    var g := AdminVerify(header, verifyToken, db.users);
    if g.Err? {
      return Err(g.error);
    }
    var t := ParsePermissionType(permissionType);
    if t.None? {
      return Err(InvalidPermissionType);
    }
    var found := IndexOf(db.directories, DirectoryIdOf, directoryId);
    if found.None? {
      return Err(DirectoryNotFound);
    }
    var j := found.value;
    var p := db.directories[j].permissions;
    if userId !in p.Members(t.value) {
      db.SetPermissions(j, GrantIn(p, t.value, userId));
    } else {
      assert db.directories == GrantAt(db.directories, j, t.value, userId);
    }
    r := Ok("Permission updated successfully");
  }

  /** PUT /directory/:directoryId/permissions/remove. */
  method RevokePermission(db: Db, header: Option<string>, verifyToken: string -> Option<Claims>,
                          directoryId: Id, userId: Id, permissionType: Option<string>)
    returns (r: Result<string>)
    requires db.Valid()
    modifies db
    ensures db.Valid()
    ensures r.Err? ==> unchanged(db)
    ensures AdminVerify(header, verifyToken, old(db.users)).Err? ==>
      r == Err(AdminVerify(header, verifyToken, old(db.users)).error)
    ensures AdminVerify(header, verifyToken, old(db.users)).Ok? && ParsePermissionType(permissionType).None? ==>
      r == Err(InvalidPermissionType)
    ensures AdminVerify(header, verifyToken, old(db.users)).Ok? && ParsePermissionType(permissionType).Some? ==>
      (r.Ok? <==> exists j :: 0 <= j < |old(db.directories)| && old(db.directories)[j].id == directoryId)
      && (r.Err? ==> r.error == DirectoryNotFound)
    ensures r.Ok? ==>
      && r.value == "Permission Removed Successfully"
      && (exists j :: 0 <= j < |old(db.directories)| && old(db.directories)[j].id == directoryId
            && db.directories == RevokeAt(old(db.directories), j, ParsePermissionType(permissionType).value, userId))
      && db.users == old(db.users) && db.files == old(db.files) && db.blobs == old(db.blobs)
      && db.nextId == old(db.nextId)
  {
    var g := AdminVerify(header, verifyToken, db.users);
    if g.Err? {
      return Err(g.error);
    }
    var t := ParsePermissionType(permissionType);
    if t.None? {
      return Err(InvalidPermissionType);
    }
    var found := IndexOf(db.directories, DirectoryIdOf, directoryId);
    if found.None? {
      return Err(DirectoryNotFound);
    }
    var j := found.value;
    db.SetPermissions(j, RevokeIn(db.directories[j].permissions, t.value, userId));
    r := Ok("Permission Removed Successfully");
  }
}
