/** The directory and file routes: directory creation, listing and cascade
    deletion behind `adminVerify`/`verify`, and the file operations, each
    behind `verify` and `checkPermission` for its capability on the path
    `directoryId` and `userId`. */
module DirectoryRoutes {
  import opened Common
  import opened Models
  import opened Collections
  import opened AuthMiddleware
  import opened AdminRoutes
  import opened Store
  import opened FileSize

  const NameRequired := HttpError(400, "Directory name is required", false)
  const NameTaken := HttpError(400, "Directory with this name already exist", false)
  const NoFileUploaded := HttpError(400, "No file uploaded", false)
  /** A record that fails schema validation (a required field missing or empty). */
  const UploadFailed := HttpError(500, "Error uploading file", false)
  const FileNotFound := HttpError(404, "File not found", false)
  const CommentFieldsRequired := HttpError(400, "Text and commentedBy are required", false)
  const BlobMissing := HttpError(404, "File not found on server", false)
  const DeleteFileFailed := HttpError(500, "Error deleting file", false)

  // ---- Directory listing ----

  /** `find({'permissions.canViewFiles': userId})`, in store order. */
  function ViewableBy(directories: seq<Directory>, u: Id): (r: seq<Directory>)
    ensures forall i :: 0 <= i < |r| ==> r[i] in directories && u in r[i].permissions.canViewFiles
    ensures forall i :: 0 <= i < |directories| && u in directories[i].permissions.canViewFiles ==>
      directories[i] in r
  {
    if |directories| == 0 then []
    else if u in directories[0].permissions.canViewFiles then [directories[0]] + ViewableBy(directories[1..], u)
    else ViewableBy(directories[1..], u)
  }

  /** GET /get after `verify`: the requester's own directories. */
  function VisibleDirectories(users: seq<User>, directories: seq<Directory>, userId: Id): (r: Result<seq<Directory>>)
    ensures r.Err? ==> r.error == UnknownUser
    ensures r.Ok? ==> forall k :: 0 <= k < |r.value| ==> r.value[k] in directories
  {
    match IndexOf(users, UserIdOf, userId)
    case None => Err(UnknownUser)
    case Some(i) =>
      if users[i].role == AdminRole then Ok(directories) else Ok(ViewableBy(directories, userId))
  }

  /** An unknown requester gets 404; an admin sees every directory; anyone
      else sees exactly the directories whose view list holds them. */
  lemma VisibleDirectoriesSpec(users: seq<User>, directories: seq<Directory>, userId: Id)
    requires Distinct(users, UserIdOf)
    ensures VisibleDirectories(users, directories, userId).Ok? <==> StoredUser(users, userId)
    ensures VisibleDirectories(users, directories, userId).Err? ==>
      VisibleDirectories(users, directories, userId).error == UnknownUser
    ensures StoredAdmin(users, userId) ==> VisibleDirectories(users, directories, userId) == Ok(directories)
    ensures StoredUser(users, userId) && !StoredAdmin(users, userId) ==>
      var r := VisibleDirectories(users, directories, userId).value;
      && (forall k :: 0 <= k < |r| ==> r[k] in directories)
      && forall j :: 0 <= j < |directories| ==>
           (directories[j] in r <==> userId in directories[j].permissions.canViewFiles)
  {
    if i :| 0 <= i < |users| && users[i].id == userId {
      IndexOfDistinct(users, UserIdOf, i);
      var r := ViewableBy(directories, userId);
      forall j | 0 <= j < |directories| && directories[j] in r
        ensures userId in directories[j].permissions.canViewFiles
      {
        var k :| 0 <= k < |r| && r[k] == directories[j];
      }
    }
  }

  /** For a regular user, the listing agrees with the view gate: a directory
      is listed exactly when `checkPermission("canViewFiles")` would let the
      user into it. */
  lemma ListingAgreesWithGate(users: seq<User>, directories: seq<Directory>, userId: Id, j: nat)
    requires Distinct(users, UserIdOf) && Distinct(directories, DirectoryIdOf)
    requires StoredUser(users, userId) && !StoredAdmin(users, userId) && j < |directories|
    ensures directories[j] in VisibleDirectories(users, directories, userId).value <==>
      CheckPermission(users, directories, CanViewFiles, userId, directories[j].id).Ok?
  {
    VisibleDirectoriesSpec(users, directories, userId);
    CheckPermissionOk(users, directories, CanViewFiles, userId, directories[j].id);
    if Granted(directories, CanViewFiles, userId, directories[j].id) {
      var m :| 0 <= m < |directories| && directories[m].id == directories[j].id
        && userId in directories[m].permissions.Members(CanViewFiles);
      assert m == j;
    }
  }

  // ---- File listing ----

  /** `find({directoryId}).sort({updatedAt: -1})`. */
  function FilesIn(files: seq<FileRecord>, directoryId: Id): (r: seq<FileRecord>)
    ensures |r| == |Select(files, FileDirectoryOf, directoryId)|
  {
    SortDesc(Select(files, FileDirectoryOf, directoryId), FileUpdatedAt)
  }

  /** The listing holds exactly the directory's files, each once as often as
      stored, most recently updated first. */
  lemma FilesInSpec(files: seq<FileRecord>, directoryId: Id)
    ensures SortedDesc(FilesIn(files, directoryId), FileUpdatedAt)
    ensures multiset(FilesIn(files, directoryId)) == multiset(Select(files, FileDirectoryOf, directoryId))
    ensures forall k :: 0 <= k < |FilesIn(files, directoryId)| ==>
      FilesIn(files, directoryId)[k] in files && FilesIn(files, directoryId)[k].directoryId == directoryId
    ensures forall i :: 0 <= i < |files| && files[i].directoryId == directoryId ==>
      files[i] in FilesIn(files, directoryId)
  {
    var selected := Select(files, FileDirectoryOf, directoryId);
    SortDescCorrect(selected, FileUpdatedAt);
    SortDescMembers(selected, FileUpdatedAt);
    var r := FilesIn(files, directoryId);
    forall k | 0 <= k < |r| ensures r[k] in files && r[k].directoryId == directoryId {
      var m :| 0 <= m < |selected| && selected[m] == r[k];
    }
    forall i | 0 <= i < |files| && files[i].directoryId == directoryId ensures files[i] in r {
      var m :| 0 <= m < |selected| && selected[m] == files[i];
    }
  }

  datatype FileListing = FileListing(directory: Directory, files: seq<FileRecord>)

  // ---- File detail ----

  /** A populated user reference (`username email role` and the id). */
  datatype UserRef = UserRef(id: Id, username: string, email: string, role: Role)
  /** A populated directory reference (`name` and the id). */
  datatype DirectoryRef = DirectoryRef(id: Id, name: string)
  datatype CommentView = CommentView(text: string, commentedBy: Option<UserRef>, commentedAt: Time)

  /** The populated file document; a reference whose target is gone
      populates to null. */
  datatype FileDetail = FileDetail(
    id: Id,
    description: string,
    filetype: string,
    size: string,
    filePath: BlobPath,
    directory: Option<DirectoryRef>,
    uploadedBy: Option<UserRef>,
    comments: seq<CommentView>,
    createdAt: Time,
    updatedAt: Time)

  /** `populate(field, 'username email role')`: the stored user's fields,
      or null when no user has that id. */
  function UserRefOf(users: seq<User>, id: Id): (r: Option<UserRef>)
    ensures r.Some? <==> exists i :: 0 <= i < |users| && users[i].id == id
    ensures r.Some? ==>
      exists i :: 0 <= i < |users| && users[i].id == id
        && r.value == UserRef(id, users[i].username, users[i].email, users[i].role)
  {
    match IndexOf(users, UserIdOf, id)
    case None => None
    case Some(i) => Some(UserRef(id, users[i].username, users[i].email, users[i].role))
  }

  /** `populate('directoryId', 'name')`: the stored directory's name, or null
      when no directory has that id. */
  function DirectoryRefOf(directories: seq<Directory>, id: Id): (r: Option<DirectoryRef>)
    ensures r.Some? <==> exists j :: 0 <= j < |directories| && directories[j].id == id
    ensures r.Some? ==>
      exists j :: 0 <= j < |directories| && directories[j].id == id
        && r.value == DirectoryRef(id, directories[j].name)
  {
    match IndexOf(directories, DirectoryIdOf, id)
    case None => None
    case Some(j) => Some(DirectoryRef(id, directories[j].name))
  }

  /** The three `populate` calls of the detail route. */
  function Populate(users: seq<User>, directories: seq<Directory>, f: FileRecord): (r: FileDetail)
    ensures r.id == f.id && r.description == f.description && r.filetype == f.filetype
    ensures r.size == f.size && r.filePath == f.filePath
    ensures r.createdAt == f.createdAt && r.updatedAt == f.updatedAt
    ensures r.directory == DirectoryRefOf(directories, f.directoryId)
    ensures r.uploadedBy == UserRefOf(users, f.uploadedBy)
    ensures |r.comments| == |f.comments|
    ensures forall k :: 0 <= k < |f.comments| ==>
      && r.comments[k].text == f.comments[k].text
      && r.comments[k].commentedAt == f.comments[k].commentedAt
      && r.comments[k].commentedBy == UserRefOf(users, f.comments[k].commentedBy)
  {
    FileDetail(f.id, f.description, f.filetype, f.size, f.filePath,
               DirectoryRefOf(directories, f.directoryId), UserRefOf(users, f.uploadedBy),
               seq(|f.comments|, k requires 0 <= k < |f.comments| =>
                 CommentView(f.comments[k].text, UserRefOf(users, f.comments[k].commentedBy), f.comments[k].commentedAt)),
               f.createdAt, f.updatedAt)
  }

  // ---- Reaching a file through the gate ----

  /** A regular user with one live session, holding only the delete capability
      on directory 2, and a file stored in directory 3. */
  const ExampleUsers := [User(0, "u", "p", "e", UserRole, [Device(1, "d", 0)], 0)]
  const ExampleDirectories := [Directory(2, "a", NoPermissions.With(CanDeleteFiles, [0]), 0),
                               Directory(3, "b", NoPermissions, 0)]
  const ExampleFiles := [FileRecord(4, "x", "text/plain", "1 bytes", BlobPath(3, "f"), 3, 0, [], 0, 0)]

  /** The token verifier of the example: every token names the user's session. */
  function ExampleToken(token: string): Option<Claims>
  {
    Some(Claims("d", 0, UserRole))
  }

  lemma ExampleSessionLive()
    ensures Verify(Some("Bearer t"), ExampleToken, ExampleUsers) == Ok(Claims("d", 0, UserRole))
  {
    TokenOfBearer("Bearer", "t", "");
    assert "Bearer" + " " + "t" + "" == "Bearer t";
    assert ExampleUsers[0].loggedInDevice[0].deviceID == "d";
    assert HasDevice(ExampleUsers[0].loggedInDevice, "d");
  }

  /** The file routes gate on the path `directoryId` but then find the file by
      `fileId` alone: a user holding a capability on one directory reaches a
      file stored in another directory on which they hold nothing. */
  lemma GateDoesNotCoverFile()
    ensures Gate(Some("Bearer t"), ExampleToken, ExampleUsers, ExampleDirectories, CanDeleteFiles, 0, 2).Ok?
    ensures CheckPermission(ExampleUsers, ExampleDirectories, CanDeleteFiles, 0, 3) == Err(GateAccessDenied)
    ensures IndexOf(ExampleFiles, FileIdOf, 4) == Some(0) && ExampleFiles[0].directoryId == 3
  {
    ExampleSessionLive();
    assert IndexOf(ExampleUsers, UserIdOf, 0) == Some(0);
    assert ExampleDirectories[0].permissions.Members(CanDeleteFiles) == [0];
    assert ExampleDirectories[1].permissions.Members(CanDeleteFiles) == [];
    assert IndexOf(ExampleDirectories, DirectoryIdOf, 2) == Some(0);
    assert IndexOf(ExampleDirectories, DirectoryIdOf, 3) == Some(1);
  }

  // ---- Routes ----

  /** POST /create: a new directory with every permission list empty. */
  method CreateDirectory(db: Db, header: Option<string>, verifyToken: string -> Option<Claims>,
                         name: Option<string>, now: Time)
    returns (r: Result<string>)
    requires db.Valid()
    modifies db
    ensures db.Valid()
    ensures r.Err? ==> unchanged(db)
    ensures AdminVerify(header, verifyToken, old(db.users)).Err? ==>
      r == Err(AdminVerify(header, verifyToken, old(db.users)).error)
    ensures AdminVerify(header, verifyToken, old(db.users)).Ok? ==>
      && (!Filled(name) ==> r == Err(NameRequired))
      && (Filled(name) ==>
            && (r == Err(NameTaken) <==> exists j :: 0 <= j < |old(db.directories)| && old(db.directories)[j].name == name.value)
            && (r.Ok? <==> r != Err(NameTaken)))
    ensures r.Ok? ==>
      && r.value == "Directory Created Succesfully"
      && db.directories == old(db.directories) + [Directory(old(db.nextId), name.value, NoPermissions, now)]
      && db.users == old(db.users) && db.files == old(db.files) && db.blobs == old(db.blobs)
      && db.nextId == old(db.nextId) + 1
  {
    var g := AdminVerify(header, verifyToken, db.users);
    if g.Err? {
      return Err(g.error);
    }
    if !Filled(name) {
      return Err(NameRequired);
    }
    var existing := IndexOf(db.directories, DirectoryNameOf, name.value);
    if existing.Some? {
      return Err(NameTaken);
    }
    var _ := db.InsertDirectory(name.value, now);
    r := Ok("Directory Created Succesfully");
  }

  /** GET /get. */
  method GetDirectories(db: Db, header: Option<string>, verifyToken: string -> Option<Claims>)
    returns (r: Result<seq<Directory>>)
    requires db.Valid()
    ensures Verify(header, verifyToken, db.users).Err? ==> r == Err(Verify(header, verifyToken, db.users).error)
    ensures Verify(header, verifyToken, db.users).Ok? ==>
      r == VisibleDirectories(db.users, db.directories, Verify(header, verifyToken, db.users).value.id)
  {
    var v := Verify(header, verifyToken, db.users);
    if v.Err? {
      return Err(v.error);
    }
    r := VisibleDirectories(db.users, db.directories, v.value.id);
  }

  /** DELETE /:id: the directory's files, then the directory, then (if the
      recursive removal on disk succeeds) its folder; the answer is success
      either way. */
  method DeleteDirectory(db: Db, header: Option<string>, verifyToken: string -> Option<Claims>,
                         id: Id, removalSucceeds: bool)
    returns (r: Result<string>)
    requires db.Valid()
    modifies db
    ensures db.Valid()
    ensures r.Err? ==> unchanged(db)
    ensures AdminVerify(header, verifyToken, old(db.users)).Err? ==>
      r == Err(AdminVerify(header, verifyToken, old(db.users)).error)
    ensures AdminVerify(header, verifyToken, old(db.users)).Ok? ==>
      (r.Ok? <==> exists j :: 0 <= j < |old(db.directories)| && old(db.directories)[j].id == id)
      && (r.Err? ==> r.error == DirectoryNotFound)
    ensures r.Ok? ==>
      && r.value == "Directory deleted successfully"
      && db.files == RemoveKey(old(db.files), FileDirectoryOf, id)
      && db.directories == RemoveKey(old(db.directories), DirectoryIdOf, id)
      && db.users == old(db.users) && db.nextId == old(db.nextId)
      && db.blobs == (if removalSucceeds then set p | p in old(db.blobs) && p.directory != id else old(db.blobs))
  {
    var g := AdminVerify(header, verifyToken, db.users);
    if g.Err? {
      return Err(g.error);
    }
    var found := IndexOf(db.directories, DirectoryIdOf, id);
    if found.None? {
      return Err(DirectoryNotFound);
    }
    db.DeleteDirectoryCascade(id);
    if removalSucceeds {
      db.RemoveBlobs(set p | p in db.blobs && p.directory == id);
    }
    r := Ok("Directory deleted successfully");
  }

  /** After a directory is deleted no file refers to it, every other file
      stays, and the files that went are exactly the directory's. */
  lemma CascadeLeavesNoOrphans(files: seq<FileRecord>, id: Id)
    ensures forall k :: 0 <= k < |RemoveKey(files, FileDirectoryOf, id)| ==>
      RemoveKey(files, FileDirectoryOf, id)[k].directoryId != id
    ensures forall i :: 0 <= i < |files| && files[i].directoryId != id ==> files[i] in RemoveKey(files, FileDirectoryOf, id)
    ensures multiset(RemoveKey(files, FileDirectoryOf, id)) == multiset(files) - multiset(Select(files, FileDirectoryOf, id))
  {
    SelectRemovePartition(files, FileDirectoryOf, id);
  }

  /** The uploaded part as multer hands it over. */
  datatype Upload = Upload(size: nat, mimetype: string)

  /** POST /upload/:directoryId/:userId: the gate checks the path directory;
      multer has already written the blob under the body directory by the
      time the handler runs; the record is stored under the body directory. */
  method UploadFile(db: Db, header: Option<string>, verifyToken: string -> Option<Claims>,
                    pathDirectoryId: Id, pathUserId: Id, file: Option<Upload>,
                    bodyDirectoryId: Id, fileName: string, uploadedBy: Option<Id>,
                    description: Option<string>, now: Time)
    returns (r: Result<string>)
    requires db.Valid()
    modifies db
    ensures db.Valid()
    ensures var g := Gate(header, verifyToken, old(db.users), old(db.directories), CanAddFiles, pathUserId, pathDirectoryId);
      && (g.Err? ==> r == Err(g.error) && unchanged(db))
      && (g.Ok? ==> db.blobs == old(db.blobs) + (if file.Some? then {BlobPath(bodyDirectoryId, fileName)} else {}))
    ensures Gate(header, verifyToken, old(db.users), old(db.directories), CanAddFiles, pathUserId, pathDirectoryId).Ok? ==>
      && (file.None? ==> r == Err(NoFileUploaded))
      && (file.Some? && (forall j :: 0 <= j < |old(db.directories)| ==> old(db.directories)[j].id != bodyDirectoryId) ==>
            r == Err(DirectoryNotFound))
      && (file.Some? && (exists j :: 0 <= j < |old(db.directories)| && old(db.directories)[j].id == bodyDirectoryId) ==>
            (r.Err? <==> !Filled(description) || file.value.mimetype == [] || uploadedBy.None?)
            && (r.Err? ==> r.error == UploadFailed))
    ensures r.Err? ==>
      db.users == old(db.users) && db.directories == old(db.directories) && db.files == old(db.files)
      && db.nextId == old(db.nextId)
    ensures r.Ok? ==>
      && r.value == "File Uploaded Successfully"
      && db.files == old(db.files) + [FileRecord(old(db.nextId), description.value, file.value.mimetype,
                                                GetFileSize(file.value.size), BlobPath(bodyDirectoryId, fileName),
                                                bodyDirectoryId, uploadedBy.value, [], now, now)]
      && db.users == old(db.users) && db.directories == old(db.directories)
      && db.nextId == old(db.nextId) + 1
  {
    var g := Gate(header, verifyToken, db.users, db.directories, CanAddFiles, pathUserId, pathDirectoryId);
    if g.Err? {
      return Err(g.error);
    }
    if file.None? {
      return Err(NoFileUploaded);
    }
    db.PutBlob(BlobPath(bodyDirectoryId, fileName));
    var found := IndexOf(db.directories, DirectoryIdOf, bodyDirectoryId);
    if found.None? {
      return Err(DirectoryNotFound);
    }
    if !Filled(description) || file.value.mimetype == [] || uploadedBy.None? {
      return Err(UploadFailed);
    }
    var _ := db.InsertFile(description.value, file.value.mimetype, GetFileSize(file.value.size),
                           BlobPath(bodyDirectoryId, fileName), bodyDirectoryId, uploadedBy.value, now);
    r := Ok("File Uploaded Successfully");
  }

  /** GET /files/:directoryId/:userId. */
  method ListFiles(db: Db, header: Option<string>, verifyToken: string -> Option<Claims>,
                   directoryId: Id, userId: Id)
    returns (r: Result<FileListing>)
    requires db.Valid()
    ensures var g := Gate(header, verifyToken, db.users, db.directories, CanViewFiles, userId, directoryId);
      g.Err? ==> r == Err(g.error)
    ensures Gate(header, verifyToken, db.users, db.directories, CanViewFiles, userId, directoryId).Ok? ==>
      (r.Ok? <==> exists j :: 0 <= j < |db.directories| && db.directories[j].id == directoryId)
      && (r.Err? ==> r.error == DirectoryNotFound)
    ensures r.Ok? ==>
      && r.value.directory in db.directories && r.value.directory.id == directoryId
      && r.value.files == FilesIn(db.files, directoryId)
  {
    var g := Gate(header, verifyToken, db.users, db.directories, CanViewFiles, userId, directoryId);
    if g.Err? {
      return Err(g.error);
    }
    var found := IndexOf(db.directories, DirectoryIdOf, directoryId);
    if found.None? {
      return Err(DirectoryNotFound);
    }
    r := Ok(FileListing(db.directories[found.value], FilesIn(db.files, directoryId)));
  }

  /** GET /file/:fileId/:directoryId/:userId. */
  method GetFile(db: Db, header: Option<string>, verifyToken: string -> Option<Claims>,
                 fileId: Id, directoryId: Id, userId: Id)
    returns (r: Result<FileDetail>)
    requires db.Valid()
    ensures var g := Gate(header, verifyToken, db.users, db.directories, CanViewFiles, userId, directoryId);
      g.Err? ==> r == Err(g.error)
    ensures Gate(header, verifyToken, db.users, db.directories, CanViewFiles, userId, directoryId).Ok? ==>
      (r.Ok? <==> exists i :: 0 <= i < |db.files| && db.files[i].id == fileId)
      && (r.Err? ==> r.error == FileNotFound)
    ensures r.Ok? ==>
      exists i :: 0 <= i < |db.files| && db.files[i].id == fileId
        && r.value == Populate(db.users, db.directories, db.files[i])
  {
    var g := Gate(header, verifyToken, db.users, db.directories, CanViewFiles, userId, directoryId);
    if g.Err? {
      return Err(g.error);
    }
    var found := IndexOf(db.files, FileIdOf, fileId);
    if found.None? {
      return Err(FileNotFound);
    }
    r := Ok(Populate(db.users, db.directories, db.files[found.value]));
  }

  /** `file.comments.unshift(c)` and the save that bumps `updatedAt`. */
  function PrependComment(f: FileRecord, c: Comment, now: Time): (r: FileRecord)
    ensures |r.comments| == |f.comments| + 1 && r.comments[0] == c && r.comments[1..] == f.comments
    ensures r.(comments := f.comments, updatedAt := f.updatedAt) == f && r.updatedAt == now
  {
    f.(comments := [c] + f.comments, updatedAt := now)
  }

  /** POST /comment/:fileId/:directoryId/:userId: the new comment goes in
      front of the existing ones. */
  method AddComment(db: Db, header: Option<string>, verifyToken: string -> Option<Claims>,
                    fileId: Id, directoryId: Id, userId: Id,
                    text: Option<string>, commentedBy: Option<Id>, now: Time)
    returns (r: Result<string>)
    requires db.Valid()
    modifies db
    ensures db.Valid()
    ensures r.Err? ==> unchanged(db)
    ensures var g := Gate(header, verifyToken, old(db.users), old(db.directories), CanCommentFiles, userId, directoryId);
      g.Err? ==> r == Err(g.error)
    ensures Gate(header, verifyToken, old(db.users), old(db.directories), CanCommentFiles, userId, directoryId).Ok? ==>
      && (!(Filled(text) && commentedBy.Some?) ==> r == Err(CommentFieldsRequired))
      && (Filled(text) && commentedBy.Some? && (forall i :: 0 <= i < |old(db.files)| ==> old(db.files)[i].id != fileId) ==>
            r == Err(FileNotFound))
      && (Filled(text) && commentedBy.Some? && (exists i :: 0 <= i < |old(db.files)| && old(db.files)[i].id == fileId) ==>
            (r.Ok? <==> StoredUser(old(db.users), commentedBy.value)) && (r.Err? ==> r.error == UnknownUser))
    ensures r.Ok? ==>
      && r.value == "Comment added successfully"
      && (exists i :: 0 <= i < |old(db.files)| && old(db.files)[i].id == fileId
            && db.files == old(db.files)[i := PrependComment(old(db.files)[i], Comment(text.value, commentedBy.value, now), now)])
      && db.users == old(db.users) && db.directories == old(db.directories) && db.blobs == old(db.blobs)
      && db.nextId == old(db.nextId)
  {
    var g := Gate(header, verifyToken, db.users, db.directories, CanCommentFiles, userId, directoryId);
    if g.Err? {
      return Err(g.error);
    }
    if !(Filled(text) && commentedBy.Some?) {
      return Err(CommentFieldsRequired);
    }
    var found := IndexOf(db.files, FileIdOf, fileId);
    if found.None? {
      return Err(FileNotFound);
    }
    var commenter := IndexOf(db.users, UserIdOf, commentedBy.value);
    if commenter.None? {
      return Err(UnknownUser);
    }
    var i := found.value;
    db.SetComments(i, [Comment(text.value, commentedBy.value, now)] + db.files[i].comments, now);
    r := Ok("Comment added successfully");
  }

  /** After two comments on a file, the detail the file route answers lists
      the later comment first, then the earlier one, then the comments the
      file had before, each populated as before; its update time is that of
      the later comment. */
  lemma CommentsNewestFirst(users: seq<User>, directories: seq<Directory>, f: FileRecord,
                            first: Comment, t1: Time, second: Comment, t2: Time)
    ensures var before := Populate(users, directories, f);
      var after := Populate(users, directories, PrependComment(PrependComment(f, first, t1), second, t2));
      && |after.comments| == |before.comments| + 2
      && after.comments[0].text == second.text && after.comments[0].commentedAt == second.commentedAt
      && after.comments[0].commentedBy == UserRefOf(users, second.commentedBy)
      && after.comments[1].text == first.text && after.comments[1].commentedAt == first.commentedAt
      && after.comments[1].commentedBy == UserRefOf(users, first.commentedBy)
      && after.comments[2..] == before.comments
      && after.updatedAt == t2 && after.createdAt == before.createdAt
  {
    var g := PrependComment(PrependComment(f, first, t1), second, t2);
    var before := Populate(users, directories, f);
    var after := Populate(users, directories, g);
    assert g.comments[2..] == f.comments;
    forall k | 0 <= k < |before.comments| ensures after.comments[k + 2] == before.comments[k] {
      assert g.comments[k + 2] == f.comments[k];
    }
  }

  /** What the download route streams: the blob and the name it is sent as. */
  datatype Download = Download(path: BlobPath, fileName: string)

  /** GET /download/:fileId/:directoryId/:userId. */
  method DownloadFile(db: Db, header: Option<string>, verifyToken: string -> Option<Claims>,
                      fileId: Id, directoryId: Id, userId: Id)
    returns (r: Result<Download>)
    requires db.Valid()
    ensures var g := Gate(header, verifyToken, db.users, db.directories, CanDownloadFiles, userId, directoryId);
      g.Err? ==> r == Err(g.error)
    ensures Gate(header, verifyToken, db.users, db.directories, CanDownloadFiles, userId, directoryId).Ok? ==>
      match IndexOf(db.files, FileIdOf, fileId)
      case None => r == Err(FileNotFound)
      case Some(i) =>
        if db.files[i].filePath in db.blobs
        then r == Ok(Download(db.files[i].filePath, db.files[i].filePath.fileName))
        else r == Err(BlobMissing)
  {
    var g := Gate(header, verifyToken, db.users, db.directories, CanDownloadFiles, userId, directoryId);
    if g.Err? {
      return Err(g.error);
    }
    var found := IndexOf(db.files, FileIdOf, fileId);
    if found.None? {
      return Err(FileNotFound);
    }
    var path := db.files[found.value].filePath;
    if path !in db.blobs {
      return Err(BlobMissing);
    }
    r := Ok(Download(path, path.fileName));
  }

  /** DELETE /file/:fileId/:directoryId/:userId: the blob goes first; if it
      cannot be removed the record stays. */
  method DeleteFile(db: Db, header: Option<string>, verifyToken: string -> Option<Claims>,
                    fileId: Id, directoryId: Id, userId: Id)
    returns (r: Result<string>)
    requires db.Valid()
    modifies db
    ensures db.Valid()
    ensures r.Err? ==> unchanged(db)
    ensures var g := Gate(header, verifyToken, old(db.users), old(db.directories), CanDeleteFiles, userId, directoryId);
      g.Err? ==> r == Err(g.error)
    ensures Gate(header, verifyToken, old(db.users), old(db.directories), CanDeleteFiles, userId, directoryId).Ok? ==>
      match IndexOf(old(db.files), FileIdOf, fileId)
      case None => r == Err(FileNotFound)
      case Some(i) =>
        if old(db.files)[i].filePath in old(db.blobs)
        then && r == Ok("File deleted successfully")
             && db.blobs == old(db.blobs) - {old(db.files)[i].filePath}
             && db.files == RemoveKey(old(db.files), FileIdOf, fileId)
             && db.users == old(db.users) && db.directories == old(db.directories)
             && db.nextId == old(db.nextId)
        else r == Err(DeleteFileFailed)
  {
    var g := Gate(header, verifyToken, db.users, db.directories, CanDeleteFiles, userId, directoryId);
    if g.Err? {
      return Err(g.error);
    }
    var found := IndexOf(db.files, FileIdOf, fileId);
    if found.None? {
      return Err(FileNotFound);
    }
    var path := db.files[found.value].filePath;
    if path !in db.blobs {
      return Err(DeleteFileFailed);
    }
    db.RemoveBlobs({path});
    db.DeleteFile(fileId);
    r := Ok("File deleted successfully");
  }
}
