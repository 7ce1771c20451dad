/** The database the routes share: the users, directories and files
    collections, the blob store on disk, and the ObjectId generator. */
module Store {
  import opened Common
  import opened Models
  import opened Collections

  class Db {
    var users: seq<User>
    var directories: seq<Directory>
    var files: seq<FileRecord>
    /** The paths present under `files/` on disk. */
    var blobs: set<BlobPath>
    /** Every id handed out so far is below this. */
    var nextId: nat

    /** `_id` is unique in every collection and within each user's session
        list, `username` and `email` are unique indexes, directory names are
        kept unique by creation, and every permission list is duplicate-free;
        every id handed out, session entries' included, is below the counter. */
    ghost predicate Valid()
      reads this
    {
      && Distinct(users, UserIdOf)
      && Distinct(users, UsernameOf)
      && Distinct(users, EmailOf)
      && (forall i :: 0 <= i < |users| ==> users[i].id < nextId)
      && (forall i :: 0 <= i < |users| ==> Distinct(users[i].loggedInDevice, EntryIdOf))
      && (forall i, k :: 0 <= i < |users| && 0 <= k < |users[i].loggedInDevice| ==>
            users[i].loggedInDevice[k].entryId < nextId)
      && Distinct(directories, DirectoryIdOf)
      && Distinct(directories, DirectoryNameOf)
      && (forall i :: 0 <= i < |directories| ==> directories[i].id < nextId)
      && (forall i :: 0 <= i < |directories| ==> PermissionsNoDuplicates(directories[i].permissions))
      && Distinct(files, FileIdOf)
      && (forall i :: 0 <= i < |files| ==> files[i].id < nextId)
    }

    constructor ()
      ensures Valid()
      ensures users == [] && directories == [] && files == [] && blobs == {}
    {
      users, directories, files, blobs, nextId := [], [], [], {}, 0;
    }

    /** Hands out a fresh ObjectId. */
    method NewId() returns (id: Id)
      requires Valid()
      modifies this
      ensures Valid()
      ensures id == old(nextId) && nextId == old(nextId) + 1
      ensures forall i, k :: 0 <= i < |users| && 0 <= k < |users[i].loggedInDevice| ==>
        users[i].loggedInDevice[k].entryId != id
      ensures users == old(users) && directories == old(directories) && files == old(files)
      ensures blobs == old(blobs)
    {
      id := nextId;
      nextId := nextId + 1;
    }

    /** Saves a new user document with a fresh id and no sessions. */
    method InsertUser(username: string, password: string, email: string, role: Role, now: Time)
      returns (u: User)
      requires Valid()
      requires forall i :: 0 <= i < |users| ==> users[i].username != username && users[i].email != email
      modifies this
      ensures Valid()
      ensures u == User(old(nextId), username, password, email, role, [], now)
      ensures users == old(users) + [u]
      ensures nextId == old(nextId) + 1
      ensures directories == old(directories) && files == old(files) && blobs == old(blobs)
    {
      u := User(nextId, username, password, email, role, [], now);
      users := users + [u];
      nextId := nextId + 1;
    }

    /** Saves the session list of the i-th user; its entries carry distinct
        ids already handed out. */
    method SetDevices(i: nat, devices: seq<Device>)
      requires Valid() && i < |users|
      requires Distinct(devices, EntryIdOf)
      requires forall k :: 0 <= k < |devices| ==> devices[k].entryId < nextId
      modifies this
      ensures Valid()
      ensures users == old(users)[i := old(users)[i].(loggedInDevice := devices)]
      ensures nextId == old(nextId)
      ensures directories == old(directories) && files == old(files) && blobs == old(blobs)
    {
      users := users[i := users[i].(loggedInDevice := devices)];
    }

    /** Saves a new directory document with a fresh id and empty lists. */
    method InsertDirectory(name: string, now: Time) returns (d: Directory)
      requires Valid()
      requires forall i :: 0 <= i < |directories| ==> directories[i].name != name
      modifies this
      ensures Valid()
      ensures d == Directory(old(nextId), name, NoPermissions, now)
      ensures directories == old(directories) + [d]
      ensures nextId == old(nextId) + 1
      ensures users == old(users) && files == old(files) && blobs == old(blobs)
    {
      d := Directory(nextId, name, NoPermissions, now);
      directories := directories + [d];
      nextId := nextId + 1;
    }

    /** Saves the permission lists of the i-th directory. */
    method SetPermissions(i: nat, p: Permissions)
      requires Valid() && i < |directories|
      requires PermissionsNoDuplicates(p)
      modifies this
      ensures Valid()
      ensures directories == old(directories)[i := old(directories)[i].(permissions := p)]
      ensures nextId == old(nextId)
      ensures users == old(users) && files == old(files) && blobs == old(blobs)
    {
      directories := directories[i := directories[i].(permissions := p)];
    }

    /** `FileModel.deleteMany({directoryId: id})` followed by
        `DirectoryModel.findByIdAndDelete(id)`. */
    method DeleteDirectoryCascade(id: Id)
      requires Valid()
      modifies this
      ensures Valid()
      ensures files == RemoveKey(old(files), FileDirectoryOf, id)
      ensures directories == RemoveKey(old(directories), DirectoryIdOf, id)
      ensures nextId == old(nextId)
      ensures users == old(users) && blobs == old(blobs)
    {
      RemoveKeyDistinct(files, FileDirectoryOf, id, FileIdOf);
      RemoveKeyDistinct(directories, DirectoryIdOf, id, DirectoryIdOf);
      RemoveKeyDistinct(directories, DirectoryIdOf, id, DirectoryNameOf);
      files := RemoveKey(files, FileDirectoryOf, id);
      directories := RemoveKey(directories, DirectoryIdOf, id);
    }

    /** Saves a new file document with a fresh id and no comments. */
    method InsertFile(description: string, filetype: string, size: string, filePath: BlobPath,
                      directoryId: Id, uploadedBy: Id, now: Time)
      returns (f: FileRecord)
      requires Valid()
      modifies this
      ensures Valid()
      ensures f == FileRecord(old(nextId), description, filetype, size, filePath,
                              directoryId, uploadedBy, [], now, now)
      ensures files == old(files) + [f]
      ensures nextId == old(nextId) + 1
      ensures users == old(users) && directories == old(directories) && blobs == old(blobs)
    {
      f := FileRecord(nextId, description, filetype, size, filePath, directoryId, uploadedBy, [], now, now);
      files := files + [f];
      nextId := nextId + 1;
    }

    /** Saves the comments of the i-th file; `updatedAt` moves to now. */
    method SetComments(i: nat, comments: seq<Comment>, now: Time)
      requires Valid() && i < |files|
      modifies this
      ensures Valid()
      ensures files == old(files)[i := old(files)[i].(comments := comments, updatedAt := now)]
      ensures nextId == old(nextId)
      ensures users == old(users) && directories == old(directories) && blobs == old(blobs)
    {
      files := files[i := files[i].(comments := comments, updatedAt := now)];
    }

    /** `FileModel.findByIdAndDelete(id)`. */
    method DeleteFile(id: Id)
      requires Valid()
      modifies this
      ensures Valid()
      ensures files == RemoveKey(old(files), FileIdOf, id)
      ensures nextId == old(nextId)
      ensures users == old(users) && directories == old(directories) && blobs == old(blobs)
    {
      RemoveKeyDistinct(files, FileIdOf, id, FileIdOf);
      files := RemoveKey(files, FileIdOf, id);
    }

    /** Writes (or overwrites) a blob. */
    method PutBlob(p: BlobPath)
      requires Valid()
      modifies this
      ensures Valid()
      ensures blobs == old(blobs) + {p}
      ensures users == old(users) && directories == old(directories) && files == old(files)
      ensures nextId == old(nextId)
    {
      blobs := blobs + {p};
    }

    /** Removes blobs from disk. */
    method RemoveBlobs(gone: set<BlobPath>)
      requires Valid()
      modifies this
      ensures Valid()
      ensures blobs == old(blobs) - gone
      ensures users == old(users) && directories == old(directories) && files == old(files)
      ensures nextId == old(nextId)
    {
      blobs := blobs - gone;
    }
  }
}
