/** The records of the three collections (users, directories, files) and
    the five per-directory capabilities. */
module Models {
  import opened Common

  /** `role`: 'user' (the default) or 'admin'. */
  datatype Role = UserRole | AdminRole

  /** One `loggedInDevice` entry: its own `_id`, the device string embedded
      in the session's token, and the login time. */
  datatype Device = Device(entryId: Id, deviceID: string, date: Time)

  /** A user record. `password` is a bcrypt hash for admins and the plain
      text for users. */
  datatype User = User(
    id: Id,
    username: string,
    password: string,
    email: string,
    role: Role,
    loggedInDevice: seq<Device>,
    createdAt: Time)

  /** The five capabilities, named as in the request bodies. */
  datatype PermissionType =
    | CanViewFiles | CanAddFiles | CanCommentFiles | CanDeleteFiles | CanDownloadFiles

  /** The per-directory lists of user ids holding each capability. */
  datatype Permissions = Permissions(
    canViewFiles: seq<Id>,
    canAddFiles: seq<Id>,
    canCommentFiles: seq<Id>,
    canDeleteFiles: seq<Id>,
    canDownloadFiles: seq<Id>)
  {
    /** `permissions[t]`. */
    function Members(t: PermissionType): seq<Id>
    {
      match t
      case CanViewFiles => canViewFiles
      case CanAddFiles => canAddFiles
      case CanCommentFiles => canCommentFiles
      case CanDeleteFiles => canDeleteFiles
      case CanDownloadFiles => canDownloadFiles
    }

    /** `permissions[t] = l`: replaces one list and no other. */
    function With(t: PermissionType, l: seq<Id>): (r: Permissions)
      ensures r.Members(t) == l
      ensures forall t' :: t' != t ==> r.Members(t') == Members(t')
    {
      match t
      case CanViewFiles => this.(canViewFiles := l)
      case CanAddFiles => this.(canAddFiles := l)
      case CanCommentFiles => this.(canCommentFiles := l)
      case CanDeleteFiles => this.(canDeleteFiles := l)
      case CanDownloadFiles => this.(canDownloadFiles := l)
    }
  }

  /** The permissions of a new directory: every list empty. */
  const NoPermissions := Permissions([], [], [], [], [])

  datatype Directory = Directory(id: Id, name: string, permissions: Permissions, createdAt: Time)

  /** A comment; `commentedAt` defaults to the time of the request. */
  datatype Comment = Comment(text: string, commentedBy: Id, commentedAt: Time)

  /** Where a blob is stored: `files/<directory>/<fileName>`. */
  datatype BlobPath = BlobPath(directory: Id, fileName: string)

  /** A file record; `size` is the formatted size string. */
  datatype FileRecord = FileRecord(
    id: Id,
    description: string,
    filetype: string,
    size: string,
    filePath: BlobPath,
    directoryId: Id,
    uploadedBy: Id,
    comments: seq<Comment>,
    createdAt: Time,
    updatedAt: Time)

  // The fields the store looks records up by or sorts them on.
  function UserIdOf(u: User): Id { u.id }
  function UsernameOf(u: User): string { u.username }
  function EmailOf(u: User): string { u.email }
  function UserCreatedAt(u: User): Time { u.createdAt }
  function EntryIdOf(d: Device): Id { d.entryId }
  function DirectoryIdOf(d: Directory): Id { d.id }
  function DirectoryNameOf(d: Directory): string { d.name }
  function DirectoryCreatedAt(d: Directory): Time { d.createdAt }
  function FileIdOf(f: FileRecord): Id { f.id }
  function FileDirectoryOf(f: FileRecord): Id { f.directoryId }
  function FileUpdatedAt(f: FileRecord): Time { f.updatedAt }

  /** The name of a capability in request bodies and in the schema. */
  function PermissionName(t: PermissionType): string
  {
    match t
    case CanViewFiles => "canViewFiles"
    case CanAddFiles => "canAddFiles"
    case CanCommentFiles => "canCommentFiles"
    case CanDeleteFiles => "canDeleteFiles"
    case CanDownloadFiles => "canDownloadFiles"
  }

  /** `validPermissionTypes.includes(permissionType)`, returning the capability
      named; a missing field is not one of the names. */
  function ParsePermissionType(s: Option<string>): Option<PermissionType>
  {
    if s == Some("canViewFiles") then Some(CanViewFiles)
    else if s == Some("canAddFiles") then Some(CanAddFiles)
    else if s == Some("canCommentFiles") then Some(CanCommentFiles)
    else if s == Some("canDeleteFiles") then Some(CanDeleteFiles)
    else if s == Some("canDownloadFiles") then Some(CanDownloadFiles)
    else None
  }

  /** Exactly the five names are accepted, each for its own capability. */
  lemma ParsePermissionTypeExact(s: Option<string>, t: PermissionType)
    ensures ParsePermissionType(Some(PermissionName(t))) == Some(t)
    ensures ParsePermissionType(s) == Some(t) <==> s == Some(PermissionName(t))
  {
  }

  /** A list in which every id occurs at most once. */
  ghost predicate NoDuplicates(l: seq<Id>)
  {
    forall i, j :: 0 <= i < j < |l| ==> l[i] != l[j]
  }

  ghost predicate PermissionsNoDuplicates(p: Permissions)
  {
    forall t :: NoDuplicates(p.Members(t))
  }
}
