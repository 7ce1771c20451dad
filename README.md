# File-management server: authorization and session model

A Dafny model of the request handling of a small Express/Mongoose file-management server.
Administrators create users and directories. They grant users per-directory capabilities: view, add, comment, delete and download files. Users log in and work with files in the directories they may reach.

The model covers:

- **Session guards.** `verify` and `adminVerify` are pure functions of the `Authorization` header, the token verifier and the stored users. A token stays valid only while its device string is still one of its user's session entries.
- **The capability gate.** `checkPermission` lets admins through unconditionally. Anyone else must be a member of one of five per-directory id lists.
- **Login and session removal.** Login checks the password with bcrypt for admins and by plain equality for users. It appends one session entry and signs claims naming it. Session removal pulls one entry by its id.
- **User and permission routes.** These are user creation (normalised, unique username and email), the paged user list, the per-user permission matrix, and granting and revoking a capability.
- **Directory and file routes.**
  - Directories: name-unique creation, role-filtered listing, and cascade deletion.
  - Files: upload, listing newest-updated first, populated detail, comment prepend, download, and delete (blob first, then record).
- **The size formatter `getFileSize`.** It is modelled exactly in integer hundredths, since `n / 2^k` is exact in binary64 for every realistic size and `toFixed(2)` then rounds to the nearest hundredth.

The database is the class `Store.Db`. Its sequence fields stand for the three collections, a set of paths stands for the files on disk, and an id counter stands for ObjectId generation. `Db.Valid()` is the invariant every route keeps:
- ids are unique in each collection, and session entry ids are unique within each user;
- every id handed out, session entries' included, is below the id counter;
- usernames, e-mails and directory names are unique;
- every permission list is duplicate-free.

Route handlers are methods on a `Db`. Each returns `Ok(value)` or `Err(HttpError(status, message, logout))`, where `logout` stands for the `action: "logout"` field. Each state-changing route's `ensures` states, for every outcome, the new value of every field of the `Db`: the three collections, the files on disk and the id counter. The pure decision logic (guards, credential check, listing, matrix, paging, grant and revoke) is in functions, and the lemmas state the properties.

External pieces are parameters:
- JWT verification is `verifyToken: string -> Option<Claims>`, and a signed token is represented by its claims.
- bcrypt is `bcryptMatches` and `hash`.
- The current time is `now` (with `isoNow` as its ISO text).
- The search regex is `matches: string -> bool`.
- Whether the recursive folder removal succeeds is `removalSucceeds`.

## Model

| member | source | states |
|---|---|---|
| Text.Split | routes/authMiddleware.js:12 | `split(" ")` always yields at least one field |
| Text.SplitJoin | routes/authMiddleware.js:12 | splitting on a space and re-joining gives back the header; no field contains a space |
| Text.SplitNoSpace | routes/authMiddleware.js:57 | a header with no space splits into itself alone |
| Text.SplitAround | routes/authMiddleware.js:57 | the fields of `a + " " + b` are the fields of a followed by those of b |
| Text.Join | routes/authMiddleware.js:12 | joining fields with single spaces; SplitJoin proves it undoes `split(" ")` |
| Text.TrimStart | routes/user.js:16 | the result is a suffix of the input, all removed characters are whitespace, and the result does not start with whitespace |
| Text.TrimEnd | routes/user.js:17 | the result is a prefix of the input, all removed characters are whitespace, and the result does not end with whitespace |
| Text.Trim | routes/user.js:16-17 | `trim()` as TrimEnd after TrimStart; TrimIsSlice states what it keeps and cuts |
| Text.TrimIsSlice | routes/user.js:16-17 | `trim()` returns a slice of the input with only whitespace cut off each end and none left at either end |
| Text.TrimUntouched | routes/user.js:16-17 | a string without whitespace at its ends is left alone by `trim()` |
| Text.Lower | routes/user.js:16-17 | `toLowerCase()` keeps the length; LowerProperties states what each character becomes |
| Text.LowerProperties | routes/user.js:16-17 | each ASCII capital becomes its small letter (code point + 32), no capital remains, every other character is kept, and lower-casing is idempotent |
| Text.Normalize | routes/user.js:16-17 | the `trim().toLowerCase()` applied to new usernames and e-mails; NormalizeIdempotent states its fixed points |
| Text.NormalizeIdempotent | routes/user.js:16-17 | trim-then-lower-case is idempotent, so stored names are fixed points of the normalisation applied to new input |
| Collections.IndexOf | routes/authMiddleware.js:26 | `findOne` returns the first element with that key, or none when no element has it |
| Collections.IndexOfDistinct | routes/authMiddleware.js:96 | under unique keys, `findById` of an element's key finds exactly that element |
| Collections.Select | routes/directory.js:166 | `find({field: k})` returns exactly the elements whose key is k |
| Collections.RemoveKey | routes/directory.js:100 | `deleteMany({field: k})` keeps exactly the elements whose key is not k |
| Collections.SelectRemovePartition | routes/directory.js:100 | what `deleteMany` removes and what it keeps together make up the collection (as multisets) |
| Collections.RemoveKeyDistinct | routes/directory.js:100-102 | deleting documents keeps every unique index unique |
| Collections.RemoveAbsentKey | routes/admin.js:113 | pulling a key no element has changes nothing |
| Collections.RemoveKeyUnique | routes/admin.js:113 | under a unique key, pulling one element's key removes exactly that element and keeps the rest in order |
| Collections.Insert | routes/user.js:85 | inserting into the sorted list adds one element |
| Collections.SortDesc | routes/user.js:85 | `sort({field: -1})` keeps the length |
| Collections.InsertCorrect | routes/user.js:85 | insertion keeps the list in descending order and adds exactly the element |
| Collections.SortDescCorrect | routes/user.js:56 | `sort({field: -1})` yields a descending permutation of its input |
| Collections.SortDescMembers | routes/directory.js:166 | sorting neither loses nor invents elements, position by position |
| Models.With | routes/user.js:139 | replacing one permission list leaves the other four unchanged |
| Models.Members | routes/authMiddleware.js:110 | `directory.permissions[permissionType]`: the id list of one capability; With states that replacing it touches no other |
| Models.ParsePermissionTypeExact | routes/user.js:120-130 | a permission type is accepted exactly when it is one of the five names, and each name parses to its own type |
| Models.ParsePermissionType | routes/user.js:120-130 | the `validPermissionTypes.includes` check; ParsePermissionTypeExact states which strings it accepts |
| FileSize.Scale | utils/fileSize.js:3-5 | every unit is at least 1024 bytes |
| FileSize.Measure | utils/fileSize.js:8-16 | the unit choice of `getFileSize`; MeasureUnit and ScaledRange state its thresholds and bounds |
| FileSize.RoundHundredths | utils/fileSize.js:9-13 | `(n / unit).toFixed(2)` is the nearest hundredth, a tie rounding up |
| FileSize.Digits | utils/fileSize.js:15 | the decimal text of a count is all digits, with no leading zero; with DigitsRoundTrip it is the one text `${n}` prints |
| FileSize.Fixed2 | utils/fileSize.js:9-13 | `toFixed(2)` text of a count of hundredths; Fixed2RoundTrip states that it reads back |
| FileSize.Render | utils/fileSize.js:9-15 | the template strings of `getFileSize`; RenderRoundTrip states that no two readings render alike |
| FileSize.GetFileSize | utils/fileSize.js:1-17 | `getFileSize(n)` as Render after Measure; the Example lemmas and RenderRoundTrip state its answers |
| FileSize.ParseReading | utils/fileSize.js:9-15 | reads a size string back into the reading it shows: the inverse used by RenderRoundTrip |
| FileSize.DigitsRoundTrip | utils/fileSize.js:15 | the decimal text of a byte count reads back as that count |
| FileSize.Fixed2RoundTrip | utils/fileSize.js:9-13 | a two-decimal rendering reads back as the same number of hundredths |
| FileSize.RenderRoundTrip | utils/fileSize.js:8-16 | every rendering reads back as the reading it came from, so no two readings render alike |
| FileSize.BytesRoundTrip | utils/fileSize.js:14-15 | "n bytes" reads back as the byte count n |
| FileSize.ScaledRoundTrip | utils/fileSize.js:8-13 | "x.yz KB/MB/GB" reads back as the same hundredths and unit |
| FileSize.MeasureUnit | utils/fileSize.js:8-16 | bytes iff n < 2^10, KB iff 2^10 ≤ n < 2^20, MB iff 2^20 ≤ n < 2^30, GB iff n ≥ 2^30; bytes are shown unchanged |
| FileSize.ScaledRange | utils/fileSize.js:10-13 | a scaled value is nearest to n / unit, is at least 1.00, and is at most 1024.00 in the KB and MB ranges |
| FileSize.GigabytesUnbounded | utils/fileSize.js:8-9 | every whole number of gigabytes is shown exactly, so the GB value has no upper bound |
| FileSize.ExampleBytes | utils/fileSize.js:14-15 | 512 renders as "512 bytes" |
| FileSize.ExampleOneKilobyte | utils/fileSize.js:12-13 | 1024 renders as "1.00 KB" |
| FileSize.ExampleKilobyteAndHalf | utils/fileSize.js:12-13 | 1536 renders as "1.50 KB" |
| FileSize.ExampleOneGigabyte | utils/fileSize.js:8-9 | 1073741824 renders as "1.00 GB" |
| FileSize.ExampleTopOfKilobytes | utils/fileSize.js:12-13 | 1048575 renders as "1024.00 KB" |
| Store.Db.InsertUser | routes/admin.js:32-33 | a saved user gets a fresh id and no sessions, and the unique indexes stay unique |
| Store.Db.NewId | routes/admin.js:66-68 | a new `loggedInDevice` entry gets the counter's value as `_id`, which no stored session entry carries; only the counter moves |
| Store.Db.constructor | models/User.js:5-31 | the empty collections satisfy every unique index and the rest of the invariant |
| Store.Db.SetDevices | routes/admin.js:66-69 | saving a user's session list, whose entry ids are distinct and already handed out, changes only that user |
| Store.Db.InsertDirectory | routes/directory.js:48-49 | a new directory gets a fresh id and five empty permission lists |
| Store.Db.SetPermissions | routes/user.js:139-140 | saving a directory's permissions changes only that directory and keeps the lists duplicate-free |
| Store.Db.DeleteDirectoryCascade | routes/directory.js:100-102 | removes the directory's files, then the directory |
| Store.Db.InsertFile | routes/directory.js:138-147 | a new file record gets a fresh id, no comments, and equal creation and update times |
| Store.Db.SetComments | routes/directory.js:229-232 | saving a file's comments changes only that file and bumps its update time |
| Store.Db.DeleteFile | routes/directory.js:293 | `findByIdAndDelete` removes exactly the record with that id |
| Store.Db.PutBlob | routes/directory.js:12-28 | the upload middleware writes the blob |
| Store.Db.RemoveBlobs | routes/directory.js:289-290 | unlinking removes exactly the given paths |
| AuthMiddleware.TokenOfBearer | routes/authMiddleware.js:12 | a header "scheme token", with or without more space-separated text after it, yields the token |
| AuthMiddleware.TokenOf | routes/authMiddleware.js:12 | `split(" ")[1]` is undefined exactly when the header holds no space, and a token never holds a space |
| AuthMiddleware.Decode | routes/authMiddleware.js:12-16 | `jwt.verify` of the extracted token; a header without a space never decodes |
| AuthMiddleware.HasDevice | routes/authMiddleware.js:73-74 | the session test `loggedInDevice.some(device => device.deviceID === userDevice)`; VerifyOk states its use |
| AuthMiddleware.Verify | routes/authMiddleware.js:54-89 | on success the claims are the decoded token of a present header and name a live session; every refusal is a 400 or 401 with logout |
| AuthMiddleware.AdminVerify | routes/authMiddleware.js:9-52 | on success the decoded token says admin; every refusal carries logout |
| AuthMiddleware.VerifyOk | routes/authMiddleware.js:54-89 | `verify` succeeds, with the token's claims, iff the header is present, the token verifies, and the claimed user holds a session entry with the claimed device string |
| AuthMiddleware.VerifyErrors | routes/authMiddleware.js:54-89 | no header gives 400 "You are not authenticated"; a bad token gives 401 "Session Expired"; an unknown user gives 401 "User Not Found"; a removed session gives 401 "Session Expired"; all with logout |
| AuthMiddleware.AdminVerifyOk | routes/authMiddleware.js:9-52 | `adminVerify` succeeds iff the token verifies and says admin, and the stored user is an admin holding the session |
| AuthMiddleware.AdminVerifyStricter | routes/authMiddleware.js:9-89 | whatever `adminVerify` admits, `verify` admits with the same claims |
| AuthMiddleware.AdminVerifyErrors | routes/authMiddleware.js:11-29 | no header gives 400 "You are not authenticated"; a token that does not verify gives 401 "Token is not valid"; an admin token whose user is gone gives 401 "User Not Found"; all with logout |
| AuthMiddleware.AdminVerifyRoleFirst | routes/authMiddleware.js:20-22 | a non-admin token is refused with 403 before any lookup, whatever users are stored |
| AuthMiddleware.AdminVerifyOrder | routes/authMiddleware.js:26-43 | a demoted user's admin token is refused with 403; otherwise a removed session gives 401 |
| AuthMiddleware.CheckPermission | routes/authMiddleware.js:91-119 | passes only for a stored user, and refuses only with 404 "User not found", 404 "Directory not found" or 403 "Access denied" |
| AuthMiddleware.Gate | routes/authMiddleware.js:54-119 | the route guard passes iff `verify` and then `checkPermission` pass, answers `verify`'s refusal first, and hands on `verify`'s claims |
| AuthMiddleware.CheckPermissionOk | routes/authMiddleware.js:91-119 | the gate passes iff the path user exists and is an admin, or holds the capability on the path directory |
| AuthMiddleware.AdminBypass | routes/authMiddleware.js:101-103 | an admin passes every capability on every directory id, even one that does not exist |
| AuthMiddleware.CheckPermissionErrors | routes/authMiddleware.js:97-112 | unknown user gives 404 with logout; for a non-admin, unknown directory gives 404 and a missing capability gives 403 |
| AuthMiddleware.GateIgnoresTokenIdentity | routes/authMiddleware.js:91-96 | once `verify` passes, the gate's answer depends only on the path ids, not on whose token it is |
| AdminRoutes.StartSession | routes/admin.js:66-68 | login appends exactly the new entry to the i-th user's sessions and leaves every other user as it was |
| AdminRoutes.EndSession | routes/admin.js:113 | the i-th user loses every entry with that id, keeps the others in order, and every other user stays as it was |
| AdminRoutes.CreateAdmin | routes/admin.js:13-39 | a missing field gives 400; a taken username or e-mail gives 400 with no change; otherwise the request succeeds and exactly one admin with the hashed password and a fresh id is added, nothing else changing |
| AdminRoutes.Login | routes/admin.js:41-88 | a failed credential check changes nothing; success appends exactly one entry "userAgent ISO-time" with a fresh id, changes nothing else, and returns claims {device, id, role} |
| AdminRoutes.DeviceIdOf | routes/admin.js:43-45 | the session key `userAgent + " " + currentTime`; Login states where it is stored and signed |
| AdminRoutes.LoggedInDevices | routes/admin.js:90-102 | behind `verify` only, any user's session list is returned; an unknown id gives 404 |
| AdminRoutes.RemoveLoggedInDevice | routes/admin.js:104-123 | 404 unless the user has an entry with that id; otherwise every entry with that id is pulled (EndSession), session ids stay distinct, and nothing else changes |
| AdminRoutes.Authenticate | routes/admin.js:48-64 | on success the position of a stored user with that e-mail; AuthenticateOk and AuthenticateErrors state when |
| AdminRoutes.AuthenticateOk | routes/admin.js:48-64 | login passes iff the e-mail is stored and the password matches: by bcrypt for an admin, by string equality for a user |
| AdminRoutes.AuthenticateErrors | routes/admin.js:50-63 | unknown e-mail gives 401 "User Not Found"; a wrong password gives 401 "Invalid email or password"; an admin login without a password gives 500, as `bcrypt.compare` throws |
| AdminRoutes.LoginOpensSession | routes/admin.js:66-78 | the claims signed at login pass `verify`, and pass `adminVerify` for an admin |
| AdminRoutes.LoginKeepsSessions | routes/admin.js:66-69 | a login revokes no other live session |
| AdminRoutes.EndSessionPullsOne | routes/admin.js:113 | since a user's entry ids are distinct, the pull removes exactly the one entry with that id |
| AdminRoutes.EndSessionVerify | routes/admin.js:113 | after removal a token passes `verify` iff it passed before and its user still has an entry with its device string |
| AdminRoutes.RemovedSessionExpires | routes/admin.js:113 | removing the entry a token was issued for makes `verify` answer "Session Expired" |
| UserRoutes.Grant | routes/user.js:138-141 | the user is in the list afterwards, nothing else is added, a present user changes nothing, and a duplicate-free list stays so |
| UserRoutes.Revoke | routes/user.js:173 | every occurrence of the user is gone and every other id is kept |
| UserRoutes.GrantIdempotent | routes/user.js:138-141 | granting twice is granting once |
| UserRoutes.RevokeProperties | routes/user.js:173 | revoking is idempotent, keeps a list duplicate-free, and leaves a list without the user unchanged |
| UserRoutes.GrantIn | routes/user.js:138-141 | granting capability t touches only the list of t |
| UserRoutes.RevokeIn | routes/user.js:173 | revoking capability t touches only the list of t |
| UserRoutes.GrantAt | routes/user.js:138-141 | a grant changes the permissions of directory j alone, to GrantIn of them, and every other directory stays as it was |
| UserRoutes.RevokeAt | routes/user.js:173-175 | a revocation changes the permissions of directory j alone, to RevokeIn of them, and every other directory stays as it was |
| UserRoutes.Row | routes/user.js:87-96 | a row carries the directory's id and name, and each flag is membership of the user in that capability's list |
| UserRoutes.Matrix | routes/user.js:85-97 | one row per directory |
| UserRoutes.MatrixRows | routes/user.js:85-97 | one row per directory, newest directory first; each flag is membership of the user in that capability's list |
| UserRoutes.MatrixShows | routes/user.js:87-97 | the row for a directory shows exactly the user's memberships in that directory |
| UserRoutes.SamePositionsDistinct | routes/user.js:139-140 | changing a directory's permissions keeps directory ids unique |
| UserRoutes.GrantThenQuery | routes/user.js:139 | after a grant the matrix shows true for that capability |
| UserRoutes.RevokeThenQuery | routes/user.js:173 | after a revocation the matrix shows false for that capability |
| UserRoutes.GrantAuthorizesExactlyThat | routes/user.js:139 | for a regular user holding nothing on a directory, granting one capability opens the gate for exactly that capability |
| UserRoutes.Listed | routes/user.js:45-53 | the query filter: role "user" and the search matching the e-mail or the username |
| UserRoutes.Listable | routes/user.js:45-53 | the query keeps exactly the regular users whose e-mail or username matches |
| UserRoutes.ListUsers | routes/user.js:41-65 | a refusal is the negative-skip error; the total counts every match; a page holds at most pageSize users |
| UserRoutes.ListUsersRefused | routes/user.js:41 | only page 0 with a non-zero size (a negative skip) is refused |
| UserRoutes.ListUsersWindow | routes/user.js:41-65 | a page is the run of the sorted matches starting at (page-1)·pageSize, at most pageSize long; the total counts all matches |
| UserRoutes.ListUsersMembers | routes/user.js:45-58 | every listed user is a stored regular user matching the search |
| UserRoutes.ListUsersSorted | routes/user.js:56 | a page is newest first |
| UserRoutes.SearchFilter | routes/user.js:40-43 | an absent or empty search matches every string, as `new RegExp('', 'i')` does |
| UserRoutes.DefaultListing | routes/user.js:40-58 | with no query parameters the answer is the five newest regular users, and exactly the regular users are counted |
| UserRoutes.CreateUser | routes/user.js:13-36 | a missing username or e-mail gives 500; blank fields give 400; a clash after normalising gives 400; otherwise one regular user is stored with normalised names, the plain password and a fresh id, and nothing else changes |
| UserRoutes.GetAllUsers | routes/user.js:38-74 | behind `adminVerify`, answers the page of matching users, an absent page, pageSize or search taking 1, 5 or '' |
| UserRoutes.GetUserDirectories | routes/user.js:76-112 | an unknown user gives 404; otherwise the user's summary and the permission matrix |
| UserRoutes.GrantPermission | routes/user.js:115-148 | an invalid type gives 400 and a missing directory gives 404, both with no change; otherwise the grant is applied to that directory only and nothing else changes |
| UserRoutes.RevokePermission | routes/user.js:150-181 | an invalid type gives 400 and a missing directory gives 404, both with no change; otherwise the revocation is applied to that directory only and nothing else changes |
| DirectoryRoutes.ViewableBy | routes/directory.js:78 | the query returns exactly the directories whose view list holds the user |
| DirectoryRoutes.VisibleDirectories | routes/directory.js:64-79 | the only refusal is 404 "User not found"; every listed directory is stored |
| DirectoryRoutes.VisibleDirectoriesSpec | routes/directory.js:64-79 | an unknown user gives 404; an admin sees every directory; anyone else sees exactly those they may view |
| DirectoryRoutes.ListingAgreesWithGate | routes/directory.js:73-79 | for a regular user, a directory is listed iff the view gate lets them into it |
| DirectoryRoutes.FilesIn | routes/directory.js:166 | as many files as the directory holds; FilesInSpec states which and in what order |
| DirectoryRoutes.FilesInSpec | routes/directory.js:166 | the file list holds exactly the directory's files, each once, most recently updated first |
| DirectoryRoutes.UserRefOf | routes/directory.js:184-188 | a reference populates iff the user exists, and then carries that user's id, username, e-mail and role |
| DirectoryRoutes.DirectoryRefOf | routes/directory.js:189 | a reference populates iff the directory exists, and then carries its id and name |
| DirectoryRoutes.Populate | routes/directory.js:183-189 | the detail keeps the file's id, description, type, size, path and timestamps; the directory, uploader and each commenter are populated from the stored records; comments keep their text, time and order |
| DirectoryRoutes.GateDoesNotCoverFile | routes/directory.js:178-183 | a user gated on one directory reaches a file stored in another, where they hold nothing |
| DirectoryRoutes.CreateDirectory | routes/directory.js:32-60 | an empty name gives 400; a taken name gives 400; otherwise one directory with empty permissions is added |
| DirectoryRoutes.GetDirectories | routes/directory.js:62-86 | behind `verify`, answers the requester's visible directories |
| DirectoryRoutes.DeleteDirectory | routes/directory.js:89-119 | an unknown id gives 404; otherwise the files, then the directory, are removed; the folder goes only if its removal succeeds; the answer is success either way |
| DirectoryRoutes.CascadeLeavesNoOrphans | routes/directory.js:100-102 | after deletion no file refers to the directory, and every other file remains |
| DirectoryRoutes.UploadFile | routes/directory.js:121-153 | gated on the path directory; the blob is written when a file comes; no file gives 400; an unknown body directory gives 404; a missing field gives 500; otherwise the record is stored under the body directory with the formatted size |
| DirectoryRoutes.ListFiles | routes/directory.js:155-176 | an unknown directory gives 404; otherwise the directory and its sorted files |
| DirectoryRoutes.GetFile | routes/directory.js:178-200 | the file is looked up by id alone; 404 if absent; otherwise its populated detail |
| DirectoryRoutes.AddComment | routes/directory.js:202-239 | empty text or commenter gives 400; an unknown file or commenter gives 404; otherwise only that file changes, by PrependComment, and nothing else |
| DirectoryRoutes.PrependComment | routes/directory.js:229-232 | `unshift`: the new comment comes first, the old ones follow unchanged, and only the update time moves |
| DirectoryRoutes.CommentsNewestFirst | routes/directory.js:183-232 | after two comments on a file, its populated detail lists the later comment, then the earlier, then the older ones unchanged, and carries the later comment's time |
| DirectoryRoutes.DownloadFile | routes/directory.js:241-276 | unknown file gives 404 "File not found"; a missing blob gives 404 "File not found on server"; otherwise the blob and its name |
| DirectoryRoutes.DeleteFile | routes/directory.js:278-300 | unknown file gives 404; a missing blob gives 500 and the record stays; otherwise the blob, then the record, are removed |

## Left out

- JWT signing and verification and bcrypt are parameters, and the model trusts them. A signed token is represented by its claims, and the token has no expiry.
- The `Internal Server Error` answers of the guards are not modelled. They come only from database failures, and the model's database does not fail.
- Database failures in general are left out, and so are the 500 answers that only they produce.
- ObjectId strings are left out, along with the `CastError` that an id which is not an ObjectId raises. Ids are natural numbers handed out by a counter.
- `utils/formatDate.js` is not part of this model. It reformats `createdAt` in the user list with locale data.
- `index.js` (server start-up, CORS, mount points) is not part of this model.
- Files on disk are a set of paths: the directory id and the file name. The following are left out:
  - the `mkdir` calls and their failures;
  - `path.join` normalisation;
  - a file name containing path separators;
  - `res.download` streaming errors.

  An unlink fails exactly when the path is absent.
- DirectoryRoutes.CreateDirectory: a failure of the `mkdirSync` after the record is saved, which answers 500 with the record kept, is not modelled.
- DirectoryRoutes.UploadFile: the upload middleware reads `directoryId` and `fileName` from the form fields received before the file part. A request with those fields missing or sent after the file fails inside the middleware. Here both are plain parameters.
- UserRoutes.ListUsers: the case-insensitive search regex is the parameter `regexMatches`; of its behaviour only the fact that the empty pattern matches every string is modelled. An absent `page`, `pageSize` or `search` takes the default 1, 5 or ''. Given values are natural numbers; non-numeric query strings and negative limits are not modelled. The database's error text for a negative skip is not modelled. Instead the refusal carries a fixed message.
- Text.Lower: only ASCII letters are lower-cased. The full Unicode case mapping of `toLowerCase()` is not modelled.
- FileSize.GetFileSize: the exact integer model assumes the byte count is below 2^53, where `n / 2^k` is exact in binary64. Sizes of 10^21 bytes or more, which `toFixed` prints in exponent form, are not modelled.
- AdminRoutes.Login: the e-mail is always present. A login body without an e-mail depends on how the driver serialises `undefined` in a filter, and is not modelled.
- The order in which the database returns documents whose sort keys are equal is modelled as the stable order of insertion.
- Concurrent requests and lost updates between a read and the following save are not modelled. Each route runs atomically.
- Success status codes are not modelled: `Ok` stands for 200 and 201 alike (create-admin, directory creation, upload and the comment route answer 201). Each route's `Ok` value is the body it sends.
- The `createdAt` and `updatedAt` timestamps are the `now` parameter of the route that writes them.
