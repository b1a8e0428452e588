# CNote folder and note hierarchy, modelled in Dafny

CNote is a note-taking backend. Each user owns folders and notes:
- a folder may sit inside a parent folder, and is saved only at level 3 or less (a root is level 1);
- a folder keeps a cache (`notes`) of the ids of the notes filed in it;
- a note points at its folder through `folderId`.

This project models the integrity logic of that store:
- the folder document's validation hook (parent exists, parent has the same owner, depth walk) and its `addNote` method;
- the folder routes (create, update, move, delete cascade);
- the note routes (create with a folder, update, move between folders, delete);
- the request-body schemas of folders, notes, registration and login.

The model has these parts:
- `types.dfy` holds the records, the errors with their messages and HTTP status, and the two cache updates of the source: set-style insert and `$pull`.
- `validation.dfy` models the Joi schemas as pure functions. Lengths are counted in UTF-16 code units, as JavaScript strings count them. Each body validator is characterised by an if-and-only-if over its fields, plus the messages the tests check. Unknown keys are reported in the order JavaScript's `Object.keys` lists them: array-index keys first, ascending, then the others in the order they appear.
- `hierarchy.dfy` covers the hook's ancestor walk:
  - The source's loop is unbounded. It is modelled with a budget of as many steps as there are folders.
  - `BudgetDivergesIffEndless` proves that the budget runs out exactly when the source's loop would never end.
  - The guard is given both as a function and as the loop method it specifies.
- `acyclic.dfy` proves two things:
  - A save through the corrected hook, and the delete cascade, keep every parent chain finite (`Acyclic`). On such a store the hook always answers.
  - The reparenting routes as written can break this.
- `consistency.dfy` holds the store-wide invariant `Coherent`:
  - A note filed in an existing folder is in that folder's cache.
  - Every cached id is a note filed there.
  - No cache repeats an id.
  - Parents and folders have the owner of what they contain.
  - Each route's new state is a function of the old one, with a lemma saying when it keeps the invariant.
- The same module holds a second invariant, `Linked`: every parent a folder names and every folder a note is filed in exists. Every corrected route keeps it; the delete cascade needs the owner rule of `Coherent` to do so.
- `store.dfy` is the mutable store:
  - a `Store` class with the two collections as map fields;
  - a folder save that runs the hook;
  - `addNote`;
  - the query listing the notes filed in a folder.
- `folder_routes.dfy` and `note_routes.dfy` are the route handlers as methods on the store. Each states its whole new state and that it keeps `Acyclic`, `Coherent` and `Linked`.

Requests are modelled as follows:
- Each request is one sequential run of reads and writes.
- The authenticated user id is a parameter.
- Fresh document ids are parameters, with a precondition that nothing refers to them yet, as holds for a new ObjectId.
- An update body field that is absent is `Keep`: the stored value stays. This assumes Mongoose 7 or later, whose update path drops undefined keys; the source does not pin the version, and Mongoose 5 and 6 (without `omitUndefined`) would write null instead, making `UpdateAsWritten`, `UpdateFolder` and `UpdateNote` clear an absent parent or text field.

## Model

| member | source | states |
|---|---|---|
| Types.NewFolder | backend/src/models/Folder.js:9-19 | a new folder has the given name, owner and parent, a null parent when none is given, and an empty notes cache |
| Types.Message | backend/src/models/Folder.js:33-66 | each error carries the message text the hook, `addNote` and the routes throw or send; `ParentIsDescendant`, raised only by the corrected hook, has a text of this model's own, as the source has no such check; every message is non-empty |
| Types.ErrorOf | backend/src/middleware/errorHandler.js:4-6 | reading the error back from the message a client receives: any error it names carries exactly that message |
| Types.MessageRoundTrip | backend/src/middleware/errorHandler.js:4-6 | every error is read back from its own message |
| Types.MessagesDistinct | backend/src/models/Folder.js:33-66 | no two errors share a message |
| Types.Status | backend/src/middleware/errorHandler.js:4-6 | the two "not found" errors answer 404 and every other error falls back to 500 |
| Types.AddToSet | backend/src/models/Folder.js:69-72 | afterwards the id is in the cache and the members are the old ones plus the id; the cache is unchanged when the id was present and has the id appended otherwise |
| Types.Pull | backend/src/routes/noteRoutes.js:122-125 | afterwards the id is absent, every other id keeps its number of occurrences, and the cache is no longer than before |
| Types.PullKeepsNoDup | backend/src/routes/noteRoutes.js:154-158 | pulling an id from a cache without repeats leaves a cache without repeats |
| Hierarchy.HopsSome | backend/src/models/Folder.js:44-47 | when the walk stops within the budget after h steps, it continued at every earlier node and stops at the h-th |
| Hierarchy.HopsNone | backend/src/models/Folder.js:44-47 | the walk runs out of budget exactly when it continues at every node up to the budget |
| Hierarchy.BudgetDivergesIffEndless | backend/src/models/Folder.js:44-47 | with a budget of one step per folder, the walk runs out exactly when the source's unbounded loop never ends |
| Hierarchy.FuelIrrelevant | backend/src/models/Folder.js:44-47 | a walk that stops within some budget stops within the standard budget after the same number of steps |
| Hierarchy.WalkIsLevel | backend/src/models/Folder.js:42-47 | the walk as written yields the parent's level, or diverges exactly when the parent's chain is endless |
| Hierarchy.CheckedWalkAvoids | backend/src/models/Folder.js:42-47 | the walk with a check for the saved folder answers a depth exactly when the chain ends without reaching that folder, and the depth is then the level |
| Hierarchy.ReachedAfter | backend/src/models/Folder.js:44-47 | a walk that reaches a folder within the budget reaches it after some number of steps, continuing at every node before |
| Hierarchy.AvoidingWalksAgree | backend/src/models/Folder.js:42-47 | where the walk never reaches the saved folder, the corrected walk and the walk as written give the same result |
| Hierarchy.WalkAncestors | backend/src/models/Folder.js:42-47 | the loop starting at the parent with depth 1 and following parent links returns the walk's result |
| Hierarchy.Guard | backend/src/models/Folder.js:27-53 | no parent passes; "Parent folder does not exist." exactly when the parent is missing; the ownership error exactly when the parent is another user's; only the corrected hook reports a descendant parent |
| Hierarchy.RunGuard | backend/src/models/Folder.js:27-53 | the hook's lookups, ownership check and walk, run in the source's order, give the guard's verdict |
| Hierarchy.GuardDepthRule | backend/src/models/Folder.js:42-50 | for an existing parent of the same owner: rejected for depth iff the parent's level is at least 3, passes iff it is below 3, hangs iff its chain is endless |
| Hierarchy.CheckedGuardRule | backend/src/models/Folder.js:42-50 | the corrected hook passes iff the parent's chain avoids the saved folder and the hook as written passes, and likewise for the depth rejection |
| Hierarchy.PassedGuardLevel | backend/src/models/Folder.js:42-50 | a folder saved through a passing hook sits at level at most 3: level 1 without a parent, otherwise one below its parent |
| Acyclicity.GuardAnswers | backend/src/models/Folder.js:44-47 | on a store without cycles the hook never hangs |
| Acyclicity.SetKeepsAcyclic | backend/src/models/Folder.js:27-53 | writing a folder whose parent's chain ends without reaching it keeps every chain finite |
| Acyclicity.PassedGuardKeepsAcyclic | backend/src/models/Folder.js:27-53 | a new folder passing the hook, or an existing folder passing the corrected hook, keeps every chain finite |
| Acyclicity.ParentChainAvoids | backend/src/models/Folder.js:42-47 | on a store without cycles the walk from a folder's parent never reaches the folder |
| Acyclicity.KeptParentGuardsAgree | backend/src/models/Folder.js:27-53 | on a store without cycles, a save that keeps an existing folder's parent gets the same verdict from the corrected hook and the hook as written |
| Acyclicity.RelinkChildren | backend/src/routes/folderRoutes.js:117-122 | the folder is gone; the caller's folders directly inside it take its parent; every other folder, grandchildren included, is unchanged; names, caches and owners stay |
| Acyclicity.RelinkKeepsAcyclic | backend/src/routes/folderRoutes.js:114-122 | removing a folder and relinking its children to its parent keeps every chain finite |
| Acyclicity.SameParentsKeepAcyclic | backend/src/routes/noteRoutes.js:121-133 | writes that change only names and caches keep every chain finite |
| Acyclicity.MoveAsWritten | backend/src/routes/folderRoutes.js:74-80 | the move as written: unknown or foreign folders are not found; otherwise the verdict is that of the hook as written on the folder with its new parent, and the new parent is written iff it passes |
| Acyclicity.MoveAsWrittenMakesCycle | backend/src/routes/folderRoutes.js:79-80 | moving a root below its own child passes the hook as written and leaves a cycle, on which a later save hangs; the corrected hook refuses it |
| Acyclicity.UpdateAsWritten | backend/src/routes/folderRoutes.js:41-45 | the update as written changes only the caller's folder, with no hook: the name is written, a parent in the body is written as given, an absent one keeps the stored parent |
| Acyclicity.UpdateAsWrittenMakesCycle | backend/src/routes/folderRoutes.js:41-45 | the update as written can make a folder its own parent, which the corrected route refuses |
| Acyclicity.UpdateAsWrittenSkipsOwnership | backend/src/routes/folderRoutes.js:41-45 | the update as written stores a missing parent and another user's folder as parent; the hook rejects both |
| Acyclicity.MoveDeepensSubtree | backend/src/models/Folder.js:42-50 | the hook bounds only the saved folder's own level: a move that passes even the corrected hook leaves a descendant at level 5 |
| Consistency.CoherentMembership | backend/src/routes/noteRoutes.js:32-36 | under the invariant, a note is filed in a folder iff its id is in that folder's cache, and then both have one owner |
| Consistency.NewFolderKeepsCoherent | backend/src/routes/folderRoutes.js:19-24 | adding a fresh folder with an empty cache and a parent of the same owner keeps the invariant |
| Consistency.ReparentKeepsCoherent | backend/src/routes/folderRoutes.js:79-80 | renaming or reparenting a folder under a parent of the same owner keeps the invariant |
| Consistency.FiledNoteKeepsCoherent | backend/src/routes/noteRoutes.js:21-36 | storing a note filed in the caller's folder, with its id pushed onto that cache, keeps the invariant |
| Consistency.UnfiledNoteKeepsCoherent | backend/src/routes/noteRoutes.js:21-29 | storing a note without a folder keeps the invariant |
| Consistency.CreateNoteAsWritten | backend/src/routes/noteRoutes.js:21-41 | note creation as written: the note is stored in every case; an unknown or foreign folder answers "Folder not found"; otherwise success iff the hook as written passes on the folder with the id pushed, which is then written; the hook's error leaves the folders unchanged; a hanging hook gives no answer |
| Consistency.CreateNoteAsWrittenOrphans | backend/src/routes/noteRoutes.js:29-41 | creation as written with another user's folder answers "Folder not found" and still stores the note, which breaks the invariant |
| Consistency.CreateNoteAsWrittenAnswers | backend/src/routes/noteRoutes.js:29-41 | on a store without cycles the creation as written always answers |
| Consistency.CreateNoteAsWrittenHangs | backend/src/routes/noteRoutes.js:29-41 | after the move as written has made a cycle, creating a note in a folder on it stores the note and never answers |
| Consistency.RetextKeepsCoherent | backend/src/routes/noteRoutes.js:86-90 | changing a note's text fields but not its folder or owner keeps the invariant |
| Consistency.PullOwned | backend/src/routes/noteRoutes.js:122-125 | the id leaves the cache of the folder if it is the caller's; no other folder changes |
| Consistency.AddOwned | backend/src/routes/noteRoutes.js:129-132 | the id joins, set-style, the cache of the folder if it is the caller's; no other folder changes |
| Consistency.OverwriteOwned | backend/src/routes/folderRoutes.js:131-134 | the cache of the folder, if it is the caller's, becomes the given list; no other folder changes |
| Consistency.MoveNoteState | backend/src/routes/noteRoutes.js:112-133 | the moved note points at the target (or none), and no folder is added or removed |
| Consistency.MoveNoteAsWrittenForeign | backend/src/routes/noteRoutes.js:116-133 | the move as written into another user's folder files the note there without caching it, which breaks the invariant |
| Consistency.DetachKeepsCoherent | backend/src/routes/noteRoutes.js:121-126 | pulling a filed note out of its folder's cache and unfiling it keeps the invariant |
| Consistency.AttachKeepsCoherent | backend/src/routes/noteRoutes.js:128-133 | filing an unfiled note in an owned target and adding it to that cache keeps the invariant |
| Consistency.MoveNoteKeepsCoherent | backend/src/routes/noteRoutes.js:112-133 | moving the caller's note to no folder, a missing one or one of their own keeps the invariant |
| Consistency.MoveNoteKeepsLinked | backend/src/routes/noteRoutes.js:112-133 | moving a note to no folder or an existing one leaves no reference dangling |
| Consistency.MoveNoteIdempotent | backend/src/routes/noteRoutes.js:128-133 | moving a note twice to the same target gives the same state as moving it once |
| Consistency.MovedNoteCachedOnce | backend/src/routes/noteRoutes.js:128-133 | after a move into an owned folder the id is in its cache exactly once |
| Consistency.AddToSetOnce | backend/src/models/Folder.js:69-72 | a second set-style insert changes nothing; on a cache without repeats the id is there exactly once and every other count is unchanged |
| Consistency.DeleteNoteState | backend/src/routes/noteRoutes.js:151-158 | the note is gone and no folder is added or removed |
| Consistency.DeleteNoteKeepsCoherent | backend/src/routes/noteRoutes.js:151-158 | deleting the caller's note keeps the invariant and leaves its id in no cache |
| Consistency.RelinkNotes | backend/src/routes/folderRoutes.js:124-127 | the caller's notes filed in the deleted folder move to its parent (none for a root); other notes are unchanged |
| Consistency.Rebuild | backend/src/routes/folderRoutes.js:129-135 | rebuilding the parent's cache adds or removes no folder |
| Consistency.CascadeState | backend/src/routes/folderRoutes.js:114-135 | after the cascade the folder is gone and every note remains |
| Consistency.CascadeShape | backend/src/routes/folderRoutes.js:114-135 | after the cascade: children and notes relinked; other records unchanged; the owned parent's cache holds each note filed there exactly once |
| Consistency.CascadeKeepsCoherent | backend/src/routes/folderRoutes.js:114-135 | the delete cascade keeps the invariant |
| Consistency.PassedGuardKeepsLinked | backend/src/models/Folder.js:27-53 | a save the hook lets through leaves no reference dangling |
| Consistency.SameParentsKeepLinked | backend/src/routes/noteRoutes.js:121-133 | writes that change only names and caches leave no reference dangling |
| Consistency.StoreNoteKeepsLinked | backend/src/routes/noteRoutes.js:21-36 | storing a note unfiled or filed in an existing folder, or removing a note, leaves no reference dangling |
| Consistency.CascadeKeepsLinked | backend/src/routes/folderRoutes.js:114-135 | when owners never cross and there is no cycle, the delete cascade leaves no reference dangling: all children and notes of the folder move to its parent, which is not the folder itself |
| StoreModel.Store.SaveFolder | backend/src/models/Folder.js:27-53 | the record is written iff the hook passes (the corrected hook for an existing id, the hook as written for a new one); the store is unchanged with the hook's error otherwise; chains stay finite and no reference dangles |
| StoreModel.Store.AddNote | backend/src/models/Folder.js:55-73 | the three checks in order with their errors; a cached id is left alone; otherwise the id is inserted set-style through a save that runs the corrected hook, whose verdict equals the hook as written since the parent is kept; notes unchanged |
| StoreModel.CollectFiled | backend/src/routes/folderRoutes.js:130-133 | returns every note of the user filed in the folder, each exactly once |
| FolderRoutes.CreateFolder | backend/src/routes/folderRoutes.js:16-28 | the new folder is stored iff the hook passes, at level at most 3; the hook's error otherwise; the invariants are kept |
| FolderRoutes.UpdateFolder | backend/src/routes/folderRoutes.js:38-51 | corrected update: "Folder not found" with no change for an unknown or foreign id; otherwise only name and given parent change, iff the corrected hook passes; the new parent is not the folder or below it |
| FolderRoutes.MoveFolder | backend/src/routes/folderRoutes.js:71-82 | corrected move: "Folder not found" with no change; otherwise only the parent changes, iff the corrected hook passes; a descendant parent is refused exactly when the chain reaches the folder |
| FolderRoutes.DeleteFolder | backend/src/routes/folderRoutes.js:106-137 | "Folder not found" with no change, or the cascade: folder gone, children and notes relinked, the parent's cache rebuilt from exactly its filed notes; the invariants are kept |
| NoteRoutes.NewNote | backend/src/routes/noteRoutes.js:21-28 | the note has the given title, the caller as owner and the given folder; each text field holds the given value, or the empty string when absent |
| NoteRoutes.CreateNote | backend/src/routes/noteRoutes.js:17-44 | corrected creation: "Folder not found" stores nothing; otherwise the note is stored and its id pushed onto the folder's cache iff the hook passes, and the corrected hook's verdict there equals the hook as written's; success keeps the invariants |
| NoteRoutes.UpdateNote | backend/src/routes/noteRoutes.js:83-96 | "Note not found" with no change for an unknown or foreign id; otherwise only the title and the given text fields change, and folder and owner stay; chains stay finite |
| NoteRoutes.MoveNote | backend/src/routes/noteRoutes.js:105-134 | corrected move: "Note not found" or "Folder not found" with no change; otherwise the move's state; the invariants are kept |
| NoteRoutes.DeleteNote | backend/src/routes/noteRoutes.js:146-160 | "Note not found" with no change, or the note is gone and its id pulled from its folder's cache; the invariants are kept |
| Validation.CheckField | backend/src/utils/validation.js:4-66 | a field passes iff it is absent and optional, null and nullable, or a string that is allowed to be empty or whose length in UTF-16 code units lies within its bounds |
| Validation.Utf16Length | backend/src/utils/validation.js:4-66 | the length the rules measure lies between the number of characters and twice it, and is zero only for the empty string |
| Validation.Utf16LengthBmp | backend/src/utils/validation.js:4-66 | on text inside the Basic Multilingual Plane the measured length is the number of characters |
| Validation.Utf16LengthAstral | backend/src/utils/validation.js:4-66 | on text outside that plane the measured length is twice the number of characters |
| Validation.FirstFieldError | backend/src/utils/validation.js:4-66 | no error iff every field of the schema passes |
| Validation.FirstFieldErrorIsFirst | backend/src/utils/validation.js:4-66 | the error reported is the message of the first field, in schema order, that fails, and every field before it passes |
| Validation.ShortPasswordMessage | backend/src/utils/validation.js:4-17 | a registration body with a valid username and a 5-character password is refused with "Password must be at least 8 characters long." |
| Validation.DigitStringIsIndexKey | backend/src/utils/validation.js:4-66 | the decimal form of every array index is an index key that spells that number |
| Validation.LeastUnknownIndex | backend/src/utils/validation.js:4-66 | nothing is found iff every key of the body is listed by the schema or is not an array-index key |
| Validation.LeastUnknownIndexIsLeast | backend/src/utils/validation.js:4-66 | the key found is an unlisted array-index key of the body, and no unlisted index key of the body has a smaller value |
| Validation.FirstUnknownName | backend/src/utils/validation.js:4-66 | nothing is found iff every key of the body is listed by the schema or is an array-index key |
| Validation.FirstUnknownNameIsFirst | backend/src/utils/validation.js:4-66 | the key found is unlisted and not an index key, and every key before its first occurrence is listed or an index key |
| Validation.UnknownKey | backend/src/utils/validation.js:4-66 | a key is reported iff some key of the body is not in the schema |
| Validation.UnknownKeyOrder | backend/src/utils/validation.js:4-66 | the reported key is one the body holds and the schema does not list, in `Object.keys` order: the least unlisted array-index key if there is one, otherwise the first unlisted key in body order |
| Validation.FirstUnknown | backend/src/utils/validation.js:4-66 | no error iff every key of the body is in the schema; otherwise the message names the key `UnknownKeyOrder` describes |
| Validation.IndexKeyReportedFirst | backend/src/utils/validation.js:45-66 | a note body `{"title": "t", "zz": 1, "5": 2}` is refused with `"5" is not allowed`: the index key comes before the earlier unknown key `zz` |
| Validation.Validate | backend/src/utils/validation.js:4-66 | a body is accepted iff every field passes and no key is unknown |
| Validation.ValidateReading | backend/src/utils/validation.js:4-66 | for a schema listing exactly a given set of keys, a body is accepted iff its field checks pass and it has no key outside that set |
| Validation.FirstRuleDecides | backend/src/utils/validation.js:4-66 | when the schema's first field fails, its message is the answer, whatever the rest of the body holds |
| Validation.NoteTitleMessages | backend/src/utils/validation.js:45-50 | a missing or empty title draws "Note title is required." and a title longer than 100 draws the 100-character message, whatever else the body holds |
| Validation.ValidateFolder | backend/src/utils/validation.js:34-42 | accepted iff name is a string of 1 to 50 characters, parentFolder is absent, null or a string, and no other key; "Folder name is required." for a missing or empty name; the 50-character message |
| Validation.NoteSchemaReading | backend/src/utils/validation.js:45-66 | the note schema's fields read as their rules: title 1 to 100 characters, detailed notes unbounded, key points and summary at most 300, folder id nullable |
| Validation.ValidateNote | backend/src/utils/validation.js:45-66 | accepted iff the rules above hold and no other key is present; "Note title is required." for a missing or empty title; the 100-character message |
| Validation.ValidateRegister | backend/src/utils/validation.js:4-17 | accepted iff username is 1 to 30 characters, password at least 8, and no other key; "Username is required." when the username is missing |
| Validation.ValidateLogin | backend/src/utils/validation.js:20-31 | accepted iff username and password are non-empty strings and no other key is present; "Username is required." when the username is missing |
| Validation.AstralNameTooLong | backend/src/utils/validation.js:34-42 | a folder name of 26 emoji, 52 code units long, is refused with the 50-character message |

## Left out

- The HTTP layer and the authentication, rate-limiting and ObjectId-format middleware are not modelled. The authenticated user id is a parameter. Each route method assumes its body already passed the schema in `Validation`; the schemas are modelled on their own.
- Mongoose schema validators other than the hook are not modelled: `required`, `trim` and the `createdAt` default. Names and titles are stored as given.
- Ids are opaque numbers. New ids are parameters with a freshness precondition.
- GET routes and `populate` are not modelled: they only read.
- Concurrency between requests, and partial failure in the middle of a multi-write route, are not modelled. Each request is one sequential run.
- Hierarchy.WalkAncestors: the source's loop has no bound. The model walks at most one step per folder and reports divergence when that budget runs out. `BudgetDivergesIffEndless` proves this is exactly the case where the source's loop never ends.
- StoreModel.CollectFiled: the order of the rebuilt cache is the database's order, which is not modelled. Only its members and the absence of repeats are stated.
- FolderRoutes.MoveFolder: even the corrected hook checks only the moved folder's own level. A subtree moved under a deep parent can leave descendants below level 3 (`MoveDeepensSubtree`). The model keeps this behaviour.
- NoteRoutes.CreateNote: when the folder save is rejected by the hook (a folder already below level 3), the note stays stored without being cached, as in the source. Only a successful creation promises the invariant.
- StoreModel.Store.AddNote: no route calls the document method; it is modelled on its own.
- Validation.CheckField: a JavaScript string may hold a lone surrogate code unit, which a Dafny string cannot; such strings are not modelled. Every other string is measured in UTF-16 code units, as the library does.
- FolderRoutes.DeleteFolder: keeps `Linked` only on a store where owners never cross (`SameOwner`), since the cascade relinks the caller's children and notes only.

## Findings

| source | as written | input that shows it | evidently intended | confidence | as-written member | corrected member |
|---|---|---|---|---|---|---|
| backend/src/routes/folderRoutes.js:79-80 with backend/src/models/Folder.js:42-47 | the hook walks only the new parent's ancestors, so moving a folder below its own descendant passes | root A (1) with child B (2), user 7; move A under B | a folder cannot be moved into itself or its subtree, and the depth walk always ends | not executed | Acyclicity.MoveAsWrittenMakesCycle | FolderRoutes.MoveFolder |
| backend/src/routes/folderRoutes.js:41-45 | the update uses a query, so the document hook never runs and any parent is written | folder B (2) updated with parent 2 (itself), or with a missing parent 9 | the update is subject to the same parent checks as create and move | not executed | Acyclicity.UpdateAsWrittenMakesCycle | FolderRoutes.UpdateFolder |
| backend/src/routes/noteRoutes.js:29-41 | the note is saved before its folder is looked up, so "Folder not found" still leaves the note stored and filed in that folder | note of user 8 created with folder 1 of user 7 | a rejected creation stores nothing | not executed | Consistency.CreateNoteAsWrittenOrphans | NoteRoutes.CreateNote |
| backend/src/routes/noteRoutes.js:116-133 | the target folder is never looked up, so a note can be filed in another user's folder, which does not cache it | note 5 of user 7 moved to folder 2 of user 8 | the target must be one of the caller's folders, as at creation | not executed | Consistency.MoveNoteAsWrittenForeign | NoteRoutes.MoveNote |
