/** Records of the two collections (folders and notes), their identifiers and
    the errors the request handlers report. */
module Types {

  datatype Option<+T> = None | Some(value: T)

  /** The answer of a route or a save: a value, or the error it reports. */
  datatype Result<+T> = Ok(value: T) | Err(error: Error)

  /** A field of an update body: absent (the stored value stays) or given. */
  datatype Field<+T> = Keep | Assign(value: T)

  function Apply<T>(f: Field<T>, stored: T): (r: T)
    ensures f.Keep? ==> r == stored
    ensures f.Assign? ==> r == f.value
  {
    if f.Assign? then f.value else stored
  }

  /** Document identifiers are opaque: only equality matters. */
  type UserId = nat
  type FolderId = nat
  type NoteId = nat

  /** A folder document: `parent == None` is a root folder, `notes` is the
      denormalised cache of the ids of the notes filed in it. */
  datatype Folder = Folder(name: string, parent: Option<FolderId>, notes: seq<NoteId>, user: UserId)

  /** A note document; `folderId == None` is an unfiled note. The creation
      timestamp is not part of the model. */
  datatype Note = Note(
    title: string,
    keyPoints: string,
    detailedNotes: string,
    summary: string,
    folderId: Option<FolderId>,
    user: UserId)

  /** A new folder as the schema builds it: parent defaults to null and the
      notes cache to the empty list. */
  function NewFolder(name: string, parent: Option<FolderId>, user: UserId): (f: Folder)
    ensures f.name == name && f.parent == parent && f.user == user
    ensures f.notes == []
    ensures parent == None ==> f.parent.None?
  {
    Folder(name, parent, [], user)
  }

  /** The failures of the core: one per distinct message of the source,
      plus `ParentIsDescendant`, whose text the source does not have; only
      the corrected hook of this model raises it. */
  datatype Error =
    | ParentMissing        // the parent id resolves to no folder
    | ParentForeign        // the parent folder belongs to another user
    | DepthExceeded        // the parent already sits at level 3
    | ParentIsDescendant   // the new parent is the folder itself or below it (corrected guard only)
    | FolderForeign        // addNote on a folder of another user
    | NoteMissing          // addNote with an unknown note id
    | NoteForeign          // addNote with a note of another user
    | FolderNotFound       // no folder with this id and owner
    | NoteNotFound         // no note with this id and owner

  function Message(e: Error): (m: string)
    ensures |m| > 0
  {
    match e
    case ParentMissing => "Parent folder does not exist."
    case ParentForeign => "You cannot nest folders within a folder you do not own."
    case DepthExceeded => "Maximum folder nesting level of 3 exceeded."
    case ParentIsDescendant => "A folder cannot be nested inside itself or one of its subfolders."
    case FolderForeign => "You cannot add a note to a folder you do not own."
    case NoteMissing => "Note does not exist."
    case NoteForeign => "You cannot add a note that does not belong to you."
    case FolderNotFound => "Folder not found"
    case NoteNotFound => "Note not found"
  }

  /** The error a message names, if any. The nine messages have nine
      different lengths, so the length picks the candidate. */
  function ErrorOf(m: string): (e: Option<Error>)
    ensures e.Some? ==> Message(e.value) == m
  {
    var candidate :=
      if |m| == 29 then Some(ParentMissing)
      else if |m| == 55 then Some(ParentForeign)
      else if |m| == 43 then Some(DepthExceeded)
      else if |m| == 65 then Some(ParentIsDescendant)
      else if |m| == 49 then Some(FolderForeign)
      else if |m| == 20 then Some(NoteMissing)
      else if |m| == 50 then Some(NoteForeign)
      else if |m| == 16 then Some(FolderNotFound)
      else if |m| == 14 then Some(NoteNotFound)
      else None;
    if candidate.Some? && Message(candidate.value) == m then candidate else None
  }

  /** Every message names its own error. */
  lemma MessageRoundTrip(e: Error)
    ensures ErrorOf(Message(e)) == Some(e)
  {
  }

  /** No two errors share a message, so a client can tell them apart. */
  lemma MessagesDistinct(e1: Error, e2: Error)
    requires e1 != e2
    ensures Message(e1) != Message(e2)
  {
    MessageRoundTrip(e1);
    MessageRoundTrip(e2);
  }

  /** HTTP status the error handler answers with: the handlers mark the two
      "not found" errors 404; every thrown error falls back to 500. */
  function Status(e: Error): (code: nat)
    ensures code == 404 <==> e.FolderNotFound? || e.NoteNotFound?
    ensures code != 404 ==> code == 500
  {
    if e.FolderNotFound? || e.NoteNotFound? then 404 else 500
  }

  /** Set-style insertion, as `$addToSet` and `if (!includes) push` do. */
  function AddToSet(s: seq<NoteId>, x: NoteId): (r: seq<NoteId>)
    ensures x in r
    ensures forall y :: y in r <==> y in s || y == x
    ensures x in s ==> r == s
    ensures x !in s ==> r == s + [x]
  {
    if x in s then s else s + [x]
  }

  /** `$pull`: every occurrence of `x` removed, the rest kept in order. */
  function Pull(s: seq<NoteId>, x: NoteId): (r: seq<NoteId>)
    ensures x !in r
    ensures forall y :: y in r <==> y in s && y != x
    ensures |r| <= |s|
    ensures multiset(r) == multiset(s)[x := 0]
  {
    if s == [] then []
    else
      assert s == [s[0]] + s[1..];
      if s[0] == x then Pull(s[1..], x)
      else [s[0]] + Pull(s[1..], x)
  }

  /** No id occurs twice. */
  predicate NoDup(s: seq<NoteId>)
  {
    forall i, j :: 0 <= i < j < |s| ==> s[i] != s[j]
  }

  lemma {:induction false} PullKeepsNoDup(s: seq<NoteId>, x: NoteId)
    requires NoDup(s)
    ensures NoDup(Pull(s, x))
  {
    if s != [] {
      assert NoDup(s[1..]) by {
        forall i, j | 0 <= i < j < |s[1..]| ensures s[1..][i] != s[1..][j] {
          assert s[1..][i] == s[i + 1] && s[1..][j] == s[j + 1];
        }
      }
      PullKeepsNoDup(s[1..], x);
      if s[0] != x {
        assert s[0] !in s[1..] by {
          forall k | 0 <= k < |s[1..]| ensures s[1..][k] != s[0] {
            assert s[1..][k] == s[k + 1];
          }
        }
        assert s[0] !in Pull(s[1..], x);
      }
    }
  }

  lemma AddToSetKeepsNoDup(s: seq<NoteId>, x: NoteId)
    requires NoDup(s)
    ensures NoDup(AddToSet(s, x))
  {
  }
}
