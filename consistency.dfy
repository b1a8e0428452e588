/** The central invariant of the two collections: a note's `folderId` and
    the folder's `notes` cache agree, in both directions, and references
    never cross owners. The state changes of the handlers are stated here as
    functions of the old state, with lemmas saying when each keeps the
    invariant. */
module Consistency {

  import opened Types
  import opened Hierarchy
  import opened Acyclicity

  type Notes = map<NoteId, Note>

  /** A note filed in an existing folder is in that folder's cache; every
      cached id is an existing note filed in that folder; no cache repeats
      an id. */
  ghost predicate CacheAgrees(fs: Folders, ns: Notes)
  {
    && (forall n :: n in ns && ns[n].folderId.Some? && ns[n].folderId.value in fs ==>
          n in fs[ns[n].folderId.value].notes)
    && (forall f, n :: f in fs && n in fs[f].notes ==> n in ns && ns[n].folderId == Some(f))
    && (forall f :: f in fs ==> NoDup(fs[f].notes))
  }

  /** A folder's existing parent and a note's existing folder have the same
      owner as the folder or note itself. */
  ghost predicate SameOwner(fs: Folders, ns: Notes)
  {
    && (forall f :: f in fs && fs[f].parent.Some? && fs[f].parent.value in fs ==>
          fs[fs[f].parent.value].user == fs[f].user)
    && (forall n :: n in ns && ns[n].folderId.Some? && ns[n].folderId.value in fs ==>
          fs[ns[n].folderId.value].user == ns[n].user)
  }

  ghost predicate Coherent(fs: Folders, ns: Notes)
  {
    CacheAgrees(fs, ns) && SameOwner(fs, ns)
  }

  /** The invariant read as the equivalence it promises. */
  lemma CoherentMembership(fs: Folders, ns: Notes, f: FolderId, n: NoteId)
    requires Coherent(fs, ns)
    requires f in fs && n in ns
    ensures ns[n].folderId == Some(f) <==> n in fs[f].notes
    ensures n in fs[f].notes ==> fs[f].user == ns[n].user
  {
  }

  /** No reference dangles: the parent a folder names and the folder a note
      is filed in exist. */
  ghost predicate Linked(fs: Folders, ns: Notes)
  {
    && (forall f :: f in fs && fs[f].parent.Some? ==> fs[f].parent.value in fs)
    && (forall n :: n in ns && ns[n].folderId.Some? ==> ns[n].folderId.value in fs)
  }

  /** A folder save the hook lets through names an existing parent, so no
      reference dangles afterwards. */
  lemma PassedGuardKeepsLinked(fs: Folders, ns: Notes, x: FolderId, f: Folder, self: Option<FolderId>)
    requires Linked(fs, ns)
    requires Guard(fs, f, self) == Pass
    ensures Linked(fs[x := f], ns)
  {
    assert f.parent.Some? ==> f.parent.value in fs;
  }

  /** Changing names and note caches only keeps every reference resolved. */
  lemma SameParentsKeepLinked(fs: Folders, gs: Folders, ns: Notes)
    requires Linked(fs, ns)
    requires gs.Keys == fs.Keys
    requires forall k :: k in fs ==> gs[k].parent == fs[k].parent
    ensures Linked(gs, ns)
  {
  }

  /** Storing a note unfiled or filed in an existing folder, or removing
      one, keeps every reference resolved. */
  lemma StoreNoteKeepsLinked(fs: Folders, ns: Notes, id: NoteId, n: Note)
    requires Linked(fs, ns)
    requires n.folderId.Some? ==> n.folderId.value in fs
    ensures Linked(fs, ns[id := n])
    ensures Linked(fs, ns - {id})
  {
  }

  /** An id that no folder or note refers to. */
  ghost predicate FreshFolderId(fs: Folders, ns: Notes, id: FolderId)
  {
    && id !in fs
    && (forall k :: k in fs ==> fs[k].parent != Some(id))
    && (forall n :: n in ns ==> ns[n].folderId != Some(id))
  }

  /** The ids of user `u`'s notes filed in folder `p`. */
  ghost function FiledIn(ns: Notes, p: FolderId, u: UserId): set<NoteId>
  {
    set n | n in ns && ns[n].folderId == Some(p) && ns[n].user == u
  }

  // Folder creation and reparenting.

  lemma NewFolderKeepsCoherent(fs: Folders, ns: Notes, id: FolderId, f: Folder)
    requires Coherent(fs, ns)
    requires FreshFolderId(fs, ns, id)
    requires f.notes == []
    requires f.parent.Some? && f.parent.value in fs ==> fs[f.parent.value].user == f.user
    ensures Coherent(fs[id := f], ns)
  {
  }

  /** Renaming or reparenting a folder keeps the invariant when the new
      parent, if it exists, has the folder's owner. */
  lemma ReparentKeepsCoherent(fs: Folders, ns: Notes, x: FolderId, name: string, parent: Option<FolderId>)
    requires Coherent(fs, ns)
    requires x in fs
    requires parent.Some? && parent.value in fs ==> fs[parent.value].user == fs[x].user
    ensures Coherent(fs[x := fs[x].(name := name, parent := parent)], ns)
  {
  }

  // Note creation.

  /** The stored note and, when its folder is the caller's, the folder with
      the id pushed onto its cache (noteRoutes.js:21-36). */
  lemma FiledNoteKeepsCoherent(fs: Folders, ns: Notes, id: NoteId, note: Note)
    requires Coherent(fs, ns)
    requires id !in ns
    requires note.folderId.Some? && note.folderId.value in fs
    requires fs[note.folderId.value].user == note.user
    ensures
      var f := note.folderId.value;
      Coherent(fs[f := fs[f].(notes := fs[f].notes + [id])], ns[id := note])
  {
    var f := note.folderId.value;
    var fs' := fs[f := fs[f].(notes := fs[f].notes + [id])];
    assert id !in fs[f].notes;
    assert NoDup(fs'[f].notes);
  }

  lemma UnfiledNoteKeepsCoherent(fs: Folders, ns: Notes, id: NoteId, note: Note)
    requires Coherent(fs, ns)
    requires id !in ns
    requires note.folderId.None?
    ensures Coherent(fs, ns[id := note])
  {
  }

  /** What a request gets back: an answer, or none when the handler never
      completes. */
  datatype Reply<+T> = Answer(result: Result<T>) | NoAnswer

  /** POST / as written (noteRoutes.js:21-41): the note is stored first;
      only then is its folder looked up among the caller's folders and, when
      found, saved with the id pushed onto its cache, through the hook as
      written. On a store with a cycle above the folder that save never
      completes and the request gets no answer. The caller is the note's
      user. */
  function CreateNoteAsWritten(fs: Folders, ns: Notes, id: NoteId, note: Note): (r: (Reply<NoteId>, Folders, Notes))
    ensures r.2 == ns[id := note]
    ensures note.folderId.None? ==> r.0 == Answer(Ok(id)) && r.1 == fs
    ensures note.folderId.Some? && (note.folderId.value !in fs || fs[note.folderId.value].user != note.user) ==>
      r.0 == Answer(Err(FolderNotFound)) && r.1 == fs
    ensures note.folderId.Some? && note.folderId.value in fs && fs[note.folderId.value].user == note.user ==>
      var f := note.folderId.value;
      var pushed := fs[f].(notes := fs[f].notes + [id]);
      && (r.0 == Answer(Ok(id)) <==> Guard(fs, pushed, None) == Pass)
      && (r.0 == NoAnswer <==> Guard(fs, pushed, None) == Hangs)
      && (Guard(fs, pushed, None).Reject? ==> r.0 == Answer(Err(Guard(fs, pushed, None).error)))
      && (r.0 == Answer(Ok(id)) ==> r.1 == fs[f := pushed])
      && (r.0 != Answer(Ok(id)) ==> r.1 == fs)
  {
    var stored := ns[id := note];
    match note.folderId
    case None => (Answer(Ok(id)), fs, stored)
    case Some(f) =>
      if f !in fs || fs[f].user != note.user then (Answer(Err(FolderNotFound)), fs, stored)
      else
        var pushed := fs[f].(notes := fs[f].notes + [id]);
        match Guard(fs, pushed, None)
        case Pass => (Answer(Ok(id)), fs[f := pushed], stored)
        case Reject(e) => (Answer(Err(e)), fs, stored)
        case Hangs => (NoAnswer, fs, stored)
  }

  /** On a store without cycles the creation as written always answers. */
  lemma CreateNoteAsWrittenAnswers(fs: Folders, ns: Notes, id: NoteId, note: Note)
    requires Acyclic(fs)
    ensures CreateNoteAsWritten(fs, ns, id, note).0.Answer?
  {
    if note.folderId.Some? && note.folderId.value in fs {
      var f := note.folderId.value;
      GuardAnswers(fs, fs[f].(notes := fs[f].notes + [id]), None);
    }
  }

  /** A single root folder of user 7. */
  const OneFolder: Folders := map[1 := Folder("A", None, [], 7)]

  /** Creating a note of user 8 in user 7's folder answers "Folder not
      found" and still stores the note, filed in a folder whose cache does
      not hold it and whose owner is someone else. */
  lemma CreateNoteAsWrittenOrphans()
    ensures Acyclic(OneFolder) && Coherent(OneFolder, map[])
    ensures
      var r := CreateNoteAsWritten(OneFolder, map[], 5, Note("t", "", "", "", Some(1), 8));
      r.0 == Answer(Err(FolderNotFound)) && 5 in r.2 && !Coherent(r.1, r.2)
  {
    assert |OneFolder| == 1 by { assert OneFolder.Keys == {1}; }
    assert Hops(OneFolder, 1, 1) == Some(0);
    var r := CreateNoteAsWritten(OneFolder, map[], 5, Note("t", "", "", "", Some(1), 8));
    assert 5 in r.2 && r.2[5].folderId == Some(1) && 1 in r.1 && 5 !in r.1[1].notes;
  }

  /** After the move as written has made folders 1 and 2 each other's parent,
      creating a note in folder 1 stores the note and never answers. */
  lemma CreateNoteAsWrittenHangs()
    ensures
      var fs := TwoLevels[1 := TwoLevels[1].(parent := Some(2))];
      var r := CreateNoteAsWritten(fs, map[], 5, Note("t", "", "", "", Some(1), 7));
      r.0 == NoAnswer && 5 in r.2 && r.1 == fs
  {
    var fs := TwoLevels[1 := TwoLevels[1].(parent := Some(2))];
    assert |fs| == 2 by { assert fs.Keys == {1, 2}; }
    assert Walk(fs, 2, None, 2) == Diverges;
  }

  // Updating a note.

  /** Changing a note's text fields, and not its folder or owner, keeps the
      invariant (noteRoutes.js:86-90). */
  lemma RetextKeepsCoherent(fs: Folders, ns: Notes, id: NoteId, n: Note)
    requires Coherent(fs, ns)
    requires id in ns && n.folderId == ns[id].folderId && n.user == ns[id].user
    ensures Coherent(fs, ns[id := n])
  {
  }

  // Moving a note.

  /** `findOneAndUpdate({_id: f, user: u}, {$pull: {notes: id}})`: the id
      leaves the cache of folder `f` if that folder is user `u`'s. */
  function PullOwned(fs: Folders, f: FolderId, u: UserId, id: NoteId): (r: Folders)
    ensures r.Keys == fs.Keys
    ensures f in fs && fs[f].user == u ==> r == fs[f := fs[f].(notes := Pull(fs[f].notes, id))]
    ensures !(f in fs && fs[f].user == u) ==> r == fs
  {
    if f in fs && fs[f].user == u then fs[f := fs[f].(notes := Pull(fs[f].notes, id))] else fs
  }

  /** `findOneAndUpdate({_id: f, user: u}, {$addToSet: {notes: id}})`. */
  function AddOwned(fs: Folders, f: FolderId, u: UserId, id: NoteId): (r: Folders)
    ensures r.Keys == fs.Keys
    ensures f in fs && fs[f].user == u ==> r == fs[f := fs[f].(notes := AddToSet(fs[f].notes, id))]
    ensures !(f in fs && fs[f].user == u) ==> r == fs
  {
    if f in fs && fs[f].user == u then fs[f := fs[f].(notes := AddToSet(fs[f].notes, id))] else fs
  }

  /** `findOneAndUpdate({_id: f, user: u}, {notes: ids})`: the cache of
      folder `f`, if it is user `u`'s, is overwritten. */
  function OverwriteOwned(fs: Folders, f: FolderId, u: UserId, ids: seq<NoteId>): (r: Folders)
    ensures r.Keys == fs.Keys
    ensures f in fs && fs[f].user == u ==> r == fs[f := fs[f].(notes := ids)]
    ensures !(f in fs && fs[f].user == u) ==> r == fs
  {
    if f in fs && fs[f].user == u then fs[f := fs[f].(notes := ids)] else fs
  }

  /** The state after PATCH /:id/folder on note `id` of user `u`
      (noteRoutes.js:112-133): the note points at the new folder; the id is
      pulled from the old folder's cache when the folder changes, and added
      to the new folder's cache with set semantics. */
  function MoveNoteState(fs: Folders, ns: Notes, u: UserId, id: NoteId, target: Option<FolderId>): (r: (Folders, Notes))
    requires id in ns
    ensures r.1 == ns[id := ns[id].(folderId := target)]
    ensures r.0.Keys == fs.Keys
  {
    var was := ns[id].folderId;
    var fs1 := if was.Some? && was != target then PullOwned(fs, was.value, u, id) else fs;
    var fs2 := if target.Some? then AddOwned(fs1, target.value, u, id) else fs1;
    (fs2, ns[id := ns[id].(folderId := target)])
  }

  /** PATCH /:id/folder as written does not look the target folder up:
      moving user 7's note into user 8's folder stores the move, the cache
      update finds no folder of user 7 to change, and the invariant breaks. */
  lemma MoveNoteAsWrittenForeign()
    ensures
      var fs := map[1 := Folder("A", None, [5], 7), 2 := Folder("B", None, [], 8)];
      var ns := map[5 := Note("t", "", "", "", Some(1), 7)];
      && Coherent(fs, ns)
      && MoveNoteState(fs, ns, 7, 5, Some(2)).1[5].folderId == Some(2)
      && !Coherent(MoveNoteState(fs, ns, 7, 5, Some(2)).0, MoveNoteState(fs, ns, 7, 5, Some(2)).1)
  {
    var fs := map[1 := Folder("A", None, [5], 7), 2 := Folder("B", None, [], 8)];
    var ns := map[5 := Note("t", "", "", "", Some(1), 7)];
    var r := MoveNoteState(fs, ns, 7, 5, Some(2));
    assert r.0[2] == fs[2];
    assert 5 in r.1 && r.1[5].folderId == Some(2) && 5 !in r.0[2].notes;
  }

  /** Taking a note out of its folder: the id is pulled from that folder's
      cache and the note becomes unfiled. */
  lemma DetachKeepsCoherent(fs: Folders, ns: Notes, u: UserId, id: NoteId)
    requires Coherent(fs, ns)
    requires id in ns && ns[id].user == u && ns[id].folderId.Some?
    ensures
      var fs1 := PullOwned(fs, ns[id].folderId.value, u, id);
      Coherent(fs1, ns[id := ns[id].(folderId := None)]) && forall f :: f in fs1 ==> id !in fs1[f].notes
  {
    var was := ns[id].folderId.value;
    if was in fs {
      PullKeepsNoDup(fs[was].notes, id);
    }
  }

  /** Filing an unfiled note in `target` with set-style insertion. */
  lemma AttachKeepsCoherent(fs: Folders, ns: Notes, u: UserId, id: NoteId, target: Option<FolderId>)
    requires Coherent(fs, ns)
    requires id in ns && ns[id].user == u && ns[id].folderId.None?
    requires target.Some? && target.value in fs ==> fs[target.value].user == u
    ensures
      var fs2 := if target.Some? then AddOwned(fs, target.value, u, id) else fs;
      Coherent(fs2, ns[id := ns[id].(folderId := target)])
  {
    if target.Some? && target.value in fs {
      AddToSetKeepsNoDup(fs[target.value].notes, id);
    }
  }

  /** Moving a note keeps the invariant, unless the target is another
      user's folder: the target check filters by owner but the note is
      moved regardless. */
  lemma MoveNoteKeepsCoherent(fs: Folders, ns: Notes, u: UserId, id: NoteId, target: Option<FolderId>)
    requires Coherent(fs, ns)
    requires id in ns && ns[id].user == u
    requires target.Some? && target.value in fs ==> fs[target.value].user == u
    ensures Coherent(MoveNoteState(fs, ns, u, id, target).0, MoveNoteState(fs, ns, u, id, target).1)
  {
    var was := ns[id].folderId;
    if was == target {
      if target.Some? && target.value in fs {
        var t := target.value;
        assert id in fs[t].notes;
        assert AddOwned(fs, t, u, id) == fs;
      }
      assert ns[id := ns[id].(folderId := target)] == ns;
    } else {
      var fs1 := if was.Some? then PullOwned(fs, was.value, u, id) else fs;
      var ns1 := ns[id := ns[id].(folderId := None)];
      if was.Some? {
        DetachKeepsCoherent(fs, ns, u, id);
      } else {
        assert ns1 == ns;
      }
      AttachKeepsCoherent(fs1, ns1, u, id, target);
      assert ns1[id := ns1[id].(folderId := target)] == ns[id := ns[id].(folderId := target)];
    }
  }

  /** Moving a note to no folder or to an existing one keeps every
      reference resolved. */
  lemma MoveNoteKeepsLinked(fs: Folders, ns: Notes, u: UserId, id: NoteId, target: Option<FolderId>)
    requires Linked(fs, ns)
    requires id in ns
    requires target.Some? ==> target.value in fs
    ensures Linked(MoveNoteState(fs, ns, u, id, target).0, MoveNoteState(fs, ns, u, id, target).1)
  {
    var r := MoveNoteState(fs, ns, u, id, target);
    assert forall k :: k in fs ==> r.0[k].parent == fs[k].parent;
    StoreNoteKeepsLinked(fs, ns, id, ns[id].(folderId := target));
    SameParentsKeepLinked(fs, r.0, r.1);
  }

  /** Moving a note twice to the same folder ends as moving it once. */
  lemma MoveNoteIdempotent(fs: Folders, ns: Notes, u: UserId, id: NoteId, target: Option<FolderId>)
    requires id in ns
    ensures
      var once := MoveNoteState(fs, ns, u, id, target);
      MoveNoteState(once.0, once.1, u, id, target) == once
  {
    var once := MoveNoteState(fs, ns, u, id, target);
    assert once.1[id].folderId == target;
    assert once.1[id := once.1[id].(folderId := target)] == once.1;
    if target.Some? {
      var t := target.value;
      if t in once.0 && once.0[t].user == u {
        assert id in once.0[t].notes;
        assert AddToSet(once.0[t].notes, id) == once.0[t].notes;
        assert AddOwned(once.0, t, u, id) == once.0;
      }
    }
  }

  /** After a move to an existing folder of the caller, the folder's cache
      holds the note exactly once. */
  lemma MovedNoteCachedOnce(fs: Folders, ns: Notes, u: UserId, id: NoteId, f: FolderId)
    requires Coherent(fs, ns)
    requires id in ns && ns[id].user == u
    requires f in fs && fs[f].user == u
    ensures id in MoveNoteState(fs, ns, u, id, Some(f)).0[f].notes
    ensures multiset(MoveNoteState(fs, ns, u, id, Some(f)).0[f].notes)[id] == 1
  {
    MoveNoteKeepsCoherent(fs, ns, u, id, Some(f));
    var s := MoveNoteState(fs, ns, u, id, Some(f)).0[f].notes;
    NoDupOnce(s, id);
  }

  /** The set-style insert of `addNote` and `$addToSet`: a second insert of
      the same id changes nothing, and on a cache without repeats the id
      ends up there exactly once with every other entry's count unchanged. */
  lemma AddToSetOnce(s: seq<NoteId>, x: NoteId)
    requires NoDup(s)
    ensures AddToSet(AddToSet(s, x), x) == AddToSet(s, x)
    ensures NoDup(AddToSet(s, x))
    ensures multiset(AddToSet(s, x))[x] == 1
    ensures forall y :: y != x ==> multiset(AddToSet(s, x))[y] == multiset(s)[y]
  {
    AddToSetKeepsNoDup(s, x);
    NoDupOnce(AddToSet(s, x), x);
  }

  lemma {:induction false} NoDupOnce(s: seq<NoteId>, x: NoteId)
    requires NoDup(s) && x in s
    ensures multiset(s)[x] == 1
  {
    if s[0] == x {
      assert x !in s[1..] by {
        forall k | 0 <= k < |s[1..]| ensures s[1..][k] != x {
          assert s[1..][k] == s[k + 1];
        }
      }
      assert s == [s[0]] + s[1..];
    } else {
      assert NoDup(s[1..]) by {
        forall i, j | 0 <= i < j < |s[1..]| ensures s[1..][i] != s[1..][j] {
          assert s[1..][i] == s[i + 1] && s[1..][j] == s[j + 1];
        }
      }
      NoDupOnce(s[1..], x);
      assert s == [s[0]] + s[1..];
    }
  }

  // Deleting a note.

  /** The state after DELETE /:id on note `id` of user `u`
      (noteRoutes.js:151-158). */
  function DeleteNoteState(fs: Folders, ns: Notes, u: UserId, id: NoteId): (r: (Folders, Notes))
    requires id in ns
    ensures id !in r.1 && r.1 == ns - {id}
    ensures r.0.Keys == fs.Keys
  {
    var f := ns[id].folderId;
    (if f.Some? then PullOwned(fs, f.value, u, id) else fs, ns - {id})
  }

  lemma DeleteNoteKeepsCoherent(fs: Folders, ns: Notes, u: UserId, id: NoteId)
    requires Coherent(fs, ns)
    requires id in ns && ns[id].user == u
    ensures Coherent(DeleteNoteState(fs, ns, u, id).0, DeleteNoteState(fs, ns, u, id).1)
    ensures forall f :: f in fs ==> id !in DeleteNoteState(fs, ns, u, id).0[f].notes
  {
    var f := ns[id].folderId;
    if f.Some? && f.value in fs {
      PullKeepsNoDup(fs[f.value].notes, id);
    }
  }

  // Deleting a folder.

  /** The note side of the cascade: user `u`'s notes filed in `x` are
      refiled in `p` (folderRoutes.js:124-127). */
  function RelinkNotes(ns: Notes, x: FolderId, u: UserId, p: Option<FolderId>): (r: Notes)
    ensures r.Keys == ns.Keys
    ensures forall n :: n in r && ns[n].folderId == Some(x) && ns[n].user == u ==> r[n] == ns[n].(folderId := p)
    ensures forall n :: n in r && (ns[n].folderId != Some(x) || ns[n].user != u) ==> r[n] == ns[n]
  {
    map n | n in ns :: if ns[n].folderId == Some(x) && ns[n].user == u then ns[n].(folderId := p) else ns[n]
  }

  /** The parent's cache overwritten with `ids` (folderRoutes.js:129-135). */
  function Rebuild(fs: Folders, p: Option<FolderId>, u: UserId, ids: seq<NoteId>): (r: Folders)
    ensures r.Keys == fs.Keys
  {
    if p.Some? then OverwriteOwned(fs, p.value, u, ids) else fs
  }

  /** The state after DELETE /:id on folder `x` of user `u`, given the ids
      the rebuild collected. */
  function CascadeState(fs: Folders, ns: Notes, x: FolderId, u: UserId, ids: seq<NoteId>): (r: (Folders, Notes))
    requires x in fs
    ensures r.0.Keys == fs.Keys - {x}
    ensures r.1.Keys == ns.Keys
  {
    var p := fs[x].parent;
    (Rebuild(RelinkChildren(fs, x, u, p), p, u, ids), RelinkNotes(ns, x, u, p))
  }

  /** What the cascade leaves: the folder gone, its children and notes
      under its parent, every other record as it was, and the parent's cache
      holding each note now filed there exactly once. */
  lemma CascadeShape(fs: Folders, ns: Notes, x: FolderId, u: UserId, ids: seq<NoteId>)
    requires x in fs
    requires fs[x].parent.Some? ==>
      NoDup(ids) && forall n :: n in ids <==> n in FiledIn(RelinkNotes(ns, x, u, fs[x].parent), fs[x].parent.value, u)
    ensures
      var p := fs[x].parent;
      var relinked := RelinkChildren(fs, x, u, p);
      var r := CascadeState(fs, ns, x, u, ids);
      && r.1 == RelinkNotes(ns, x, u, p)
      && r.0.Keys == fs.Keys - {x}
      && (forall k :: k in r.0 ==> r.0[k].(notes := relinked[k].notes) == relinked[k])
      && (forall k :: k in r.0 && !(p == Some(k) && relinked[k].user == u) ==> r.0[k] == relinked[k])
      && (p.Some? && p.value in r.0 && r.0[p.value].user == u ==>
            && NoDup(r.0[p.value].notes)
            && forall n :: n in r.0[p.value].notes <==> n in FiledIn(r.1, p.value, u))
  {
  }

  /** The cascade keeps the invariant: the moved notes land in the parent,
      whose cache is rebuilt from exactly the notes filed there. */
  lemma CascadeKeepsCoherent(fs: Folders, ns: Notes, x: FolderId, u: UserId, ids: seq<NoteId>)
    requires Coherent(fs, ns)
    requires x in fs && fs[x].user == u
    requires fs[x].parent.Some? ==>
      NoDup(ids) && forall n :: n in ids <==> n in FiledIn(RelinkNotes(ns, x, u, fs[x].parent), fs[x].parent.value, u)
    ensures Coherent(CascadeState(fs, ns, x, u, ids).0, CascadeState(fs, ns, x, u, ids).1)
  {
    var p := fs[x].parent;
    var fs1 := RelinkChildren(fs, x, u, p);
    var fs2 := CascadeState(fs, ns, x, u, ids).0;
    var ns' := RelinkNotes(ns, x, u, p);
    assert p.Some? && p.value in fs ==> fs[p.value].user == u;
    CascadeAgreesForward(fs, ns, x, u, ids);
    CascadeAgreesBackward(fs, ns, x, u, ids);
    assert forall f :: f in fs2 ==> NoDup(fs2[f].notes) by {
      forall f | f in fs2 ensures NoDup(fs2[f].notes) {
        if p.Some? && f == p.value && fs1[f].user == u {
          assert fs2[f].notes == ids;
        } else {
          assert fs2[f].notes == fs[f].notes;
        }
      }
    }
    forall f | f in fs2 && fs2[f].parent.Some? && fs2[f].parent.value in fs2
      ensures fs2[fs2[f].parent.value].user == fs2[f].user
    {
      assert fs2[f].user == fs[f].user;
    }
  }

  lemma CascadeAgreesForward(fs: Folders, ns: Notes, x: FolderId, u: UserId, ids: seq<NoteId>)
    requires Coherent(fs, ns)
    requires x in fs && fs[x].user == u
    requires fs[x].parent.Some? ==>
      forall n :: n in ids <==> n in FiledIn(RelinkNotes(ns, x, u, fs[x].parent), fs[x].parent.value, u)
    ensures
      var r := CascadeState(fs, ns, x, u, ids);
      forall n :: n in r.1 && r.1[n].folderId.Some? && r.1[n].folderId.value in r.0 ==>
        n in r.0[r.1[n].folderId.value].notes && r.0[r.1[n].folderId.value].user == r.1[n].user
  {
    var p := fs[x].parent;
    var r := CascadeState(fs, ns, x, u, ids);
    var ns' := r.1;
    forall n | n in ns' && ns'[n].folderId.Some? && ns'[n].folderId.value in r.0
      ensures n in r.0[ns'[n].folderId.value].notes && r.0[ns'[n].folderId.value].user == ns'[n].user
    {
      var f := ns'[n].folderId.value;
      assert f in fs && f != x;
      if p.Some? && f == p.value && fs[f].user == u {
        assert ns'[n].user == u;
        assert n in FiledIn(ns', f, u);
      } else {
        assert ns[n].folderId == Some(f);
        assert r.0[f].notes == fs[f].notes;
      }
    }
  }

  lemma CascadeAgreesBackward(fs: Folders, ns: Notes, x: FolderId, u: UserId, ids: seq<NoteId>)
    requires Coherent(fs, ns)
    requires x in fs && fs[x].user == u
    requires fs[x].parent.Some? ==>
      forall n :: n in ids <==> n in FiledIn(RelinkNotes(ns, x, u, fs[x].parent), fs[x].parent.value, u)
    ensures
      var r := CascadeState(fs, ns, x, u, ids);
      forall f, n :: f in r.0 && n in r.0[f].notes ==> n in r.1 && r.1[n].folderId == Some(f)
  {
    var p := fs[x].parent;
    var r := CascadeState(fs, ns, x, u, ids);
    forall f, n | f in r.0 && n in r.0[f].notes ensures n in r.1 && r.1[n].folderId == Some(f) {
      if p.Some? && f == p.value && fs[f].user == u {
        assert n in ids;
      } else {
        assert n in fs[f].notes;
        assert ns[n].folderId == Some(f);
      }
    }
  }

  /** The cascade leaves no reference dangling when owners never cross:
      the deleted folder's parent is not the folder itself (the store has
      no cycle), and every child and note it held is the caller's, so all of
      them move up. */
  lemma CascadeKeepsLinked(fs: Folders, ns: Notes, x: FolderId, u: UserId, ids: seq<NoteId>)
    requires Linked(fs, ns) && SameOwner(fs, ns) && Acyclic(fs)
    requires x in fs && fs[x].user == u
    ensures Linked(CascadeState(fs, ns, x, u, ids).0, CascadeState(fs, ns, x, u, ids).1)
  {
    var p := fs[x].parent;
    if p.Some? {
      ParentChainAvoids(fs, x);
    }
    var r := CascadeState(fs, ns, x, u, ids);
    var fs1 := RelinkChildren(fs, x, u, p);
    assert forall k :: k in r.0 ==> r.0[k].parent == fs1[k].parent;
    forall k | k in r.0 && r.0[k].parent.Some? ensures r.0[k].parent.value in r.0 {
      if fs[k].parent == Some(x) {
        assert fs[k].user == u;
      }
    }
    forall n | n in r.1 && r.1[n].folderId.Some? ensures r.1[n].folderId.value in r.0 {
      if ns[n].folderId == Some(x) {
        assert ns[n].user == u;
      }
    }
  }
}
