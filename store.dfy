/** The two collections as one mutable store, with the document operations
    the routes build on: a folder save (which runs the validation hook), the
    folder document's `addNote` method, and the query that lists the notes
    filed in a folder. */
module StoreModel {

  import opened Types
  import opened Hierarchy
  import opened Acyclicity
  import opened Consistency

  /** The hook a save runs for folder `id`: an existing folder checks that
      the walk does not reach it; a new id cannot be on any chain. */
  function SelfOf(fs: Folders, id: FolderId): (self: Option<FolderId>)
    ensures self.Some? <==> id in fs
    ensures self.Some? ==> self.value == id
  {
    if id in fs then Some(id) else None
  }

  class Store {
    var folders: Folders
    var notes: Notes

    /** Every folder's chain of parents ends, so the hook always answers. */
    ghost predicate Valid()
      reads this
    {
      Acyclic(folders)
    }

    constructor ()
      ensures Valid()
      ensures folders == map[] && notes == map[]
    {
      folders := map[];
      notes := map[];
    }

    /** `folder.save()` on folder `id` holding record `f` (Folder.js:27-53):
        the hook runs on the current collection and the record is written
        only when it passes. A new id must be one no folder names as its
        parent, as a fresh ObjectId is. */
    method SaveFolder(id: FolderId, f: Folder) returns (r: Result<()>)
      requires Valid()
      requires id in folders || forall k :: k in folders ==> folders[k].parent != Some(id)
      modifies this
      ensures Valid()
      ensures notes == old(notes)
      ensures r.Ok? <==> Guard(old(folders), f, SelfOf(old(folders), id)) == Pass
      ensures r.Ok? ==> folders == old(folders)[id := f]
      ensures r.Err? ==> folders == old(folders)
      ensures r.Err? ==> Guard(old(folders), f, SelfOf(old(folders), id)) == Reject(r.error)
      ensures Linked(old(folders), notes) ==> Linked(folders, notes)
    {
      var self := SelfOf(folders, id);
      GuardAnswers(folders, f, self);
      var g := RunGuard(folders, f, self);
      if g == Pass {
        PassedGuardKeepsAcyclic(folders, id, f, self);
        if Linked(folders, notes) {
          PassedGuardKeepsLinked(folders, notes, id, f, self);
        }
        folders := folders[id := f];
        r := Ok(());
      } else {
        r := Err(g.error);
      }
    }

    /** `folder.addNote(noteId, userId)` on folder `folderId`
        (Folder.js:55-73): the folder's owner, the note's existence and the
        note's owner are checked in that order; an id already cached is
        left alone without a save; otherwise the id is pushed and the folder
        saved. */
    method AddNote(folderId: FolderId, noteId: NoteId, userId: UserId) returns (r: Result<()>)
      requires Valid()
      requires folderId in folders
      modifies this
      ensures Valid()
      ensures notes == old(notes)
      ensures r.Err? ==> folders == old(folders)
      ensures old(folders)[folderId].user != userId ==> r == Err(FolderForeign)
      ensures old(folders)[folderId].user == userId && noteId !in notes ==> r == Err(NoteMissing)
      ensures old(folders)[folderId].user == userId && noteId in notes && notes[noteId].user != userId ==>
        r == Err(NoteForeign)
      ensures old(folders)[folderId].user == userId && noteId in notes && notes[noteId].user == userId ==>
        var f := old(folders)[folderId];
        var added := f.(notes := AddToSet(f.notes, noteId));
        && (r.Ok? <==> noteId in f.notes || Guard(old(folders), added, Some(folderId)) == Pass)
        && (r.Ok? ==> folders == old(folders)[folderId := added])
        && (r.Err? ==> Guard(old(folders), added, Some(folderId)) == Reject(r.error))
        && Guard(old(folders), added, Some(folderId)) == Guard(old(folders), added, None)
      ensures Linked(old(folders), notes) ==> Linked(folders, notes)
    {
      var folder := folders[folderId];
      if folder.user != userId {
        return Err(FolderForeign);
      }
      if noteId !in notes {
        return Err(NoteMissing);
      }
      if notes[noteId].user != userId {
        return Err(NoteForeign);
      }
      KeptParentGuardsAgree(folders, folderId, folder.(notes := AddToSet(folder.notes, noteId)));
      if noteId !in folder.notes {
        r := SaveFolder(folderId, folder.(notes := folder.notes + [noteId]));
      } else {
        assert folders == folders[folderId := folder.(notes := AddToSet(folder.notes, noteId))];
        r := Ok(());
      }
    }
  }

  /** `Note.find({folderId: p, user: u})` followed by the map to ids
      (folderRoutes.js:130-133): every note of user `u` filed in `p`,
      each once, in the order the scan meets them. */
  method CollectFiled(ns: Notes, p: FolderId, u: UserId) returns (ids: seq<NoteId>)
    ensures NoDup(ids)
    ensures forall n :: n in ids <==> n in ns && ns[n].folderId == Some(p) && ns[n].user == u
  {
    var rest := ns.Keys;
    ids := [];
    while rest != {}
      invariant rest <= ns.Keys
      invariant NoDup(ids)
      invariant forall n :: n in ids <==> n in ns && n !in rest && ns[n].folderId == Some(p) && ns[n].user == u
      decreases rest
    {
      var n :| n in rest;
      if ns[n].folderId == Some(p) && ns[n].user == u {
        ids := ids + [n];
      }
      rest := rest - {n};
    }
  }
}
