/** The note routes on the store, each after its request body has passed
    the note schema (where the route validates) and for the authenticated
    user `user`. Update and delete follow the source. Creation and moving
    are the corrected ones: both look the folder up among the caller's
    folders before anything is written, and answer "Folder not found"
    otherwise. The routes as written are `Consistency.CreateNoteAsWritten`
    and `Consistency.MoveNoteState` with any target. */
module NoteRoutes {

  import opened Types
  import opened Hierarchy
  import opened Acyclicity
  import opened Consistency
  import opened StoreModel

  /** A new note document: absent text fields take the schema default, the
      empty string. */
  function NewNote(title: string, keyPoints: Field<string>, detailedNotes: Field<string>, summary: Field<string>,
                   folderId: Option<FolderId>, user: UserId): (n: Note)
    ensures n.title == title && n.folderId == folderId && n.user == user
    ensures keyPoints.Keep? ==> n.keyPoints == ""
    ensures keyPoints.Assign? ==> n.keyPoints == keyPoints.value
    ensures detailedNotes.Keep? ==> n.detailedNotes == ""
    ensures detailedNotes.Assign? ==> n.detailedNotes == detailedNotes.value
    ensures summary.Keep? ==> n.summary == ""
    ensures summary.Assign? ==> n.summary == summary.value
  {
    Note(title, Apply(keyPoints, ""), Apply(detailedNotes, ""), Apply(summary, ""), folderId, user)
  }

  /** POST / (noteRoutes.js:17-44), corrected: the folder, when one is
      named, is looked up among the caller's folders first; then the note
      is saved under the fresh id `id` and its id pushed onto the folder's
      cache by a folder save. */
  method CreateNote(s: Store, user: UserId, title: string, keyPoints: Field<string>, detailedNotes: Field<string>,
                    summary: Field<string>, folderId: Option<FolderId>, id: NoteId) returns (r: Result<NoteId>)
    requires s.Valid()
    requires id !in s.notes
    modifies s
    ensures s.Valid()
    ensures folderId.None? ==>
      r == Ok(id) && s.folders == old(s.folders) &&
      s.notes == old(s.notes)[id := NewNote(title, keyPoints, detailedNotes, summary, folderId, user)]
    ensures folderId.Some? && (folderId.value !in old(s.folders) || old(s.folders)[folderId.value].user != user) ==>
      r == Err(FolderNotFound) && s.folders == old(s.folders) && s.notes == old(s.notes)
    ensures folderId.Some? && folderId.value in old(s.folders) && old(s.folders)[folderId.value].user == user ==>
      var f := folderId.value;
      var pushed := old(s.folders)[f].(notes := old(s.folders)[f].notes + [id]);
      && s.notes == old(s.notes)[id := NewNote(title, keyPoints, detailedNotes, summary, folderId, user)]
      && (r.Ok? <==> Guard(old(s.folders), pushed, Some(f)) == Pass)
      && (r.Ok? ==> r.value == id && s.folders == old(s.folders)[f := pushed])
      && (r.Err? ==> s.folders == old(s.folders) && Guard(old(s.folders), pushed, Some(f)) == Reject(r.error))
      && Guard(old(s.folders), pushed, Some(f)) == Guard(old(s.folders), pushed, None)
    ensures r.Ok? && Coherent(old(s.folders), old(s.notes)) ==> Coherent(s.folders, s.notes)
    ensures Linked(old(s.folders), old(s.notes)) ==> Linked(s.folders, s.notes)
  {
    var note := NewNote(title, keyPoints, detailedNotes, summary, folderId, user);
    ghost var fs, ns := s.folders, s.notes;
    if folderId.None? {
      if Coherent(fs, ns) {
        UnfiledNoteKeepsCoherent(fs, ns, id, note);
      }
      s.notes := s.notes[id := note];
      return Ok(id);
    }
    var f := folderId.value;
    if f !in s.folders || s.folders[f].user != user {
      return Err(FolderNotFound);
    }
    KeptParentGuardsAgree(s.folders, f, s.folders[f].(notes := s.folders[f].notes + [id]));
    s.notes := s.notes[id := note];
    var saved := s.SaveFolder(f, s.folders[f].(notes := s.folders[f].notes + [id]));
    if saved.Ok? {
      if Coherent(fs, ns) {
        FiledNoteKeepsCoherent(fs, ns, id, note);
      }
      r := Ok(id);
    } else {
      r := Err(saved.error);
    }
  }

  /** PUT /:id (noteRoutes.js:83-96): the caller's note takes the new title
      and each text field the body carries; its folder and owner stay. */
  method UpdateNote(s: Store, user: UserId, id: NoteId, title: string, keyPoints: Field<string>,
                    detailedNotes: Field<string>, summary: Field<string>) returns (r: Result<Note>)
    requires s.Valid()
    modifies s
    ensures s.Valid()
    ensures s.folders == old(s.folders)
    ensures r.Err? <==> id !in old(s.notes) || old(s.notes)[id].user != user
    ensures r.Err? ==> r.error == NoteNotFound && s.notes == old(s.notes)
    ensures r.Ok? ==>
      var n := old(s.notes)[id];
      && r.value == n.(title := title, keyPoints := Apply(keyPoints, n.keyPoints),
                       detailedNotes := Apply(detailedNotes, n.detailedNotes), summary := Apply(summary, n.summary))
      && s.notes == old(s.notes)[id := r.value]
    ensures r.Ok? ==> r.value.folderId == old(s.notes)[id].folderId && r.value.user == user
    ensures Coherent(old(s.folders), old(s.notes)) ==> Coherent(s.folders, s.notes)
    ensures Linked(old(s.folders), old(s.notes)) ==> Linked(s.folders, s.notes)
  {
    if id !in s.notes || s.notes[id].user != user {
      return Err(NoteNotFound);
    }
    var n := s.notes[id];
    var updated := n.(title := title, keyPoints := Apply(keyPoints, n.keyPoints),
                      detailedNotes := Apply(detailedNotes, n.detailedNotes), summary := Apply(summary, n.summary));
    ghost var ns := s.notes;
    s.notes := s.notes[id := updated];
    if Coherent(s.folders, ns) {
      RetextKeepsCoherent(s.folders, ns, id, updated);
    }
    r := Ok(updated);
  }

  /** PATCH /:id/folder (noteRoutes.js:105-134), corrected: the target, when
      one is given, must be a folder of the caller. The note then points at
      it, is pulled from its old folder's cache when the folder changes and
      added to the target's cache. */
  method MoveNote(s: Store, user: UserId, id: NoteId, target: Option<FolderId>) returns (r: Result<Note>)
    requires s.Valid()
    modifies s
    ensures s.Valid()
    ensures id !in old(s.notes) || old(s.notes)[id].user != user ==>
      r == Err(NoteNotFound) && s.folders == old(s.folders) && s.notes == old(s.notes)
    ensures id in old(s.notes) && old(s.notes)[id].user == user && target.Some? ==>
      target.value !in old(s.folders) || old(s.folders)[target.value].user != user ==>
      r == Err(FolderNotFound) && s.folders == old(s.folders) && s.notes == old(s.notes)
    ensures r.Ok? <==>
      id in old(s.notes) && old(s.notes)[id].user == user &&
      (target.Some? ==> target.value in old(s.folders) && old(s.folders)[target.value].user == user)
    ensures r.Ok? ==>
      && (s.folders, s.notes) == MoveNoteState(old(s.folders), old(s.notes), user, id, target)
      && r.value == s.notes[id]
    ensures Coherent(old(s.folders), old(s.notes)) ==> Coherent(s.folders, s.notes)
    ensures Linked(old(s.folders), old(s.notes)) ==> Linked(s.folders, s.notes)
  {
    if id !in s.notes || s.notes[id].user != user {
      return Err(NoteNotFound);
    }
    if target.Some? && (target.value !in s.folders || s.folders[target.value].user != user) {
      return Err(FolderNotFound);
    }
    ghost var fs, ns := s.folders, s.notes;
    var was := s.notes[id].folderId;
    s.notes := s.notes[id := s.notes[id].(folderId := target)];
    if was.Some? && was != target {
      ghost var before := s.folders;
      s.folders := PullOwned(s.folders, was.value, user, id);
      SameParentsKeepAcyclic(before, s.folders);
    }
    if target.Some? {
      ghost var before := s.folders;
      s.folders := AddOwned(s.folders, target.value, user, id);
      SameParentsKeepAcyclic(before, s.folders);
    }
    if Coherent(fs, ns) {
      MoveNoteKeepsCoherent(fs, ns, user, id, target);
    }
    if Linked(fs, ns) {
      MoveNoteKeepsLinked(fs, ns, user, id, target);
    }
    r := Ok(s.notes[id]);
  }

  /** DELETE /:id (noteRoutes.js:146-160): the caller's note is removed and
      its id pulled from its folder's cache. */
  method DeleteNote(s: Store, user: UserId, id: NoteId) returns (r: Result<()>)
    requires s.Valid()
    modifies s
    ensures s.Valid()
    ensures r.Err? <==> id !in old(s.notes) || old(s.notes)[id].user != user
    ensures r.Err? ==> r.error == NoteNotFound && s.folders == old(s.folders) && s.notes == old(s.notes)
    ensures r.Ok? ==> (s.folders, s.notes) == DeleteNoteState(old(s.folders), old(s.notes), user, id)
    ensures Coherent(old(s.folders), old(s.notes)) ==> Coherent(s.folders, s.notes)
    ensures Linked(old(s.folders), old(s.notes)) ==> Linked(s.folders, s.notes)
  {
    if id !in s.notes || s.notes[id].user != user {
      return Err(NoteNotFound);
    }
    ghost var fs, ns := s.folders, s.notes;
    var folder := s.notes[id].folderId;
    s.notes := s.notes - {id};
    if folder.Some? {
      s.folders := PullOwned(s.folders, folder.value, user, id);
      SameParentsKeepAcyclic(fs, s.folders);
    }
    if Coherent(fs, ns) {
      DeleteNoteKeepsCoherent(fs, ns, user, id);
    }
    r := Ok(());
  }
}
