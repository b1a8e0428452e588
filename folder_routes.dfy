/** The folder routes on the store, each after its request body has passed
    the folder schema and for the authenticated user `user`. Creation and
    deletion follow the source; the two reparenting routes are the
    corrected ones: both save the folder document so that the validation
    hook runs, and the hook refuses a parent that is the folder itself or
    lies below it. The routes as written are `Acyclicity.MoveAsWritten` and
    `Acyclicity.UpdateAsWritten`. */
module FolderRoutes {

  import opened Types
  import opened Hierarchy
  import opened Acyclicity
  import opened Consistency
  import opened StoreModel

  /** POST / (folderRoutes.js:16-28): a new folder document under the fresh
      id `id`, saved through the hook. */
  method CreateFolder(s: Store, user: UserId, name: string, parent: Option<FolderId>, id: FolderId)
    returns (r: Result<FolderId>)
    requires s.Valid()
    requires FreshFolderId(s.folders, s.notes, id)
    modifies s
    ensures s.Valid()
    ensures s.notes == old(s.notes)
    ensures r.Ok? <==> Guard(old(s.folders), NewFolder(name, parent, user), None) == Pass
    ensures r.Ok? ==> r.value == id && s.folders == old(s.folders)[id := NewFolder(name, parent, user)]
    ensures r.Ok? ==> Level(s.folders, id).Some? && Level(s.folders, id).value <= 3
    ensures r.Err? ==> s.folders == old(s.folders)
    ensures r.Err? ==> Guard(old(s.folders), NewFolder(name, parent, user), None) == Reject(r.error)
    ensures Coherent(old(s.folders), old(s.notes)) ==> Coherent(s.folders, s.notes)
    ensures Linked(old(s.folders), old(s.notes)) ==> Linked(s.folders, s.notes)
  {
    ghost var fs := s.folders;
    var f := NewFolder(name, parent, user);
    var saved := s.SaveFolder(id, f);
    if saved.Ok? {
      PassedGuardLevel(fs, id, f, None);
      if Coherent(fs, s.notes) {
        NewFolderKeepsCoherent(fs, s.notes, id, f);
      }
      r := Ok(id);
    } else {
      r := Err(saved.error);
    }
  }

  /** PUT /:id (folderRoutes.js:38-51), corrected: the caller's folder is
      loaded, given the new name and, when the body has one, the new parent,
      and saved through the hook. An absent `parentFolder` keeps the stored
      parent, as the update as written does. */
  method UpdateFolder(s: Store, user: UserId, id: FolderId, name: string, parent: Field<Option<FolderId>>)
    returns (r: Result<Folder>)
    requires s.Valid()
    modifies s
    ensures s.Valid()
    ensures s.notes == old(s.notes)
    ensures id !in old(s.folders) || old(s.folders)[id].user != user ==>
      r == Err(FolderNotFound) && s.folders == old(s.folders)
    ensures id in old(s.folders) && old(s.folders)[id].user == user ==>
      var f := old(s.folders)[id].(name := name, parent := Apply(parent, old(s.folders)[id].parent));
      && (r.Ok? <==> Guard(old(s.folders), f, Some(id)) == Pass)
      && (r.Ok? ==> r.value == f && s.folders == old(s.folders)[id := f])
      && (r.Err? ==> s.folders == old(s.folders) && Guard(old(s.folders), f, Some(id)) == Reject(r.error))
    ensures r.Ok? ==> Level(s.folders, id).Some? && Level(s.folders, id).value <= 3
    ensures r.Ok? && r.value.parent.Some? ==>
      Avoids(old(s.folders), r.value.parent.value, id, |old(s.folders)|)
    ensures Coherent(old(s.folders), old(s.notes)) ==> Coherent(s.folders, s.notes)
    ensures Linked(old(s.folders), old(s.notes)) ==> Linked(s.folders, s.notes)
  {
    if id !in s.folders || s.folders[id].user != user {
      return Err(FolderNotFound);
    }
    ghost var fs := s.folders;
    var f := s.folders[id].(name := name, parent := Apply(parent, s.folders[id].parent));
    var saved := s.SaveFolder(id, f);
    if saved.Ok? {
      PassedGuardLevel(fs, id, f, Some(id));
      if f.parent.Some? {
        CheckedGuardRule(fs, f, id);
      }
      if Coherent(fs, s.notes) {
        ReparentKeepsCoherent(fs, s.notes, id, name, f.parent);
      }
      r := Ok(f);
    } else {
      r := Err(saved.error);
    }
  }

  /** PATCH /:id/parent (folderRoutes.js:71-82), corrected: the caller's
      folder takes the new parent (an absent or empty one makes it a root)
      and is saved through the hook, which now also refuses a parent that
      is the folder itself or one of its descendants. */
  method MoveFolder(s: Store, user: UserId, id: FolderId, newParent: Option<FolderId>)
    returns (r: Result<()>)
    requires s.Valid()
    modifies s
    ensures s.Valid()
    ensures s.notes == old(s.notes)
    ensures id !in old(s.folders) || old(s.folders)[id].user != user ==>
      r == Err(FolderNotFound) && s.folders == old(s.folders)
    ensures id in old(s.folders) && old(s.folders)[id].user == user ==>
      var f := old(s.folders)[id].(parent := newParent);
      && (r.Ok? <==> Guard(old(s.folders), f, Some(id)) == Pass)
      && (r.Ok? ==> s.folders == old(s.folders)[id := f])
      && (r.Err? ==> s.folders == old(s.folders) && Guard(old(s.folders), f, Some(id)) == Reject(r.error))
    ensures r.Ok? ==> Level(s.folders, id).Some? && Level(s.folders, id).value <= 3
    ensures r.Ok? && newParent.Some? ==> Avoids(old(s.folders), newParent.value, id, |old(s.folders)|)
    ensures r == Err(ParentIsDescendant) <==>
      id in old(s.folders) && old(s.folders)[id].user == user &&
      newParent.Some? && newParent.value in old(s.folders) && old(s.folders)[newParent.value].user == user &&
      !Avoids(old(s.folders), newParent.value, id, |old(s.folders)|)
    ensures Coherent(old(s.folders), old(s.notes)) ==> Coherent(s.folders, s.notes)
    ensures Linked(old(s.folders), old(s.notes)) ==> Linked(s.folders, s.notes)
  {
    if id !in s.folders || s.folders[id].user != user {
      return Err(FolderNotFound);
    }
    ghost var fs := s.folders;
    var f := s.folders[id].(parent := newParent);
    if newParent.Some? && newParent.value in fs && fs[newParent.value].user == user {
      CheckedWalkAvoids(fs, newParent.value, id, |fs|);
    }
    var saved := s.SaveFolder(id, f);
    if saved.Ok? {
      PassedGuardLevel(fs, id, f, Some(id));
      if Coherent(fs, s.notes) {
        ReparentKeepsCoherent(fs, s.notes, id, f.name, newParent);
      }
      r := Ok(());
    } else {
      r := Err(saved.error);
    }
  }

  /** DELETE /:id (folderRoutes.js:106-137): the caller's folder is removed;
      the caller's folders and notes directly inside it move up to its
      parent; when it had a parent, that parent's cache is overwritten with
      the ids of the caller's notes now filed there. */
  method DeleteFolder(s: Store, user: UserId, id: FolderId) returns (r: Result<()>)
    requires s.Valid()
    modifies s
    ensures s.Valid()
    ensures r.Err? <==> id !in old(s.folders) || old(s.folders)[id].user != user
    ensures r.Err? ==> r.error == FolderNotFound && s.folders == old(s.folders) && s.notes == old(s.notes)
    ensures r.Ok? ==>
      var p := old(s.folders)[id].parent;
      var relinked := RelinkChildren(old(s.folders), id, user, p);
      && s.notes == RelinkNotes(old(s.notes), id, user, p)
      && s.folders.Keys == old(s.folders).Keys - {id}
      && (forall k :: k in s.folders ==> s.folders[k].(notes := relinked[k].notes) == relinked[k])
      && (forall k :: k in s.folders && !(p == Some(k) && relinked[k].user == user) ==> s.folders[k] == relinked[k])
      && (p.Some? && p.value in s.folders && s.folders[p.value].user == user ==>
            && NoDup(s.folders[p.value].notes)
            && forall n :: n in s.folders[p.value].notes <==> n in FiledIn(s.notes, p.value, user))
    ensures Coherent(old(s.folders), old(s.notes)) ==> Coherent(s.folders, s.notes)
    ensures Linked(old(s.folders), old(s.notes)) && SameOwner(old(s.folders), old(s.notes)) ==>
      Linked(s.folders, s.notes)
  {
    if id !in s.folders || s.folders[id].user != user {
      return Err(FolderNotFound);
    }
    ghost var fs, ns := s.folders, s.notes;
    var p := s.folders[id].parent;
    // findOneAndDelete, then the caller's children take the parent.
    s.folders := RelinkChildren(s.folders, id, user, p);
    RelinkKeepsAcyclic(fs, id, user);
    s.notes := RelinkNotes(s.notes, id, user, p);
    var ids: seq<NoteId> := [];
    if p.Some? {
      ids := CollectFiled(s.notes, p.value, user);
      ghost var relinked := s.folders;
      s.folders := OverwriteOwned(s.folders, p.value, user, ids);
      SameParentsKeepAcyclic(relinked, s.folders);
    }
    assert (s.folders, s.notes) == CascadeState(fs, ns, id, user, ids);
    CascadeShape(fs, ns, id, user, ids);
    if Coherent(fs, ns) {
      CascadeKeepsCoherent(fs, ns, id, user, ids);
    }
    if Linked(fs, ns) && SameOwner(fs, ns) {
      CascadeKeepsLinked(fs, ns, id, user, ids);
    }
    r := Ok(());
  }
}
