/** Whether the parent links of the folder collection end: the store-wide
    property that keeps the validation hook's walk finite. Saving a folder
    through the corrected hook keeps it, and so does the delete cascade. The
    two reparenting routes as written (PATCH move and PUT update) can break
    it; the counterexamples are at the end of the module. */
module Acyclicity {

  import opened Types
  import opened Hierarchy

  /** Every folder's chain of parents ends. */
  ghost predicate Acyclic(fs: Folders)
  {
    forall id :: id in fs ==> Hops(fs, id, |fs|).Some?
  }

  /** A walk whose chain ends does not diverge, with or without the check
      for the saved folder. */
  lemma {:induction false} EndingWalkConverges(fs: Folders, id: FolderId, self: Option<FolderId>, fuel: nat)
    requires Hops(fs, id, fuel).Some?
    ensures !Walk(fs, id, self, fuel).Diverges?
    decreases fuel
  {
    if self != Some(id) && Continues(fs, id) {
      EndingWalkConverges(fs, fs[id].parent.value, self, fuel - 1);
    }
  }

  /** On a store without cycles the validation hook always answers. */
  lemma GuardAnswers(fs: Folders, f: Folder, self: Option<FolderId>)
    requires Acyclic(fs)
    ensures Guard(fs, f, self) != Hangs
  {
    if f.parent.Some? && f.parent.value in fs {
      EndingWalkConverges(fs, f.parent.value, self, |fs|);
    }
  }

  /** Every chain that ended before folder `x` got record `f` still ends,
      provided the new parent's chain ends without reaching `x`. */
  lemma {:induction false} EndsAfterSet(fs: Folders, x: FolderId, f: Folder, id: FolderId, k: nat) returns (k': nat)
    requires Acyclic(fs)
    requires x in fs || forall j :: j in fs ==> fs[j].parent != Some(x)
    requires f.parent.Some? ==> f.parent.value in fs && Avoids(fs, f.parent.value, x, |fs|)
    requires Hops(fs, id, k).Some? || id == x
    ensures Hops(fs[x := f], id, k').Some?
    decreases k
  {
    var fs' := fs[x := f];
    if id == x {
      if f.parent.None? {
        k' := 0;
      } else {
        var p := f.parent.value;
        HopsFrame(fs, x, f, p, |fs|);
        k' := |fs| + 1;
      }
    } else if !Continues(fs, id) {
      k' := 0;
    } else {
      var q := fs[id].parent.value;
      var kq := EndsAfterSet(fs, x, f, q, k - 1);
      k' := kq + 1;
    }
  }

  /** Saving folder `x` as `f` keeps the store free of cycles when the new
      parent's chain does not reach `x`; `x` may be a new id that no folder
      names as its parent. */
  lemma SetKeepsAcyclic(fs: Folders, x: FolderId, f: Folder)
    requires Acyclic(fs)
    requires x in fs || forall j :: j in fs ==> fs[j].parent != Some(x)
    requires f.parent.Some? ==> f.parent.value in fs && Avoids(fs, f.parent.value, x, |fs|)
    ensures Acyclic(fs[x := f])
  {
    var fs' := fs[x := f];
    forall id | id in fs' ensures Hops(fs', id, |fs'|).Some? {
      var k' := EndsAfterSet(fs, x, f, id, |fs|);
      FuelIrrelevant(fs', id, k');
    }
  }

  /** A save the corrected hook lets through keeps the store free of cycles,
      whether it creates a folder or changes an existing one. */
  lemma PassedGuardKeepsAcyclic(fs: Folders, x: FolderId, f: Folder, self: Option<FolderId>)
    requires Acyclic(fs)
    requires Guard(fs, f, self) == Pass
    requires (self == Some(x) && x in fs) || (self.None? && x !in fs && forall j :: j in fs ==> fs[j].parent != Some(x))
    ensures Acyclic(fs[x := f])
  {
    if f.parent.Some? {
      var p := f.parent.value;
      if self.None? {
        FreshIsAvoided(fs, p, x, |fs|);
      } else {
        CheckedWalkAvoids(fs, p, x, |fs|);
      }
    }
    SetKeepsAcyclic(fs, x, f);
  }

  /** The folder side of the delete cascade: folder `x` is removed and each
      folder of user `u` whose parent was `x` takes `x`'s former parent. */
  function RelinkChildren(fs: Folders, x: FolderId, u: UserId, p: Option<FolderId>): (r: Folders)
    ensures r.Keys == fs.Keys - {x}
    ensures forall k :: k in r ==> r[k].name == fs[k].name && r[k].notes == fs[k].notes && r[k].user == fs[k].user
    ensures forall k :: k in r && fs[k].parent == Some(x) && fs[k].user == u ==> r[k].parent == p
    ensures forall k :: k in r && (fs[k].parent != Some(x) || fs[k].user != u) ==> r[k] == fs[k]
  {
    map k | k in fs && k != x :: if fs[k].parent == Some(x) && fs[k].user == u then fs[k].(parent := p) else fs[k]
  }

  lemma {:induction false} RelinkShortens(fs: Folders, x: FolderId, u: UserId, id: FolderId, k: nat)
    requires x in fs
    requires Hops(fs, id, k).Some?
    ensures Hops(RelinkChildren(fs, x, u, fs[x].parent), id, k).Some?
    decreases k
  {
    var fs' := RelinkChildren(fs, x, u, fs[x].parent);
    if id in fs' && Continues(fs, id) {
      var q := fs[id].parent.value;
      if q == x && fs[id].user == u {
        // the chain id -> x -> g becomes id -> g
        if Continues(fs, x) {
          var g := fs[x].parent.value;
          RelinkShortens(fs, x, u, g, k - 2);
          HopsMonotone(fs', g, k - 2, k - 1);
        }
      } else if q != x {
        RelinkShortens(fs, x, u, q, k - 1);
      }
    }
  }

  /** Removing a folder and relinking its children to its parent keeps the
      store free of cycles. */
  lemma RelinkKeepsAcyclic(fs: Folders, x: FolderId, u: UserId)
    requires Acyclic(fs)
    requires x in fs
    ensures Acyclic(RelinkChildren(fs, x, u, fs[x].parent))
  {
    var fs' := RelinkChildren(fs, x, u, fs[x].parent);
    forall id | id in fs' ensures Hops(fs', id, |fs'|).Some? {
      RelinkShortens(fs, x, u, id, |fs|);
      FuelIrrelevant(fs', id, |fs|);
    }
  }

  /** The walk reads only parent links: two stores with the same ids and
      the same parents walk alike. */
  lemma {:induction false} HopsReadParentsOnly(fs: Folders, gs: Folders, id: FolderId, fuel: nat)
    requires fs.Keys == gs.Keys
    requires forall k :: k in fs ==> gs[k].parent == fs[k].parent
    ensures Hops(gs, id, fuel) == Hops(fs, id, fuel)
    decreases fuel
  {
    if fuel > 0 && Continues(fs, id) {
      HopsReadParentsOnly(fs, gs, fs[id].parent.value, fuel - 1);
    }
  }

  /** Changing names and note caches, and nothing else, keeps the store free
      of cycles. */
  lemma SameParentsKeepAcyclic(fs: Folders, gs: Folders)
    requires Acyclic(fs)
    requires fs.Keys == gs.Keys
    requires forall k :: k in fs ==> gs[k].parent == fs[k].parent
    ensures Acyclic(gs)
  {
    assert |gs| == |fs| by { assert |gs.Keys| == |fs.Keys|; }
    forall id | id in gs ensures Hops(gs, id, |gs|).Some? {
      HopsReadParentsOnly(fs, gs, id, |fs|);
    }
  }

  /** In a store without cycles the walk up from a folder's parent never
      comes back to the folder. */
  lemma ParentChainAvoids(fs: Folders, x: FolderId)
    requires Acyclic(fs)
    requires x in fs && fs[x].parent.Some?
    ensures Avoids(fs, fs[x].parent.value, x, |fs|)
  {
    var p := fs[x].parent.value;
    if !Avoids(fs, p, x, |fs|) {
      var k := ReachedAfter(fs, p, x, |fs|);
      forall j | 0 <= j <= k + 1 ensures Continues(fs, Nth(fs, x, j)) {
        if j > 0 {
          assert Nth(fs, x, j) == Nth(fs, p, j - 1);
        }
      }
      RepeatIsEndless(fs, x, 0, k + 1);
      BudgetDivergesIffEndless(fs, x);
      assert false;
    }
  }

  /** A save that keeps an existing folder's stored parent (a name or cache
      change, as `addNote` makes) gets the same verdict from the corrected
      hook as from the hook as written. */
  lemma KeptParentGuardsAgree(fs: Folders, id: FolderId, f: Folder)
    requires Acyclic(fs)
    requires id in fs && f.parent == fs[id].parent
    ensures Guard(fs, f, Some(id)) == Guard(fs, f, None)
  {
    if f.parent.Some? {
      ParentChainAvoids(fs, id);
      AvoidingWalksAgree(fs, f.parent.value, id, |fs|);
    }
  }

  // The reparenting routes as written.

  /** PATCH /:id/parent as written (folderRoutes.js:74-80): the hook walks
      only the new parent's ancestors, so a folder can be moved below itself.
      `None` is an unknown folder; otherwise the hook's verdict and the
      resulting store. */
  function MoveAsWritten(fs: Folders, u: UserId, id: FolderId, newParent: Option<FolderId>): (r: Option<(GuardResult, Folders)>)
    ensures r.None? <==> id !in fs || fs[id].user != u
    ensures r.Some? ==> r.value.0 == Guard(fs, fs[id].(parent := newParent), None)
    ensures r.Some? && r.value.0 == Pass ==> r.value.1 == fs[id := fs[id].(parent := newParent)]
    ensures r.Some? && r.value.0 != Pass ==> r.value.1 == fs
  {
    if id !in fs || fs[id].user != u then None
    else
      var f := fs[id].(parent := newParent);
      var g := Guard(fs, f, None);
      Some((g, if g == Pass then fs[id := f] else fs))
  }

  /** PUT /:id as written (folderRoutes.js:41-45): a query update, which the
      document hook does not see; any parent id the body carries is written
      as given, and an absent one keeps the stored parent. */
  function UpdateAsWritten(fs: Folders, u: UserId, id: FolderId, name: string, parent: Field<Option<FolderId>>): (r: Option<Folders>)
    ensures r.None? <==> id !in fs || fs[id].user != u
    ensures r.Some? ==> r.value.Keys == fs.Keys
    ensures r.Some? ==> forall k :: k in fs && k != id ==> r.value[k] == fs[k]
    ensures r.Some? ==> r.value[id].name == name && r.value[id].notes == fs[id].notes && r.value[id].user == u
    ensures r.Some? && parent.Assign? ==> r.value[id].parent == parent.value
    ensures r.Some? && parent.Keep? ==> r.value[id].parent == fs[id].parent
  {
    if id !in fs || fs[id].user != u then None
    else Some(fs[id := fs[id].(name := name, parent := Apply(parent, fs[id].parent))])
  }

  /** Root A (id 1) with child B (id 2), both of user 7. */
  const TwoLevels: Folders := map[1 := Folder("A", None, [], 7), 2 := Folder("B", Some(1), [], 7)]

  /** Moving A below its own child passes the hook as written and leaves
      A and B each other's parent: the store now has a cycle, and the next
      save of either folder hangs in the walk. The corrected hook refuses. */
  lemma MoveAsWrittenMakesCycle()
    ensures Acyclic(TwoLevels)
    ensures MoveAsWritten(TwoLevels, 7, 1, Some(2)).value.0 == Pass
    ensures !Acyclic(MoveAsWritten(TwoLevels, 7, 1, Some(2)).value.1)
    ensures Guard(MoveAsWritten(TwoLevels, 7, 1, Some(2)).value.1, Folder("C", Some(2), [], 7), None) == Hangs
    ensures Guard(TwoLevels, TwoLevels[1].(parent := Some(2)), Some(1)) == Reject(ParentIsDescendant)
  {
    var fs := TwoLevels;
    assert |fs| == 2 by { assert fs.Keys == {1, 2}; }
    assert Hops(fs, 1, 2) == Some(0);
    assert Hops(fs, 2, 2) == Some(1);
    assert Walk(fs, 2, None, 2) == Depth(2);
    var fs' := fs[1 := fs[1].(parent := Some(2))];
    assert |fs'| == 2 by { assert fs'.Keys == {1, 2}; }
    assert Hops(fs', 1, 2).None?;
    assert Walk(fs', 2, None, 2) == Diverges;
    assert Walk(fs, 2, Some(1), 2) == MeetsSelf;
  }

  /** The update as written makes a folder its own parent; the corrected
      route runs the hook, which refuses. */
  lemma UpdateAsWrittenMakesCycle()
    ensures Acyclic(TwoLevels)
    ensures !Acyclic(UpdateAsWritten(TwoLevels, 7, 2, "B", Assign(Some(2))).value)
    ensures Guard(TwoLevels, TwoLevels[2].(parent := Some(2)), Some(2)) == Reject(ParentIsDescendant)
  {
    var fs := TwoLevels;
    assert |fs| == 2 by { assert fs.Keys == {1, 2}; }
    assert Hops(fs, 1, 2) == Some(0);
    assert Hops(fs, 2, 2) == Some(1);
    var fs' := fs[2 := fs[2].(parent := Some(2))];
    assert |fs'| == 2 by { assert fs'.Keys == {1, 2}; }
    assert Hops(fs', 2, 2).None?;
  }

  /** The update as written also stores a parent that does not exist or
      belongs to another user, both of which the hook refuses on save. */
  lemma UpdateAsWrittenSkipsOwnership()
    ensures UpdateAsWritten(TwoLevels, 7, 2, "B", Assign(Some(9))).Some?
    ensures 9 !in UpdateAsWritten(TwoLevels, 7, 2, "B", Assign(Some(9))).value
    ensures Guard(TwoLevels, TwoLevels[2].(parent := Some(9)), Some(2)) == Reject(ParentMissing)
    ensures
      var fs := TwoLevels[3 := Folder("C", None, [], 8)];
      var r := UpdateAsWritten(fs, 7, 2, "B", Assign(Some(3)));
      && r.Some? && r.value[2].parent == Some(3) && r.value[3].user == 8 && r.value[2].user == 7
      && Guard(fs, fs[2].(parent := Some(3)), Some(2)) == Reject(ParentForeign)
  {
  }

  /** The hook bounds only the saved folder's own level: moving a folder
      that has descendants below a level-2 folder passes, even the
      corrected hook, and leaves a descendant at level 5. */
  lemma MoveDeepensSubtree()
    ensures
      var fs := map[1 := Folder("A", None, [], 7), 2 := Folder("B", Some(1), [], 7),
                    3 := Folder("C", None, [], 7), 4 := Folder("D", Some(3), [], 7), 5 := Folder("E", Some(4), [], 7)];
      && Guard(fs, fs[3].(parent := Some(2)), Some(3)) == Pass
      && Level(fs, 5) == Some(3)
      && Level(fs[3 := fs[3].(parent := Some(2))], 5) == Some(5)
  {
    var fs := map[1 := Folder("A", None, [], 7), 2 := Folder("B", Some(1), [], 7),
                  3 := Folder("C", None, [], 7), 4 := Folder("D", Some(3), [], 7), 5 := Folder("E", Some(4), [], 7)];
    assert |fs| == 5 by { assert fs.Keys == {1, 2, 3, 4, 5}; }
    assert Walk(fs, 2, Some(3), 5) == Depth(2);
    assert Hops(fs, 5, 5) == Some(2);
    var fs' := fs[3 := fs[3].(parent := Some(2))];
    assert |fs'| == 5 by { assert fs'.Keys == {1, 2, 3, 4, 5}; }
    assert Hops(fs', 5, 5) == Some(4);
  }
}
