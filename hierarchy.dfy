/** The folder model's pre-validation hook: before a folder is saved with a
    parent, the parent must exist and belong to the same user, and the chain
    of ancestors above the parent is walked, counting nodes, to keep every
    folder at level 3 or less (a root is level 1).

    The walk has no cycle guard: it follows parent links until a folder has
    no parent or a lookup misses. On a store whose parent links form a cycle
    it never ends. The model walks at most |folders| steps and reports
    `Diverges` when the budget runs out; `BudgetDivergesIffEndless` proves that
    this happens exactly when the unbounded walk would run forever. */
module Hierarchy {

  import opened Types

  type Folders = map<FolderId, Folder>

  /** The walk takes another step from `id`: the folder exists and has a parent. */
  predicate Continues(fs: Folders, id: FolderId)
  {
    id in fs && fs[id].parent.Some?
  }

  /** One step of the walk; a node where the walk stops maps to itself. */
  function Up(fs: Folders, id: FolderId): FolderId
  {
    if Continues(fs, id) then fs[id].parent.value else id
  }

  /** The node the walk from `id` reaches after `n` steps. */
  function Nth(fs: Folders, id: FolderId, n: nat): FolderId
    decreases n
  {
    if n == 0 then id else Nth(fs, Up(fs, id), n - 1)
  }

  /** The number of steps the walk from `id` takes before it stops, when it
      stops within `fuel` steps. */
  function Hops(fs: Folders, id: FolderId, fuel: nat): Option<nat>
    decreases fuel
  {
    if !Continues(fs, id) then Some(0)
    else if fuel == 0 then None
    else
      match Hops(fs, fs[id].parent.value, fuel - 1)
      case None => None
      case Some(h) => Some(h + 1)
  }

  /** A folder's level: the number of nodes from it up to its root (a root is
      at level 1); `None` when the chain above it is endless. */
  function Level(fs: Folders, id: FolderId): Option<nat>
  {
    match Hops(fs, id, |fs|)
    case None => None
    case Some(h) => Some(h + 1)
  }

  lemma {:induction false} NthAdd(fs: Folders, id: FolderId, a: nat, b: nat)
    ensures Nth(fs, id, a + b) == Nth(fs, Nth(fs, id, a), b)
    decreases a
  {
    if a > 0 {
      NthAdd(fs, Up(fs, id), a - 1, b);
    }
  }

  /** A walk that ends within its fuel stops exactly after `h` steps. */
  lemma {:induction false} HopsSome(fs: Folders, id: FolderId, fuel: nat)
    requires Hops(fs, id, fuel).Some?
    ensures Hops(fs, id, fuel).value <= fuel
    ensures !Continues(fs, Nth(fs, id, Hops(fs, id, fuel).value))
    ensures forall k :: 0 <= k < Hops(fs, id, fuel).value ==> Continues(fs, Nth(fs, id, k))
    decreases fuel
  {
    if Continues(fs, id) {
      var p := fs[id].parent.value;
      HopsSome(fs, p, fuel - 1);
      var h := Hops(fs, id, fuel).value;
      forall k | 0 <= k < h ensures Continues(fs, Nth(fs, id, k)) {
        if k > 0 {
          assert Nth(fs, id, k) == Nth(fs, p, k - 1);
        }
      }
    }
  }

  /** The walk runs out of fuel exactly when every one of its first `fuel + 1`
      nodes takes another step. */
  lemma {:induction false} HopsNone(fs: Folders, id: FolderId, fuel: nat)
    ensures Hops(fs, id, fuel).None? <==> forall k :: 0 <= k <= fuel ==> Continues(fs, Nth(fs, id, k))
    decreases fuel
  {
    if Continues(fs, id) && fuel > 0 {
      var p := fs[id].parent.value;
      HopsNone(fs, p, fuel - 1);
      forall k | 0 < k <= fuel ensures Nth(fs, id, k) == Nth(fs, p, k - 1) {
      }
      if forall k :: 0 <= k <= fuel - 1 ==> Continues(fs, Nth(fs, p, k)) {
        forall k | 0 <= k <= fuel ensures Continues(fs, Nth(fs, id, k)) {
          if k > 0 {
            assert Nth(fs, id, k) == Nth(fs, p, k - 1);
          }
        }
      } else {
        var k :| 0 <= k <= fuel - 1 && !Continues(fs, Nth(fs, p, k));
        assert Nth(fs, id, k + 1) == Nth(fs, p, k);
      }
    } else if !Continues(fs, id) {
      assert Nth(fs, id, 0) == id;
    }
  }

  /** More fuel never changes a walk that already ended. */
  lemma {:induction false} HopsMonotone(fs: Folders, id: FolderId, fuel: nat, more: nat)
    requires Hops(fs, id, fuel).Some?
    requires fuel <= more
    ensures Hops(fs, id, more) == Hops(fs, id, fuel)
    decreases fuel
  {
    if Continues(fs, id) {
      HopsMonotone(fs, fs[id].parent.value, fuel - 1, more - 1);
    }
  }

  /** More elements than a set has members, all drawn from it: two coincide. */
  lemma {:induction false} Pigeonhole(s: seq<FolderId>, pool: set<FolderId>)
    requires forall i :: 0 <= i < |s| ==> s[i] in pool
    requires |s| > |pool|
    ensures exists i, j :: 0 <= i < j < |s| && s[i] == s[j]
  {
    var x := s[0];
    if j :| 1 <= j < |s| && s[j] == x {
      assert s[0] == s[j];
    } else {
      var rest := s[1..];
      forall i | 0 <= i < |rest| ensures rest[i] in pool - {x} {
        assert rest[i] == s[i + 1];
      }
      Pigeonhole(rest, pool - {x});
      var i, j :| 0 <= i < j < |rest| && rest[i] == rest[j];
      assert s[i + 1] == s[j + 1];
    }
  }

  /** A walk that takes |fs| steps without stopping has visited some folder twice. */
  lemma ExhaustedRepeats(fs: Folders, id: FolderId)
    requires Hops(fs, id, |fs|).None?
    ensures exists i, j :: 0 <= i < j <= |fs| && Nth(fs, id, i) == Nth(fs, id, j)
  {
    HopsNone(fs, id, |fs|);
    var s := seq(|fs| + 1, k requires 0 <= k <= |fs| => Nth(fs, id, k));
    forall i | 0 <= i < |s| ensures s[i] in fs.Keys {
      assert Continues(fs, Nth(fs, id, i));
    }
    Pigeonhole(s, fs.Keys);
    var i, j :| 0 <= i < j < |s| && s[i] == s[j];
    assert Nth(fs, id, i) == Nth(fs, id, j);
  }

  /** Once the walk revisits a node without stopping, it repeats forever. */
  lemma {:induction false} RepeatIsEndless(fs: Folders, id: FolderId, i: nat, j: nat)
    requires i < j
    requires Nth(fs, id, i) == Nth(fs, id, j)
    requires forall k :: 0 <= k <= j ==> Continues(fs, Nth(fs, id, k))
    ensures forall n: nat :: Continues(fs, Nth(fs, id, n))
  {
    forall n: nat ensures Continues(fs, Nth(fs, id, n)) {
      ContinuesAt(fs, id, i, j, n);
    }
  }

  lemma {:induction false} ContinuesAt(fs: Folders, id: FolderId, i: nat, j: nat, n: nat)
    requires i < j
    requires Nth(fs, id, i) == Nth(fs, id, j)
    requires forall k :: 0 <= k <= j ==> Continues(fs, Nth(fs, id, k))
    ensures Continues(fs, Nth(fs, id, n))
    decreases n
  {
    if n > j {
      var m := n - (j - i);
      // Nth(n) = Nth(Nth(j), n - j) = Nth(Nth(i), n - j) = Nth(m)
      NthAdd(fs, id, j, n - j);
      NthAdd(fs, id, i, n - j);
      assert i + (n - j) == m;
      ContinuesAt(fs, id, i, j, m);
    }
  }

  /** The bounded walk reports `None` exactly when the source's unbounded
      loop never ends: every node on the chain has a parent that exists. */
  lemma BudgetDivergesIffEndless(fs: Folders, id: FolderId)
    ensures Hops(fs, id, |fs|).None? <==> forall n: nat :: Continues(fs, Nth(fs, id, n))
  {
    HopsNone(fs, id, |fs|);
    if Hops(fs, id, |fs|).None? {
      ExhaustedRepeats(fs, id);
      var i, j :| 0 <= i < j <= |fs| && Nth(fs, id, i) == Nth(fs, id, j);
      RepeatIsEndless(fs, id, i, j);
    }
  }

  /** A walk that ends with some fuel ends with the budget of |fs| steps,
      after the same number of steps. */
  lemma FuelIrrelevant(fs: Folders, id: FolderId, fuel: nat)
    requires Hops(fs, id, fuel).Some?
    ensures Hops(fs, id, |fs|) == Hops(fs, id, fuel)
  {
    HopsSome(fs, id, fuel);
    BudgetDivergesIffEndless(fs, id);
    var h := Hops(fs, id, fuel).value;
    assert !Continues(fs, Nth(fs, id, h));
    assert Hops(fs, id, |fs|).Some?;
    if fuel <= |fs| {
      HopsMonotone(fs, id, fuel, |fs|);
    } else {
      HopsMonotone(fs, id, |fs|, fuel);
    }
  }

  /** The walk from `id` never reaches `x` within `fuel` steps. */
  predicate Avoids(fs: Folders, id: FolderId, x: FolderId, fuel: nat)
    decreases fuel
  {
    id != x && (Continues(fs, id) && fuel > 0 ==> Avoids(fs, fs[id].parent.value, x, fuel - 1))
  }

  /** Changing a folder the walk never reaches does not change the walk. */
  lemma {:induction false} HopsFrame(fs: Folders, x: FolderId, v: Folder, id: FolderId, fuel: nat)
    requires Hops(fs, id, fuel).Some?
    requires Avoids(fs, id, x, fuel)
    ensures Hops(fs[x := v], id, fuel) == Hops(fs, id, fuel)
    decreases fuel
  {
    if Continues(fs, id) {
      HopsFrame(fs, x, v, fs[id].parent.value, fuel - 1);
    }
  }

  /** An id no stored folder is, or names as its parent, is never reached. */
  lemma {:induction false} FreshIsAvoided(fs: Folders, id: FolderId, x: FolderId, fuel: nat)
    requires x !in fs && id != x
    requires forall k :: k in fs ==> fs[k].parent != Some(x)
    ensures Avoids(fs, id, x, fuel)
    decreases fuel
  {
    if Continues(fs, id) && fuel > 0 {
      FreshIsAvoided(fs, fs[id].parent.value, x, fuel - 1);
    }
  }

  /** A walk that reaches `x` within `fuel` steps gets there after `k`
      steps, taking a step at every node before. */
  lemma {:induction false} ReachedAfter(fs: Folders, id: FolderId, x: FolderId, fuel: nat) returns (k: nat)
    requires !Avoids(fs, id, x, fuel)
    ensures k <= fuel && Nth(fs, id, k) == x
    ensures forall j :: 0 <= j < k ==> Continues(fs, Nth(fs, id, j))
    decreases fuel
  {
    if id == x {
      k := 0;
    } else {
      var p := fs[id].parent.value;
      var k0 := ReachedAfter(fs, p, x, fuel - 1);
      k := k0 + 1;
      forall j | 0 <= j < k ensures Continues(fs, Nth(fs, id, j)) {
        if j > 0 {
          assert Nth(fs, id, j) == Nth(fs, p, j - 1);
        }
      }
    }
  }

  /** What the walk of the validation hook finds, starting at the parent. */
  datatype WalkResult = Depth(d: nat) | MeetsSelf | Diverges

  function Shift(r: WalkResult, k: nat): WalkResult
  {
    match r
    case Depth(d) => Depth(d + k)
    case _ => r
  }

  /** The walk from `id`, counting visited nodes, within `fuel` steps. With
      `self == None` it is the source's walk; with `self == Some(x)` it also
      stops when it reaches `x`, the folder being saved (the corrected guard). */
  function Walk(fs: Folders, id: FolderId, self: Option<FolderId>, fuel: nat): (r: WalkResult)
    ensures self.None? ==> !r.MeetsSelf?
    ensures r.Depth? ==> r.d >= 1
    decreases fuel
  {
    if self == Some(id) then MeetsSelf
    else if !Continues(fs, id) then Depth(1)
    else if fuel == 0 then Diverges
    else Shift(Walk(fs, fs[id].parent.value, self, fuel - 1), 1)
  }

  /** Where the walk never reaches `x`, looking out for `x` changes nothing:
      the corrected walk and the walk as written agree. */
  lemma {:induction false} AvoidingWalksAgree(fs: Folders, id: FolderId, x: FolderId, fuel: nat)
    requires Avoids(fs, id, x, fuel)
    ensures Walk(fs, id, Some(x), fuel) == Walk(fs, id, None, fuel)
    decreases fuel
  {
    if Continues(fs, id) && fuel > 0 {
      AvoidingWalksAgree(fs, fs[id].parent.value, x, fuel - 1);
    }
  }

  /** The source's walk counts the nodes from `id` to the end of its chain:
      it finds exactly the level of `id`, and diverges exactly when the
      chain is endless. */
  lemma {:induction false} WalkIsLevel(fs: Folders, id: FolderId, fuel: nat)
    ensures Walk(fs, id, None, fuel) ==
      match Hops(fs, id, fuel)
      case Some(h) => Depth(h + 1)
      case None => Diverges
    decreases fuel
  {
    if Continues(fs, id) && fuel > 0 {
      WalkIsLevel(fs, fs[id].parent.value, fuel - 1);
    }
  }

  /** The corrected walk answers a depth only when the chain ends within the
      fuel without reaching `x`, and then it is the level. */
  lemma {:induction false} CheckedWalkAvoids(fs: Folders, id: FolderId, x: FolderId, fuel: nat)
    ensures Walk(fs, id, Some(x), fuel).Depth? <==> Hops(fs, id, fuel).Some? && Avoids(fs, id, x, fuel)
    ensures Walk(fs, id, Some(x), fuel).Depth? ==> Walk(fs, id, Some(x), fuel).d == Hops(fs, id, fuel).value + 1
    decreases fuel
  {
    if id != x && Continues(fs, id) && fuel > 0 {
      CheckedWalkAvoids(fs, fs[id].parent.value, x, fuel - 1);
    }
  }

  /** The loop of the validation hook: start at the parent with depth 1 and
      follow parent links while the current folder exists and has a parent,
      adding one per step. The budget of |fs| steps stands for the source's
      unbounded loop (see `BudgetDivergesIffEndless`). */
  method WalkAncestors(fs: Folders, parent: FolderId, self: Option<FolderId>) returns (r: WalkResult)
    ensures r == Walk(fs, parent, self, |fs|)
  {
    var depth: nat := 1;
    var current := parent;
    var fuel: nat := |fs|;
    while Continues(fs, current) && self != Some(current) && fuel > 0
      invariant depth >= 1
      invariant Walk(fs, parent, self, |fs|) == Shift(Walk(fs, current, self, fuel), depth - 1)
      decreases fuel
    {
      depth := depth + 1;
      current := fs[current].parent.value;
      fuel := fuel - 1;
    }
    if self == Some(current) {
      r := MeetsSelf;
    } else if Continues(fs, current) {
      r := Diverges;
    } else {
      r := Depth(depth);
    }
  }

  /** The outcome of the validation hook: the save goes ahead, is rejected,
      or never completes (the walk does not end). */
  datatype GuardResult = Pass | Reject(error: Error) | Hangs

  /** The validation hook run before saving folder `f` into store `fs`.
      `self` is `None` for the hook as written and `Some(id)` for the
      corrected hook saving folder `id`. */
  function Guard(fs: Folders, f: Folder, self: Option<FolderId>): (r: GuardResult)
    ensures f.parent.None? ==> r == Pass
    ensures r == Reject(ParentMissing) <==> f.parent.Some? && f.parent.value !in fs
    ensures r == Reject(ParentForeign) <==>
      f.parent.Some? && f.parent.value in fs && fs[f.parent.value].user != f.user
    ensures r == Reject(ParentIsDescendant) ==> self.Some?
    ensures r.Reject? ==> r.error in {ParentMissing, ParentForeign, DepthExceeded, ParentIsDescendant}
  {
    match f.parent
    case None => Pass
    case Some(p) =>
      if p !in fs then Reject(ParentMissing)
      else if fs[p].user != f.user then Reject(ParentForeign)
      else
        match Walk(fs, p, self, |fs|)
        case Diverges => Hangs
        case MeetsSelf => Reject(ParentIsDescendant)
        case Depth(d) => if d >= 3 then Reject(DepthExceeded) else Pass
  }

  /** Folder.js:27-53 as a procedure: lookups, ownership check, the walk. */
  method RunGuard(fs: Folders, f: Folder, self: Option<FolderId>) returns (r: GuardResult)
    ensures r == Guard(fs, f, self)
  {
    if f.parent.None? {
      return Pass;
    }
    var p := f.parent.value;
    if p !in fs {
      return Reject(ParentMissing);
    }
    if fs[p].user != f.user {
      return Reject(ParentForeign);
    }
    var w := WalkAncestors(fs, p, self);
    match w
    case Diverges => r := Hangs;
    case MeetsSelf => r := Reject(ParentIsDescendant);
    case Depth(d) => r := if d >= 3 then Reject(DepthExceeded) else Pass;
  }

  /** The hook as written rejects for depth exactly when the parent sits at
      level 3 or deeper, and hangs exactly when the parent's chain is endless. */
  lemma GuardDepthRule(fs: Folders, f: Folder)
    requires f.parent.Some? && f.parent.value in fs && fs[f.parent.value].user == f.user
    ensures Guard(fs, f, None) == Reject(DepthExceeded) <==>
      Level(fs, f.parent.value).Some? && Level(fs, f.parent.value).value >= 3
    ensures Guard(fs, f, None) == Hangs <==> Level(fs, f.parent.value).None?
    ensures Guard(fs, f, None) == Pass <==>
      Level(fs, f.parent.value).Some? && Level(fs, f.parent.value).value < 3
  {
    WalkIsLevel(fs, f.parent.value, |fs|);
  }

  /** The corrected hook rejects a parent that is the saved folder or lies
      below it, and otherwise agrees with the hook as written. */
  lemma CheckedGuardRule(fs: Folders, f: Folder, x: FolderId)
    requires f.parent.Some? && f.parent.value in fs && fs[f.parent.value].user == f.user
    ensures Guard(fs, f, Some(x)) == Pass <==>
      Avoids(fs, f.parent.value, x, |fs|) && Guard(fs, f, None) == Pass
    ensures Guard(fs, f, Some(x)) == Reject(DepthExceeded) <==>
      Avoids(fs, f.parent.value, x, |fs|) && Guard(fs, f, None) == Reject(DepthExceeded)
  {
    WalkIsLevel(fs, f.parent.value, |fs|);
    CheckedWalkAvoids(fs, f.parent.value, x, |fs|);
  }

  /** A folder the hook lets through sits at level 3 at most: a new folder
      under any hook, an existing one under the corrected hook. */
  lemma PassedGuardLevel(fs: Folders, id: FolderId, f: Folder, self: Option<FolderId>)
    requires Guard(fs, f, self) == Pass
    requires self == Some(id) || (self.None? && id !in fs && forall k :: k in fs ==> fs[k].parent != Some(id))
    ensures Level(fs[id := f], id).Some?
    ensures Level(fs[id := f], id).value <= 3
    ensures f.parent.None? ==> Level(fs[id := f], id) == Some(1)
    ensures f.parent.Some? ==> Level(fs, f.parent.value).Some?
    ensures f.parent.Some? ==> Level(fs[id := f], id).value == Level(fs, f.parent.value).value + 1
  {
    var fs' := fs[id := f];
    if f.parent.Some? {
      var p := f.parent.value;
      if self.None? {
        WalkIsLevel(fs, p, |fs|);
        FreshIsAvoided(fs, p, id, |fs|);
      } else {
        CheckedWalkAvoids(fs, p, id, |fs|);
        WalkIsLevel(fs, p, |fs|);
      }
      var h := Hops(fs, p, |fs|).value;
      HopsFrame(fs, id, f, p, |fs|);
      assert Hops(fs', id, |fs| + 1) == Some(h + 1);
      FuelIrrelevant(fs', id, |fs| + 1);
    }
  }
}
