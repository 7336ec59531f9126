/** The category tree: parent references, acyclicity, the ancestor relation, the
    direct-children expansion and the top-level listing
    (src/controllers/categoryController.js). */
module Hierarchy {
  import opened Wrappers
  import opened Entities

  type Categories = map<CategoryId, Category>

  /** Every parent reference names a stored category. */
  predicate ParentsClosed(cats: Categories) {
    forall c :: c in cats && cats[c].parentId.Some? ==> cats[c].parentId.value in cats
  }

  /** `rank` strictly decreases from every category to its parent. */
  ghost predicate RankedBy(cats: Categories, rank: map<CategoryId, nat>) {
    cats.Keys <= rank.Keys &&
    forall c :: c in cats && cats[c].parentId.Some? && cats[c].parentId.value in cats ==>
      rank[cats[c].parentId.value] < rank[c]
  }

  /** No chain of parent references returns to where it started. */
  ghost predicate Acyclic(cats: Categories) {
    exists rank :: RankedBy(cats, rank)
  }

  /** The shape the category table keeps: closed under parents and acyclic. */
  ghost predicate WellFormed(cats: Categories) {
    ParentsClosed(cats) && Acyclic(cats)
  }

  /** `a` is reached from `c` by following one or more parent references. `rank`
      only serves termination; `AncestorRankFree` shows the answer does not depend
      on it. */
  ghost predicate IsProperAncestor(cats: Categories, rank: map<CategoryId, nat>, a: CategoryId, c: CategoryId)
    requires ParentsClosed(cats) && RankedBy(cats, rank) && c in cats
    decreases rank[c]
  {
    cats[c].parentId.Some? &&
    (cats[c].parentId.value == a || IsProperAncestor(cats, rank, a, cats[c].parentId.value))
  }

  lemma {:induction false} AncestorRankFree(cats: Categories, r1: map<CategoryId, nat>, r2: map<CategoryId, nat>, a: CategoryId, c: CategoryId)
    requires ParentsClosed(cats) && RankedBy(cats, r1) && RankedBy(cats, r2) && c in cats
    ensures IsProperAncestor(cats, r1, a, c) == IsProperAncestor(cats, r2, a, c)
    decreases r1[c]
  {
    if cats[c].parentId.Some? && cats[c].parentId.value != a {
      AncestorRankFree(cats, r1, r2, a, cats[c].parentId.value);
    }
  }

  /** An ancestor has a smaller rank than its descendant. */
  lemma {:induction false} AncestorRankLess(cats: Categories, rank: map<CategoryId, nat>, a: CategoryId, c: CategoryId)
    requires ParentsClosed(cats) && RankedBy(cats, rank) && c in cats
    requires IsProperAncestor(cats, rank, a, c)
    ensures a in cats && rank[a] < rank[c]
    decreases rank[c]
  {
    var q := cats[c].parentId.value;
    if q != a {
      AncestorRankLess(cats, rank, a, q);
    }
  }

  /** No category is its own proper ancestor. */
  lemma NotOwnAncestor(cats: Categories, rank: map<CategoryId, nat>, c: CategoryId)
    requires ParentsClosed(cats) && RankedBy(cats, rank) && c in cats
    ensures !IsProperAncestor(cats, rank, c, c)
  {
    if IsProperAncestor(cats, rank, c, c) {
      AncestorRankLess(cats, rank, c, c);
    }
  }

  /** `c` has `a` among its proper ancestors, whatever rank witnesses acyclicity. */
  ghost predicate HasAncestor(cats: Categories, c: CategoryId, a: CategoryId)
    requires ParentsClosed(cats) && c in cats
  {
    exists rank :: RankedBy(cats, rank) && IsProperAncestor(cats, rank, a, c)
  }

  /** On an acyclic tree, any one rank decides `HasAncestor`. */
  lemma HasAncestorByRank(cats: Categories, rank: map<CategoryId, nat>, c: CategoryId, a: CategoryId)
    requires ParentsClosed(cats) && RankedBy(cats, rank) && c in cats
    ensures HasAncestor(cats, c, a) <==> IsProperAncestor(cats, rank, a, c)
  {
    if HasAncestor(cats, c, a) {
      var r :| RankedBy(cats, r) && IsProperAncestor(cats, r, a, c);
      AncestorRankFree(cats, r, rank, a, c);
    }
  }

  /** Moving `id` under `p` keeps the tree acyclic when `p` is another stored
      category that does not descend from `id`. The new rank lifts `id` and everything
      below it above `p`. */
  lemma Reparent(cats: Categories, rank: map<CategoryId, nat>, id: CategoryId, p: CategoryId, c: Category)
    requires ParentsClosed(cats) && RankedBy(cats, rank)
    requires id in cats && p in cats && p != id
    requires !IsProperAncestor(cats, rank, id, p)
    requires c.parentId == Some(p)
    ensures WellFormed(cats[id := c])
  {
    var moved := cats[id := c];
    var lift := rank[p] + 1;
    var below := set x | x in cats && (x == id || IsProperAncestor(cats, rank, id, x));
    var rank' := map x | x in rank :: if x in below then rank[x] + lift else rank[x];
    forall x | x in moved && moved[x].parentId.Some? && moved[x].parentId.value in moved
      ensures rank'[moved[x].parentId.value] < rank'[x]
    {
      var q := moved[x].parentId.value;
      if x == id {
        assert q == p && p !in below;
      } else if x in below {
        assert q in below;
      } else {
        assert q !in below;
      }
    }
    assert RankedBy(moved, rank');
  }

  /** Detaching `id` from its parent keeps the tree well formed. */
  lemma Detach(cats: Categories, id: CategoryId, c: Category)
    requires WellFormed(cats) && id in cats && c.parentId.None?
    ensures WellFormed(cats[id := c])
  {
    var rank :| RankedBy(cats, rank);
    assert RankedBy(cats[id := c], rank);
  }

  /** Changing a category's other fields keeps the tree well formed. */
  lemma KeepParent(cats: Categories, id: CategoryId, c: Category)
    requires WellFormed(cats) && id in cats && c.parentId == cats[id].parentId
    ensures WellFormed(cats[id := c])
  {
    var rank :| RankedBy(cats, rank);
    assert RankedBy(cats[id := c], rank);
  }

  /** A new category, top-level or under a stored parent, keeps the tree well formed. */
  lemma AddLeaf(cats: Categories, id: CategoryId, c: Category)
    requires WellFormed(cats) && id !in cats
    requires c.parentId.None? || c.parentId.value in cats
    ensures WellFormed(cats[id := c])
  {
    var rank :| RankedBy(cats, rank);
    var r: nat := if c.parentId.Some? then rank[c.parentId.value] + 1 else 0;
    assert RankedBy(cats[id := c], rank[id := r]);
  }

  /** The stored categories whose parent is `id`. */
  function ChildrenOf(cats: Categories, id: CategoryId): (r: set<CategoryId>)
    ensures forall c :: c in r <==> c in cats && cats[c].parentId == Some(id)
  {
    set c | c in cats && cats[c].parentId == Some(id)
  }

  /** Removing a category that no other category has as parent keeps the tree well
      formed. */
  lemma RemoveLeaf(cats: Categories, id: CategoryId)
    requires WellFormed(cats) && ChildrenOf(cats, id) == {}
    ensures WellFormed(cats - {id})
  {
    var rank :| RankedBy(cats, rank);
    forall c | c in cats - {id} && (cats - {id})[c].parentId.Some?
      ensures (cats - {id})[c].parentId.value in cats - {id}
    {
      assert c !in ChildrenOf(cats, id);
    }
    assert RankedBy(cats - {id}, rank);
  }

  /** `[category.id, ...category.subcategories.map(sub => sub.id)]`: the category and
      its direct children. */
  function CategoryIds(cats: Categories, id: CategoryId): (r: set<CategoryId>)
    ensures forall c :: c in r <==> c == id || (c in cats && cats[c].parentId == Some(id))
  {
    {id} + ChildrenOf(cats, id)
  }

  /** The expansion is one level deep: a grandchild is not included. */
  lemma OneLevelOnly(cats: Categories, id: CategoryId, child: CategoryId, grandchild: CategoryId)
    requires WellFormed(cats)
    requires child in cats && cats[child].parentId == Some(id)
    requires grandchild in cats && cats[grandchild].parentId == Some(child)
    ensures grandchild !in CategoryIds(cats, id)
  {
    var rank :| RankedBy(cats, rank);
    assert id in cats;
    assert rank[id] < rank[child] < rank[grandchild];
  }

  // ---- top-level listing ---------------------------------------------------------

  /** Code-point order on texts, the model of `orderBy: { name: "asc" }`. */
  predicate TextLe(a: string, b: string) {
    a == [] || (b != [] && (a[0] < b[0] || (a[0] == b[0] && TextLe(a[1..], b[1..]))))
  }

  /** `ids` lists stored categories in ascending name order. */
  predicate SortedByName(cats: Categories, ids: seq<CategoryId>) {
    (forall i :: 0 <= i < |ids| ==> ids[i] in cats) &&
    forall i, j :: 0 <= i < j < |ids| ==> TextLe(cats[ids[i]].name, cats[ids[j]].name)
  }

  /** `byName` is a scan of the category table: every stored id exactly once. */
  predicate Scan(cats: Categories, byName: seq<CategoryId>) {
    (forall i :: 0 <= i < |byName| ==> byName[i] in cats) &&
    (forall c :: c in cats ==> c in byName) &&
    Distinct(byName)
  }

  /** `findMany({ where: { parentId: null }, orderBy: { name: "asc" } })`: the stored
      order `byName` keeps its top-level categories. */
  function TopLevel(cats: Categories, byName: seq<CategoryId>): (r: seq<CategoryId>)
    requires forall i :: 0 <= i < |byName| ==> byName[i] in cats
    ensures forall i :: 0 <= i < |r| ==> r[i] in cats && cats[r[i]].parentId.None?
    ensures forall c :: c in byName && cats[c].parentId.None? ==> c in r
    ensures forall c :: c in r ==> c in byName
    ensures Distinct(byName) ==> Distinct(r)
    ensures SortedByName(cats, byName) ==> SortedByName(cats, r)
  {
    if byName == [] then []
    else
      var rest := TopLevel(cats, byName[1..]);
      if cats[byName[0]].parentId.None? then
        assert forall k :: 0 <= k < |rest| ==> rest[k] in byName[1..];
        assert Distinct(byName) ==> byName[0] !in byName[1..];
        [byName[0]] + rest
      else rest
  }

  /** `r` picks elements of `s` in their order: `r` is a subsequence of `s`. */
  predicate Sub(r: seq<CategoryId>, s: seq<CategoryId>)
    decreases |s|
  {
    r == [] || (s != [] && if r[0] == s[0] then Sub(r[1..], s[1..]) else Sub(r, s[1..]))
  }

  /** The top-level categories come in the order of the scan, categories with equal
      names included. */
  lemma {:induction false} TopLevelInScanOrder(cats: Categories, byName: seq<CategoryId>)
    requires forall i :: 0 <= i < |byName| ==> byName[i] in cats
    ensures Sub(TopLevel(cats, byName), byName)
  {
    if byName != [] {
      var r := TopLevel(cats, byName);
      var rest := TopLevel(cats, byName[1..]);
      TopLevelInScanOrder(cats, byName[1..]);
      if cats[byName[0]].parentId.None? {
        assert r == [byName[0]] + rest;
        assert r[1..] == rest;
      } else {
        assert r == rest;
        if r != [] {
          assert cats[r[0]].parentId.None?;
        }
      }
    }
  }
}
