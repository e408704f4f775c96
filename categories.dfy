/**
 * The category screen (components/CategoryManager.tsx): a flat list of
 * categories with `parentId` back-pointers and a cached `level`, the forest
 * the tree view builds from it, and the add / delete / select-parent actions.
 */
module Categories {
  import opened Lists
  import opened Types

  /** A category with the `children` the tree view attaches to it. */
  datatype TreeNode = TreeNode(cat: Category, children: seq<TreeNode>)

  // ---------------------------------------------------------------------
  // Hierarchy invariants of the flat list
  // ---------------------------------------------------------------------

  /** Every non-null `parentId` names a record of the list. */
  ghost predicate ParentsExist(cats: seq<Category>) {
    forall c :: c in cats && c.parentId.Some? ==> exists d :: d in cats && d.id == c.parentId.value
  }

  /** Roots sit at level 0 and every child one level below its parent. */
  ghost predicate LevelsConsistent(cats: seq<Category>) {
    && (forall c :: c in cats && c.parentId.None? ==> c.level == 0)
    && (forall c, d :: c in cats && d in cats && c.parentId == Some(d.id) ==> c.level == d.level + 1)
  }

  /** The state the category screen keeps: distinct non-empty ids, no dangling parent, consistent levels. */
  ghost predicate Hierarchy(cats: seq<Category>) {
    && Distinct(cats, CategoryId)
    && (forall c :: c in cats ==> c.id != "")
    && ParentsExist(cats)
    && LevelsConsistent(cats)
  }

  /**
   * The condition under which `buildTree` terminates in this model: a child
   * is strictly deeper than every record carrying its parent's id. It rules
   * out parent cycles, including a record that is its own parent, and also
   * acyclic lists whose levels disagree with their parent pointers.
   */
  ghost predicate Leveled(cats: seq<Category>) {
    forall c, d :: c in cats && d in cats && c.parentId == Some(d.id) ==> d.level < c.level
  }

  lemma HierarchyIsLeveled(cats: seq<Category>)
    requires Hierarchy(cats)
    ensures Leveled(cats)
  {
  }

  // ---------------------------------------------------------------------
  // buildTree (CategoryManager.tsx:15-22)
  // ---------------------------------------------------------------------

  /** The deepest level in the list. */
  ghost function MaxLevel(cats: seq<Category>): (m: nat)
    ensures forall c :: c in cats ==> c.level <= m
  {
    if cats == [] then 0
    else
      var rest := MaxLevel(cats[1..]);
      assert forall c :: c in cats ==> c == cats[0] || c in cats[1..];
      if cats[0].level > rest then cats[0].level else rest
  }

  /** One more than the deepest record whose id is `p` (0 when there is none): children of `p` are at least this deep. */
  ghost function Floor(cats: seq<Category>, p: Option<Id>): (f: nat)
    ensures forall d :: d in cats && p == Some(d.id) ==> d.level < f
    ensures f == 0 || exists d :: d in cats && p == Some(d.id) && f == d.level + 1
    ensures f <= MaxLevel(cats) + 1
  {
    if cats == [] then 0
    else
      var rest := Floor(cats[1..], p);
      assert forall c :: c in cats ==> c == cats[0] || c in cats[1..];
      if p == Some(cats[0].id) && cats[0].level + 1 > rest then cats[0].level + 1 else rest
  }

  function IsChildOf(p: Option<Id>): Category -> bool {
    (c: Category) => c.parentId == p
  }

  /** `cats.filter(cat => cat.parentId === p)` */
  function Children(cats: seq<Category>, p: Option<Id>): seq<Category> {
    Filter(cats, IsChildOf(p))
  }

  /**
   * `buildTree(cats, parentId)`: the records whose parent is `parentId`, each
   * with its own subtree attached as `children`. The source recurses without
   * shrinking `cats` and diverges on a parent cycle; here `Leveled` rules
   * cycles out and the level bound is the termination measure.
   */
  function BuildTree(cats: seq<Category>, parentId: Option<Id>): seq<TreeNode>
    requires Leveled(cats)
    decreases MaxLevel(cats) + 1 - Floor(cats, parentId)
  {
    var kids := Children(cats, parentId);
    seq(|kids|, i requires 0 <= i < |kids| => TreeNode(kids[i], BuildTree(cats, Some(kids[i].id))))
  }

  /** The categories at the top of a forest. */
  function Roots(forest: seq<TreeNode>): seq<Category> {
    seq(|forest|, i requires 0 <= i < |forest| => forest[i].cat)
  }

  /** Every node of a forest, in pre-order. */
  function AllNodes(forest: seq<TreeNode>): seq<TreeNode>
    decreases forest
  {
    if forest == [] then []
    else [forest[0]] + AllNodes(forest[0].children) + AllNodes(forest[1..])
  }

  /** Every node at every depth names its parent: top nodes `p`, the others the node above them. */
  ghost predicate Linked(forest: seq<TreeNode>, p: Option<Id>)
    decreases forest
  {
    forall i :: 0 <= i < |forest| ==>
      forest[i].cat.parentId == p && Linked(forest[i].children, Some(forest[i].cat.id))
  }

  /** A node as buildTree makes it: a record of `cats` with exactly its own subtree below it. */
  ghost predicate Built(cats: seq<Category>, n: TreeNode)
    requires Leveled(cats)
  {
    n.cat in cats && n.children == BuildTree(cats, Some(n.cat.id))
  }

  /** The top of `buildTree(cats, p)` is exactly the records with parent `p`, unchanged and in list order. */
  lemma BuildTreeRoots(cats: seq<Category>, p: Option<Id>)
    requires Leveled(cats)
    ensures Roots(BuildTree(cats, p)) == Children(cats, p)
    ensures forall i :: 0 <= i < |BuildTree(cats, p)| ==> Built(cats, BuildTree(cats, p)[i])
  {
  }

  /** `buildTree` links every child to its parent at every depth. */
  lemma {:induction false} BuildTreeLinked(cats: seq<Category>, p: Option<Id>)
    requires Leveled(cats)
    ensures Linked(BuildTree(cats, p), p)
    decreases MaxLevel(cats) + 1 - Floor(cats, p)
  {
    var forest := BuildTree(cats, p);
    var kids := Children(cats, p);
    forall i | 0 <= i < |forest|
      ensures forest[i].cat.parentId == p && Linked(forest[i].children, Some(forest[i].cat.id))
    {
      assert forest[i].cat == kids[i] && kids[i] in kids;
      BuildTreeLinked(cats, Some(kids[i].id));
    }
  }

  lemma {:induction false} TopInAllNodes(forest: seq<TreeNode>, i: nat)
    requires i < |forest|
    ensures forest[i] in AllNodes(forest)
    decreases forest
  {
    if i > 0 {
      TopInAllNodes(forest[1..], i - 1);
    }
  }

  /** The children of a node of the forest are nodes of the forest too. */
  lemma {:induction false} AllNodesClosed(forest: seq<TreeNode>, m: TreeNode, k: nat)
    requires m in AllNodes(forest) && k < |m.children|
    ensures m.children[k] in AllNodes(forest)
    decreases forest
  {
    var head := [forest[0]];
    var below := AllNodes(forest[0].children);
    assert AllNodes(forest) == head + below + AllNodes(forest[1..]);
    if m == forest[0] {
      TopInAllNodes(m.children, k);
    } else if m in below {
      AllNodesClosed(forest[0].children, m, k);
    } else {
      AllNodesClosed(forest[1..], m, k);
    }
  }

  lemma {:induction false} AllNodesBuilt(cats: seq<Category>, forest: seq<TreeNode>)
    requires Leveled(cats)
    requires forall i :: 0 <= i < |forest| ==> Built(cats, forest[i])
    ensures forall n :: n in AllNodes(forest) ==> Built(cats, n)
    decreases forest
  {
    if forest != [] {
      BuildTreeRoots(cats, Some(forest[0].cat.id));
      AllNodesBuilt(cats, forest[0].children);
      AllNodesBuilt(cats, forest[1..]);
    }
  }

  /**
   * At every depth of `buildTree(cats, p)` a node is a record of `cats` whose
   * `children` are `buildTree(cats, node.id)`.
   */
  lemma BuildTreeNodes(cats: seq<Category>, p: Option<Id>)
    requires Leveled(cats)
    ensures forall n :: n in AllNodes(BuildTree(cats, p)) ==>
              n.cat in cats && n.children == BuildTree(cats, Some(n.cat.id))
  {
    BuildTreeRoots(cats, p);
    AllNodesBuilt(cats, BuildTree(cats, p));
  }

  /** On a consistent list the forest from the roots shows every category somewhere. */
  lemma {:induction false} BuildTreeComplete(cats: seq<Category>, c: Category)
    requires Hierarchy(cats) && c in cats
    ensures exists n :: n in AllNodes(BuildTree(cats, None)) && n.cat == c
    decreases c.level
  {
    var p := c.parentId;
    var kids := Children(cats, p);
    FilterKeeps(cats, IsChildOf(p), c);
    var k :| 0 <= k < |kids| && kids[k] == c;
    if p.None? {
      TopInAllNodes(BuildTree(cats, None), k);
    } else {
      var d :| d in cats && d.id == p.value;
      BuildTreeComplete(cats, d);
      var n :| n in AllNodes(BuildTree(cats, None)) && n.cat == d;
      BuildTreeNodes(cats, None);
      AllNodesClosed(BuildTree(cats, None), n, k);
      assert n.children[k].cat == c;
    }
  }

  // ---------------------------------------------------------------------
  // addCategory (CategoryManager.tsx:26-36)
  // ---------------------------------------------------------------------

  function HasId(id: Id): Category -> bool {
    (c: Category) => c.id == id
  }

  /**
   * `selectedParent ? (categories.find(c => c.id === selectedParent)?.level || 0) + 1 : 0`
   * (a level of 0 is falsy, but `0 || 0` is 0 as well).
   */
  function NewLevel(cats: seq<Category>, selected: Option<Id>): nat {
    if Truthy(selected) then
      (match Find(cats, HasId(selected.value))
       case Some(parent) => parent.level
       case None => 0) + 1
    else 0
  }

  /** The record addCategory appends. */
  function NewCategory(cats: seq<Category>, selected: Option<Id>, name: string, freshId: Id): Category {
    Category(freshId, name, selected, NewLevel(cats, selected))
  }

  /** The new level is 0 without a selection, the parent's level + 1 under a found parent, and 1 under a missing one. */
  lemma NewLevelSpec(cats: seq<Category>, selected: Option<Id>)
    requires Distinct(cats, CategoryId)
    ensures selected.None? ==> NewLevel(cats, selected) == 0
    ensures forall d :: d in cats && d.id != "" && selected == Some(d.id) ==> NewLevel(cats, selected) == d.level + 1
    ensures Truthy(selected) && (forall d :: d in cats ==> d.id != selected.value) ==> NewLevel(cats, selected) == 1
  {
    if Truthy(selected) {
      var id := selected.value;
      match Find(cats, HasId(id))
      case None =>
      case Some(parent) =>
        forall d | d in cats && d.id == id ensures d == parent {
          var k :| 0 <= k < |cats| && cats[k] == parent && cats[k].id == id;
          var j :| 0 <= j < |cats| && cats[j] == d;
          DistinctKeyUnique(cats, CategoryId, j, k);
        }
    }
  }

  /** The selected parent is none or a record of the list. */
  ghost predicate SelectionExists(cats: seq<Category>, selected: Option<Id>) {
    selected.Some? ==> exists d :: d in cats && d.id == selected.value
  }

  /** A fresh id: non-empty and not yet used. */
  ghost predicate FreshId(cats: seq<Category>, id: Id) {
    id != "" && forall c :: c in cats ==> c.id != id
  }

  /** Appending under no parent or under an existing one keeps the hierarchy consistent. */
  lemma AddPreservesHierarchy(cats: seq<Category>, selected: Option<Id>, name: string, freshId: Id)
    requires Hierarchy(cats) && SelectionExists(cats, selected) && FreshId(cats, freshId)
    ensures Hierarchy(cats + [NewCategory(cats, selected, name, freshId)])
  {
    var nc := NewCategory(cats, selected, name, freshId);
    var r := cats + [nc];
    NewLevelSpec(cats, selected);
    assert forall c :: c in r ==> c in cats || c == nc;
    forall i, j | 0 <= i < j < |r| ensures r[i].id != r[j].id {
      if j < |cats| {
        assert r[i] == cats[i] && r[j] == cats[j];
      } else {
        assert r[i] in cats;
      }
    }
    assert ParentsExist(r) by {
      forall c | c in r && c.parentId.Some? ensures exists d :: d in r && d.id == c.parentId.value {
        if c in cats {
          var d :| d in cats && d.id == c.parentId.value;
          assert d in r;
        } else {
          var d :| d in cats && d.id == selected.value;
          assert d in r;
        }
      }
    }
  }

  /** With a selection that is not in the list, the new record gets level 1 and a dangling parent. */
  lemma AddUnderMissingParent(cats: seq<Category>, missing: Id, name: string, freshId: Id)
    requires Distinct(cats, CategoryId) && missing != ""
    requires forall c :: c in cats ==> c.id != missing
    ensures NewCategory(cats, Some(missing), name, freshId).level == 1
    ensures freshId != missing ==> !ParentsExist(cats + [NewCategory(cats, Some(missing), name, freshId)])
  {
    NewLevelSpec(cats, Some(missing));
    var nc := NewCategory(cats, Some(missing), name, freshId);
    assert nc in cats + [nc];
  }

  // ---------------------------------------------------------------------
  // deleteCategory (CategoryManager.tsx:38-47)
  // ---------------------------------------------------------------------

  /** `categories.some(c => c.parentId === id)` */
  predicate HasChildren(cats: seq<Category>, id: Id) {
    exists c :: c in cats && c.parentId == Some(id)
  }

  function OtherThan(id: Id): Category -> bool {
    (c: Category) => c.id != id
  }

  /** `categories.filter(c => c.id !== id)` */
  function RemoveCategory(cats: seq<Category>, id: Id): seq<Category> {
    Filter(cats, OtherThan(id))
  }

  /** Removing a record nobody points to keeps the hierarchy consistent. */
  lemma DeletePreservesHierarchy(cats: seq<Category>, id: Id)
    requires Hierarchy(cats) && !HasChildren(cats, id)
    ensures Hierarchy(RemoveCategory(cats, id))
  {
    var r := RemoveCategory(cats, id);
    FilterDistinct(cats, OtherThan(id), CategoryId);
    forall c | c in r && c.parentId.Some? ensures exists d :: d in r && d.id == c.parentId.value {
      var d :| d in cats && d.id == c.parentId.value;
      FilterKeeps(cats, OtherThan(id), d);
    }
  }

  /** Deleting an id that is at position k of a list with distinct ids removes exactly that record. */
  lemma {:induction false} DeleteRemovesOne(cats: seq<Category>, k: nat)
    requires Distinct(cats, CategoryId) && k < |cats|
    ensures RemoveCategory(cats, cats[k].id) == cats[..k] + cats[k + 1..]
    ensures |RemoveCategory(cats, cats[k].id)| == |cats| - 1
  {
    var keep := OtherThan(cats[k].id);
    assert forall i :: 0 <= i < |cats| && i != k ==> CategoryId(cats[i]) != CategoryId(cats[k]);
    FilterDropOne(cats, keep, k);
  }

  /** Deleting an id no record carries changes nothing. */
  lemma DeleteAbsentUnchanged(cats: seq<Category>, id: Id)
    requires forall c :: c in cats ==> c.id != id
    ensures RemoveCategory(cats, id) == cats
  {
    FilterAllKept(cats, OtherThan(id));
  }

  // ---------------------------------------------------------------------
  // Parent selection (CategoryManager.tsx:46, 63, 122)
  // ---------------------------------------------------------------------

  /** `setSelectedParent(isSelected ? null : category.id)` */
  function Toggle(selected: Option<Id>, id: Id): (r: Option<Id>)
    ensures r == Some(id) <==> selected != Some(id)
    ensures r == None <==> selected == Some(id)
  {
    if selected == Some(id) then None else Some(id)
  }

  /** `if (selectedParent === id) setSelectedParent(null)` after a delete. */
  function SelectionAfterDelete(selected: Option<Id>, id: Id): (r: Option<Id>)
    ensures r.Some? ==> r == selected && r != Some(id)
    ensures selected.Some? && selected != Some(id) ==> r == selected
  {
    if selected == Some(id) then None else selected
  }

  // ---------------------------------------------------------------------
  // The component state
  // ---------------------------------------------------------------------

  /** The seed list of App.tsx:11-16. */
  function Seed(): seq<Category> {
    [ Category("1", "Electronics", None, 0),
      Category("2", "Laptops", Some("1"), 1),
      Category("3", "Accessories", Some("1"), 1),
      Category("4", "Home & Garden", None, 0) ]
  }

  lemma SeedIsHierarchy()
    ensures Hierarchy(Seed())
  {
    var s := Seed();
    assert forall c :: c in s ==> c == s[0] || c == s[1] || c == s[2] || c == s[3];
    assert ParentsExist(s) by {
      assert s[0] in s;
    }
  }

  /** The children of a seed parent, unfolded one position at a time. */
  lemma SeedChildren(s: seq<Category>, p: Option<Id>)
    requires s == Seed()
    ensures Children(s, p) == (if s[0].parentId == p then [s[0]] else []) + (if s[1].parentId == p then [s[1]] else [])
                              + (if s[2].parentId == p then [s[2]] else []) + (if s[3].parentId == p then [s[3]] else [])
  {
    var keep := IsChildOf(p);
    assert s[1..] == [s[1], s[2], s[3]] && s[1..][1..] == [s[2], s[3]] && s[1..][1..][1..] == [s[3]];
    assert Filter([s[3]], keep) == if keep(s[3]) then [s[3]] else [];
    assert Filter([s[2], s[3]], keep) == (if keep(s[2]) then [s[2]] else []) + Filter([s[3]], keep);
    assert Filter([s[1], s[2], s[3]], keep) == (if keep(s[1]) then [s[1]] else []) + Filter([s[2], s[3]], keep);
  }

  lemma SeedLeveled()
    ensures Leveled(Seed())
  {
    SeedIsHierarchy();
    HierarchyIsLeveled(Seed());
  }

  lemma SeedRoots(s: seq<Category>)
    requires s == Seed()
    ensures Children(s, None) == [s[0], s[3]]
  {
    SeedChildren(s, None);
  }

  lemma SeedLeaf(s: seq<Category>, id: Id)
    requires s == Seed() && (id == "2" || id == "3" || id == "4")
    ensures Leveled(s) && BuildTree(s, Some(id)) == []
  {
    SeedLeveled();
    SeedChildren(s, Some(id));
  }

  lemma SeedUnderElectronics(s: seq<Category>)
    requires s == Seed()
    ensures Leveled(s) && BuildTree(s, Some("1")) == [TreeNode(s[1], []), TreeNode(s[2], [])]
  {
    SeedLeveled();
    SeedChildren(s, Some("1"));
    SeedLeaf(s, "2");
    SeedLeaf(s, "3");
  }

  /** The seed renders as Electronics [Laptops, Accessories] followed by Home & Garden. */
  lemma SeedTree(s: seq<Category>)
    requires s == Seed()
    ensures Leveled(s)
    ensures BuildTree(s, None)
            == [ TreeNode(s[0], [TreeNode(s[1], []), TreeNode(s[2], [])]), TreeNode(s[3], []) ]
  {
    SeedLeveled();
    SeedRoots(s);
    SeedUnderElectronics(s);
    SeedLeaf(s, "4");
  }

  class CategoryManager {
    /** The list owned by the application shell (`categories` / `setCategories`). */
    var categories: seq<Category>
    /** The name input. */
    var newCatName: string
    /** The parent the next category is created under. */
    var selectedParent: Option<Id>

    ghost predicate Valid()
      reads this
    {
      Hierarchy(categories) && SelectionExists(categories, selectedParent)
    }

    constructor (seed: seq<Category>)
      requires Hierarchy(seed)
      ensures Valid()
      ensures categories == seed && newCatName == "" && selectedParent == None
    {
      categories := seed;
      newCatName := "";
      selectedParent := None;
    }

    /** `const tree = buildTree(categories)` */
    function Tree(): (forest: seq<TreeNode>)
      requires Valid()
      reads this
      ensures Leveled(categories) && forest == BuildTree(categories, None)
      ensures Linked(forest, None)
      ensures forall n :: n in AllNodes(forest) ==> n.cat in categories
      ensures forall c :: c in categories ==> exists n :: n in AllNodes(forest) && n.cat == c
    {
      HierarchyIsLeveled(categories);
      BuildTreeLinked(categories, None);
      BuildTreeNodes(categories, None);
      forall c | c in categories ensures exists n :: n in AllNodes(BuildTree(categories, None)) && n.cat == c {
        BuildTreeComplete(categories, c);
      }
      BuildTree(categories, None)
    }

    /** The name input's `onChange`. */
    method SetNewCatName(name: string)
      modifies this
      ensures newCatName == name
      ensures categories == old(categories) && selectedParent == old(selectedParent)
    {
      newCatName := name;
    }

    /** `addCategory`, given the id `crypto.randomUUID()` would return. */
    method AddCategory(freshId: Id) returns (added: bool)
      requires Valid() && FreshId(categories, freshId)
      modifies this
      ensures Valid()
      ensures added <==> Trim(old(newCatName)) != ""
      ensures added ==> categories == old(categories) + [NewCategory(old(categories), old(selectedParent), old(newCatName), freshId)]
      ensures added ==> newCatName == ""
      ensures !added ==> categories == old(categories) && newCatName == old(newCatName)
      ensures selectedParent == old(selectedParent)
    {
      if Trim(newCatName) == "" {
        return false;
      }
      AddPreservesHierarchy(categories, selectedParent, newCatName, freshId);
      var newCat := NewCategory(categories, selectedParent, newCatName, freshId);
      categories := categories + [newCat];
      newCatName := "";
      added := true;
    }

    /** `deleteCategory(id)`: refused while some record has `id` as its parent. */
    method DeleteCategory(id: Id) returns (deleted: bool)
      requires Valid()
      modifies this
      ensures Valid()
      ensures deleted <==> !HasChildren(old(categories), id)
      ensures categories == if deleted then RemoveCategory(old(categories), id) else old(categories)
      ensures selectedParent == if deleted then SelectionAfterDelete(old(selectedParent), id) else old(selectedParent)
      ensures newCatName == old(newCatName)
    {
      if HasChildren(categories, id) {
        return false;
      }
      DeletePreservesHierarchy(categories, id);
      var before := categories;
      categories := RemoveCategory(categories, id);
      if selectedParent.Some? && selectedParent != Some(id) {
        var d :| d in before && d.id == selectedParent.value;
        FilterKeeps(before, OtherThan(id), d);
      }
      selectedParent := SelectionAfterDelete(selectedParent, id);
      deleted := true;
    }

    /** A click on a rendered node toggles it as the selected parent. */
    method ClickNode(id: Id)
      requires Valid() && exists c :: c in categories && c.id == id
      modifies this
      ensures Valid()
      ensures selectedParent == Toggle(old(selectedParent), id)
      ensures categories == old(categories) && newCatName == old(newCatName)
    {
      selectedParent := Toggle(selectedParent, id);
    }

    /** "Clear Selection". */
    method ClearSelection()
      requires Valid()
      modifies this
      ensures Valid()
      ensures selectedParent == None
      ensures categories == old(categories) && newCatName == old(newCatName)
    {
      selectedParent := None;
    }
  }
}
