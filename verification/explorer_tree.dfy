/**
 * `buildExplorerTree` (src/ts/helper.tsx): the flat record list becomes a forest under two
 * fixed roots, Home and Shared.
 *
 * The builder works on objects: each visit of a record creates a fresh node object, stores it
 * in a map under the record's id (replacing whatever was there) and pushes it into the children
 * array of some other object. The model keeps that object graph as an arena: `cells` holds every
 * node object created so far, a reference is an index into `cells`, and the children arrays,
 * the map and the two root arrays hold indices. The final trees are what the references reach.
 */
module ExplorerTree {
  import opened Wrappers
  import opened JsonValues
  import opened Helper

  /** A node object created by the builder; `children` holds references into the arena. */
  datatype Cell = Cell(
    id: string,
    key: string,
    caption: string,
    icon: Option<string>,
    data: Option<Json>,
    children: seq<nat>,
    droppable: bool,
    draggable: bool)

  /** The builder's state: every node object created so far, the id-to-node map, and the
      children arrays of the Home and Shared roots. */
  datatype Build = Build(cells: seq<Cell>, treeMap: map<string, nat>, home: seq<nat>, shared: seq<nat>)

  const Empty := Build([], map[], [], [])

  /** The node object created for a record on each visit. */
  function NewCell(r: Record): Cell {
    Cell(r.id, r.kind + "-" + r.id, r.caption, IconFor(r.kind), r.data, [], r.kind == "f", true)
  }

  /** A record whose parent must be looked up in the map: its parent is truthy and not "h". */
  predicate NeedsParent(r: Record) {
    Truthy(r.parent) && r.parent.value != "h"
  }

  /** Every reference held by the map and the root arrays points into the arena. */
  ghost predicate Sound(b: Build) {
    && (forall k | k in b.treeMap :: b.treeMap[k] < |b.cells|)
    && (forall i | 0 <= i < |b.home| :: b.home[i] < |b.cells|)
    && (forall i | 0 <= i < |b.shared| :: b.shared[i] < |b.cells|)
  }

  /** One visit of a worklist record: the new state, and whether the record was placed (and so
      leaves the worklist). The map entry is written before the parent is looked up. */
  function Visit(b: Build, r: Record): (res: (Build, bool))
    requires Sound(b)
  {
    var h := |b.cells|;
    var cells := b.cells + [NewCell(r)];
    var m := b.treeMap[r.id := h];
    if NeedsParent(r) then
      if r.parent.value in m then
        var p := m[r.parent.value];
        (Build(cells[p := cells[p].(children := cells[p].children + [h])], m, b.home, b.shared), true)
      else
        (Build(cells, m, b.home, b.shared), false)
    else if r.kind == "s" then
      (Build(cells[h := cells[h].(droppable := false, draggable := false)], m, b.home, b.shared + [h]), true)
    else
      (Build(cells, m, b.home + [h], b.shared), true)
  }

  lemma VisitSound(b: Build, r: Record)
    requires Sound(b)
    ensures Sound(Visit(b, r).0)
    ensures |Visit(b, r).0.cells| == |b.cells| + 1
    ensures Visit(b, r).0.treeMap == b.treeMap[r.id := |b.cells|]
  {
  }

  /** One sweep of the inner loop over the worklist: the state after visiting every record in
      order, and the records left unplaced, in order. */
  function Pass(b: Build, work: seq<Record>): (res: (Build, seq<Record>))
    requires Sound(b)
    ensures Sound(res.0)
    decreases |work|
  {
    if work == [] then (b, [])
    else
      VisitSound(b, work[0]);
      var v := Visit(b, work[0]);
      var rest := Pass(v.0, work[1..]);
      (rest.0, if v.1 then rest.1 else [work[0]] + rest.1)
  }

  ghost function Ids(work: seq<Record>): set<string> {
    set r | r in work :: r.id
  }

  /** A sweep creates one node object per worklist record, adds every worklist id to the map,
      and leaves behind only worklist records. */
  lemma {:induction false} PassShape(b: Build, work: seq<Record>)
    requires Sound(b)
    ensures |Pass(b, work).0.cells| == |b.cells| + |work|
    ensures Pass(b, work).0.treeMap.Keys == b.treeMap.Keys + Ids(work)
    ensures forall r | r in Pass(b, work).1 :: r in work
    decreases |work|
  {
    if work != [] {
      VisitSound(b, work[0]);
      PassShape(Visit(b, work[0]).0, work[1..]);
      assert Ids(work) == {work[0].id} + Ids(work[1..]);
    }
  }

  /** Every parent the worklist still waits for is already in the map. */
  ghost predicate AllResolved(b: Build, work: seq<Record>) {
    forall r | r in work && NeedsParent(r) :: r.parent.value in b.treeMap
  }

  /** Every parent the worklist waits for is in the map or is the id of a worklist record: the
      condition under which the outer loop ends. */
  ghost predicate Resolvable(b: Build, work: seq<Record>) {
    forall r | r in work && NeedsParent(r) :: r.parent.value in b.treeMap || r.parent.value in Ids(work)
  }

  /** A list the builder finishes on: every looked-up parent is the id of some record. */
  ghost predicate Placeable(records: seq<Record>) {
    Resolvable(Empty, records)
  }

  lemma {:induction false} PassPlacesResolved(b: Build, work: seq<Record>)
    requires Sound(b)
    ensures AllResolved(b, work) ==> Pass(b, work).1 == []
    decreases |work|
  {
    if work != [] && AllResolved(b, work) {
      VisitSound(b, work[0]);
      var v := Visit(b, work[0]);
      assert AllResolved(v.0, work[1..]) by {
        forall r | r in work[1..] && NeedsParent(r) ensures r.parent.value in v.0.treeMap {
          assert r in work;
        }
      }
      PassPlacesResolved(v.0, work[1..]);
    }
  }

  lemma AfterPass(b: Build, work: seq<Record>)
    requires Sound(b) && Resolvable(b, work)
    ensures AllResolved(Pass(b, work).0, Pass(b, work).1)
  {
    PassShape(b, work);
  }

  /** The outer loop: sweep until the worklist is empty. */
  function Run(b: Build, work: seq<Record>): (r: Build)
    requires Sound(b) && Resolvable(b, work)
    ensures Sound(r)
    decreases if AllResolved(b, work) then 0 else 1, |work|
  {
    if work == [] then b
    else
      var p := Pass(b, work);
      AfterPass(b, work);
      PassPlacesResolved(b, work);
      Run(p.0, p.1)
  }

  /** The tree a node object unfolds to. A child that is the node itself (a record naming itself
      as parent) is not followed: the object graph has a cycle there, and that node is reachable
      from no root. */
  function Unfold(cells: seq<Cell>, k: nat): Tree
    requires k < |cells|
    decreases |cells| - k, |cells[k].children| + 1
  {
    var c := cells[k];
    Tree(c.id, c.key, c.caption, c.icon, c.data, UnfoldAll(cells, k, c.children), c.droppable, c.draggable)
  }

  function UnfoldAll(cells: seq<Cell>, parent: nat, kids: seq<nat>): seq<Tree>
    decreases |cells| - parent, |kids|
  {
    if kids == [] then []
    else if parent < kids[0] < |cells| then [Unfold(cells, kids[0])] + UnfoldAll(cells, parent, kids[1..])
    else UnfoldAll(cells, parent, kids[1..])
  }

  function UnfoldRoots(cells: seq<Cell>, hs: seq<nat>): (ts: seq<Tree>)
    requires forall i | 0 <= i < |hs| :: hs[i] < |cells|
    ensures |ts| == |hs|
  {
    seq(|hs|, i requires 0 <= i < |hs| => Unfold(cells, hs[i]))
  }

  function HomeRoot(children: seq<Tree>): Tree {
    Tree("h", "h", "Home", Some("fas fa-home"), None, children, true, false)
  }

  function SharedRoot(children: seq<Tree>): Tree {
    Tree("s", "s", "Shared", Some("fas fa-users"), None, children, false, false)
  }

  /** The key a shared node gets: prefixed with "s-" unless it already starts with "s". */
  function SharedKey(key: string): (k: string)
    ensures |k| > 0 && k[0] == 's'
  {
    if |key| > 0 && key[0] == 's' then key else "s-" + key
  }

  /** `setDroppableRecursively`, applied to a child of the Shared root. */
  function LockShared(t: Tree): (r: Tree)
    ensures Locked(r)
    decreases t
  {
    Tree(t.id, SharedKey(t.key), t.caption, t.icon, t.data, LockAll(t.children), false, false)
  }

  function LockAll(ts: seq<Tree>): (rs: seq<Tree>)
    ensures |rs| == |ts|
    ensures forall i | 0 <= i < |ts| :: rs[i] == LockShared(ts[i])
    ensures forall i | 0 <= i < |rs| :: Locked(rs[i])
    decreases ts
  {
    if ts == [] then [] else [LockShared(ts[0])] + LockAll(ts[1..])
  }

  /** Every node of the tree is neither droppable nor draggable and has a key starting "s". */
  ghost predicate Locked(t: Tree)
    decreases t
  {
    && !t.droppable && !t.draggable && |t.key| > 0 && t.key[0] == 's'
    && forall i | 0 <= i < |t.children| :: Locked(t.children[i])
  }

  /** The value `buildExplorerTree` returns for a final builder state. */
  function Assemble(b: Build): (tree: seq<Tree>)
    requires Sound(b)
  {
    [HomeRoot(UnfoldRoots(b.cells, b.home)), SharedRoot(LockAll(UnfoldRoots(b.cells, b.shared)))]
  }

  /** The loop invariant of `Sweep`: from state `cur` with index `i` into `rest`, the rest of
      the sweep ends where `Pass(b, work)` does. */
  ghost predicate SweepInv(b: Build, work: seq<Record>, cur: Build, rest: seq<Record>, i: int)
    requires Sound(b)
  {
    && 0 <= i <= |rest| && Sound(cur)
    && Pass(cur, rest[i..]).0 == Pass(b, work).0
    && rest[..i] + Pass(cur, rest[i..]).1 == Pass(b, work).1
  }

  lemma SweepStep(b: Build, work: seq<Record>, cur: Build, rest: seq<Record>, i: int)
    requires Sound(b) && SweepInv(b, work, cur, rest, i) && i < |rest|
    ensures Sound(Visit(cur, rest[i]).0)
    ensures Visit(cur, rest[i]).1 ==> SweepInv(b, work, Visit(cur, rest[i]).0, rest[..i] + rest[i + 1..], i)
    ensures !Visit(cur, rest[i]).1 ==> SweepInv(b, work, Visit(cur, rest[i]).0, rest, i + 1)
  {
    VisitSound(cur, rest[i]);
    assert rest[i..][1..] == rest[i + 1..];
    var rest' := rest[..i] + rest[i + 1..];
    assert rest'[..i] == rest[..i] && rest'[i..] == rest[i + 1..];
    assert rest[..i + 1] == rest[..i] + [rest[i]];
  }

  /** One sweep of the `for` loop over the worklist: records that can be placed are spliced
      out, the index advancing only past records left in place. */
  method Sweep(b: Build, work: seq<Record>) returns (b': Build, rest: seq<Record>)
    requires Sound(b)
    ensures b' == Pass(b, work).0 && rest == Pass(b, work).1
  {
    var cells: seq<Cell>, treeMap: map<string, nat>, home: seq<nat>, shared: seq<nat> :=
      b.cells, b.treeMap, b.home, b.shared;
    rest := work;
    var i := 0;
    while i < |rest|
      invariant SweepInv(b, work, Build(cells, treeMap, home, shared), rest, i)
      decreases |rest| - i
    {
      ghost var v := Visit(Build(cells, treeMap, home, shared), rest[i]);
      SweepStep(b, work, Build(cells, treeMap, home, shared), rest, i);
      var node := rest[i];
      var h := |cells|;
      cells := cells + [NewCell(node)];
      treeMap := treeMap[node.id := h];
      if NeedsParent(node) && node.parent.value in treeMap {
        var p := treeMap[node.parent.value];
        cells := cells[p := cells[p].(children := cells[p].children + [h])];
        rest := rest[..i] + rest[i + 1..];
        assert Build(cells, treeMap, home, shared) == v.0 && v.1;
      } else if NeedsParent(node) {
        i := i + 1;
        assert Build(cells, treeMap, home, shared) == v.0 && !v.1;
      } else if node.kind == "s" {
        cells := cells[h := cells[h].(droppable := false, draggable := false)];
        shared := shared + [h];
        rest := rest[..i] + rest[i + 1..];
        assert Build(cells, treeMap, home, shared) == v.0 && v.1;
      } else {
        home := home + [h];
        rest := rest[..i] + rest[i + 1..];
        assert Build(cells, treeMap, home, shared) == v.0 && v.1;
      }
    }
    b' := Build(cells, treeMap, home, shared);
    assert rest[i..] == [] && rest[..i] + [] == rest;
    assert Pass(b', rest[i..]) == (b', []);
  }

  /** `buildExplorerTree`, for a list it finishes on. */
  method BuildExplorerTree(records: seq<Record>) returns (tree: seq<Tree>)
    requires Placeable(records)
    ensures tree == Assemble(Run(Empty, records))
    ensures |tree| == 2 && tree[0].id == "h" && tree[1].id == "s"
    ensures tree[0].droppable && !tree[0].draggable && !tree[1].droppable && !tree[1].draggable
    ensures forall i | 0 <= i < |tree[1].children| :: Locked(tree[1].children[i])
    ensures ParentsFirst(records) && UniqueIds(records) ==> tree == ParentForest(records)
  {
    var b := Empty;
    var work := records;
    while |work| > 0
      invariant Sound(b) && Resolvable(b, work)
      invariant Run(b, work) == Run(Empty, records)
      decreases if AllResolved(b, work) then 0 else 1, |work|
    {
      AfterPass(b, work);
      PassPlacesResolved(b, work);
      b, work := Sweep(b, work);
    }
    tree := Assemble(b);
    if ParentsFirst(records) && UniqueIds(records) {
      ExplorerTreeMirrors(records);
    }
  }

  // ---------------------------------------------------------------------------------------
  // What each visit does to the node objects and the two root arrays

  /** A node object without its children. */
  function Face(c: Cell): Cell {
    c.(children := [])
  }

  /** A record that goes straight under Home. */
  predicate HomeLevel(r: Record) {
    !NeedsParent(r) && r.kind != "s"
  }

  /** A record that goes straight under Shared. */
  predicate SharedLevel(r: Record) {
    !NeedsParent(r) && r.kind == "s"
  }

  /** The node object a record produces, without children, as it stands after its visit. */
  function PlacedFace(r: Record): (c: Cell)
    ensures c.id == r.id && c.key == r.kind + "-" + r.id && c.caption == r.caption
    ensures c.icon == IconFor(r.kind) && c.data == r.data && c.children == []
    ensures SharedLevel(r) ==> !c.droppable && !c.draggable
    ensures !SharedLevel(r) ==> (c.droppable <==> r.kind == "f") && c.draggable
  {
    if SharedLevel(r) then Face(NewCell(r)).(droppable := false, draggable := false) else Face(NewCell(r))
  }

  lemma VisitFrame(b: Build, r: Record)
    requires Sound(b)
    ensures |Visit(b, r).0.cells| == |b.cells| + 1
    ensures forall k | 0 <= k < |b.cells| :: Face(Visit(b, r).0.cells[k]) == Face(b.cells[k])
    ensures Face(Visit(b, r).0.cells[|b.cells|]) == PlacedFace(r)
    ensures Visit(b, r).0.home == b.home + (if HomeLevel(r) then [|b.cells|] else [])
    ensures Visit(b, r).0.shared == b.shared + (if SharedLevel(r) then [|b.cells|] else [])
    ensures Visit(b, r).1 <==> !NeedsParent(r) || r.parent.value in b.treeMap || r.parent.value == r.id
  {
  }

  /** The faces of the node objects an array of references points to. */
  function FacesAt(cells: seq<Cell>, hs: seq<nat>): (fs: seq<Cell>)
    requires forall i | 0 <= i < |hs| :: hs[i] < |cells|
    ensures |fs| == |hs|
  {
    seq(|hs|, i requires 0 <= i < |hs| => Face(cells[hs[i]]))
  }

  /** The faces of the nodes records going straight under Home produce, in input order. */
  function HomeFaces(rs: seq<Record>): seq<Cell> {
    if rs == [] then []
    else (if HomeLevel(rs[0]) then [PlacedFace(rs[0])] else []) + HomeFaces(rs[1..])
  }

  /** The faces of the nodes records going straight under Shared produce, in input order. */
  function SharedFaces(rs: seq<Record>): seq<Cell> {
    if rs == [] then []
    else (if SharedLevel(rs[0]) then [PlacedFace(rs[0])] else []) + SharedFaces(rs[1..])
  }

  /** No record of the list goes straight under a root. */
  predicate AllNested(rs: seq<Record>) {
    forall i | 0 <= i < |rs| :: NeedsParent(rs[i])
  }

  lemma {:induction false} NestedFaces(rs: seq<Record>)
    requires AllNested(rs)
    ensures HomeFaces(rs) == [] && SharedFaces(rs) == []
    decreases |rs|
  {
    if rs != [] {
      NestedFaces(rs[1..]);
    }
  }

  lemma PassUnfold(b: Build, work: seq<Record>)
    requires Sound(b) && work != []
    ensures Sound(Visit(b, work[0]).0)
    ensures Pass(b, work).0 == Pass(Visit(b, work[0]).0, work[1..]).0
    ensures Pass(b, work).1 == (if Visit(b, work[0]).1 then [] else [work[0]]) + Pass(Visit(b, work[0]).0, work[1..]).1
  {
    VisitSound(b, work[0]);
  }

  lemma FacesStable(c1: seq<Cell>, c2: seq<Cell>, hs: seq<nat>)
    requires forall i | 0 <= i < |hs| :: hs[i] < |c1|
    requires |c1| <= |c2| && forall k | 0 <= k < |c1| :: Face(c2[k]) == Face(c1[k])
    ensures FacesAt(c2, hs) == FacesAt(c1, hs)
  {
  }

  lemma FacesSnoc(cells: seq<Cell>, hs: seq<nat>, h: nat)
    requires forall i | 0 <= i < |hs| :: hs[i] < |cells|
    requires h < |cells|
    ensures FacesAt(cells, hs + [h]) == FacesAt(cells, hs) + [Face(cells[h])]
  {
  }

  /** One visit appends the record's node to the root array it belongs straight under. */
  lemma VisitRoots(b: Build, r: Record)
    requires Sound(b)
    ensures Sound(Visit(b, r).0)
    ensures FacesAt(Visit(b, r).0.cells, Visit(b, r).0.home)
              == FacesAt(b.cells, b.home) + (if HomeLevel(r) then [PlacedFace(r)] else [])
    ensures FacesAt(Visit(b, r).0.cells, Visit(b, r).0.shared)
              == FacesAt(b.cells, b.shared) + (if SharedLevel(r) then [PlacedFace(r)] else [])
  {
    VisitSound(b, r);
    VisitFrame(b, r);
    var v := Visit(b, r).0;
    FacesStable(b.cells, v.cells, b.home);
    FacesStable(b.cells, v.cells, b.shared);
    if HomeLevel(r) {
      FacesSnoc(v.cells, b.home, |b.cells|);
    }
    if SharedLevel(r) {
      FacesSnoc(v.cells, b.shared, |b.cells|);
    }
  }

  /** One sweep appends to Home the records of the worklist that belong straight under it,
      in worklist order. */
  lemma {:induction false} PassHome(b: Build, work: seq<Record>)
    requires Sound(b)
    ensures FacesAt(Pass(b, work).0.cells, Pass(b, work).0.home) == FacesAt(b.cells, b.home) + HomeFaces(work)
    decreases |work|
  {
    if work != [] {
      PassUnfold(b, work);
      VisitRoots(b, work[0]);
      var v := Visit(b, work[0]).0;
      PassHome(v, work[1..]);
      var x, y, z := FacesAt(b.cells, b.home), (if HomeLevel(work[0]) then [PlacedFace(work[0])] else []), HomeFaces(work[1..]);
      assert HomeFaces(work) == y + z;
      var p := Pass(b, work).0;
      Regroup(FacesAt(p.cells, p.home), FacesAt(v.cells, v.home), x, y, z);
    }
  }

  /** Regrouping a concatenation, stated over opaque pieces so that a caller need not
      unfold the functions that produced them. */
  lemma Regroup<T>(whole: seq<T>, part: seq<T>, h: seq<T>, m: seq<T>, t: seq<T>)
    requires part == h + m
    ensures whole == h + (m + t) <==> whole == part + t
  {
  }

  /** One sweep appends to Shared the records of the worklist that belong straight under it,
      in worklist order. */
  lemma {:induction false} PassShared(b: Build, work: seq<Record>)
    requires Sound(b)
    ensures FacesAt(Pass(b, work).0.cells, Pass(b, work).0.shared) == FacesAt(b.cells, b.shared) + SharedFaces(work)
    decreases |work|
  {
    if work != [] {
      PassUnfold(b, work);
      VisitRoots(b, work[0]);
      var v := Visit(b, work[0]).0;
      PassShared(v, work[1..]);
      var x, y, z := FacesAt(b.cells, b.shared), (if SharedLevel(work[0]) then [PlacedFace(work[0])] else []), SharedFaces(work[1..]);
      assert SharedFaces(work) == y + z;
      var p := Pass(b, work).0;
      Regroup(FacesAt(p.cells, p.shared), FacesAt(v.cells, v.shared), x, y, z);
    }
  }

  /** A sweep places every record that belongs straight under a root. */
  lemma {:induction false} PassNested(b: Build, work: seq<Record>)
    requires Sound(b)
    ensures AllNested(Pass(b, work).1)
    decreases |work|
  {
    if work != [] {
      PassUnfold(b, work);
      VisitFrame(b, work[0]);
      PassNested(Visit(b, work[0]).0, work[1..]);
    }
  }

  lemma {:induction false} RunRoots(b: Build, work: seq<Record>)
    requires Sound(b) && Resolvable(b, work)
    ensures FacesAt(Run(b, work).cells, Run(b, work).home) == FacesAt(b.cells, b.home) + HomeFaces(work)
    ensures FacesAt(Run(b, work).cells, Run(b, work).shared) == FacesAt(b.cells, b.shared) + SharedFaces(work)
    decreases if AllResolved(b, work) then 0 else 1, |work|
  {
    if work != [] {
      var p := Pass(b, work);
      AfterPass(b, work);
      PassPlacesResolved(b, work);
      PassHome(b, work);
      PassShared(b, work);
      PassNested(b, work);
      NestedFaces(p.1);
      RunRoots(p.0, p.1);
    }
  }

  /** The fields of a display node, without its children. */
  function Top(t: Tree): Cell {
    Cell(t.id, t.key, t.caption, t.icon, t.data, [], t.droppable, t.draggable)
  }

  function Tops(ts: seq<Tree>): (cs: seq<Cell>)
    ensures |cs| == |ts|
  {
    seq(|ts|, i requires 0 <= i < |ts| => Top(ts[i]))
  }

  lemma {:induction false} SharedFacesLocked(rs: seq<Record>)
    ensures forall i | 0 <= i < |SharedFaces(rs)| ::
              var c := SharedFaces(rs)[i]; |c.key| > 0 && c.key[0] == 's' && !c.droppable && !c.draggable
    decreases |rs|
  {
    if rs != [] {
      SharedFacesLocked(rs[1..]);
    }
  }

  /** The forest `buildExplorerTree` returns, for a list it finishes on. */
  function ExplorerTreeOf(records: seq<Record>): (tree: seq<Tree>)
    requires Placeable(records)
  {
    Assemble(Run(Empty, records))
  }

  /** The children of Home are the nodes of the records that belong straight under it (no
      parent, or parent "h", and type other than "s"), in input order. */
  lemma HomeChildren(records: seq<Record>)
    requires Placeable(records)
    ensures Tops(ExplorerTreeOf(records)[0].children) == HomeFaces(records)
  {
    var b := Run(Empty, records);
    RunRoots(Empty, records);
    assert FacesAt(Empty.cells, Empty.home) == [];
    assert FacesAt(b.cells, b.home) == HomeFaces(records);
    assert Tops(UnfoldRoots(b.cells, b.home)) == FacesAt(b.cells, b.home);
  }

  /** The children of Shared are the nodes of the type-"s" records without a parent (or with
      parent "h"), in input order, neither draggable nor droppable. */
  lemma SharedChildren(records: seq<Record>)
    requires Placeable(records)
    ensures Tops(ExplorerTreeOf(records)[1].children) == SharedFaces(records)
  {
    var b := Run(Empty, records);
    RunRoots(Empty, records);
    assert FacesAt(Empty.cells, Empty.shared) == [];
    var fs := FacesAt(b.cells, b.shared);
    assert fs == SharedFaces(records);
    var ss := UnfoldRoots(b.cells, b.shared);
    SharedFacesLocked(records);
    forall i | 0 <= i < |ss|
      ensures Top(LockShared(ss[i])) == fs[i]
    {
      assert Top(ss[i]) == fs[i];
    }
    assert Tops(LockAll(ss)) == fs;
  }

  // ---------------------------------------------------------------------------------------
  // Every built node comes from a record

  /** Every node object in the arena is, children aside, the node some record produces. */
  ghost predicate Backed(cells: seq<Cell>, records: seq<Record>) {
    forall k | 0 <= k < |cells| :: exists r | r in records :: Face(cells[k]) == PlacedFace(r)
  }

  lemma {:induction false} PassBacked(b: Build, work: seq<Record>, records: seq<Record>)
    requires Sound(b) && Backed(b.cells, records)
    requires forall r | r in work :: r in records
    ensures Backed(Pass(b, work).0.cells, records)
    decreases |work|
  {
    if work != [] {
      PassUnfold(b, work);
      VisitFrame(b, work[0]);
      var v := Visit(b, work[0]).0;
      assert Backed(v.cells, records) by {
        forall k | 0 <= k < |v.cells|
          ensures exists r | r in records :: Face(v.cells[k]) == PlacedFace(r)
        {
          if k == |b.cells| {
            assert work[0] in records;
          } else {
            assert Face(v.cells[k]) == Face(b.cells[k]);
          }
        }
      }
      PassBacked(v, work[1..], records);
    }
  }

  lemma {:induction false} RunBacked(b: Build, work: seq<Record>, records: seq<Record>)
    requires Sound(b) && Resolvable(b, work) && Backed(b.cells, records)
    requires forall r | r in work :: r in records
    ensures Backed(Run(b, work).cells, records)
    decreases if AllResolved(b, work) then 0 else 1, |work|
  {
    if work != [] {
      var p := Pass(b, work);
      AfterPass(b, work);
      PassPlacesResolved(b, work);
      PassShape(b, work);
      PassBacked(b, work, records);
      RunBacked(p.0, p.1, records);
    }
  }

  /** Every node of the tree is, children aside, the node some record produces. */
  ghost predicate NodesFrom(t: Tree, records: seq<Record>)
    decreases t
  {
    && (exists r | r in records :: Top(t) == PlacedFace(r))
    && forall i | 0 <= i < |t.children| :: NodesFrom(t.children[i], records)
  }

  lemma {:induction false} UnfoldBacked(cells: seq<Cell>, k: nat, records: seq<Record>)
    requires k < |cells| && Backed(cells, records)
    ensures NodesFrom(Unfold(cells, k), records)
    decreases |cells| - k, |cells[k].children| + 1
  {
    UnfoldAllBacked(cells, k, cells[k].children, records);
    assert Top(Unfold(cells, k)) == Face(cells[k]);
  }

  lemma {:induction false} UnfoldAllBacked(cells: seq<Cell>, parent: nat, kids: seq<nat>, records: seq<Record>)
    requires Backed(cells, records)
    ensures forall i | 0 <= i < |UnfoldAll(cells, parent, kids)| :: NodesFrom(UnfoldAll(cells, parent, kids)[i], records)
    decreases |cells| - parent, |kids|
  {
    if kids != [] {
      UnfoldAllBacked(cells, parent, kids[1..], records);
      if parent < kids[0] < |cells| {
        UnfoldBacked(cells, kids[0], records);
      }
    }
  }

  /** The tree is the lock of a tree whose nodes all come from records. */
  ghost predicate LockedFrom(t: Tree, records: seq<Record>) {
    exists u :: NodesFrom(u, records) && t == LockShared(u)
  }

  /** Every node below Home is, children aside, the node its record produces: key
      `type + "-" + id`, the record's label and data, the icon of its type, droppable exactly
      when the type is "f", and draggable (both flags false for a Shared-level record). Every
      node below Shared is the lock of such a tree. */
  lemma BuiltNodes(records: seq<Record>)
    requires Placeable(records)
    ensures forall i | 0 <= i < |ExplorerTreeOf(records)[0].children| ::
              NodesFrom(ExplorerTreeOf(records)[0].children[i], records)
    ensures forall i | 0 <= i < |ExplorerTreeOf(records)[1].children| ::
              LockedFrom(ExplorerTreeOf(records)[1].children[i], records)
  {
    var b := Run(Empty, records);
    RunBacked(Empty, records, records);
    forall i | 0 <= i < |b.home|
      ensures NodesFrom(Unfold(b.cells, b.home[i]), records)
    {
      UnfoldBacked(b.cells, b.home[i], records);
    }
    var ss := UnfoldRoots(b.cells, b.shared);
    assert ExplorerTreeOf(records)[1].children == LockAll(ss);
    forall i | 0 <= i < |ss|
      ensures LockedFrom(LockAll(ss)[i], records)
    {
      UnfoldBacked(b.cells, b.shared[i], records);
      assert NodesFrom(ss[i], records);
    }
  }

  // ---------------------------------------------------------------------------------------
  // Each record is placed exactly once

  /** The references held by the children arrays of the node objects. */
  function ChildRefs(cells: seq<Cell>): multiset<nat>
    decreases |cells|
  {
    if cells == [] then multiset{}
    else ChildRefs(cells[..|cells| - 1]) + multiset(cells[|cells| - 1].children)
  }

  /** Every reference held anywhere: the children arrays and the two root arrays. */
  function Refs(b: Build): multiset<nat> {
    multiset(b.home) + multiset(b.shared) + ChildRefs(b.cells)
  }

  /** No node object is referenced twice, and every reference points into the arena. */
  ghost predicate Distinct(b: Build) {
    && (forall x | x in Refs(b) :: x < |b.cells|)
    && (forall x :: Refs(b)[x] <= 1)
  }

  lemma ChildRefsSnoc(cells: seq<Cell>, c: Cell)
    ensures ChildRefs(cells + [c]) == ChildRefs(cells) + multiset(c.children)
  {
    assert (cells + [c])[..|cells|] == cells;
  }

  lemma {:induction false} ChildRefsUpdate(cells: seq<Cell>, p: nat, c: Cell)
    requires p < |cells|
    ensures multiset(cells[p].children) <= ChildRefs(cells)
    ensures ChildRefs(cells[p := c]) == ChildRefs(cells) - multiset(cells[p].children) + multiset(c.children)
    decreases |cells|
  {
    var n := |cells| - 1;
    if p == n {
      assert cells[p := c][..n] == cells[..n];
    } else {
      assert cells[p := c][..n] == cells[..n][p := c];
      ChildRefsUpdate(cells[..n], p, c);
    }
  }

  /** A visit that places its record adds exactly one reference, to the fresh node object; a
      visit that does not adds none. */
  lemma VisitRefs(b: Build, r: Record)
    requires Sound(b)
    ensures Refs(Visit(b, r).0) == Refs(b) + (if Visit(b, r).1 then multiset{|b.cells|} else multiset{})
  {
    var h := |b.cells|;
    ChildRefsSnoc(b.cells, NewCell(r));
    if NeedsParent(r) && r.parent.value in b.treeMap[r.id := h] {
      AttachRefs(b, r);
    } else if NeedsParent(r) {
      assert Visit(b, r) == (Build(b.cells + [NewCell(r)], b.treeMap[r.id := h], b.home, b.shared), false);
    } else if r.kind == "s" {
      var cells := b.cells + [NewCell(r)];
      var c := cells[h].(droppable := false, draggable := false);
      assert Visit(b, r) == (Build(cells[h := c], b.treeMap[r.id := h], b.home, b.shared + [h]), true);
      ChildRefsUpdate(cells, h, c);
      assert multiset(b.shared + [h]) == multiset(b.shared) + multiset{h};
    } else {
      assert Visit(b, r) == (Build(b.cells + [NewCell(r)], b.treeMap[r.id := h], b.home + [h], b.shared), true);
      assert multiset(b.home + [h]) == multiset(b.home) + multiset{h};
    }
  }

  lemma AttachRefs(b: Build, r: Record)
    requires Sound(b) && NeedsParent(r) && r.parent.value in b.treeMap[r.id := |b.cells|]
    ensures Visit(b, r).1
    ensures Refs(Visit(b, r).0) == Refs(b) + multiset{|b.cells|}
  {
    var h := |b.cells|;
    var cells := b.cells + [NewCell(r)];
    ChildRefsSnoc(b.cells, NewCell(r));
    var p := b.treeMap[r.id := h][r.parent.value];
    var c := cells[p].(children := cells[p].children + [h]);
    assert Visit(b, r) == (Build(cells[p := c], b.treeMap[r.id := h], b.home, b.shared), true);
    ChildRefsUpdate(cells, p, c);
    SwapIn(ChildRefs(cells), multiset(cells[p].children), h);
  }

  lemma SwapIn(x: multiset<nat>, a: multiset<nat>, h: nat)
    requires a <= x
    ensures x - a + (a + multiset{h}) == x + multiset{h}
  {
  }

  lemma VisitDistinct(b: Build, r: Record)
    requires Sound(b) && Distinct(b)
    ensures Distinct(Visit(b, r).0)
  {
    VisitRefs(b, r);
    VisitSound(b, r);
    var h := |b.cells|;
    assert h !in Refs(b);
  }

  lemma {:induction false} PassRefs(b: Build, work: seq<Record>)
    requires Sound(b) && Distinct(b)
    ensures Distinct(Pass(b, work).0)
    ensures |Refs(Pass(b, work).0)| + |Pass(b, work).1| == |Refs(b)| + |work|
    decreases |work|
  {
    if work != [] {
      PassUnfold(b, work);
      VisitRefs(b, work[0]);
      VisitDistinct(b, work[0]);
      PassRefs(Visit(b, work[0]).0, work[1..]);
    }
  }

  lemma {:induction false} RunRefs(b: Build, work: seq<Record>)
    requires Sound(b) && Resolvable(b, work) && Distinct(b)
    ensures Distinct(Run(b, work))
    ensures |Refs(Run(b, work))| == |Refs(b)| + |work|
    decreases if AllResolved(b, work) then 0 else 1, |work|
  {
    if work != [] {
      var p := Pass(b, work);
      AfterPass(b, work);
      PassPlacesResolved(b, work);
      PassRefs(b, work);
      RunRefs(p.0, p.1);
    }
  }

  /** Each record leaves the worklist once, and each time one reference to a fresh node object
      is pushed into exactly one children array or root array: when the loop ends the arrays
      hold one reference per record, and no node object is referenced twice. */
  lemma PlacedOnce(records: seq<Record>)
    requires Placeable(records)
    ensures |Refs(Run(Empty, records))| == |records|
    ensures Distinct(Run(Empty, records))
  {
    RunRefs(Empty, records);
  }

  // ---------------------------------------------------------------------------------------
  // Parents before children

  /** Every record that needs a parent names the id of an earlier record. */
  ghost predicate ParentsFirst(records: seq<Record>) {
    forall i | 0 <= i < |records| && NeedsParent(records[i]) ::
      exists j | 0 <= j < i :: records[j].id == records[i].parent.value
  }

  ghost predicate UniqueIds(records: seq<Record>) {
    forall i, j | 0 <= i < j < |records| :: records[i].id != records[j].id
  }

  /** A sweep places every record whose parent is already in the map or is the id of an
      earlier worklist record. */
  lemma {:induction false} OnePassFrom(b: Build, work: seq<Record>)
    requires Sound(b)
    requires forall i | 0 <= i < |work| && NeedsParent(work[i]) ::
               work[i].parent.value in b.treeMap || exists j | 0 <= j < i :: work[j].id == work[i].parent.value
    ensures Pass(b, work).1 == []
    decreases |work|
  {
    if work != [] {
      PassUnfold(b, work);
      VisitFrame(b, work[0]);
      VisitSound(b, work[0]);
      var v := Visit(b, work[0]).0;
      var rest := work[1..];
      forall i | 0 <= i < |rest| && NeedsParent(rest[i])
        ensures rest[i].parent.value in v.treeMap || exists j | 0 <= j < i :: rest[j].id == rest[i].parent.value
      {
        assert rest[i] == work[i + 1];
        if rest[i].parent.value !in b.treeMap {
          var j :| 0 <= j < i + 1 && work[j].id == work[i + 1].parent.value;
          if j > 0 {
            assert rest[j - 1].id == rest[i].parent.value;
          }
        }
      }
      OnePassFrom(v, rest);
    }
  }

  /** With parents before children, the first sweep places every record and the loop ends
      after it. */
  lemma OnePass(records: seq<Record>)
    requires ParentsFirst(records)
    ensures Placeable(records)
    ensures Pass(Empty, records).1 == []
    ensures Run(Empty, records) == Pass(Empty, records).0
  {
    forall r | r in records && NeedsParent(r)
      ensures r.parent.value in Ids(records)
    {
      var i :| 0 <= i < |records| && records[i] == r;
      var j :| 0 <= j < i && records[j].id == r.parent.value;
      assert records[j] in records;
    }
    OnePassFrom(Empty, records);
  }

  /** The references, in input order, to the nodes of the first `n` records that name `pid`
      as parent (a record's node is the `i`th object created when parents come first). */
  function Kids(records: seq<Record>, pid: string, n: nat): seq<nat>
    requires n <= |records|
  {
    if n == 0 then []
    else Kids(records, pid, n - 1)
         + (if NeedsParent(records[n - 1]) && records[n - 1].parent.value == pid then [n - 1] else [])
  }

  /** The references, in input order, to the nodes of the first `n` records that go straight
      under Home. */
  function HomeIdx(records: seq<Record>, n: nat): seq<nat>
    requires n <= |records|
  {
    if n == 0 then [] else HomeIdx(records, n - 1) + (if HomeLevel(records[n - 1]) then [n - 1] else [])
  }

  /** The same for Shared. */
  function SharedIdx(records: seq<Record>, n: nat): seq<nat>
    requires n <= |records|
  {
    if n == 0 then [] else SharedIdx(records, n - 1) + (if SharedLevel(records[n - 1]) then [n - 1] else [])
  }

  /** After the first `n` visits of a parents-first list, node object `j` is record `j`'s, the
      map sends each id to its record's node, each node's children are the records naming it as
      parent in input order, and the roots hold the root-level records in input order. */
  ghost predicate Mirror(b: Build, records: seq<Record>, n: nat) {
    && n <= |records| && |b.cells| == n
    && MapMirror(b.treeMap, records, n)
    && (forall j | 0 <= j < n :: Face(b.cells[j]) == PlacedFace(records[j]))
    && KidsMirror(b.cells, records, n)
    && b.home == HomeIdx(records, n)
    && b.shared == SharedIdx(records, n)
  }

  ghost predicate MapMirror(m: map<string, nat>, records: seq<Record>, n: nat)
    requires n <= |records|
  {
    forall j | 0 <= j < n :: records[j].id in m && m[records[j].id] == j
  }

  ghost predicate KidsMirror(cells: seq<Cell>, records: seq<Record>, n: nat)
    requires n <= |records| && |cells| == n
  {
    forall j | 0 <= j < n :: cells[j].children == Kids(records, records[j].id, n)
  }

  lemma {:induction false} NoKidsBefore(records: seq<Record>, pid: string, k: nat)
    requires k <= |records|
    requires forall i | 0 <= i < k :: !(NeedsParent(records[i]) && records[i].parent.value == pid)
    ensures Kids(records, pid, k) == []
  {
    if k > 0 {
      NoKidsBefore(records, pid, k - 1);
    }
  }

  /** A record's node has no children when it is created. */
  lemma NoKidsYet(records: seq<Record>, n: nat)
    requires ParentsFirst(records) && UniqueIds(records) && n < |records|
    ensures Kids(records, records[n].id, n + 1) == []
  {
    forall i | 0 <= i < n + 1
      ensures !(NeedsParent(records[i]) && records[i].parent.value == records[n].id)
    {
      if NeedsParent(records[i]) && records[i].parent.value == records[n].id {
        assert false;
      }
    }
    NoKidsBefore(records, records[n].id, n + 1);
  }

  lemma MirrorStep(b: Build, records: seq<Record>, n: nat)
    requires ParentsFirst(records) && UniqueIds(records)
    requires Sound(b) && Mirror(b, records, n) && n < |records|
    ensures Sound(Visit(b, records[n]).0)
    ensures Visit(b, records[n]).1
    ensures Mirror(Visit(b, records[n]).0, records, n + 1)
  {
    var r := records[n];
    VisitSound(b, r);
    VisitFrame(b, r);
    var cells := b.cells + [NewCell(r)];
    var m := b.treeMap[r.id := n];
    MapStep(b.treeMap, records, n);
    NoKidsYet(records, n);
    if NeedsParent(r) {
      var j0 :| 0 <= j0 < n && records[j0].id == r.parent.value;
      assert r.parent.value != r.id;
      var c := cells[j0].(children := cells[j0].children + [n]);
      assert Visit(b, r) == (Build(cells[j0 := c], m, b.home, b.shared), true);
      KidsAttach(b.cells, records, n, j0);
    } else {
      KidsRoot(b.cells, records, n);
      if r.kind == "s" {
        var c := cells[n].(droppable := false, draggable := false);
        assert Visit(b, r) == (Build(cells[n := c], m, b.home, b.shared + [n]), true);
      } else {
        assert Visit(b, r) == (Build(cells, m, b.home + [n], b.shared), true);
      }
    }
  }

  lemma MapStep(m: map<string, nat>, records: seq<Record>, n: nat)
    requires UniqueIds(records) && n < |records| && MapMirror(m, records, n)
    ensures MapMirror(m[records[n].id := n], records, n + 1)
  {
    forall j | 0 <= j < n + 1
      ensures records[j].id in m[records[n].id := n] && m[records[n].id := n][records[j].id] == j
    {
      if j < n {
        assert records[j].id != records[n].id;
      }
    }
  }

  /** Attaching record `n`'s fresh node to the node of record `j0`, the one its parent names. */
  lemma KidsAttach(cells: seq<Cell>, records: seq<Record>, n: nat, j0: nat)
    requires ParentsFirst(records) && UniqueIds(records) && n < |records| && |cells| == n
    requires KidsMirror(cells, records, n)
    requires j0 < n && NeedsParent(records[n]) && records[j0].id == records[n].parent.value
    ensures var cs := cells + [NewCell(records[n])];
            KidsMirror(cs[j0 := cs[j0].(children := cs[j0].children + [n])], records, n + 1)
  {
    var cs := cells + [NewCell(records[n])];
    var cs' := cs[j0 := cs[j0].(children := cs[j0].children + [n])];
    NoKidsYet(records, n);
    forall j | 0 <= j < n + 1
      ensures cs'[j].children == Kids(records, records[j].id, n + 1)
    {
      if j != n && j != j0 {
        assert records[j].id != records[j0].id;
      }
    }
  }

  /** Record `n` goes under a root: no node gains a child. */
  lemma KidsRoot(cells: seq<Cell>, records: seq<Record>, n: nat)
    requires ParentsFirst(records) && UniqueIds(records) && n < |records| && |cells| == n
    requires KidsMirror(cells, records, n) && !NeedsParent(records[n])
    ensures KidsMirror(cells + [NewCell(records[n])], records, n + 1)
    ensures forall c: Cell | c.children == [] :: KidsMirror((cells + [NewCell(records[n])])[n := c], records, n + 1)
  {
    NoKidsYet(records, n);
  }

  lemma {:induction false} MirrorPass(b: Build, records: seq<Record>, n: nat)
    requires ParentsFirst(records) && UniqueIds(records)
    requires Sound(b) && Mirror(b, records, n)
    ensures Mirror(Pass(b, records[n..]).0, records, |records|)
    decreases |records| - n
  {
    if n < |records| {
      PassUnfold(b, records[n..]);
      MirrorStep(b, records, n);
      assert records[n..][1..] == records[n + 1..];
      MirrorPass(Visit(b, records[n]).0, records, n + 1);
    }
  }

  /** Every child reference points past its parent, so the unfolding follows all of them. */
  lemma KidsAfter(records: seq<Record>, j: nat, n: nat)
    requires ParentsFirst(records) && UniqueIds(records) && j < |records| && n <= |records|
    ensures forall t | t in Kids(records, records[j].id, n) :: j < t < n
  {
    if n > 0 {
      KidsAfter(records, j, n - 1);
      var i := n - 1;
      if NeedsParent(records[i]) && records[i].parent.value == records[j].id {
        var j' :| 0 <= j' < i && records[j'].id == records[i].parent.value;
        assert j' == j;
      }
    }
  }

  /** If ids are unique and every parent named occurs earlier in the list, one sweep places
      every record and the loop ends; node object `j` is record `j`'s, each node's children
      are exactly the records naming it as parent, in input order, and the roots hold the
      root-level records in input order: the tree mirrors the parent fields. */
  lemma ParentsFirstTree(records: seq<Record>)
    requires ParentsFirst(records) && UniqueIds(records)
    ensures Placeable(records)
    ensures Run(Empty, records) == Pass(Empty, records).0
    ensures Mirror(Run(Empty, records), records, |records|)
  {
    OnePass(records);
    assert records[0..] == records;
    assert Mirror(Empty, records, 0);
    MirrorPass(Empty, records, 0);
  }

  /** With parents first, every child comes after its parent, so the unfolding from the roots
      follows every child reference. */
  lemma ChildrenAfterParents(records: seq<Record>)
    requires ParentsFirst(records) && UniqueIds(records)
    ensures forall j, t | 0 <= j < |records| && t in Kids(records, records[j].id, |records|) :: j < t
  {
    forall j | 0 <= j < |records| {
      KidsAfter(records, j, |records|);
    }
  }

  /** The tree the `parent` fields describe, independent of any builder state: record `j`'s
      node with, as children, the trees of the records naming it as parent, in input order.
      Only later records are followed, which with parents first drops none of them
      (`ChildrenAfterParents`). */
  function SubTree(records: seq<Record>, j: nat): Tree
    requires j < |records|
    decreases |records| - j, |Kids(records, records[j].id, |records|)| + 1
  {
    var f := PlacedFace(records[j]);
    Tree(f.id, f.key, f.caption, f.icon, f.data, SubTrees(records, j, Kids(records, records[j].id, |records|)),
         f.droppable, f.draggable)
  }

  function SubTrees(records: seq<Record>, parent: nat, ks: seq<nat>): seq<Tree>
    decreases |records| - parent, |ks|
  {
    if ks == [] then []
    else if parent < ks[0] < |records| then [SubTree(records, ks[0])] + SubTrees(records, parent, ks[1..])
    else SubTrees(records, parent, ks[1..])
  }

  /** The trees of the records at the given positions. */
  function SubTreesAt(records: seq<Record>, hs: seq<nat>): seq<Tree>
    decreases hs
  {
    if hs == [] then []
    else (if hs[0] < |records| then [SubTree(records, hs[0])] else []) + SubTreesAt(records, hs[1..])
  }

  /** The forest the `parent` fields describe: Home over the trees of the records that go
      straight under it, Shared over the locked trees of the others without a lookup parent,
      both in input order. */
  function ParentForest(records: seq<Record>): seq<Tree> {
    [ HomeRoot(SubTreesAt(records, HomeIdx(records, |records|))),
      SharedRoot(LockAll(SubTreesAt(records, SharedIdx(records, |records|)))) ]
  }

  lemma {:induction false} UnfoldSubTree(cells: seq<Cell>, records: seq<Record>, k: nat)
    requires |cells| == |records| && k < |cells|
    requires forall j | 0 <= j < |cells| :: Face(cells[j]) == PlacedFace(records[j])
    requires KidsMirror(cells, records, |records|)
    ensures Unfold(cells, k) == SubTree(records, k)
    decreases |cells| - k, |cells[k].children| + 1
  {
    assert Face(cells[k]) == PlacedFace(records[k]);
    UnfoldSubTrees(cells, records, k, cells[k].children);
  }

  lemma {:induction false} UnfoldSubTrees(cells: seq<Cell>, records: seq<Record>, parent: nat, ks: seq<nat>)
    requires |cells| == |records|
    requires forall j | 0 <= j < |cells| :: Face(cells[j]) == PlacedFace(records[j])
    requires KidsMirror(cells, records, |records|)
    ensures UnfoldAll(cells, parent, ks) == SubTrees(records, parent, ks)
    decreases |cells| - parent, |ks|
  {
    if ks != [] {
      if parent < ks[0] < |cells| {
        UnfoldSubTree(cells, records, ks[0]);
      }
      UnfoldSubTrees(cells, records, parent, ks[1..]);
    }
  }

  lemma {:induction false} UnfoldRootsAt(cells: seq<Cell>, records: seq<Record>, hs: seq<nat>)
    requires |cells| == |records| && forall i | 0 <= i < |hs| :: hs[i] < |cells|
    requires forall j | 0 <= j < |cells| :: Face(cells[j]) == PlacedFace(records[j])
    requires KidsMirror(cells, records, |records|)
    ensures UnfoldRoots(cells, hs) == SubTreesAt(records, hs)
    decreases hs
  {
    if hs != [] {
      UnfoldSubTree(cells, records, hs[0]);
      UnfoldRootsAt(cells, records, hs[1..]);
      UnfoldRootsCons(cells, hs);
      assert SubTreesAt(records, hs) == [SubTree(records, hs[0])] + SubTreesAt(records, hs[1..]);
    }
  }

  lemma UnfoldRootsCons(cells: seq<Cell>, hs: seq<nat>)
    requires hs != [] && forall i | 0 <= i < |hs| :: hs[i] < |cells|
    ensures UnfoldRoots(cells, hs) == [Unfold(cells, hs[0])] + UnfoldRoots(cells, hs[1..])
  {
  }

  /** With unique ids and parents first, the forest `buildExplorerTree` returns is the one
      the `parent` fields describe: each record's node sits under the node of the record it
      names, or under Home or Shared, among its siblings in input order. */
  lemma ExplorerTreeMirrors(records: seq<Record>)
    requires ParentsFirst(records) && UniqueIds(records)
    ensures Placeable(records)
    ensures ExplorerTreeOf(records) == ParentForest(records)
  {
    ParentsFirstTree(records);
    var b := Run(Empty, records);
    UnfoldRootsAt(b.cells, records, b.home);
    UnfoldRootsAt(b.cells, records, b.shared);
  }

  // ---------------------------------------------------------------------------------------
  // Lists the loop never finishes, and lists it finishes wrongly

  /** A record whose parent is neither in the map nor the id of a worklist record stays in the
      worklist through a sweep, and the sweep does not bring its parent into the map: since the
      outer loop has no retry bound, it never ends. */
  lemma {:induction false} DanglingStays(b: Build, work: seq<Record>, r: Record)
    requires Sound(b) && r in work && NeedsParent(r)
    requires r.parent.value !in b.treeMap && r.parent.value !in Ids(work)
    ensures r in Pass(b, work).1
    ensures r.parent.value !in Pass(b, work).0.treeMap
    ensures r.parent.value !in Ids(Pass(b, work).1)
    decreases |work|
  {
    PassShape(b, work);
    PassUnfold(b, work);
    VisitFrame(b, work[0]);
    assert work[0] in work;
    if work[0] != r {
      var v := Visit(b, work[0]).0;
      assert r in work[1..];
      assert Ids(work[1..]) <= Ids(work);
      DanglingStays(v, work[1..], r);
    } else {
      assert r.id in Ids(work);
    }
  }

  /** The state and worklist after `n` sweeps of the outer loop (an empty worklist stays empty). */
  function Sweeps(b: Build, work: seq<Record>, n: nat): (res: (Build, seq<Record>))
    requires Sound(b)
    ensures Sound(res.0)
    decreases n
  {
    if n == 0 || work == [] then (b, work) else Sweeps(Pass(b, work).0, Pass(b, work).1, n - 1)
  }

  /** A list holding such a record is one the loop never finishes: it is not `Placeable`, and
      after any number of sweeps the record is still in the worklist. */
  lemma {:induction false} DanglingNotPlaceable(records: seq<Record>, r: Record, n: nat)
    requires r in records && NeedsParent(r) && r.parent.value !in Ids(records)
    ensures !Placeable(records)
    ensures r in Sweeps(Empty, records, n).1
  {
    DanglingSweeps(Empty, records, r, n);
  }

  lemma {:induction false} DanglingSweeps(b: Build, work: seq<Record>, r: Record, n: nat)
    requires Sound(b) && r in work && NeedsParent(r)
    requires r.parent.value !in b.treeMap && r.parent.value !in Ids(work)
    ensures r in Sweeps(b, work, n).1
    decreases n
  {
    if n > 0 {
      DanglingStays(b, work, r);
      DanglingSweeps(Pass(b, work).0, Pass(b, work).1, r, n - 1);
    }
  }

  /** A child visited before its parent's last copy attaches to a discarded copy: for
      `[B (parent A), C (parent B), A (parent h)]` the first sweep attaches C to the first copy
      of B and leaves B behind; the second sweep attaches a new copy of B to A. All three
      records are placed, but C is reachable from no root. */
  lemma OrphanExample()
    ensures var records := OrphanRecords();
            && Placeable(records)
            && |Refs(Run(Empty, records))| == 3
            && ExplorerTreeOf(records) ==
                 [ HomeRoot([Tree("A", "f-A", "Docs", Some("far fa-folder"), None,
                                  [Tree("B", "f-B", "Sub", Some("far fa-folder"), None, [], true, true)], true, true)]),
                   SharedRoot([]) ]
  {
    OrphanRun();
    PlacedOnce(OrphanRecords());
    OrphanTree();
  }

  lemma OrphanTree()
    ensures Sound(OrphanState(4))
    ensures Assemble(OrphanState(4)) ==
              [ HomeRoot([Tree("A", "f-A", "Docs", Some("far fa-folder"), None,
                               [Tree("B", "f-B", "Sub", Some("far fa-folder"), None, [], true, true)], true, true)]),
                SharedRoot([]) ]
  {
    var cells := OrphanState(4).cells;
    var tb := Tree("B", "f-B", "Sub", Some("far fa-folder"), None, [], true, true);
    var ta := Tree("A", "f-A", "Docs", Some("far fa-folder"), None, [tb], true, true);
    assert cells[3] == NewCell(OrphanRecords()[0]);
    assert "f" + "-" + "B" == "f-B" && "f" + "-" + "A" == "f-A";
    assert Unfold(cells, 3) == tb;
    assert UnfoldAll(cells, 2, [3]) == [tb];
    assert Unfold(cells, 2) == ta;
    assert UnfoldRoots(cells, [2]) == [ta];
  }

  /** The example list is one the loop finishes on, after two sweeps. */
  lemma OrphanRun()
    ensures Placeable(OrphanRecords())
    ensures Run(Empty, OrphanRecords()) == OrphanState(4)
  {
    var records := OrphanRecords();
    OrphanPlaceable();
    OrphanFirstSweep();
    RunUnfold(Empty, records);
    var v3 := OrphanState(3);
    OrphanVisit(3);
    PassUnfold(v3, [records[0]]);
    assert [records[0]][1..] == [];
    RunUnfold(v3, [records[0]]);
  }

  lemma OrphanPlaceable()
    ensures Placeable(OrphanRecords())
  {
    var records := OrphanRecords();
    assert records[0].id in Ids(records) && records[2].id in Ids(records);
  }

  lemma RunUnfold(b: Build, work: seq<Record>)
    requires Sound(b) && Resolvable(b, work) && work != []
    ensures Resolvable(Pass(b, work).0, Pass(b, work).1)
    ensures Run(b, work) == Run(Pass(b, work).0, Pass(b, work).1)
  {
    AfterPass(b, work);
  }

  function OrphanRecords(): seq<Record> {
    [ Record("B", "f", "Sub", Some("A"), None, None, None),
      Record("C", "a", "App", Some("B"), None, None, None),
      Record("A", "f", "Docs", Some("h"), None, None, None) ]
  }

  /** The builder's state after each of the four visits of the example. */
  function OrphanState(k: nat): Build
    requires k <= 4
  {
    var b, c, a := OrphanRecords()[0], OrphanRecords()[1], OrphanRecords()[2];
    var nb, nc, na := NewCell(b), NewCell(c), NewCell(a);
    if k == 0 then Empty
    else if k == 1 then Build([nb], map["B" := 0], [], [])
    else if k == 2 then Build([nb.(children := [1]), nc], map["B" := 0, "C" := 1], [], [])
    else if k == 3 then Build([nb.(children := [1]), nc, na], map["B" := 0, "C" := 1, "A" := 2], [2], [])
    else Build([nb.(children := [1]), nc, na.(children := [3]), nb], map["B" := 3, "C" := 1, "A" := 2], [2], [])
  }

  /** The record visited in step `k` of the example. */
  function OrphanVisited(k: nat): Record
    requires k < 4
  {
    if k == 3 then OrphanRecords()[0] else OrphanRecords()[k]
  }

  lemma OrphanVisit(k: nat)
    requires k < 4
    ensures Sound(OrphanState(k))
    ensures Visit(OrphanState(k), OrphanVisited(k)).0 == OrphanState(k + 1)
    ensures Visit(OrphanState(k), OrphanVisited(k)).1 == (k != 0)
  {
    var s, r := OrphanState(k), OrphanVisited(k);
    var s' := OrphanState(k + 1);
    var m := s.treeMap[r.id := |s.cells|];
    assert m == s'.treeMap;
    var cells := s.cells + [NewCell(r)];
    var nb, nc, na := NewCell(OrphanRecords()[0]), NewCell(OrphanRecords()[1]), NewCell(OrphanRecords()[2]);
    if k == 1 {
      assert m[r.parent.value] == 0;
      assert cells == [nb, nc];
      assert nb.children + [1] == [1];
      assert [nb, nc][0 := nb.(children := [1])] == s'.cells;
    } else if k == 3 {
      assert m[r.parent.value] == 2;
      assert cells == [nb.(children := [1]), nc, na, nb];
      assert na.children + [3] == [3];
      assert [nb.(children := [1]), nc, na, nb][2 := na.(children := [3])] == s'.cells;
    }
  }

  /** The first sweep over the example: C is attached to the first copy of B, A goes under
      Home, and B is left behind. */
  lemma OrphanFirstSweep()
    ensures Pass(Empty, OrphanRecords()).0 == OrphanState(3)
    ensures Pass(Empty, OrphanRecords()).1 == [OrphanRecords()[0]]
  {
    var records := OrphanRecords();
    OrphanVisit(0);
    OrphanVisit(1);
    OrphanVisit(2);
    PassUnfold(Empty, records);
    assert records[1..] == [records[1], records[2]];
    assert [records[1], records[2]][1..] == [records[2]] && [records[2]][1..] == [];
    PassUnfold(OrphanState(1), records[1..]);
    PassUnfold(OrphanState(2), [records[2]]);
  }

  // ---------------------------------------------------------------------------------------
  // The Shared lock

  /** The tree without its keys and flags. */
  function Erase(t: Tree): Tree
    decreases t
  {
    Tree(t.id, "", t.caption, t.icon, t.data, seq(|t.children|, i requires 0 <= i < |t.children| => Erase(t.children[i])), false, false)
  }

  /** The lock changes only keys and flags. */
  lemma {:induction false} LockKeepsShape(t: Tree)
    ensures Erase(LockShared(t)) == Erase(t)
    decreases t
  {
    forall i | 0 <= i < |t.children| {
      LockKeepsShape(t.children[i]);
    }
  }

  /** Locking a locked tree changes nothing. */
  lemma {:induction false} LockIdempotent(t: Tree)
    ensures LockShared(LockShared(t)) == LockShared(t)
    decreases t
  {
    forall i | 0 <= i < |t.children| {
      LockIdempotent(t.children[i]);
    }
    assert LockAll(LockAll(t.children)) == LockAll(t.children);
  }
}
