/**
 * The records of the host-owned flat list, the display-tree nodes built from them, and the
 * two lookups the widgets use (src/ts/helper.tsx).
 */
module Helper {
  import opened Wrappers
  import opened JsonValues

  /** One record of the flat list (`TreeViewNode`); `kind` is the record's `type` letter. */
  datatype Record = Record(
    id: string,
    kind: string,
    caption: string,
    parent: Option<string>,
    frame: Option<string>,
    app: Option<string>,
    data: Option<Json>)

  /** One node of a display tree (the tree widget's `TreeNode`). */
  datatype Tree = Tree(
    id: string,
    key: string,
    caption: string,
    icon: Option<string>,
    data: Option<Json>,
    children: seq<Tree>,
    droppable: bool,
    draggable: bool)

  /** JavaScript truthiness of an optional string: `undefined` and `""` are false. */
  predicate Truthy(s: Option<string>) {
    s.Some? && s.value != ""
  }

  /** `iconMapping[type]`: an icon for the five known type letters, `undefined` otherwise. */
  function IconFor(kind: string): (icon: Option<string>)
    ensures icon.Some? <==> kind in {"a", "p", "r", "s", "f"}
  {
    if kind == "a" then Some("far fa-window-maximize")
    else if kind == "p" then Some("fas fa-chart-line")
    else if kind == "r" then Some("far fa-file-powerpoint")
    else if kind == "s" then Some("far fa-user")
    else if kind == "f" then Some("far fa-folder")
    else None
  }

  /** The index of the first record with the given id. */
  function IndexOfId(nodes: seq<Record>, id: string): (k: Option<nat>)
    ensures k.Some? ==> k.value < |nodes| && nodes[k.value].id == id
    ensures k.Some? ==> forall j | 0 <= j < k.value :: nodes[j].id != id
    ensures k.None? <==> forall j | 0 <= j < |nodes| :: nodes[j].id != id
    decreases |nodes|
  {
    if nodes == [] then None
    else if nodes[0].id == id then Some(0)
    else
      match IndexOfId(nodes[1..], id)
      case Some(k) => Some(k + 1)
      case None => None
  }

  /** `nodes.filter(el => el.id == id)`. */
  function WithId(nodes: seq<Record>, id: string): (matched: seq<Record>)
    ensures forall i | 0 <= i < |matched| :: matched[i].id == id
    ensures |matched| > 0 <==> IndexOfId(nodes, id).Some?
    ensures |matched| > 0 ==> matched[0] == nodes[IndexOfId(nodes, id).value]
    decreases |nodes|
  {
    if nodes == [] then []
    else if nodes[0].id == id then [nodes[0]] + WithId(nodes[1..], id)
    else WithId(nodes[1..], id)
  }

  /** `findTreeViewNode`: the first record whose id matches, or `undefined`. */
  function FindTreeViewNode(nodes: seq<Record>, id: string): (r: Option<Record>)
    ensures r.None? <==> forall j | 0 <= j < |nodes| :: nodes[j].id != id
    ensures r.Some? ==> exists k | 0 <= k < |nodes| ::
              r.value == nodes[k] && nodes[k].id == id && forall j | 0 <= j < k :: nodes[j].id != id
  {
    var matched := WithId(nodes, id);
    if |matched| > 0 then Some(matched[0]) else None
  }

  /** What `findTreeNode` returns: the node found and the id of the node whose children
      hold it, `undefined` for a root. */
  datatype Found = Found(node: Tree, parent: Option<string>)

  /** `findNodeRecursive(nodes, parent)`: scan `nodes` in order; a match returns at once, and a
      node with children is searched before its next sibling. */
  function FindNodeRecursive(nodes: seq<Tree>, id: string, parent: Option<string>): (r: Option<Found>)
    ensures r == FirstWithId(PreOrder(nodes, parent), id)
    decreases nodes
  {
    if nodes == [] then None
    else if nodes[0].id == id then Some(Found(nodes[0], parent))
    else
      var inChildren :=
        if |nodes[0].children| > 0 then FindNodeRecursive(nodes[0].children, id, Some(nodes[0].id)) else None;
      var below := PreOrder(nodes[0].children, Some(nodes[0].id));
      var after := PreOrder(nodes[1..], parent);
      assert PreOrder(nodes, parent)[1..] == below + after;
      FirstWithIdAppend(below, after, id);
      if inChildren.Some? then inChildren else FindNodeRecursive(nodes[1..], id, parent)
  }

  /** `findTreeNode`: search each root in turn. */
  function FindTreeNode(tree: seq<Tree>, id: string): (r: Option<Found>)
    ensures r == FirstWithId(PreOrder(tree, None), id)
    decreases |tree|
  {
    if tree == [] then None
    else
      var inRoot := FindNodeRecursive([tree[0]], id, None);
      PreOrderCons(tree, None);
      FirstWithIdAppend(PreOrder([tree[0]], None), PreOrder(tree[1..], None), id);
      if inRoot.Some? then inRoot else FindTreeNode(tree[1..], id)
  }

  /** Every node of a forest in pre-order, each paired with the id of the node whose children
      hold it: the reference order in which `findTreeNode` is meant to search. */
  function PreOrder(ts: seq<Tree>, parent: Option<string>): seq<Found>
    decreases ts
  {
    if ts == [] then []
    else [Found(ts[0], parent)] + PreOrder(ts[0].children, Some(ts[0].id)) + PreOrder(ts[1..], parent)
  }

  function FirstWithId(fs: seq<Found>, id: string): Option<Found> {
    if fs == [] then None
    else if fs[0].node.id == id then Some(fs[0])
    else FirstWithId(fs[1..], id)
  }

  lemma {:induction false} FirstWithIdAppend(a: seq<Found>, b: seq<Found>, id: string)
    ensures FirstWithId(a + b, id) == if FirstWithId(a, id).Some? then FirstWithId(a, id) else FirstWithId(b, id)
    decreases |a|
  {
    if a != [] {
      assert (a + b)[1..] == a[1..] + b;
      FirstWithIdAppend(a[1..], b, id);
    } else {
      assert a + b == b;
    }
  }

  lemma PreOrderCons(ts: seq<Tree>, parent: Option<string>)
    requires ts != []
    ensures PreOrder(ts, parent) == PreOrder([ts[0]], parent) + PreOrder(ts[1..], parent)
  {
    assert [ts[0]][1..] == [];
  }
}
