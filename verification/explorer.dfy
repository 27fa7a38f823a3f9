/**
 * The Explorer widget (src/ts/components/Explorer.tsx): a file-explorer view over the
 * host-owned flat record list. The widget holds the flat list, the display tree it shows, the
 * node its dialogs act on and its last context menu. What it reports to the host through
 * `setProps` is queued, in order, in `outbox`; the 100 ms timers of the source only delay
 * those reports, so a timer's body runs here at the end of the operation that set it.
 */
module Explorer {
  import opened Wrappers
  import opened Strings
  import opened Helper
  import opened ExplorerTree

  /** The `nodeChangeEvent` reported to the host. */
  datatype Change =
    | Moved(id: string, parent: string)   // the `{ id, parent }` literal a delete sends
    | Changed(node: Option<Record>)       // a record of the flat list, `undefined` when absent

  /** One `setProps` call: the change event, and the new flat list when one is sent; or a
      `dashpoolEvent` of type "open" for a record (its timestamp left out). */
  datatype Notice = Notice(change: Change, nodes: Option<seq<Record>>) | OpenEvent(record: Record)

  /** The context-menu entries; `Open` carries the record its command opens. */
  datatype MenuItem = Open(target: Option<Record>) | Share | Separator | Rename | Delete | NewFolder

  /** What `selectedNode` holds: nothing yet, a display-tree node (set when a dialog opens) or a
      flat record (set by a selection change). */
  datatype Selection = NoSelection | TreeNode(node: Tree) | FlatRecord(r: Record)

  // ---------------------------------------------------------------------------------------
  // Display-tree traversals

  /** The keys of a forest in pre-order. */
  function Keys(ts: seq<Tree>): seq<string>
    decreases ts
  {
    if ts == [] then [] else [ts[0].key] + Keys(ts[0].children) + Keys(ts[1..])
  }

  lemma KeysCons(t: Tree, ts: seq<Tree>)
    ensures Keys([t] + ts) == [t.key] + Keys(t.children) + Keys(ts)
  {
    assert ([t] + ts)[0] == t && ([t] + ts)[1..] == ts;
  }

  lemma {:induction false} KeysAppend(a: seq<Tree>, b: seq<Tree>)
    ensures Keys(a + b) == Keys(a) + Keys(b)
    decreases |a|
  {
    if a == [] {
      assert a + b == b;
    } else {
      assert a + b == [a[0]] + (a[1..] + b);
      KeysCons(a[0], a[1..] + b);
      KeysAppend(a[1..], b);
    }
  }

  /** `findAndDeleteNode` applied to the children of a node: every child keyed `key` is
      dropped without being searched, every other child is searched the same way. */
  function Pruned(ts: seq<Tree>, key: string): seq<Tree>
    decreases ts
  {
    if ts == [] then []
    else if ts[0].key == key then Pruned(ts[1..], key)
    else [ts[0].(children := Pruned(ts[0].children, key))] + Pruned(ts[1..], key)
  }

  /** The ids of the children `Pruned` drops, in the order the filter meets them. */
  function Trashed(ts: seq<Tree>, key: string): seq<string>
    decreases ts
  {
    if ts == [] then []
    else if ts[0].key == key then [ts[0].id] + Trashed(ts[1..], key)
    else Trashed(ts[0].children, key) + Trashed(ts[1..], key)
  }

  /** After a delete no node keyed `key` is left. */
  lemma {:induction false} PrunedNoKey(ts: seq<Tree>, key: string)
    ensures key !in Keys(Pruned(ts, key))
    decreases ts
  {
    if ts != [] {
      var t := ts[0];
      PrunedNoKey(t.children, key);
      PrunedNoKey(ts[1..], key);
      if t.key != key {
        KeysCons(t.(children := Pruned(t.children, key)), Pruned(ts[1..], key));
      }
    }
  }

  /** A delete only removes nodes. */
  lemma {:induction false} PrunedShrinks(ts: seq<Tree>, key: string)
    ensures multiset(Keys(Pruned(ts, key))) <= multiset(Keys(ts))
    decreases ts
  {
    if ts != [] {
      var t := ts[0];
      PrunedShrinks(t.children, key);
      PrunedShrinks(ts[1..], key);
      if t.key != key {
        KeysCons(t.(children := Pruned(t.children, key)), Pruned(ts[1..], key));
      }
    }
  }

  /** One report per removed subtree: never more than the nodes keyed `key`, and at least one
      exactly when some node has the key. */
  lemma {:induction false} TrashedCount(ts: seq<Tree>, key: string)
    ensures |Trashed(ts, key)| <= multiset(Keys(ts))[key]
    ensures |Trashed(ts, key)| > 0 <==> key in Keys(ts)
    decreases ts
  {
    if ts != [] {
      TrashedCount(ts[0].children, key);
      TrashedCount(ts[1..], key);
    }
  }

  /** The subtrees `Pruned` drops, in the order the filter meets them: each is rooted at a node
      keyed `key`. */
  function Removed(ts: seq<Tree>, key: string): (rs: seq<Tree>)
    ensures forall i | 0 <= i < |rs| :: rs[i].key == key
    decreases ts
  {
    if ts == [] then []
    else if ts[0].key == key then [ts[0]] + Removed(ts[1..], key)
    else Removed(ts[0].children, key) + Removed(ts[1..], key)
  }

  /** The nodes of a forest in pre-order, each without its children. */
  function Faces(ts: seq<Tree>): seq<Tree>
    decreases ts
  {
    if ts == [] then [] else [ts[0].(children := [])] + Faces(ts[0].children) + Faces(ts[1..])
  }

  lemma FacesCons(t: Tree, ts: seq<Tree>)
    ensures Faces([t] + ts) == [t.(children := [])] + Faces(t.children) + Faces(ts)
  {
    assert ([t] + ts)[0] == t && ([t] + ts)[1..] == ts;
  }

  lemma {:induction false} FacesAppend(a: seq<Tree>, b: seq<Tree>)
    ensures Faces(a + b) == Faces(a) + Faces(b)
    decreases |a|
  {
    if a == [] {
      assert a + b == b;
    } else {
      assert a + b == [a[0]] + (a[1..] + b);
      FacesCons(a[0], a[1..] + b);
      FacesAppend(a[1..], b);
    }
  }

  /** A delete keeps every other node: the nodes left, with their labels, data and flags, and
      the nodes of the dropped subtrees make up exactly the nodes there were. */
  lemma {:induction false} PrunedKeeps(ts: seq<Tree>, key: string)
    ensures multiset(Faces(Pruned(ts, key))) + multiset(Faces(Removed(ts, key))) == multiset(Faces(ts))
    decreases ts
  {
    if ts != [] {
      var t, rest := ts[0], ts[1..];
      PrunedKeeps(t.children, key);
      PrunedKeeps(rest, key);
      assert ts == [t] + rest;
      FacesCons(t, rest);
      var f, fc, fr := t.(children := []), Faces(t.children), Faces(rest);
      var pc, pr := Faces(Pruned(t.children, key)), Faces(Pruned(rest, key));
      var rc, rr := Faces(Removed(t.children, key)), Faces(Removed(rest, key));
      if t.key == key {
        assert Pruned(ts, key) == Pruned(rest, key);
        assert Removed(ts, key) == [t] + Removed(rest, key);
        FacesCons(t, Removed(rest, key));
        KeepsDropped(multiset(pr), multiset(rr), multiset([f]), multiset(fc), multiset(fr));
      } else {
        var t' := t.(children := Pruned(t.children, key));
        assert Pruned(ts, key) == [t'] + Pruned(rest, key);
        assert Removed(ts, key) == Removed(t.children, key) + Removed(rest, key);
        FacesCons(t', Pruned(rest, key));
        assert t'.(children := []) == f;
        FacesAppend(Removed(t.children, key), Removed(rest, key));
        KeepsKept(multiset([f]), multiset(pc), multiset(pr), multiset(rc), multiset(rr), multiset(fc), multiset(fr));
      }
    }
  }

  lemma KeepsDropped(pr: multiset<Tree>, rr: multiset<Tree>, f: multiset<Tree>, fc: multiset<Tree>, fr: multiset<Tree>)
    requires pr + rr == fr
    ensures pr + (f + fc + rr) == f + fc + fr
  {
  }

  lemma KeepsKept(f: multiset<Tree>, pc: multiset<Tree>, pr: multiset<Tree>, rc: multiset<Tree>, rr: multiset<Tree>,
                  fc: multiset<Tree>, fr: multiset<Tree>)
    requires pc + rc == fc && pr + rr == fr
    ensures (f + pc + pr) + (rc + rr) == f + fc + fr
  {
  }

  /** One trash report per dropped subtree, carrying its root's id. */
  lemma {:induction false} TrashedRemoved(ts: seq<Tree>, key: string)
    ensures |Trashed(ts, key)| == |Removed(ts, key)|
    ensures forall i | 0 <= i < |Trashed(ts, key)| :: Trashed(ts, key)[i] == Removed(ts, key)[i].id
    decreases ts
  {
    if ts != [] {
      TrashedRemoved(ts[0].children, key);
      TrashedRemoved(ts[1..], key);
    }
  }

  /** A forest without the key is left as it was. */
  lemma {:induction false} PrunedUnchanged(ts: seq<Tree>, key: string)
    requires key !in Keys(ts)
    ensures Pruned(ts, key) == ts
    decreases ts
  {
    if ts != [] {
      PrunedUnchanged(ts[0].children, key);
      PrunedUnchanged(ts[1..], key);
      assert ts == [ts[0]] + ts[1..];
    }
  }

  /** `findAndUpdateNode`: every node keyed `key`, the starting nodes included, gets the new
      label. */
  function Relabeled(ts: seq<Tree>, key: string, caption: string): seq<Tree>
    decreases ts
  {
    if ts == [] then []
    else
      var t := ts[0];
      [t.(caption := if t.key == key then caption else t.caption, children := Relabeled(t.children, key, caption))]
        + Relabeled(ts[1..], key, caption)
  }

  /** The ids of the nodes keyed `key`, in the pre-order `findAndUpdateNode` visits them. */
  function Matched(ts: seq<Tree>, key: string): seq<string>
    decreases ts
  {
    if ts == [] then []
    else (if ts[0].key == key then [ts[0].id] else []) + Matched(ts[0].children, key) + Matched(ts[1..], key)
  }

  /** A forest with every label blanked: what a rename must not change. */
  function Bare(ts: seq<Tree>): seq<Tree>
    decreases ts
  {
    if ts == [] then [] else [ts[0].(caption := "", children := Bare(ts[0].children))] + Bare(ts[1..])
  }

  /** The labels of a forest in pre-order, each with its node's key. */
  function Labels(ts: seq<Tree>): seq<(string, string)>
    decreases ts
  {
    if ts == [] then [] else [(ts[0].key, ts[0].caption)] + Labels(ts[0].children) + Labels(ts[1..])
  }

  /** Each pair keyed `key` with its label replaced. */
  function RenamePairs(ps: seq<(string, string)>, key: string, caption: string): (qs: seq<(string, string)>)
    ensures |qs| == |ps|
    ensures forall i | 0 <= i < |ps| :: qs[i] == if ps[i].0 == key then (key, caption) else ps[i]
  {
    if ps == [] then []
    else [if ps[0].0 == key then (key, caption) else ps[0]] + RenamePairs(ps[1..], key, caption)
  }

  lemma RenamePairsAppend(a: seq<(string, string)>, b: seq<(string, string)>, key: string, caption: string)
    ensures RenamePairs(a + b, key, caption) == RenamePairs(a, key, caption) + RenamePairs(b, key, caption)
  {
  }

  /** A rename changes nothing but labels. */
  lemma {:induction false} RelabelBare(ts: seq<Tree>, key: string, caption: string)
    ensures Bare(Relabeled(ts, key, caption)) == Bare(ts)
    decreases ts
  {
    if ts != [] {
      var t := ts[0];
      RelabelBare(t.children, key, caption);
      RelabelBare(ts[1..], key, caption);
      var r := Relabeled(ts, key, caption);
      assert r[0].children == Relabeled(t.children, key, caption);
      assert r[1..] == Relabeled(ts[1..], key, caption);
    }
  }

  /** A rename changes exactly the labels of the nodes keyed `key`. */
  lemma {:induction false} RelabelLabels(ts: seq<Tree>, key: string, caption: string)
    ensures Labels(Relabeled(ts, key, caption)) == RenamePairs(Labels(ts), key, caption)
    decreases ts
  {
    if ts != [] {
      var t := ts[0];
      RelabelLabels(t.children, key, caption);
      RelabelLabels(ts[1..], key, caption);
      var r := Relabeled(ts, key, caption);
      assert r[0].children == Relabeled(t.children, key, caption);
      assert r[1..] == Relabeled(ts[1..], key, caption);
      var a, b, c := [(t.key, t.caption)], Labels(t.children), Labels(ts[1..]);
      assert Labels(ts) == a + b + c;
      assert Labels(r) == [(r[0].key, r[0].caption)] + Labels(r[0].children) + Labels(r[1..]);
      RenamePairsAppend(a + b, c, key, caption);
      RenamePairsAppend(a, b, key, caption);
    }
  }

  /** The first pre-order node keyed `key` with `x` appended to its children: where
      `selectedNode.children.push` lands when the selected node is that node. */
  function Graft(ts: seq<Tree>, key: string, x: Tree): seq<Tree>
    decreases ts
  {
    if ts == [] then []
    else if ts[0].key == key then [ts[0].(children := ts[0].children + [x])] + ts[1..]
    else if key in Keys(ts[0].children) then [ts[0].(children := Graft(ts[0].children, key, x))] + ts[1..]
    else [ts[0]] + Graft(ts[1..], key, x)
  }

  /** Creating a folder under a key that is not shown changes nothing. */
  lemma {:induction false} GraftAbsent(ts: seq<Tree>, key: string, x: Tree)
    requires key !in Keys(ts)
    ensures Graft(ts, key, x) == ts
    decreases ts
  {
    if ts != [] {
      GraftAbsent(ts[1..], key, x);
      assert ts == [ts[0]] + ts[1..];
    }
  }

  /** Creating a folder under a shown key adds exactly the new node's keys. */
  lemma {:induction false} GraftKeys(ts: seq<Tree>, key: string, x: Tree)
    requires key in Keys(ts)
    ensures multiset(Keys(Graft(ts, key, x))) == multiset(Keys(ts)) + multiset(Keys([x]))
    decreases ts, 2
  {
    var t := ts[0];
    KeysCons(t, ts[1..]);
    if t.key == key {
      var t' := t.(children := t.children + [x]);
      assert Graft(ts, key, x) == [t'] + ts[1..];
      KeysCons(t', ts[1..]);
      KeysAppend(t.children, [x]);
      var a, b, c, d := [t.key], Keys(t.children), Keys([x]), Keys(ts[1..]);
      assert Keys(Graft(ts, key, x)) == a + (b + c) + d;
      assert Keys(ts) == a + b + d;
      assert multiset(a + (b + c) + d) == multiset(a) + multiset(b) + multiset(c) + multiset(d);
    } else {
      GraftLater(ts, key, x);
    }
  }

  lemma {:induction false} GraftLater(ts: seq<Tree>, key: string, x: Tree)
    requires key in Keys(ts) && ts[0].key != key
    ensures multiset(Keys(Graft(ts, key, x))) == multiset(Keys(ts)) + multiset(Keys([x]))
    decreases ts, 1
  {
    var t := ts[0];
    KeysCons(t, ts[1..]);
    if key in Keys(t.children) {
      var t' := t.(children := Graft(t.children, key, x));
      assert Graft(ts, key, x) == [t'] + ts[1..];
      GraftKeys(t.children, key, x);
      KeysCons(t', ts[1..]);
    } else {
      assert Graft(ts, key, x) == [t] + Graft(ts[1..], key, x);
      GraftKeys(ts[1..], key, x);
      KeysCons(t, Graft(ts[1..], key, x));
    }
  }

  // ---------------------------------------------------------------------------------------
  // Flat-list edits

  /** `nodes.filter(el => el.id !== id)`. */
  function Without(nodes: seq<Record>, id: string): (kept: seq<Record>)
    ensures forall r :: r in kept <==> r in nodes && r.id != id
    ensures |kept| + |WithId(nodes, id)| == |nodes|
    decreases |nodes|
  {
    if nodes == [] then []
    else if nodes[0].id == id then Without(nodes[1..], id)
    else [nodes[0]] + Without(nodes[1..], id)
  }

  /** The filter keeps input order: it works piece by piece, so the records kept from a first
      part of the list come before those kept from the rest. */
  lemma {:induction false} WithoutAppend(a: seq<Record>, b: seq<Record>, id: string)
    ensures Without(a + b, id) == Without(a, id) + Without(b, id)
    decreases |a|
  {
    if a == [] {
      assert a + b == b;
    } else {
      var ab := a + b;
      assert ab[0] == a[0] && ab[1..] == a[1..] + b;
      WithoutAppend(a[1..], b, id);
      var head := if a[0].id == id then [] else [a[0]];
      assert Without(ab, id) == head + Without(ab[1..], id);
      assert Without(a, id) == head + Without(a[1..], id);
      Regroup(Without(ab, id), Without(a, id), head, Without(a[1..], id), Without(b, id));
    }
  }

  /** The reports of a delete: one per removed child, each sending the filtered list. */
  function TrashNotices(ids: seq<string>, kept: seq<Record>): (ns: seq<Notice>)
    ensures |ns| == |ids|
    ensures forall i | 0 <= i < |ids| :: ns[i] == Notice(Moved(ids[i], "trash"), Some(kept))
  {
    if ids == [] then [] else [Notice(Moved(ids[0], "trash"), Some(kept))] + TrashNotices(ids[1..], kept)
  }

  /** The flat list once the label of the first record with each of `ids` is set. */
  function Renamed(nodes: seq<Record>, ids: seq<string>, caption: string): (r: seq<Record>)
    ensures |r| == |nodes|
  {
    seq(|nodes|, i requires 0 <= i < |nodes| =>
      if nodes[i].id in ids && IndexOfId(nodes, nodes[i].id) == Some(i) then nodes[i].(caption := caption)
      else nodes[i])
  }

  /** A rename of the flat list touches labels only, and only the first record of each id. */
  lemma RenamedFacts(nodes: seq<Record>, ids: seq<string>, caption: string)
    ensures forall i | 0 <= i < |nodes| :: Renamed(nodes, ids, caption)[i] == nodes[i].(caption := Renamed(nodes, ids, caption)[i].caption)
    ensures forall id | id in ids && IndexOfId(nodes, id).Some? :: Renamed(nodes, ids, caption)[IndexOfId(nodes, id).value].caption == caption
    ensures forall i | 0 <= i < |nodes| && nodes[i].id !in ids :: Renamed(nodes, ids, caption)[i] == nodes[i]
  {
  }

  /** The first record with an id is found at the same place in two lists with the same ids. */
  lemma {:induction false} IndexOfSameIds(a: seq<Record>, b: seq<Record>, id: string)
    requires |a| == |b| && forall i | 0 <= i < |a| :: a[i].id == b[i].id
    ensures IndexOfId(a, id) == IndexOfId(b, id)
    decreases |a|
  {
    if a != [] && a[0].id != id {
      IndexOfSameIds(a[1..], b[1..], id);
    }
  }

  /** A rename keeps ids, so each timer finds the record the original list has first with its id. */
  lemma RenameFinds(nodes: seq<Record>, ids: seq<string>, id: string, caption: string)
    ensures IndexOfId(Renamed(nodes, ids, caption), id) == IndexOfId(nodes, id)
  {
    IndexOfSameIds(Renamed(nodes, ids, caption), nodes, id);
  }

  /** One timer of `RenameRecords`: the rename and the report of the `j`th id, found in the
      list renamed so far at the same place as in the original list. */
  lemma RenameTimer(nodes: seq<Record>, ids: seq<string>, j: nat, caption: string)
    requires j < |ids|
    ensures var cur := Renamed(nodes, ids[..j], caption);
            var k := IndexOfId(cur, ids[j]);
            && k == IndexOfId(nodes, ids[j])
            && Renamed(nodes, ids[..j + 1], caption) ==
                 (if k.None? then cur else cur[k.value := cur[k.value].(caption := caption)])
            && RenameNotices(nodes, ids[..j + 1], caption) ==
                 RenameNotices(nodes, ids[..j], caption)
                 + (if k.None? then [] else [Notice(Changed(Some(cur[k.value].(caption := caption))), None)])
  {
    var done := ids[..j];
    assert ids[..j + 1] == done + [ids[j]];
    RenameFinds(nodes, done, ids[j], caption);
    RenameStep(nodes, done, ids[j], caption);
    NoticeStep(nodes, done, ids[j], caption);
  }

  /** One more timer of a rename: the list after it. */
  lemma RenameStep(nodes: seq<Record>, ids: seq<string>, id: string, caption: string)
    ensures var cur := Renamed(nodes, ids, caption);
            Renamed(nodes, ids + [id], caption) ==
              if IndexOfId(nodes, id).None? then cur
              else cur[IndexOfId(nodes, id).value := cur[IndexOfId(nodes, id).value].(caption := caption)]
  {
    var cur := Renamed(nodes, ids, caption);
    var k := IndexOfId(nodes, id);
    var next := Renamed(nodes, ids + [id], caption);
    var want := if k.None? then cur else cur[k.value := cur[k.value].(caption := caption)];
    forall i | 0 <= i < |nodes|
      ensures next[i] == want[i]
    {
      if Some(i) == k {
        assert nodes[i].id == id;
      } else if nodes[i].id == id {
        assert IndexOfId(nodes, nodes[i].id) != Some(i);
      }
    }
  }

  /** One more timer of a rename: the reports after it. */
  lemma NoticeStep(nodes: seq<Record>, ids: seq<string>, id: string, caption: string)
    ensures RenameNotices(nodes, ids + [id], caption) ==
              RenameNotices(nodes, ids, caption) +
                if IndexOfId(nodes, id).None? then []
                else [Notice(Changed(Some(nodes[IndexOfId(nodes, id).value].(caption := caption))), None)]
  {
    assert (ids + [id])[..|ids|] == ids;
  }

  /** The reports of a rename's timers: the renamed record for each id found, none for an id
      whose lookup fails (the timer throws before reporting). */
  function RenameNotices(nodes: seq<Record>, ids: seq<string>, caption: string): seq<Notice>
    decreases |ids|
  {
    if ids == [] then []
    else
      RenameNotices(nodes, ids[..|ids| - 1], caption) +
        match IndexOfId(nodes, ids[|ids| - 1])
        case Some(k) => [Notice(Changed(Some(nodes[k].(caption := caption))), None)]
        case None => []
  }

  /** The menu of a key other than "s". */
  function MenuFor(key: string, target: Option<Record>): seq<MenuItem> {
    (if StartsWith(key, "a") || StartsWith(key, "p") || StartsWith(key, "r") then [Open(target)] else [])
      + (if !StartsWith(key, "s") && !StartsWith(key, "h") then [Share, Separator] else [])
      + (if !StartsWith(key, "s") && !StartsWith(key, "h") then [Rename, Delete] else [])
      + (if StartsWith(key, "f") || StartsWith(key, "h") then [NewFolder] else [])
  }

  /** Which entries a key gets, and that its menu is empty exactly for keys starting with "s". */
  lemma MenuShape(key: string, target: Option<Record>)
    ensures Open(target) in MenuFor(key, target) <==> StartsWith(key, "a") || StartsWith(key, "p") || StartsWith(key, "r")
    ensures Rename in MenuFor(key, target) <==> !StartsWith(key, "s") && !StartsWith(key, "h")
    ensures Delete in MenuFor(key, target) <==> Share in MenuFor(key, target)
    ensures Delete in MenuFor(key, target) <==> Rename in MenuFor(key, target)
    ensures NewFolder in MenuFor(key, target) <==> StartsWith(key, "f") || StartsWith(key, "h")
    ensures |MenuFor(key, target)| == 0 <==> StartsWith(key, "s")
  {
    if StartsWith(key, "s") {
      assert key[0] == 's';
    }
  }

  /** What a double click on the display node `nodeId` opens: the first record with that id,
      when it is an app, a report or a plot. */
  function DoubleClickOpens(nodes: seq<Record>, nodeId: string): (r: Option<Record>)
    ensures r.Some? <==> FindTreeViewNode(nodes, nodeId).Some? && FindTreeViewNode(nodes, nodeId).value.kind in ["a", "r", "p"]
    ensures r.Some? ==> r == FindTreeViewNode(nodes, nodeId)
  {
    var node := FindTreeViewNode(nodes, nodeId);
    if node.Some? && node.value.kind in ["a", "r", "p"] then node else None
  }

  /** What a double click opens, the node's context menu offers to open as well. */
  lemma DoubleClickInMenu(nodes: seq<Record>, nodeId: string)
    requires DoubleClickOpens(nodes, nodeId).Some?
    ensures var r := DoubleClickOpens(nodes, nodeId).value;
            Open(Some(r)) in MenuFor(r.kind + "-" + r.id, FindTreeViewNode(nodes, r.id))
  {
    var r := DoubleClickOpens(nodes, nodeId).value;
    var key := r.kind + "-" + r.id;
    assert r.id == nodeId;
    assert key[0] == r.kind[0];
    MenuShape(key, FindTreeViewNode(nodes, r.id));
  }

  /** The first record whose `type + "-" + id` is `value`. */
  function KeyedAs(nodes: seq<Record>, value: string): (r: Option<Record>)
    ensures r.None? <==> forall j | 0 <= j < |nodes| :: nodes[j].kind + "-" + nodes[j].id != value
    ensures r.Some? ==> exists k | 0 <= k < |nodes| ::
              && nodes[k] == r.value && nodes[k].kind + "-" + nodes[k].id == value
              && forall j | 0 <= j < k :: nodes[j].kind + "-" + nodes[j].id != value
    decreases |nodes|
  {
    if nodes == [] then None
    else if nodes[0].kind + "-" + nodes[0].id == value then Some(nodes[0])
    else KeyedAs(nodes[1..], value)
  }

  /** The tree node `handleCreateFolder` makes. */
  function FolderNode(id: string, name: string): Tree {
    Tree(id, "f-" + id, name, Some("far fa-folder"), None, [], true, true)
  }

  /** The flat record `handleCreateFolder` pushes. */
  function FolderRecord(id: string, name: string, parent: string): Record {
    Record(id, "f", name, Some(parent), None, None, None)
  }

  /** The folder shown at once is the node a later rebuild makes from the pushed record. */
  lemma FolderMatchesRebuild(id: string, name: string, parent: string)
    ensures var c := NewCell(FolderRecord(id, name, parent));
            FolderNode(id, name) == Tree(c.id, c.key, c.caption, c.icon, c.data, [], c.droppable, c.draggable)
  {
  }

  /** Pushing a record whose parent is "h" or a listed id keeps the list one the builder
      finishes on. */
  lemma PushPlaceable(nodes: seq<Record>, r: Record)
    requires Placeable(nodes)
    requires !NeedsParent(r) || r.parent.value in Ids(nodes)
    ensures Placeable(nodes + [r])
  {
    assert Ids(nodes + [r]) == Ids(nodes) + {r.id};
  }

  // ---------------------------------------------------------------------------------------
  // Dropping a record dragged from another widget

  /** The copy `handleDrop` pushes: the dragged record with a fresh id, under the drop target. */
  function DropCopy(element: Record, freshId: string, target: Tree): Record {
    element.(id := freshId, parent := Some(target.id))
  }

  /** The guard of `handleDrop` as written: a drag is in progress and did not start here. */
  predicate DropGuardAsWritten(self: string, drag: Option<Record>) {
    drag.Some? && drag.value.parent != Some(self)
  }

  /** The guard the widget uses: the source's guard, and a target the builder can find as a
      parent (Home or a listed record), so the Shared root is refused. */
  ghost predicate DropGuard(self: string, nodes: seq<Record>, drag: Option<Record>, target: Tree) {
    DropGuardAsWritten(self, drag) && (target.id == "h" || target.id in Ids(nodes))
  }

  /** As written, a drop onto the Shared root (when no record has the id "s") is accepted and
      pushes a record that no number of sweeps places: the rebuild never returns. */
  lemma {:induction false} SharedDropDiverges(self: string, nodes: seq<Record>, element: Record, freshId: string, target: Tree, n: nat)
    requires element.parent != Some(self) && target.id == "s" && "s" !in Ids(nodes) && freshId != "s"
    ensures DropGuardAsWritten(self, Some(element))
    ensures !DropGuard(self, nodes, Some(element), target)
    ensures DropCopy(element, freshId, target) in Sweeps(Empty, nodes + [DropCopy(element, freshId, target)], n).1
  {
    var copy := DropCopy(element, freshId, target);
    var work := nodes + [copy];
    assert Ids(work) == Ids(nodes) + {freshId};
    DanglingSweeps(Empty, work, copy, n);
  }

  /** With the corrected guard, an accepted drop keeps the list buildable. */
  lemma DropPlaceable(self: string, nodes: seq<Record>, drag: Option<Record>, target: Tree, freshId: string)
    requires Placeable(nodes) && DropGuard(self, nodes, drag, target)
    ensures Placeable(nodes + [DropCopy(drag.value, freshId, target)])
  {
    PushPlaceable(nodes, DropCopy(drag.value, freshId, target));
  }

  /** `handleDragStart`, once the page has named the display node `nodeId` under the mouse cursor:
      the first record with that id, marked as dragged from widget `self`. */
  function DragPayload(nodes: seq<Record>, nodeId: string, self: string): (p: Option<Record>)
    ensures p.None? <==> forall j | 0 <= j < |nodes| :: nodes[j].id != nodeId
    ensures p.Some? ==> exists k | 0 <= k < |nodes| ::
              && nodes[k].id == nodeId && (forall j | 0 <= j < k :: nodes[j].id != nodeId)
              && p.value == nodes[k].(parent := Some(self))
  {
    match IndexOfId(nodes, nodeId)
    case None => None
    case Some(k) => Some(nodes[k].(parent := Some(self)))
  }

  /** A widget ignores a drag that started in it, and any other widget takes it as a copy of
      the dragged record that differs only in its id and its parent. */
  lemma DragBetweenWidgets(nodes: seq<Record>, nodeId: string, self: string, other: string,
                           freshId: string, target: Tree)
    requires DragPayload(nodes, nodeId, self).Some?
    ensures !DropGuardAsWritten(self, DragPayload(nodes, nodeId, self))
    ensures other != self ==> DropGuardAsWritten(other, DragPayload(nodes, nodeId, self))
    ensures exists k | 0 <= k < |nodes| && nodes[k].id == nodeId ::
              DropCopy(DragPayload(nodes, nodeId, self).value, freshId, target)
                == nodes[k].(id := freshId, parent := Some(target.id))
  {
    var k := IndexOfId(nodes, nodeId).value;
    assert nodes[k].id == nodeId;
  }

  // ---------------------------------------------------------------------------------------
  // The widget

  class ExplorerWidget {
    const id: string
    var nodes: seq<Record>
    var internal: seq<Tree>
    var selected: Selection
    var menu: seq<MenuItem>
    var outbox: seq<Notice>

    /** The first render: the tree is built from the host's list. */
    constructor(id: string, nodes: seq<Record>)
      requires Placeable(nodes)
      ensures this.id == id && this.nodes == nodes && internal == ExplorerTreeOf(nodes)
      ensures selected == NoSelection && menu == [] && outbox == []
    {
      var tree := BuildExplorerTree(nodes);
      this.id := id;
      this.nodes := nodes;
      internal := tree;
      selected := NoSelection;
      menu := [];
      outbox := [];
    }

    /** `deleteNode`: prune the Home tree (Shared is left alone) and report each removed child
        as moved to "trash" together with the list minus every record with the node's id. An
        empty tree makes the search throw before any state changes. */
    method DeleteNode(node: Tree)
      modifies this`internal, this`outbox
      ensures old(internal) == [] ==> internal == [] && outbox == old(outbox)
      ensures old(internal) != [] ==>
                var home := old(internal)[0];
                && internal == [home.(children := Pruned(home.children, node.key))] + old(internal)[1..]
                && outbox == old(outbox) + TrashNotices(Trashed(home.children, node.key), Without(nodes, node.id))
    {
      var newNodes := Without(nodes, node.id);
      if internal == [] {
        return;
      }
      var home := internal[0];
      var removed := Trashed(home.children, node.key);
      internal := [home.(children := Pruned(home.children, node.key))] + internal[1..];
      outbox := outbox + TrashNotices(removed, newNodes);
    }

    /** `updateNodeLabel`: relabel every node keyed `key` in the Home tree, then, once per
        node relabelled, relabel the first record with its id and report that record. */
    method UpdateNodeLabel(key: string, caption: string)
      modifies this`internal, this`nodes, this`outbox
      ensures old(internal) == [] ==> internal == [] && nodes == old(nodes) && outbox == old(outbox)
      ensures old(internal) != [] ==>
                var ids := Matched([old(internal)[0]], key);
                && internal == Relabeled([old(internal)[0]], key, caption) + old(internal)[1..]
                && nodes == Renamed(old(nodes), ids, caption)
                && outbox == old(outbox) + RenameNotices(old(nodes), ids, caption)
    {
      if internal == [] {
        return;
      }
      var ids := Matched([internal[0]], key);
      internal := Relabeled([internal[0]], key, caption) + internal[1..];
      RenameRecords(ids, caption);
    }

    /** The timers `updateNodeLabel` sets, run in order. */
    method RenameRecords(ids: seq<string>, caption: string)
      modifies this`nodes, this`outbox
      ensures nodes == Renamed(old(nodes), ids, caption)
      ensures outbox == old(outbox) + RenameNotices(old(nodes), ids, caption)
    {
      var before, sent := nodes, outbox;
      var list, reports := nodes, [];
      var j := 0;
      while j < |ids|
        invariant 0 <= j <= |ids|
        invariant list == Renamed(before, ids[..j], caption)
        invariant reports == RenameNotices(before, ids[..j], caption)
      {
        RenameTimer(before, ids, j, caption);
        var k := IndexOfId(list, ids[j]);
        if k.Some? {
          list := list[k.value := list[k.value].(caption := caption)];
          reports := reports + [Notice(Changed(Some(list[k.value])), None)];
        }
        j := j + 1;
      }
      assert ids[..j] == ids;
      nodes, outbox := list, sent + reports;
    }

    /** `setContextMenu`: no menu for the Shared root; otherwise the menu for the node's key,
        shown exactly when it is not empty. */
    method SetContextMenu(node: Tree) returns (shown: bool)
      modifies this`menu
      ensures node.key == "s" ==> menu == old(menu)
      ensures node.key != "s" ==> menu == MenuFor(node.key, FindTreeViewNode(nodes, node.id))
      ensures shown <==> !StartsWith(node.key, "s")
    {
      var inputNode := FindTreeViewNode(nodes, node.id);
      if node.key == "s" {
        return false;
      }
      menu := MenuFor(node.key, inputNode);
      MenuShape(node.key, inputNode);
      shown := |menu| > 0;
    }

    /** `openRenameModal` / `openCreateFolderModal`: the dialog acts on `node`. */
    method OpenDialog(node: Tree)
      modifies this`selected
      ensures selected == TreeNode(node)
    {
      selected := TreeNode(node);
    }

    /** `onNodeDoubleClick`: an "open" event for an app, a report or a plot. */
    method OnNodeDoubleClick(nodeId: string)
      modifies this`outbox
      ensures DoubleClickOpens(nodes, nodeId).Some? ==> outbox == old(outbox) + [OpenEvent(DoubleClickOpens(nodes, nodeId).value)]
      ensures DoubleClickOpens(nodes, nodeId).None? ==> outbox == old(outbox)
    {
      var node := FindTreeViewNode(nodes, nodeId);
      if node.Some? && node.value.kind in ["a", "r", "p"] {
        outbox := outbox + [OpenEvent(node.value)];
      }
    }

    /** `onSelectionChange`: select the first record whose key is `value`, if there is one. */
    method SelectionChange(value: string)
      modifies this`selected
      ensures KeyedAs(nodes, value).Some? ==> selected == FlatRecord(KeyedAs(nodes, value).value)
      ensures KeyedAs(nodes, value).None? ==> selected == old(selected)
    {
      var found := KeyedAs(nodes, value);
      if found.Some? {
        selected := FlatRecord(found.value);
      }
    }

    /** `handleCreateFolder`: a new folder under the selected tree node, both in the display
        tree and as a flat record, reported to the host. With no selected tree node (nothing,
        or a flat record without `children`) the push throws and nothing changes. */
    method HandleCreateFolder(freshId: string, name: string)
      modifies this`internal, this`nodes, this`outbox
      ensures !selected.TreeNode? ==> internal == old(internal) && nodes == old(nodes) && outbox == old(outbox)
      ensures selected.TreeNode? ==>
                var r := FolderRecord(freshId, name, selected.node.id);
                && internal == Graft(old(internal), selected.node.key, FolderNode(freshId, name))
                && nodes == old(nodes) + [r]
                && outbox == old(outbox) + [Notice(Changed(Some(r)), None)]
    {
      if !selected.TreeNode? {
        return;
      }
      var folder := FolderNode(freshId, name);
      internal := Graft(internal, selected.node.key, folder);
      var record := FolderRecord(freshId, name, selected.node.id);
      nodes := nodes + [record];
      outbox := outbox + [Notice(Changed(Some(record)), None)];
    }

    /** `onDragDrop`: show the tree the widget reports, and give the moved record (the first
        with its id) the id of the node now holding it, or none when it became a root. */
    method OnDragDrop(value: seq<Tree>, dragId: string)
      modifies this`internal, this`nodes, this`outbox
      ensures internal == value
      ensures FindTreeNode(value, dragId).None? || IndexOfId(old(nodes), dragId).None? ==>
                nodes == old(nodes) && outbox == old(outbox)
      ensures FindTreeNode(value, dragId).Some? && IndexOfId(old(nodes), dragId).Some? ==>
                var k := IndexOfId(old(nodes), dragId).value;
                && nodes == old(nodes)[k := old(nodes)[k].(parent := FindTreeNode(value, dragId).value.parent)]
                && outbox == old(outbox) + [Notice(Changed(Some(nodes[k])), None)]
    {
      internal := value;
      var found := FindTreeNode(value, dragId);
      if found.None? {
        return;
      }
      var k := IndexOfId(nodes, dragId);
      if k.None? {
        return;
      }
      nodes := nodes[k.value := nodes[k.value].(parent := found.value.parent)];
      IndexOfSameIds(nodes, old(nodes), dragId);
      outbox := outbox + [Notice(Changed(FindTreeViewNode(nodes, dragId)), None)];
    }

    /** `handleDrop` with the corrected guard: push a copy of the dragged record with a fresh
        id under the drop target, rebuild the tree and report the first record with the new
        id. */
    method HandleDrop(drag: Option<Record>, target: Tree, freshId: string)
      requires Placeable(nodes)
      modifies this`internal, this`nodes, this`outbox
      ensures Placeable(nodes)
      ensures !DropGuard(id, old(nodes), drag, target) ==>
                internal == old(internal) && nodes == old(nodes) && outbox == old(outbox)
      ensures DropGuard(id, old(nodes), drag, target) ==>
                && nodes == old(nodes) + [DropCopy(drag.value, freshId, target)]
                && internal == ExplorerTreeOf(nodes)
                && outbox == old(outbox) + [Notice(Changed(FindTreeViewNode(nodes, freshId)), None)]
    {
      if !(drag.Some? && drag.value.parent != Some(id)) {
        return;
      }
      if !(target.id == "h" || exists r | r in nodes :: r.id == target.id) {
        return;
      }
      var copy := DropCopy(drag.value, freshId, target);
      DropPlaceable(id, nodes, drag, target, freshId);
      nodes := nodes + [copy];
      var tree := BuildExplorerTree(nodes);
      internal := tree;
      outbox := outbox + [Notice(Changed(FindTreeViewNode(nodes, freshId)), None)];
    }
  }
}
