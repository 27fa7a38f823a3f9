/**
 * `buildHistoryTree` (src/ts/helper.tsx): the flat record list grouped by frame, one group node
 * per frame, each holding its records' nodes in input order. The groups live in a plain object
 * keyed by frame, so `Object.values` lists frames that are array indices first, and a frame
 * named like an inherited member of `Object.prototype` breaks the lookup.
 */
module HistoryTree {
  import opened Wrappers
  import opened JsonValues
  import opened Helper

  /** The frame a record is grouped under: its `frame`, or "NoFrame" when that is falsy. */
  function FrameOf(r: Record): (f: string)
    ensures Truthy(r.frame) ==> f == r.frame.value
    ensures !Truthy(r.frame) ==> f == "NoFrame"
  {
    if Truthy(r.frame) then r.frame.value else "NoFrame"
  }

  /** A group's label: the `app` of the record that created it, or "NoApp" when that is falsy. */
  function AppLabel(r: Record): string {
    if Truthy(r.app) then r.app.value else "NoApp"
  }

  /** The node a record gets inside its group: never droppable, always draggable. */
  function Leaf(r: Record): Tree {
    Tree(r.id, r.kind + "-" + r.id, r.caption, IconFor(r.kind), r.data, [], false, true)
  }

  /** A group node. */
  function GroupNode(frame: string, caption: string, children: seq<Tree>): Tree {
    Tree(frame, frame, caption, Some("fa-solid fa-cube"), None, children, false, true)
  }

  /** The frames of a list, each once, in order of first appearance. */
  function Frames(rs: seq<Record>): (fs: seq<string>)
    ensures forall i, j | 0 <= i < j < |fs| :: fs[i] != fs[j]
    decreases |rs|
  {
    if rs == [] then []
    else
      var fs := Frames(rs[..|rs| - 1]);
      var f := FrameOf(rs[|rs| - 1]);
      if f in fs then fs else fs + [f]
  }

  lemma FramesSnoc(rs: seq<Record>, r: Record)
    ensures Frames(rs + [r]) == if FrameOf(r) in Frames(rs) then Frames(rs) else Frames(rs) + [FrameOf(r)]
    ensures forall g :: Members(rs + [r], g) == Members(rs, g) + (if FrameOf(r) == g then [Leaf(r)] else [])
  {
    assert (rs + [r])[..|rs|] == rs;
  }

  /** A frame is listed exactly when some record has it. */
  lemma {:induction false} FramesMember(rs: seq<Record>, f: string)
    ensures f in Frames(rs) <==> exists q | q in rs :: FrameOf(q) == f
    decreases |rs|
  {
    if rs != [] {
      var init, r := rs[..|rs| - 1], rs[|rs| - 1];
      assert rs == init + [r];
      FramesSnoc(init, r);
      FramesMember(init, f);
      assert forall q :: q in rs <==> q in init || q == r;
    }
  }

  /** The nodes of the records with frame `f`, in input order. */
  function Members(rs: seq<Record>, f: string): seq<Tree>
    decreases |rs|
  {
    if rs == [] then []
    else Members(rs[..|rs| - 1], f) + (if FrameOf(rs[|rs| - 1]) == f then [Leaf(rs[|rs| - 1])] else [])
  }

  /** The label of group `f`: taken from the first record with that frame. */
  function Label(rs: seq<Record>, f: string): string
    decreases |rs|
  {
    if rs == [] then "NoApp"
    else if FrameOf(rs[0]) == f then AppLabel(rs[0])
    else Label(rs[1..], f)
  }

  /** The reference grouping: one group per frame, in order of first appearance. */
  function Grouped(rs: seq<Record>): (groups: seq<Tree>)
    ensures |groups| == |Frames(rs)|
  {
    var fs := Frames(rs);
    seq(|fs|, k requires 0 <= k < |fs| => GroupNode(fs[k], Label(rs, fs[k]), Members(rs, fs[k])))
  }

  lemma {:induction false} LabelSnoc(rs: seq<Record>, r: Record, f: string)
    ensures (exists q | q in rs :: FrameOf(q) == f) ==> Label(rs + [r], f) == Label(rs, f)
    ensures (forall q | q in rs :: FrameOf(q) != f) && FrameOf(r) == f ==> Label(rs + [r], f) == AppLabel(r)
    decreases |rs|
  {
    if rs == [] {
      assert [] + [r] == [r];
    } else {
      assert (rs + [r])[1..] == rs[1..] + [r];
      LabelSnoc(rs[1..], r, f);
      forall q | q in rs[1..] ensures q in rs { }
      if FrameOf(rs[0]) != f {
        assert (exists q | q in rs :: FrameOf(q) == f) ==> exists q | q in rs[1..] :: FrameOf(q) == f;
      }
    }
  }

  /** Appending a record whose frame already has group `k` extends that group. */
  lemma GroupedSnocOld(rs: seq<Record>, r: Record, k: nat)
    requires k < |Frames(rs)| && Frames(rs)[k] == FrameOf(r)
    ensures Grouped(rs + [r]) == Grouped(rs)[k := Grouped(rs)[k].(children := Grouped(rs)[k].children + [Leaf(r)])]
  {
    FramesSnoc(rs, r);
    var fs := Frames(rs);
    var g, g' := Grouped(rs), Grouped(rs + [r]);
    forall j | 0 <= j < |fs|
      ensures g'[j] == if j == k then g[k].(children := g[k].children + [Leaf(r)]) else g[j]
    {
      FramesMember(rs, fs[j]);
      LabelSnoc(rs, r, fs[j]);
      assert Members(rs + [r], fs[j]) == Members(rs, fs[j]) + (if FrameOf(r) == fs[j] then [Leaf(r)] else []);
    }
  }

  /** Appending a record of an unseen frame opens a new group at the end. */
  lemma GroupedSnocNew(rs: seq<Record>, r: Record)
    requires FrameOf(r) !in Frames(rs)
    ensures Grouped(rs + [r]) == Grouped(rs) + [GroupNode(FrameOf(r), AppLabel(r), [Leaf(r)])]
  {
    FramesSnoc(rs, r);
    var fs := Frames(rs);
    var f := FrameOf(r);
    var g, g' := Grouped(rs), Grouped(rs + [r]);
    forall j | 0 <= j < |fs|
      ensures g'[j] == g[j]
    {
      FramesMember(rs, fs[j]);
      LabelSnoc(rs, r, fs[j]);
      assert Members(rs + [r], fs[j]) == Members(rs, fs[j]);
    }
    FramesMember(rs, f);
    LabelSnoc(rs, r, f);
    NoMembers(rs, f);
    assert Members(rs + [r], f) == [Leaf(r)];
    assert g'[|fs|] == GroupNode(f, AppLabel(r), [Leaf(r)]);
  }

  lemma {:induction false} NoMembers(rs: seq<Record>, f: string)
    requires forall q | q in rs :: FrameOf(q) != f
    ensures Members(rs, f) == []
    decreases |rs|
  {
    if rs != [] {
      var init := rs[..|rs| - 1];
      forall q | q in init ensures q in rs { assert rs == init + [rs[|rs| - 1]]; }
      NoMembers(init, f);
    }
  }

  /** `slot` sends each frame listed in `fs` to its position, and knows no other frame. */
  ghost predicate Slots(slot: map<string, nat>, fs: seq<string>)
  {
    (forall f :: f in slot <==> f in fs) && forall f | f in slot :: slot[f] < |fs| && fs[slot[f]] == f
  }

  lemma SlotStep(slot: map<string, nat>, rs: seq<Record>, r: Record)
    requires Slots(slot, Frames(rs))
    ensures FrameOf(r) in slot ==> Slots(slot, Frames(rs + [r]))
    ensures FrameOf(r) !in slot ==> Slots(slot[FrameOf(r) := |Frames(rs)|], Frames(rs + [r]))
  {
    FramesSnoc(rs, r);
  }

  /** The number of record nodes held by a list of groups. */
  function ChildCount(groups: seq<Tree>): nat
  {
    if groups == [] then 0 else ChildCount(groups[..|groups| - 1]) + |groups[|groups| - 1].children|
  }

  lemma {:induction false} ChildCountGrow(groups: seq<Tree>, k: nat, x: Tree)
    requires k < |groups|
    ensures ChildCount(groups[k := groups[k].(children := groups[k].children + [x])]) == ChildCount(groups) + 1
    decreases |groups|
  {
    var last := |groups| - 1;
    var groups' := groups[k := groups[k].(children := groups[k].children + [x])];
    if k < last {
      assert groups'[..last] == groups[..last][k := groups[k].(children := groups[k].children + [x])];
      ChildCountGrow(groups[..last], k, x);
    } else {
      assert groups'[..last] == groups[..last];
    }
  }

  /** Every record lands in exactly one group: the groups hold as many nodes as there are records. */
  lemma {:induction false} GroupedCount(rs: seq<Record>)
    ensures ChildCount(Grouped(rs)) == |rs|
    decreases |rs|
  {
    if rs != [] {
      var init, r := rs[..|rs| - 1], rs[|rs| - 1];
      assert rs == init + [r];
      GroupedCount(init);
      FramesSnoc(init, r);
      if FrameOf(r) in Frames(init) {
        var k := IndexOf(Frames(init), FrameOf(r));
        GroupedSnocOld(init, r, k);
        ChildCountGrow(Grouped(init), k, Leaf(r));
      } else {
        GroupedSnocNew(init, r);
        var g' := Grouped(init) + [GroupNode(FrameOf(r), AppLabel(r), [Leaf(r)])];
        assert g'[..|g'| - 1] == Grouped(init);
      }
    }
  }

  /** Each record's node sits in the group named after its frame, and group names are distinct. */
  lemma RecordGrouped(rs: seq<Record>, i: nat)
    requires i < |rs|
    ensures var fs := Frames(rs);
            exists k | 0 <= k < |fs| :: Grouped(rs)[k].id == FrameOf(rs[i]) && Leaf(rs[i]) in Grouped(rs)[k].children
    ensures forall k, l | 0 <= k < l < |Grouped(rs)| :: Grouped(rs)[k].id != Grouped(rs)[l].id
  {
    FramesMember(rs, FrameOf(rs[i]));
    var k := IndexOf(Frames(rs), FrameOf(rs[i]));
    MemberOf(rs, i);
    assert Grouped(rs)[k].children == Members(rs, FrameOf(rs[i]));
  }

  lemma {:induction false} MemberOf(rs: seq<Record>, i: nat)
    requires i < |rs|
    ensures Leaf(rs[i]) in Members(rs, FrameOf(rs[i]))
    decreases |rs|
  {
    var init := rs[..|rs| - 1];
    if i < |init| {
      MemberOf(init, i);
    }
  }

  /** A group's label comes from the first record of its frame. */
  lemma {:induction false} LabelFirst(rs: seq<Record>, j: nat)
    requires j < |rs|
    requires forall i | 0 <= i < j :: FrameOf(rs[i]) != FrameOf(rs[j])
    ensures Label(rs, FrameOf(rs[j])) == AppLabel(rs[j])
    decreases j
  {
    if j > 0 {
      assert FrameOf(rs[0]) != FrameOf(rs[j]);
      LabelFirst(rs[1..], j - 1);
    }
  }

  function IndexOf(fs: seq<string>, f: string): (k: nat)
    requires f in fs
    ensures k < |fs| && fs[k] == f
  {
    if fs[0] == f then 0 else 1 + IndexOf(fs[1..], f)
  }

  /** One step of `buildHistoryTree`: file `r` under the group of its frame, opening that
      group first when the frame is new. */
  method Place(groups: seq<Tree>, slot: map<string, nat>, ghost rs: seq<Record>, r: Record)
    returns (groups': seq<Tree>, slot': map<string, nat>)
    requires groups == Grouped(rs) && Slots(slot, Frames(rs))
    ensures groups' == Grouped(rs + [r]) && Slots(slot', Frames(rs + [r]))
  {
    var frame := FrameOf(r);
    SlotStep(slot, rs, r);
    groups', slot' := groups, slot;
    if frame !in slot' {
      GroupedSnocNew(rs, r);
      slot' := slot'[frame := |groups'|];
      groups' := groups' + [GroupNode(frame, AppLabel(r), [])];
    } else {
      GroupedSnocOld(rs, r, slot'[frame]);
    }
    var k := slot'[frame];
    groups' := groups'[k := groups'[k].(children := groups'[k].children + [Leaf(r)])];
  }

  // ---------------------------------------------------------------------------------------
  // Object.values

  /** A key JavaScript treats as an array index: the decimal name of a number below 2^32 - 1. */
  predicate IsIndexKey(key: string) {
    ArrayIndex(key).Some? && ArrayIndex(key).value < 0xFFFF_FFFF
  }

  /** The index a group's frame names (0 for a frame that names none). */
  function Key(t: Tree): nat {
    if IsIndexKey(t.id) then ArrayIndex(t.id).value else 0
  }

  predicate AllIndexed(ts: seq<Tree>) {
    forall i | 0 <= i < |ts| :: IsIndexKey(ts[i].id)
  }

  predicate Ascending(ts: seq<Tree>) {
    forall i, j | 0 <= i < j < |ts| :: Key(ts[i]) <= Key(ts[j])
  }

  /** `t` put into an ascending list in front of the first group with a larger index. */
  function Insert(t: Tree, ts: seq<Tree>): (r: seq<Tree>)
    ensures multiset(r) == multiset(ts) + multiset{t}
    decreases |ts|
  {
    if ts == [] || Key(t) <= Key(ts[0]) then [t] + ts
    else
      assert ts == [ts[0]] + ts[1..];
      [ts[0]] + Insert(t, ts[1..])
  }

  /** A lower bound of `t` and of every group of `ts` bounds every group after inserting. */
  lemma {:induction false} InsertBound(t: Tree, ts: seq<Tree>, b: int)
    requires b <= Key(t) && forall k | 0 <= k < |ts| :: b <= Key(ts[k])
    ensures forall k | 0 <= k < |Insert(t, ts)| :: b <= Key(Insert(t, ts)[k])
    decreases |ts|
  {
    if ts != [] && Key(t) > Key(ts[0]) {
      InsertBound(t, ts[1..], b);
      var rest := Insert(t, ts[1..]);
      assert Insert(t, ts) == [ts[0]] + rest;
    }
  }

  /** Inserting into an ascending list keeps it ascending. */
  lemma {:induction false} InsertAscending(t: Tree, ts: seq<Tree>)
    requires Ascending(ts)
    ensures Ascending(Insert(t, ts))
    decreases |ts|
  {
    if ts != [] && Key(t) > Key(ts[0]) {
      var rest := Insert(t, ts[1..]);
      InsertAscending(t, ts[1..]);
      assert forall k | 0 <= k < |ts[1..]| :: ts[1..][k] == ts[k + 1];
      InsertBound(t, ts[1..], Key(ts[0]));
      var r := [ts[0]] + rest;
      assert r == Insert(t, ts);
      forall i, j | 0 <= i < j < |r|
        ensures Key(r[i]) <= Key(r[j])
      {
        assert r[j] == rest[j - 1];
        if i > 0 {
          assert r[i] == rest[i - 1];
        }
      }
    }
  }

  /** The groups in ascending order of their index. */
  function SortByIndex(ts: seq<Tree>): (r: seq<Tree>)
    ensures Ascending(r)
    ensures multiset(r) == multiset(ts)
    decreases |ts|
  {
    if ts == [] then []
    else
      var init := ts[..|ts| - 1];
      assert ts == init + [ts[|ts| - 1]];
      InsertAscending(ts[|ts| - 1], SortByIndex(init));
      Insert(ts[|ts| - 1], SortByIndex(init))
  }

  /** The groups whose frame is an array index, in creation order. */
  function IndexGroups(gs: seq<Tree>): (r: seq<Tree>)
    ensures AllIndexed(r)
    decreases |gs|
  {
    if gs == [] then []
    else IndexGroups(gs[..|gs| - 1]) + (if IsIndexKey(gs[|gs| - 1].id) then [gs[|gs| - 1]] else [])
  }

  /** The other groups, in creation order. */
  function NamedGroups(gs: seq<Tree>): (r: seq<Tree>)
    ensures forall i | 0 <= i < |r| :: !IsIndexKey(r[i].id)
    decreases |gs|
  {
    if gs == [] then []
    else NamedGroups(gs[..|gs| - 1]) + (if IsIndexKey(gs[|gs| - 1].id) then [] else [gs[|gs| - 1]])
  }

  /** Every group is in exactly one of the two parts. */
  lemma {:induction false} PartsSplit(gs: seq<Tree>)
    ensures multiset(IndexGroups(gs)) + multiset(NamedGroups(gs)) == multiset(gs)
    decreases |gs|
  {
    if gs != [] {
      var init := gs[..|gs| - 1];
      PartsSplit(init);
      assert gs == init + [gs[|gs| - 1]];
    }
  }

  /** Without index frames, the named part is all of the groups. */
  lemma {:induction false} NamedOnly(gs: seq<Tree>)
    requires forall i | 0 <= i < |gs| :: !IsIndexKey(gs[i].id)
    ensures IndexGroups(gs) == [] && NamedGroups(gs) == gs
    decreases |gs|
  {
    if gs != [] {
      var init, last := gs[..|gs| - 1], gs[|gs| - 1];
      forall i | 0 <= i < |init| ensures !IsIndexKey(init[i].id) {
        assert init[i] == gs[i];
      }
      NamedOnly(init);
      assert !IsIndexKey(last.id);
      assert IndexGroups(gs) == IndexGroups(init) + [];
      assert NamedGroups(gs) == NamedGroups(init) + [last];
      assert gs == init + [last];
    }
  }

  /** `Object.values` of an object whose properties were created in the order of `gs`: the
      array-index keys first in ascending numeric order, then the other keys in creation
      order. */
  function ObjectValues(gs: seq<Tree>): seq<Tree> {
    SortByIndex(IndexGroups(gs)) + NamedGroups(gs)
  }

  /** The values are the groups, reordered: those with an index frame first, ascending, then
      the others as they were created. */
  lemma ObjectValuesOrder(gs: seq<Tree>)
    ensures multiset(ObjectValues(gs)) == multiset(gs)
    ensures var vs, n := ObjectValues(gs), |IndexGroups(gs)|;
            && n <= |vs|
            && AllIndexed(vs[..n]) && Ascending(vs[..n])
            && vs[n..] == NamedGroups(gs)
            && forall i | n <= i < |vs| :: !IsIndexKey(vs[i].id)
  {
    PartsSplit(gs);
    var s := SortByIndex(IndexGroups(gs));
    assert |s| == |IndexGroups(gs)| by {
      assert |multiset(s)| == |multiset(IndexGroups(gs))|;
    }
    forall i | 0 <= i < |s|
      ensures IsIndexKey(s[i].id)
    {
      assert s[i] in multiset(IndexGroups(gs));
    }
    var vs := ObjectValues(gs);
    assert vs[..|s|] == s && vs[|s|..] == NamedGroups(gs);
  }

  /** Without a frame that is an array index, `Object.values` keeps the creation order. */
  lemma CreationOrder(gs: seq<Tree>)
    requires forall i | 0 <= i < |gs| :: !IsIndexKey(gs[i].id)
    ensures ObjectValues(gs) == gs
  {
    NamedOnly(gs);
  }

  // ---------------------------------------------------------------------------------------
  // buildHistoryTree

  /** The names every plain object inherits from `Object.prototype`: `frameGroups[frame]` reads
      a truthy inherited value for them instead of `undefined`. */
  const PrototypeNames: set<string> :=
    {"constructor", "__proto__", "toString", "toLocaleString", "valueOf", "hasOwnProperty",
     "isPrototypeOf", "propertyIsEnumerable", "__defineGetter__", "__defineSetter__",
     "__lookupGetter__", "__lookupSetter__"}

  const TypeError: string := "TypeError"

  /** The tree of a list whose frames are all ordinary names: the groups as `Object.values`
      lists them. */
  function HistoryGroups(rs: seq<Record>): seq<Tree> {
    ObjectValues(Grouped(rs))
  }

  /** Each record's node sits in exactly the group named after its frame. */
  lemma HistoryPlaces(rs: seq<Record>, i: nat)
    requires i < |rs|
    ensures exists k | 0 <= k < |HistoryGroups(rs)| ::
              HistoryGroups(rs)[k].id == FrameOf(rs[i]) && Leaf(rs[i]) in HistoryGroups(rs)[k].children
    ensures |HistoryGroups(rs)| == |Frames(rs)|
  {
    RecordGrouped(rs, i);
    var g := Grouped(rs);
    var k :| 0 <= k < |Frames(rs)| && g[k].id == FrameOf(rs[i]) && Leaf(rs[i]) in g[k].children;
    ObjectValuesOrder(g);
    assert g[k] in multiset(HistoryGroups(rs));
    assert |multiset(HistoryGroups(rs))| == |multiset(g)|;
  }

  /** `buildHistoryTree`: the records filed one by one, with `slot` standing for the
      dictionary from frame to group; a frame named like an inherited member of
      `Object.prototype` finds that member instead of a group, and pushing onto its missing
      `children` throws. */
  lemma PrefixSnoc<T>(s: seq<T>, i: nat)
    requires i < |s|
    ensures s[..i + 1] == s[..i] + [s[i]]
  {
  }

  method BuildHistoryTree(records: seq<Record>) returns (r: Result<seq<Tree>, string>)
    ensures r.Failure? <==> exists i | 0 <= i < |records| :: FrameOf(records[i]) in PrototypeNames
    ensures r.Failure? ==> r.error == TypeError
    ensures r.Success? ==> r.value == HistoryGroups(records)
  {
    var groups: seq<Tree> := [];
    var slot: map<string, nat> := map[];
    var i := 0;
    while i < |records|
      invariant 0 <= i <= |records|
      invariant groups == Grouped(records[..i])
      invariant Slots(slot, Frames(records[..i]))
      invariant forall j | 0 <= j < i :: FrameOf(records[j]) !in PrototypeNames
    {
      if FrameOf(records[i]) in PrototypeNames {
        return Failure(TypeError);
      }
      PrefixSnoc(records, i);
      groups, slot := Place(groups, slot, records[..i], records[i]);
      i := i + 1;
    }
    assert records[..i] == records;
    assert forall j | 0 <= j < |records| :: FrameOf(records[j]) !in PrototypeNames;
    r := Success(ObjectValues(groups));
  }
}
