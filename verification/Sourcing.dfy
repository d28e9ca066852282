/**
 How a sourcing option is described in one cell: the chain its goods travel when there is
 a single one, the bare list of nodes otherwise, and how much of the order it moves.
*/
module Sourcing {
  import opened Wrappers

  /** An absent quantity means one. */
  datatype Item = Item(quantity: Option<real>)

  /** name is what its operator would call the node. */
  datatype Node = Node(id: string, name: string, items: seq<Item>)

  datatype Transfer = Transfer(source: string, target: string)

  datatype SourcingOption = SourcingOption(nodes: seq<Node>, transfers: seq<Transfer>)

  /** The cell: names joined by arrows, or by commas. */
  datatype RouteCell = Blank | Chain(names: seq<string>) | Listing(names: seq<string>)

  // ---------------------------------------------------------------------------
  // The graph.
  // ---------------------------------------------------------------------------

  function CountWhere(ts: seq<Transfer>, which: Transfer -> bool): nat {
    if ts == [] then 0
    else CountWhere(ts[..|ts| - 1], which) + if which(ts[|ts| - 1]) then 1 else 0
  }

  function From(id: string): Transfer -> bool {
    (t: Transfer) => t.source == id
  }

  function To(id: string): Transfer -> bool {
    (t: Transfer) => t.target == id
  }

  function Out(o: SourcingOption, id: string): nat {
    CountWhere(o.transfers, From(id))
  }

  function Into(o: SourcingOption, id: string): nat {
    CountWhere(o.transfers, To(id))
  }

  /** Where the last transfer out of id goes, or "" when there is none. */
  function NextOf(ts: seq<Transfer>, id: string): string {
    if ts == [] then ""
    else if ts[|ts| - 1].source == id then ts[|ts| - 1].target
    else NextOf(ts[..|ts| - 1], id)
  }

  function Ids(nodes: seq<Node>): (ids: seq<string>)
    ensures |ids| == |nodes| && forall i | 0 <= i < |nodes| :: ids[i] == nodes[i].id
  {
    seq(|nodes|, i requires 0 <= i < |nodes| => nodes[i].id)
  }

  function Labels(nodes: seq<Node>): (labels: seq<string>)
    ensures |labels| == |nodes| && forall i | 0 <= i < |nodes| :: labels[i] == nodes[i].name
  {
    seq(|nodes|, i requires 0 <= i < |nodes| => nodes[i].name)
  }

  function LabelOf(nodes: seq<Node>, id: string): string {
    if nodes == [] then ""
    else if nodes[|nodes| - 1].id == id then nodes[|nodes| - 1].name
    else LabelOf(nodes[..|nodes| - 1], id)
  }

  function LabelsOf(o: SourcingOption, path: seq<string>): (labels: seq<string>)
    ensures |labels| == |path| && forall i | 0 <= i < |path| :: labels[i] == LabelOf(o.nodes, path[i])
  {
    seq(|path|, i requires 0 <= i < |path| => LabelOf(o.nodes, path[i]))
  }

  ghost predicate Distinct(s: seq<string>) {
    forall i, j | 0 <= i < j < |s| :: s[i] != s[j]
  }

  /**
   path visits every node once, starts where nothing arrives, and each node on it is left
   by exactly one transfer, to the next node. The last node is left by none, or by one to
   the blank id.
  */
  ghost predicate IsRoute(o: SourcingOption, path: seq<string>) {
    && o.transfers != []
    && |path| == |o.nodes| && path != []
    && Distinct(path)
    && (forall i | 0 <= i < |path| :: path[i] != "" && path[i] in Ids(o.nodes))
    && Into(o, path[0]) == 0
    && (forall i | 0 <= i < |path| :: Out(o, path[i]) <= 1)
    && (forall i | 0 <= i < |path| - 1 :: NextOf(o.transfers, path[i]) == path[i + 1])
    && NextOf(o.transfers, path[|path| - 1]) == ""
  }

  // ---------------------------------------------------------------------------
  // The walk.
  // ---------------------------------------------------------------------------

  /** The names along the route, when there is one; it is then the only one (RoutesAgree). */
  ghost predicate RouteNames(o: SourcingOption, names: seq<string>) {
    exists path :: IsRoute(o, path) && names == LabelsOf(o, path)
  }

  ghost predicate HasRoute(o: SourcingOption) {
    exists path :: IsRoute(o, path)
  }

  method Route(o: SourcingOption) returns (r: RouteCell)
    ensures r.Blank? <==> o.nodes == []
    ensures r.Chain? <==> o.nodes != [] && HasRoute(o)
    ensures r.Chain? ==> RouteNames(o, r.names)
    ensures r.Listing? ==> r.names == Labels(o.nodes)
  {
    if |o.nodes| == 0 {
      return Blank;
    }
    var labels := LabelMap(o.nodes);
    var next, into, out := TransferMaps(o.transfers);
    var starts := Starts(o, labels.Keys, into);

    if |starts| != 1 || |o.transfers| == 0 {
      NoSingleStart(o, starts);
      return Listing(Labels(o.nodes));
    }
    SetOut(o, starts);
    var chain := Follow(o, labels, next, out, starts[0]);
    if chain.None? || |chain.value| != |o.nodes| {
      return Listing(Labels(o.nodes));
    }
    r := Chain(chain.value);
  }

  /** The walk from start: the names passed, or None when it meets a cycle, a fork or an unlisted node. */
  method Follow(
    o: SourcingOption, labels: map<string, string>, next: map<string, string>, out: map<string, nat>, start: string)
    returns (names: Option<seq<string>>)
    requires o.nodes != [] && OnTheWay(o, [], start)
    requires forall id :: id in labels <==> id in Ids(o.nodes)
    requires forall id | id in labels :: labels[id] == LabelOf(o.nodes, id)
    requires forall id :: (if id in next then next[id] else "") == NextOf(o.transfers, id)
    requires forall id :: Get(out, id) == Out(o, id)
    ensures names.Some? && |names.value| == |o.nodes| <==> HasRoute(o)
    ensures names.Some? && |names.value| == |o.nodes| ==> RouteNames(o, names.value)
  {
    var chain: seq<string> := [];
    var seen: set<string> := {};
    ghost var walked: seq<string> := [];
    var id := start;
    while id != ""
      invariant OnTheWay(o, walked, id)
      invariant chain == LabelsOf(o, walked)
      invariant forall s :: s in seen <==> s in walked
      invariant |walked| <= |o.nodes|
      decreases |o.nodes| - |walked|
    {
      if id in seen || Get(out, id) > 1 || id !in labels {
        Blocked(o, walked, id);
        return None;
      }
      StepOn(o, walked, id);
      LabelsGrow(o, walked, id);
      seen := seen + {id};
      chain := chain + [labels[id]];
      walked := walked + [id];
      id := if id in next then next[id] else "";
    }
    Arrived(o, walked);
    names := Some(chain);
  }

  /**
   Where the walk stands: what it has passed, the id it looks at next, and that every
   route there may be agrees with it so far.
  */
  ghost predicate OnTheWay(o: SourcingOption, walked: seq<string>, id: string) {
    && o.transfers != []
    && Walk(o, walked)
    && (if walked == [] then Into(o, id) == 0 else id == NextOf(o.transfers, walked[|walked| - 1]))
    && forall path | IsRoute(o, path) ::
         walked <= path && id == if |walked| < |path| then path[|walked|] else ""
  }

  lemma NoSingleStart(o: SourcingOption, starts: seq<string>)
    requires forall id :: id in starts <==> id in Ids(o.nodes) && Into(o, id) == 0
    requires Distinct(starts) && (|starts| != 1 || o.transfers == [])
    ensures !HasRoute(o)
  {
    if HasRoute(o) {
      var path :| IsRoute(o, path);
      RouteHasOneStart(o, path, starts);
      assert false;
    }
  }

  lemma SetOut(o: SourcingOption, starts: seq<string>)
    requires forall id :: id in starts <==> id in Ids(o.nodes) && Into(o, id) == 0
    requires |starts| == 1 && o.transfers != []
    ensures OnTheWay(o, [], starts[0])
  {
    assert starts[0] in starts;
    forall path | IsRoute(o, path) ensures [] <= path && starts[0] == path[0] {
      RouteHasOneStart(o, path, starts);
    }
  }

  lemma LabelsGrow(o: SourcingOption, path: seq<string>, id: string)
    ensures LabelsOf(o, path + [id]) == LabelsOf(o, path) + [LabelOf(o.nodes, id)]
  {
  }

  lemma StepOn(o: SourcingOption, walked: seq<string>, id: string)
    requires OnTheWay(o, walked, id) && id != ""
    requires id !in walked && Out(o, id) <= 1 && id in Ids(o.nodes)
    ensures OnTheWay(o, walked + [id], NextOf(o.transfers, id))
    ensures |walked| < |o.nodes|
  {
    WalkGrows(o, walked, id);
    WalkIsShort(o, walked + [id]);
    forall path | IsRoute(o, path)
      ensures walked + [id] <= path
      ensures NextOf(o.transfers, id) == if |walked| + 1 < |path| then path[|walked| + 1] else ""
    {
      assert path[..|walked|] == walked && path[|walked|] == id;
      assert path[..|walked| + 1] == walked + [id];
    }
  }

  lemma WalkIsShort(o: SourcingOption, walked: seq<string>)
    requires Walk(o, walked)
    ensures |walked| <= |o.nodes|
  {
    DistinctSize(walked);
    AtMostAsManyAsListed(Ids(o.nodes));
    assert SetOf(Ids(o.nodes)) == SetOf(walked) + (SetOf(Ids(o.nodes)) - SetOf(walked));
  }

  lemma WalkGrows(o: SourcingOption, walked: seq<string>, id: string)
    requires Walk(o, walked) && id != "" && id !in walked && Out(o, id) <= 1 && id in Ids(o.nodes)
    requires if walked == [] then Into(o, id) == 0 else id == NextOf(o.transfers, walked[|walked| - 1])
    ensures Walk(o, walked + [id])
  {
    var w := walked + [id];
    assert forall i | 0 <= i < |walked| :: w[i] == walked[i];
  }

  lemma Blocked(o: SourcingOption, walked: seq<string>, id: string)
    requires OnTheWay(o, walked, id) && id != ""
    requires id in walked || Out(o, id) > 1 || id !in Ids(o.nodes)
    ensures !HasRoute(o)
  {
  }

  lemma Arrived(o: SourcingOption, walked: seq<string>)
    requires OnTheWay(o, walked, "") && o.nodes != []
    ensures if |walked| == |o.nodes| then IsRoute(o, walked) else !HasRoute(o)
  {
  }

  function Get(m: map<string, nat>, k: string): nat {
    if k in m then m[k] else 0
  }

  method LabelMap(nodes: seq<Node>) returns (labels: map<string, string>)
    ensures forall id :: id in labels <==> id in Ids(nodes)
    ensures forall id | id in labels :: labels[id] == LabelOf(nodes, id)
  {
    labels := map[];
    for i := 0 to |nodes|
      invariant forall id :: id in labels <==> id in Ids(nodes)[..i]
      invariant forall id | id in labels :: labels[id] == LabelOf(nodes[..i], id)
    {
      assert nodes[..i + 1][..i] == nodes[..i];
      labels := labels[nodes[i].id := nodes[i].name];
    }
    assert nodes[..|nodes|] == nodes;
  }

  method TransferMaps(ts: seq<Transfer>)
    returns (next: map<string, string>, into: map<string, nat>, out: map<string, nat>)
    ensures forall id :: (if id in next then next[id] else "") == NextOf(ts, id)
    ensures forall id :: Get(into, id) == CountWhere(ts, To(id))
    ensures forall id :: Get(out, id) == CountWhere(ts, From(id))
  {
    next, into, out := map[], map[], map[];
    for i := 0 to |ts|
      invariant forall id :: (if id in next then next[id] else "") == NextOf(ts[..i], id)
      invariant forall id :: Get(into, id) == CountWhere(ts[..i], To(id))
      invariant forall id :: Get(out, id) == CountWhere(ts[..i], From(id))
    {
      assert ts[..i + 1][..i] == ts[..i];
      var t := ts[i];
      next := next[t.source := t.target];
      out := out[t.source := Get(out, t.source) + 1];
      into := into[t.target := Get(into, t.target) + 1];
    }
    assert ts[..|ts|] == ts;
  }

  /** The nodes nothing comes into, gathered in no particular order. */
  method Starts(o: SourcingOption, ids: set<string>, into: map<string, nat>) returns (starts: seq<string>)
    requires forall id :: Get(into, id) == Into(o, id)
    ensures forall id :: id in starts <==> id in ids && Into(o, id) == 0
    ensures Distinct(starts)
  {
    starts := [];
    var left := ids;
    while left != {}
      invariant left <= ids
      invariant forall id :: id in starts <==> id in ids - left && Into(o, id) == 0
      invariant Distinct(starts)
      decreases |left|
    {
      var id :| id in left;
      left := left - {id};
      if Get(into, id) == 0 {
        starts := starts + [id];
      }
    }
  }

  /** What holds of the ids passed so far. */
  ghost predicate Walk(o: SourcingOption, walked: seq<string>) {
    && Distinct(walked)
    && (forall i | 0 <= i < |walked| :: walked[i] != "" && walked[i] in Ids(o.nodes))
    && (forall i | 0 <= i < |walked| :: Out(o, walked[i]) <= 1)
    && (forall i | 0 <= i < |walked| - 1 :: NextOf(o.transfers, walked[i]) == walked[i + 1])
    && (walked != [] ==> Into(o, walked[0]) == 0)
  }

  function SetOf(s: seq<string>): set<string> {
    set x | x in s
  }

  lemma {:induction false} DistinctSize(s: seq<string>)
    requires Distinct(s)
    ensures |SetOf(s)| == |s|
  {
    if s == [] {
      assert SetOf(s) == {};
    } else {
      var n := |s| - 1;
      DistinctSize(s[..n]);
      assert SetOf(s) == SetOf(s[..n]) + {s[n]};
    }
  }

  lemma {:induction false} AtMostAsManyAsListed(s: seq<string>)
    ensures |SetOf(s)| <= |s|
  {
    if s == [] {
      assert SetOf(s) == {};
    } else {
      var n := |s| - 1;
      AtMostAsManyAsListed(s[..n]);
      assert SetOf(s) == SetOf(s[..n]) + {s[n]};
    }
  }

  lemma SubsetOfSameSize(a: set<string>, b: set<string>)
    requires a <= b && |b| <= |a|
    ensures a == b
  {
    assert b == a + (b - a);
  }

  lemma RouteVisitsAll(o: SourcingOption, path: seq<string>)
    requires IsRoute(o, path)
    ensures forall id :: id in path <==> id in Ids(o.nodes)
  {
    DistinctSize(path);
    AtMostAsManyAsListed(Ids(o.nodes));
    SubsetOfSameSize(SetOf(path), SetOf(Ids(o.nodes)));
    forall id ensures id in path <==> id in Ids(o.nodes) {
      assert id in SetOf(path) <==> id in SetOf(Ids(o.nodes));
    }
  }

  lemma {:induction false} NextArrives(ts: seq<Transfer>, id: string)
    requires NextOf(ts, id) != ""
    ensures CountWhere(ts, To(NextOf(ts, id))) > 0
    ensures Transfer(id, NextOf(ts, id)) in ts
  {
    var n := |ts| - 1;
    if ts[n].source != id {
      NextArrives(ts[..n], id);
    } else {
      assert ts[n] == Transfer(id, NextOf(ts, id));
    }
  }

  lemma RouteHasOneStart(o: SourcingOption, path: seq<string>, starts: seq<string>)
    requires IsRoute(o, path)
    requires forall id :: id in starts <==> id in Ids(o.nodes) && Into(o, id) == 0
    requires Distinct(starts)
    ensures |starts| == 1 && starts[0] == path[0]
  {
    RouteVisitsAll(o, path);
    forall k | 0 <= k < |starts| ensures starts[k] == path[0] {
      assert starts[k] in starts && starts[k] in path;
      var i :| 0 <= i < |path| && path[i] == starts[k];
      if i > 0 {
        NextArrives(o.transfers, path[i - 1]);
      }
    }
    assert path[0] in starts;
    assert SetOf(starts) == {path[0]};
    DistinctSize(starts);
  }

  // ---------------------------------------------------------------------------
  // What a printed chain means.
  // ---------------------------------------------------------------------------

  /** There is only ever one route, so a printed chain does not depend on the order a map is read in. */
  lemma {:induction false} RoutesAgree(o: SourcingOption, p: seq<string>, q: seq<string>)
    requires IsRoute(o, p) && IsRoute(o, q)
    ensures p == q
  {
    RouteVisitsAll(o, p);
    assert q[0] in p;
    var i :| 0 <= i < |p| && p[i] == q[0];
    if i > 0 {
      NextArrives(o.transfers, p[i - 1]);
      assert false;
    }
    SameFrom(o, p, q, |p|);
  }

  lemma {:induction false} SameFrom(o: SourcingOption, p: seq<string>, q: seq<string>, n: nat)
    requires IsRoute(o, p) && IsRoute(o, q) && p[0] == q[0] && n <= |p|
    ensures p[..n] == q[..n]
  {
    if n > 1 {
      SameFrom(o, p, q, n - 1);
      assert p[..n - 1][n - 2] == q[..n - 1][n - 2];
      assert NextOf(o.transfers, p[n - 2]) == p[n - 1];
      assert NextOf(o.transfers, q[n - 2]) == q[n - 1];
      assert p[..n] == p[..n - 1] + [p[n - 1]] && q[..n] == q[..n - 1] + [q[n - 1]];
    }
  }

  /** An option the API could send: nodes with ids of their own, transfers between those nodes. */
  ghost predicate Regular(o: SourcingOption) {
    Distinct(Ids(o.nodes)) && "" !in Ids(o.nodes) && JoinsListed(o)
  }

  /** Every transfer joins two nodes the option lists. */
  ghost predicate JoinsListed(o: SourcingOption) {
    forall t | t in o.transfers :: t.source in Ids(o.nodes) && t.target in Ids(o.nodes)
  }

  /** The transfers of a path, in order. */
  function Legs(path: seq<string>): seq<Transfer> {
    if |path| < 2 then []
    else Legs(path[..|path| - 1]) + [Transfer(path[|path| - 2], path[|path| - 1])]
  }

  /** The transfers are the legs of one path through every node, each used once. */
  ghost predicate SinglePath(o: SourcingOption, path: seq<string>) {
    && |path| >= 2
    && multiset(path) == multiset(Ids(o.nodes))
    && multiset(o.transfers) == multiset(Legs(path))
  }

  lemma {:induction false} CountAppend(a: seq<Transfer>, b: seq<Transfer>, which: Transfer -> bool)
    ensures CountWhere(a + b, which) == CountWhere(a, which) + CountWhere(b, which)
  {
    if b == [] {
      assert a + b == a;
    } else {
      assert (a + b)[..|a + b| - 1] == a + b[..|b| - 1];
      CountAppend(a, b[..|b| - 1], which);
    }
  }

  lemma CountWithout(ts: seq<Transfer>, k: nat, which: Transfer -> bool)
    requires k < |ts|
    ensures CountWhere(ts, which) == CountWhere(ts[..k] + ts[k + 1..], which) + if which(ts[k]) then 1 else 0
  {
    assert ts == ts[..k] + [ts[k]] + ts[k + 1..];
    assert (ts[..k] + [ts[k]])[..k] == ts[..k];
    CountAppend(ts[..k] + [ts[k]], ts[k + 1..], which);
    CountAppend(ts[..k], ts[k + 1..], which);
  }

  lemma Without(ts: seq<Transfer>, k: nat)
    requires k < |ts|
    ensures multiset(ts[..k] + ts[k + 1..]) == multiset(ts) - multiset{ts[k]}
  {
    assert ts == ts[..k] + [ts[k]] + ts[k + 1..];
  }

  lemma {:induction false} CountIgnoresOrder(a: seq<Transfer>, b: seq<Transfer>, which: Transfer -> bool)
    requires multiset(a) == multiset(b)
    ensures CountWhere(a, which) == CountWhere(b, which)
    decreases |a|
  {
    if a == [] {
      assert |multiset(b)| == 0;
    } else {
      var n := |a| - 1;
      assert a[n] in multiset(a);
      var k :| 0 <= k < |b| && b[k] == a[n];
      CountWithout(a, n, which);
      CountWithout(b, k, which);
      Without(a, n);
      Without(b, k);
      assert a[..n] + a[n + 1..] == a[..n];
      CountIgnoresOrder(a[..n], b[..k] + b[k + 1..], which);
    }
  }

  lemma {:induction false} CountOne(ts: seq<Transfer>, t: Transfer, which: Transfer -> bool)
    requires which(t)
    ensures multiset(ts)[t] <= CountWhere(ts, which)
  {
    if ts != [] {
      assert ts == ts[..|ts| - 1] + [ts[|ts| - 1]];
      CountOne(ts[..|ts| - 1], t, which);
    }
  }

  lemma {:induction false} CountNone(ts: seq<Transfer>, which: Transfer -> bool)
    ensures CountWhere(ts, which) == 0 <==> forall t | t in ts :: !which(t)
  {
    if ts != [] {
      assert ts == ts[..|ts| - 1] + [ts[|ts| - 1]];
      CountNone(ts[..|ts| - 1], which);
    }
  }

  lemma {:induction false} LegsAre(path: seq<string>)
    ensures |Legs(path)| == if |path| < 2 then 0 else |path| - 1
    ensures forall i | 0 <= i < |Legs(path)| :: Legs(path)[i] == Transfer(path[i], path[i + 1])
  {
    if |path| >= 2 {
      LegsAre(path[..|path| - 1]);
    }
  }

  lemma LegsShrink(path: seq<string>)
    requires |path| >= 2
    ensures Legs(path) == Legs(path[..|path| - 1]) + [Transfer(path[|path| - 2], path[|path| - 1])]
    ensures Legs(path)[..|Legs(path)| - 1] == Legs(path[..|path| - 1])
  {
  }

  lemma {:induction false} LegsOut(path: seq<string>, id: string)
    requires Distinct(path)
    ensures CountWhere(Legs(path), From(id)) == if |path| >= 2 && id in path[..|path| - 1] then 1 else 0
  {
    if |path| >= 2 {
      var n := |path| - 1;
      LegsOut(path[..n], id);
      LegsShrink(path);
      assert path[..n] == path[..n - 1] + [path[n - 1]];
      assert path[..n][..n - 1] == path[..n - 1];
    }
  }

  lemma {:induction false} LegsIn(path: seq<string>, id: string)
    requires Distinct(path)
    ensures CountWhere(Legs(path), To(id)) == if |path| >= 2 && id in path[1..] then 1 else 0
  {
    if |path| >= 2 {
      var n := |path| - 1;
      LegsIn(path[..n], id);
      LegsShrink(path);
      assert path[1..] == path[..n][1..] + [path[n]];
    }
  }

  lemma NextIsTarget(ts: seq<Transfer>, t: Transfer)
    requires t in ts && CountWhere(ts, From(t.source)) <= 1
    ensures NextOf(ts, t.source) == t.target
  {
    var n := |ts| - 1;
    if ts[n].source == t.source {
      if ts[n] != t {
        assert t in ts[..n];
        CountNone(ts[..n], From(t.source));
        assert false;
      }
    } else {
      assert t in ts[..n];
      NextIsTarget(ts[..n], t);
    }
  }

  lemma {:induction false} NextBlank(ts: seq<Transfer>, id: string)
    requires CountWhere(ts, From(id)) == 0
    ensures NextOf(ts, id) == ""
  {
    if ts != [] {
      NextBlank(ts[..|ts| - 1], id);
    }
  }

  lemma RouteIsLong(o: SourcingOption, path: seq<string>)
    requires Regular(o) && IsRoute(o, path)
    ensures |path| >= 2
  {
    if |path| == 1 {
      // A lone node could only transfer to itself, and then something would come into it.
      RouteVisitsAll(o, path);
      var t := o.transfers[0];
      assert t in o.transfers && t.target in path;
      CountNone(o.transfers, To(path[0]));
      assert false;
    }
  }

  lemma TransferAt(o: SourcingOption, path: seq<string>, t: Transfer, i: nat)
    requires IsRoute(o, path) && t in o.transfers && t.target != ""
    requires i < |path| && path[i] == t.source
    ensures i < |path| - 1 && t == Transfer(path[i], path[i + 1])
  {
    NextIsTarget(o.transfers, t);
  }

  lemma TransferIsLeg(o: SourcingOption, path: seq<string>, t: Transfer)
    requires Regular(o) && IsRoute(o, path) && t in o.transfers
    ensures t in Legs(path)
    ensures multiset(o.transfers)[t] == 1
  {
    RouteVisitsAll(o, path);
    assert t.source in path;
    var i :| 0 <= i < |path| && path[i] == t.source;
    TransferAt(o, path, t, i);
    CountOne(o.transfers, t, From(t.source));
    LegsOnce(path, t);
  }

  lemma LegIsTransfer(o: SourcingOption, path: seq<string>, t: Transfer)
    requires IsRoute(o, path) && t in Legs(path)
    ensures t in o.transfers
  {
    LegsAre(path);
    var i :| 0 <= i < |Legs(path)| && Legs(path)[i] == t;
    assert NextOf(o.transfers, path[i]) == path[i + 1];
    NextArrives(o.transfers, path[i]);
  }

  /** On a regular option the walk's idea of a route is a single path using every transfer once. */
  lemma RouteUsesEveryTransfer(o: SourcingOption, path: seq<string>)
    requires Regular(o) && IsRoute(o, path)
    ensures SinglePath(o, path)
  {
    RouteVisitsAll(o, path);
    SameDistinctElements(path, Ids(o.nodes));
    RouteIsLong(o, path);
    forall t ensures multiset(o.transfers)[t] == multiset(Legs(path))[t] {
      LegsOnce(path, t);
      if t in o.transfers {
        TransferIsLeg(o, path, t);
      } else if t in Legs(path) {
        LegIsTransfer(o, path, t);
        assert false;
      }
    }
  }

  lemma LegsOnce(path: seq<string>, t: Transfer)
    requires Distinct(path)
    ensures multiset(Legs(path))[t] == if t in Legs(path) then 1 else 0
    ensures forall i | 0 <= i < |path| - 1 :: Transfer(path[i], path[i + 1]) in Legs(path)
  {
    LegsOut(path, t.source);
    CountOne(Legs(path), t, From(t.source));
    LegsAre(path);
    forall i | 0 <= i < |path| - 1 ensures Transfer(path[i], path[i + 1]) in Legs(path) {
      assert Legs(path)[i] == Transfer(path[i], path[i + 1]);
    }
  }

  lemma {:induction false} DistinctOnce(s: seq<string>)
    requires Distinct(s)
    ensures forall x :: multiset(s)[x] == if x in s then 1 else 0
  {
    if s != [] {
      DistinctOnce(s[..|s| - 1]);
      assert s == s[..|s| - 1] + [s[|s| - 1]];
    }
  }

  lemma SameDistinctElements(a: seq<string>, b: seq<string>)
    requires Distinct(a) && Distinct(b) && forall x :: x in a <==> x in b
    ensures multiset(a) == multiset(b)
  {
    DistinctOnce(a);
    DistinctOnce(b);
  }

  lemma {:induction false} OnceDistinct(s: seq<string>)
    requires forall x :: multiset(s)[x] <= 1
    ensures Distinct(s)
  {
    if s != [] {
      var n := |s| - 1;
      assert s == s[..n] + [s[n]];
      forall x ensures multiset(s[..n])[x] <= 1 {
        assert multiset(s)[x] == multiset(s[..n])[x] + multiset([s[n]])[x];
      }
      OnceDistinct(s[..n]);
      assert multiset(s)[s[n]] == multiset(s[..n])[s[n]] + 1;
      forall i | 0 <= i < n ensures s[i] != s[n] {
        assert s[..n][i] in multiset(s[..n]);
      }
    }
  }

  lemma PathSizes(o: SourcingOption, path: seq<string>)
    requires SinglePath(o, path)
    ensures |path| == |o.nodes| && |o.transfers| == |path| - 1
  {
    LegsAre(path);
    assert |multiset(path)| == |path| && |multiset(Ids(o.nodes))| == |o.nodes|;
    assert |multiset(o.transfers)| == |o.transfers| && |multiset(Legs(path))| == |Legs(path)|;
  }

  lemma PathIsDistinct(o: SourcingOption, path: seq<string>)
    requires Regular(o) && SinglePath(o, path)
    ensures Distinct(path) && |path| == |o.nodes| && o.transfers != []
    ensures forall i | 0 <= i < |path| :: path[i] != "" && path[i] in Ids(o.nodes)
  {
    DistinctOnce(Ids(o.nodes));
    OnceDistinct(path);
    PathSizes(o, path);
    forall i | 0 <= i < |path| ensures path[i] in Ids(o.nodes) {
      assert path[i] in multiset(path);
    }
  }

  lemma PathNode(o: SourcingOption, path: seq<string>, i: nat)
    requires Distinct(path) && multiset(o.transfers) == multiset(Legs(path)) && i < |path|
    ensures Out(o, path[i]) <= 1
    ensures NextOf(o.transfers, path[i]) == if i < |path| - 1 then path[i + 1] else ""
  {
    CountIgnoresOrder(o.transfers, Legs(path), From(path[i]));
    LegsOut(path, path[i]);
    if i < |path| - 1 {
      var t := Transfer(path[i], path[i + 1]);
      LegsOnce(path, t);
      assert t in multiset(o.transfers);
      NextIsTarget(o.transfers, t);
    } else {
      NextBlank(o.transfers, path[i]);
    }
  }

  lemma PathIsRoute(o: SourcingOption, path: seq<string>)
    requires Regular(o) && SinglePath(o, path)
    ensures IsRoute(o, path)
  {
    PathIsDistinct(o, path);
    forall i | 0 <= i < |path|
      ensures Out(o, path[i]) <= 1
      ensures NextOf(o.transfers, path[i]) == if i < |path| - 1 then path[i + 1] else ""
    {
      PathNode(o, path, i);
    }
    PathStart(o, path);
    PathNode(o, path, |path| - 1);
  }

  lemma PathStart(o: SourcingOption, path: seq<string>)
    requires Distinct(path) && multiset(o.transfers) == multiset(Legs(path)) && path != []
    ensures Into(o, path[0]) == 0
  {
    CountIgnoresOrder(o.transfers, Legs(path), To(path[0]));
    LegsIn(path, path[0]);
  }

  /** A chain is printed exactly when the option is a single path; then it names that path's nodes. */
  lemma ChainExactlyForSinglePath(o: SourcingOption)
    requires Regular(o)
    ensures HasRoute(o) <==> exists path :: SinglePath(o, path)
    ensures forall path :: SinglePath(o, path) ==> RouteNames(o, LabelsOf(o, path))
  {
    if HasRoute(o) {
      var path :| IsRoute(o, path);
      RouteUsesEveryTransfer(o, path);
    }
    forall path | SinglePath(o, path) ensures IsRoute(o, path) {
      PathIsRoute(o, path);
    }
  }

  /** An option with a route lists its nodes once each, and none under a blank id. */
  lemma RouteListsOnce(o: SourcingOption, path: seq<string>)
    requires IsRoute(o, path)
    ensures Distinct(Ids(o.nodes)) && "" !in Ids(o.nodes)
  {
    var ids := Ids(o.nodes);
    RouteVisitsAll(o, path);
    DistinctSize(path);
    assert SetOf(ids) == SetOf(path);
    if i, j :| 0 <= i < j < |ids| && ids[i] == ids[j] {
      RepeatedIsSmaller(ids, i, j);
      assert false;
    }
  }

  lemma RepeatedIsSmaller(s: seq<string>, i: nat, j: nat)
    requires i < j < |s| && s[i] == s[j]
    ensures |SetOf(s)| < |s|
  {
    var rest := s[..j] + s[j + 1..];
    AtMostAsManyAsListed(rest);
    forall x ensures x in SetOf(s) <==> x in SetOf(rest) {
      if x in s {
        var k :| 0 <= k < |s| && s[k] == x;
        assert rest[if k < j then k else if k == j then i else k - 1] == x;
      }
    }
    assert SetOf(s) == SetOf(rest);
  }

  lemma LegsAreListed(o: SourcingOption, path: seq<string>)
    requires SinglePath(o, path)
    ensures JoinsListed(o)
  {
    LegsAre(path);
    forall t | t in o.transfers ensures t.source in Ids(o.nodes) && t.target in Ids(o.nodes) {
      assert t in multiset(o.transfers);
      var i :| 0 <= i < |Legs(path)| && Legs(path)[i] == t;
      assert path[i] in multiset(path) && path[i + 1] in multiset(path);
    }
  }

  /** For any option at all: a printed chain is the whole graph exactly when every transfer joins listed nodes. */
  lemma ChainIsWholeExactlyWhenListed(o: SourcingOption)
    requires HasRoute(o)
    ensures (exists path :: SinglePath(o, path)) <==> JoinsListed(o)
  {
    var route :| IsRoute(o, route);
    if JoinsListed(o) {
      RouteListsOnce(o, route);
      RouteUsesEveryTransfer(o, route);
    } else {
      forall path ensures !SinglePath(o, path) {
        if SinglePath(o, path) {
          LegsAreListed(o, path);
        }
      }
    }
  }

  /**
   Irregular options can print a chain that is not the whole story: here a transfer
   arrives from a node the option does not list, and the cell still reads A to B.
  */
  lemma IrregularChain()
    ensures var o := SourcingOption([Node("A", "A", []), Node("B", "B", [])],
                                    [Transfer("A", "B"), Transfer("X", "B")]);
      HasRoute(o) && forall path :: !SinglePath(o, path)
  {
    var ts := [Transfer("A", "B"), Transfer("X", "B")];
    var o := SourcingOption([Node("A", "A", []), Node("B", "B", [])], ts);
    assert Ids(o.nodes) == ["A", "B"] && "A"[0] != "B"[0] && "A"[0] != "X"[0] && "B"[0] != "X"[0];
    TwoTransfers(ts);
    assert IsRoute(o, ["A", "B"]);
    forall path ensures !SinglePath(o, path) {
      if SinglePath(o, path) {
        PathSizes(o, path);
        assert false;
      }
    }
  }

  lemma TwoTransfers(ts: seq<Transfer>)
    requires |ts| == 2
    ensures forall which :: CountWhere(ts, which) == (if which(ts[0]) then 1 else 0) + if which(ts[1]) then 1 else 0
    ensures forall id :: NextOf(ts, id) == NextOfTwo(ts[0], ts[1], id)
  {
    assert ts[..1][..0] == [];
    forall which ensures CountWhere(ts, which) == (if which(ts[0]) then 1 else 0) + if which(ts[1]) then 1 else 0 {
      assert CountWhere(ts[..1], which) == if which(ts[0]) then 1 else 0;
    }
    forall id ensures NextOf(ts, id) == NextOfTwo(ts[0], ts[1], id) {
      assert NextOf(ts[..1], id) == if ts[0].source == id then ts[0].target else "";
    }
  }

  function NextOfTwo(first: Transfer, last: Transfer, id: string): string {
    if last.source == id then last.target else if first.source == id then first.target else ""
  }

  // ---------------------------------------------------------------------------
  // How much an option moves.
  // ---------------------------------------------------------------------------

  function Quantity(items: seq<Item>): real {
    if items == [] then 0.0
    else Quantity(items[..|items| - 1]) + match items[|items| - 1].quantity case None => 1.0 case Some(q) => q
  }

  method TotalQuantity(items: seq<Item>) returns (total: real)
    ensures total == Quantity(items)
  {
    total := 0.0;
    for i := 0 to |items|
      invariant total == Quantity(items[..i])
    {
      assert items[..i + 1][..i] == items[..i];
      if items[i].quantity.None? {
        total := total + 1.0;
        continue;
      }
      total := total + items[i].quantity.value;
    }
    assert items[..|items|] == items;
  }

  /** The quantities at the sinks among nodes, the ones nothing leaves. */
  function AtSinks(nodes: seq<Node>, ts: seq<Transfer>): real {
    if nodes == [] then 0.0
    else
      var last := nodes[|nodes| - 1];
      AtSinks(nodes[..|nodes| - 1], ts) + if CountWhere(ts, From(last.id)) == 0 then Quantity(last.items) else 0.0
  }

  method Sourced(o: SourcingOption) returns (total: real)
    ensures total == AtSinks(o.nodes, o.transfers)
  {
    var _, _, out := TransferMaps(o.transfers);
    total := 0.0;
    for i := 0 to |o.nodes|
      invariant total == AtSinks(o.nodes[..i], o.transfers)
    {
      assert o.nodes[..i + 1][..i] == o.nodes[..i];
      if Get(out, o.nodes[i].id) == 0 {
        var q := TotalQuantity(o.nodes[i].items);
        total := total + q;
      }
    }
    assert o.nodes[..|o.nodes|] == o.nodes;
  }

  lemma {:induction false} OnlySink(nodes: seq<Node>, ts: seq<Transfer>, k: nat)
    requires k < |nodes|
    requires forall i | 0 <= i < |nodes| && i != k :: CountWhere(ts, From(nodes[i].id)) > 0
    ensures AtSinks(nodes, ts) == if CountWhere(ts, From(nodes[k].id)) == 0 then Quantity(nodes[k].items) else 0.0
  {
    var n := |nodes| - 1;
    if k < n {
      OnlySink(nodes[..n], ts, k);
    } else {
      NoSink(nodes[..n], ts);
    }
  }

  lemma {:induction false} NoSink(nodes: seq<Node>, ts: seq<Transfer>)
    requires forall i | 0 <= i < |nodes| :: CountWhere(ts, From(nodes[i].id)) > 0
    ensures AtSinks(nodes, ts) == 0.0
  {
    if nodes != [] {
      NoSink(nodes[..|nodes| - 1], ts);
    }
  }

  /**
   Goods travelling one chain are counted once, where they come to rest; a transfer from
   the last node can only go to a blank id, and takes the goods out of the count.
  */
  lemma ChainCountsLastNode(o: SourcingOption, path: seq<string>, k: nat)
    requires IsRoute(o, path)
    requires k < |o.nodes| && o.nodes[k].id == path[|path| - 1]
    ensures AtSinks(o.nodes, o.transfers) ==
      if Transfer(o.nodes[k].id, "") in o.transfers then 0.0 else Quantity(o.nodes[k].items)
    ensures JoinsListed(o) ==> AtSinks(o.nodes, o.transfers) == Quantity(o.nodes[k].items)
  {
    var ids := Ids(o.nodes);
    RouteListsOnce(o, path);
    forall i | 0 <= i < |o.nodes| && i != k ensures Out(o, o.nodes[i].id) > 0 {
      assert ids[i] != ids[k];
      PassedNodeLeaves(o, path, ids[i]);
    }
    OnlySink(o.nodes, o.transfers, k);
    LastNodeLeaves(o, path);
  }

  lemma PassedNodeLeaves(o: SourcingOption, path: seq<string>, id: string)
    requires IsRoute(o, path) && id in Ids(o.nodes) && id != path[|path| - 1]
    ensures Out(o, id) > 0
  {
    RouteVisitsAll(o, path);
    var j :| 0 <= j < |path| && path[j] == id;
    assert NextOf(o.transfers, path[j]) == path[j + 1];
    NextArrives(o.transfers, path[j]);
    CountNone(o.transfers, From(path[j]));
  }

  lemma LastNodeLeaves(o: SourcingOption, path: seq<string>)
    requires IsRoute(o, path)
    ensures var last := path[|path| - 1];
      && (Out(o, last) > 0 <==> Transfer(last, "") in o.transfers)
      && (JoinsListed(o) ==> Out(o, last) == 0)
  {
    var last := path[|path| - 1];
    CountNone(o.transfers, From(last));
    if Out(o, last) > 0 {
      var t :| t in o.transfers && t.source == last;
      NextIsTarget(o.transfers, t);
      RouteListsOnce(o, path);
    }
  }

  // --- sums and names, told from the nodes themselves ---

  lemma {:induction false} QuantityAdds(a: seq<Item>, b: seq<Item>)
    ensures Quantity(a + b) == Quantity(a) + Quantity(b)
    ensures |a| == 1 ==> Quantity(a) == if a[0].quantity == None then 1.0 else a[0].quantity.value
    decreases |b|
  {
    if |a| == 1 {
      assert a[..0] == [];
    }
    if b == [] {
      assert a + b == a;
    } else {
      assert (a + b)[..|a + b| - 1] == a + b[..|b| - 1];
      QuantityAdds(a, b[..|b| - 1]);
    }
  }

  /** The items of every node that no transfer leaves, one node after another. */
  function AtRest(nodes: seq<Node>, ts: seq<Transfer>): seq<Item> {
    if nodes == [] then []
    else
      var last := nodes[|nodes| - 1];
      AtRest(nodes[..|nodes| - 1], ts) + if exists t | t in ts :: t.source == last.id then [] else last.items
  }

  /** What is sourced is what rests at all the sinks together: with no transfers, at every node. */
  lemma {:induction false} SourcedIsAtRest(nodes: seq<Node>, ts: seq<Transfer>)
    ensures AtSinks(nodes, ts) == Quantity(AtRest(nodes, ts))
  {
    if nodes != [] {
      var n := |nodes| - 1;
      SourcedIsAtRest(nodes[..n], ts);
      CountNone(ts, From(nodes[n].id));
      if exists t | t in ts :: t.source == nodes[n].id {
        var t :| t in ts && t.source == nodes[n].id;
        assert From(nodes[n].id)(t);
        assert AtRest(nodes, ts) == AtRest(nodes[..n], ts);
      } else {
        QuantityAdds(AtRest(nodes[..n], ts), nodes[n].items);
      }
    }
  }

  lemma {:induction false} LabelOfNode(nodes: seq<Node>, k: nat)
    requires k < |nodes| && Distinct(Ids(nodes))
    ensures LabelOf(nodes, nodes[k].id) == nodes[k].name
  {
    var n := |nodes| - 1;
    if k < n {
      assert Ids(nodes)[k] != Ids(nodes)[n];
      assert Ids(nodes[..n]) == Ids(nodes)[..n];
      LabelOfNode(nodes[..n], k);
    }
  }

  /** Each name of a printed chain is the name of the node the route passes there. */
  lemma ChainNamesItsNodes(o: SourcingOption, path: seq<string>, i: nat) returns (k: nat)
    requires IsRoute(o, path) && i < |path|
    ensures k < |o.nodes| && o.nodes[k].id == path[i] && LabelsOf(o, path)[i] == o.nodes[k].name
  {
    RouteListsOnce(o, path);
    k :| 0 <= k < |o.nodes| && Ids(o.nodes)[k] == path[i];
    LabelOfNode(o.nodes, k);
  }

  /** And together they are the names of the option's nodes, each as often as it occurs there. */
  lemma ChainNamesAllNodes(o: SourcingOption, names: seq<string>)
    requires RouteNames(o, names)
    ensures multiset(names) == multiset(Labels(o.nodes))
  {
    var path :| IsRoute(o, path) && names == LabelsOf(o, path);
    RouteListsOnce(o, path);
    RouteVisitsAll(o, path);
    SameDistinctElements(path, Ids(o.nodes));
    forall k | 0 <= k < |o.nodes| ensures LabelOf(o.nodes, Ids(o.nodes)[k]) == Labels(o.nodes)[k] {
      LabelOfNode(o.nodes, k);
    }
    assert LabelsOf(o, Ids(o.nodes)) == Labels(o.nodes);
    LabelsIgnoreOrder(o, path, Ids(o.nodes));
  }

  lemma TakeOut(s: seq<string>, k: nat)
    requires k < |s|
    ensures multiset(s[..k] + s[k + 1..]) == multiset(s) - multiset{s[k]}
  {
    assert s == s[..k] + [s[k]] + s[k + 1..];
  }

  lemma LabelsTakeOut(o: SourcingOption, s: seq<string>, k: nat)
    requires k < |s|
    ensures multiset(LabelsOf(o, s)) == multiset(LabelsOf(o, s[..k] + s[k + 1..])) + multiset{LabelOf(o.nodes, s[k])}
  {
    var labels := LabelsOf(o, s);
    assert LabelsOf(o, s[..k] + s[k + 1..]) == labels[..k] + labels[k + 1..];
    TakeOut(labels, k);
    assert labels[k] in multiset(labels);
  }

  lemma {:induction false} LabelsIgnoreOrder(o: SourcingOption, a: seq<string>, b: seq<string>)
    requires multiset(a) == multiset(b)
    ensures multiset(LabelsOf(o, a)) == multiset(LabelsOf(o, b))
    decreases |a|
  {
    if a == [] {
      assert |multiset(b)| == 0;
    } else {
      var k := PlaceIn(b, a);
      TakenOutAlike(a, b, k);
      LabelsIgnoreOrder(o, a[..0] + a[1..], b[..k] + b[k + 1..]);
      LabelsTakeOut(o, a, 0);
      LabelsTakeOut(o, b, k);
    }
  }

  lemma TakenOutAlike(a: seq<string>, b: seq<string>, k: nat)
    requires multiset(a) == multiset(b) && a != [] && k < |b| && b[k] == a[0]
    ensures multiset(a[..0] + a[1..]) == multiset(b[..k] + b[k + 1..])
  {
    TakeOut(a, 0);
    TakeOut(b, k);
  }

  lemma PlaceIn(b: seq<string>, a: seq<string>) returns (k: nat)
    requires multiset(a) == multiset(b) && a != []
    ensures k < |b| && b[k] == a[0]
  {
    assert a[0] in multiset(a);
    k :| 0 <= k < |b| && b[k] == a[0];
  }
}
