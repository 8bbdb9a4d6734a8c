/** The traffic network of the simulation-model variant
    (infrarisk/src/network_sim_models/transportation/network.py): nodes and
    links read from TNTP files, their forward and reverse stars, the
    label-correcting and the topological shortest paths, the all-or-nothing
    loading, the topological ordering and the adjacency matrix.

    Nodes are numbered by their position in the node dictionary (the order
    in which the network file first names them); the link stored under
    `T_L{k + 1}` is link `k`. */
module TranspoNetwork {
  import opened Wrappers
  import opened Text

  /** `utils.INFINITY`, the initial cost label. */
  const Infinity: real := 99999.0

  /** A link as read from the network file, its ends given as node
      numbers. */
  datatype LinkData = LinkData(tail: nat, head: nat, capacity: real, length: real,
                               freeFlowTime: real, fftBase: real, alpha: real, beta: real,
                               speedLimit: real, toll: real, linkType: string)

  /** The links leaving node `i`, in link order. */
  function Leaving(links: seq<LinkData>, i: nat): (r: seq<int>)
    ensures forall x :: x in r <==> 0 <= x < |links| && links[x].tail == i
  {
    if links == [] then []
    else
      var n := |links| - 1;
      Leaving(links[..n], i) + (if links[n].tail == i then [n] else [])
  }

  /** The links entering node `i`, in link order. */
  function Entering(links: seq<LinkData>, i: nat): (r: seq<int>)
    ensures forall x :: x in r <==> 0 <= x < |links| && links[x].head == i
    ensures |r| <= |links|
  {
    if links == [] then []
    else
      var n := |links| - 1;
      Entering(links[..n], i) + (if links[n].head == i then [n] else [])
  }

  /** Every link joins two of the `nodes` nodes. */
  predicate LinksWithin(links: seq<LinkData>, nodes: nat) {
    forall l :: 0 <= l < |links| ==> links[l].tail < nodes && links[l].head < nodes
  }

  /** The forward and reverse stars `finalize` builds. */
  predicate Stars(links: seq<LinkData>, fs: seq<seq<int>>, rs: seq<seq<int>>) {
    |fs| == |rs| && LinksWithin(links, |rs|)
    && (forall i :: 0 <= i < |fs| ==> fs[i] == Leaving(links, i))
    && (forall i :: 0 <= i < |rs| ==> rs[i] == Entering(links, i))
  }

  predicate NonNegative(cost: seq<real>) {
    forall l :: 0 <= l < |cost| ==> cost[l] >= 0.0
  }

  /** A link may be used out of node `h` when `h` is the origin or a
      through node (its name is not below `firstThroughNode`). */
  predicate Usable(through: seq<bool>, origin: nat, h: nat)
    requires h < |through|
  {
    h == origin || through[h]
  }

  /** The label of a node before the search: 0 at the origin, infinity
      elsewhere. */
  function InitialLabel(origin: nat, i: int): real {
    if i == origin then 0.0 else Infinity
  }

  /** Bellman's condition: no usable link leads to a cheaper label at its
      head. */
  predicate Settled(links: seq<LinkData>, cost: seq<real>, through: seq<bool>, origin: nat, dist: seq<real>)
    requires |cost| == |links| && LinksWithin(links, |dist|) && |through| == |dist|
  {
    forall l :: 0 <= l < |links| && Usable(through, origin, links[l].tail) ==>
      dist[links[l].head] <= dist[links[l].tail] + cost[l]
  }

  /** Every back link enters its node through a usable link, and a node
      without one keeps its initial label. With non-negative costs the
      label is no less than the back link's tail label plus its cost. */
  predicate BackLinks(links: seq<LinkData>, cost: seq<real>, through: seq<bool>, origin: nat,
                      dist: seq<real>, back: seq<Option<nat>>)
    requires |cost| == |links| && LinksWithin(links, |dist|) && |through| == |dist| && |back| == |dist|
  {
    forall i :: 0 <= i < |back| ==>
      match back[i]
      case None => dist[i] == InitialLabel(origin, i)
      case Some(l) =>
        l < |links| && links[l].head == i && Usable(through, origin, links[l].tail)
        && (NonNegative(cost) ==> dist[i] >= dist[links[l].tail] + cost[l])
  }

  /** Every entry of `ls` names one of the `n` links. */
  predicate LinkIds(ls: seq<int>, n: nat) {
    forall k :: 0 <= k < |ls| ==> 0 <= ls[k] < n
  }

  /** Every entry of `s` names one of the `n` nodes. */
  predicate NodeIds(s: seq<nat>, n: nat) {
    forall k :: 0 <= k < |s| ==> s[k] < n
  }

  /** The heads of the links `ls`, in order. */
  function Heads(links: seq<LinkData>, ls: seq<int>): (r: seq<nat>)
    requires LinkIds(ls, |links|)
    ensures |r| == |ls|
    ensures forall k :: 0 <= k < |ls| ==> r[k] == links[ls[k]].head
  {
    if ls == [] then [] else Heads(links, ls[..|ls| - 1]) + [links[ls[|ls| - 1]].head]
  }

  /** The heads of the links `ls` not already in `scan`, in order (a head
      reached twice is listed twice). */
  function NewHeads(links: seq<LinkData>, ls: seq<int>, scan: seq<nat>): (r: seq<nat>)
    requires LinkIds(ls, |links|)
    ensures forall x :: x in r ==> x !in scan && exists k :: 0 <= k < |ls| && links[ls[k]].head == x
    ensures forall k :: 0 <= k < |ls| ==> links[ls[k]].head in scan || links[ls[k]].head in r
  {
    if ls == [] then []
    else
      var last := ls[|ls| - 1];
      var rest := NewHeads(links, ls[..|ls| - 1], scan);
      if links[last].head in scan then rest else rest + [links[last].head]
  }

  /** What the scan of node `i` does: only the label and back link of `i`
      may change; `changed` tells whether the label dropped, and then the
      new back link is a usable link entering `i`; afterwards no usable
      link entering `i` from another node offers a lower label, and with
      non-negative costs no self-loop either. */
  predicate ScanEffect(links: seq<LinkData>, cost: seq<real>, through: seq<bool>, origin: nat, i: nat,
                       dist: seq<real>, back: seq<Option<nat>>, dist': seq<real>, back': seq<Option<nat>>, changed: bool)
  {
    |cost| == |links| && LinksWithin(links, |dist|) && |through| == |dist| && |back| == |dist| && i < |dist|
    && |dist'| == |dist| && |back'| == |back|
    && (forall j :: 0 <= j < |dist| && j != i ==> dist'[j] == dist[j] && back'[j] == back[j])
    && (!changed ==> dist' == dist && back' == back)
    && (changed ==> dist'[i] < dist[i])
    && (changed ==> (back'[i].Some? && back'[i].value < |links| && links[back'[i].value].head == i
      && Usable(through, origin, links[back'[i].value].tail)
      && (NonNegative(cost) ==> dist'[i] >= dist'[links[back'[i].value].tail] + cost[back'[i].value])))
    && (forall l :: (0 <= l < |links| && links[l].head == i && Usable(through, origin, links[l].tail)
                     && (links[l].tail != i || NonNegative(cost))) ==>
          dist'[i] <= dist'[links[l].tail] + cost[l])
  }

  /** The scan of node `i`: every usable link entering `i` is tried, in
      reverse-star order, and the label drops to the cheapest offer. */
  method ScanNode(links: seq<LinkData>, cost: seq<real>, rs: seq<int>, through: seq<bool>, origin: nat, i: nat,
                  dist: seq<real>, back: seq<Option<nat>>)
    returns (dist': seq<real>, back': seq<Option<nat>>, changed: bool)
    requires |cost| == |links| && LinksWithin(links, |dist|) && |through| == |dist| && |back| == |dist|
    requires i < |dist| && rs == Entering(links, i)
    ensures ScanEffect(links, cost, through, origin, i, dist, back, dist', back', changed)
  {
    dist', back', changed := dist, back, false;
    assert LinkIds(rs, |links|) by {
      forall k | 0 <= k < |rs| ensures 0 <= rs[k] < |links| { assert rs[k] in rs; }
    }
    var k := 0;
    while k < |rs|
      invariant 0 <= k <= |rs|
      invariant |dist'| == |dist| && |back'| == |back|
      invariant forall j :: 0 <= j < |dist| && j != i ==> dist'[j] == dist[j] && back'[j] == back[j]
      invariant !changed ==> dist' == dist && back' == back
      invariant changed ==> dist'[i] < dist[i]
      invariant changed ==> (back'[i].Some? && back'[i].value < |links| && links[back'[i].value].head == i
        && Usable(through, origin, links[back'[i].value].tail)
        && (NonNegative(cost) ==> dist'[i] >= dist'[links[back'[i].value].tail] + cost[back'[i].value]))
      invariant LinkIds(rs, |links|)
      invariant forall m :: (0 <= m < k && Usable(through, origin, links[rs[m]].tail)
                             && (links[rs[m]].tail != i || NonNegative(cost))) ==>
          dist'[i] <= dist'[links[rs[m]].tail] + cost[rs[m]]
    {
      var hi := rs[k];
      var h := links[hi].tail;
      if h == origin || through[h] {
        var temp := dist'[h] + cost[hi];
        if temp < dist'[i] {
          dist' := dist'[i := temp];
          back' := back'[i := Some(hi)];
          changed := true;
        }
      }
      k := k + 1;
    }
    forall l | 0 <= l < |links| && links[l].head == i
      ensures exists m :: 0 <= m < |rs| && rs[m] == l
    {
      assert l in rs;
    }
  }

  /** Every usable link either meets Bellman's condition or has its head
      waiting in the scan list. */
  predicate PendingOrSettled(links: seq<LinkData>, cost: seq<real>, through: seq<bool>, origin: nat,
                             dist: seq<real>, scan: seq<nat>)
    requires |cost| == |links| && LinksWithin(links, |dist|) && |through| == |dist|
  {
    forall l :: 0 <= l < |links| && Usable(through, origin, links[l].tail) ==>
      dist[links[l].head] <= dist[links[l].tail] + cost[l] || links[l].head in scan
  }

  /** The label-correcting search of `shortestPath`. The scan list starts
      with the heads of the origin's forward star; each step takes the
      first node off the list, scans it, and when its label dropped appends
      the heads of its forward star not already listed. A search that needs
      more than `fuel` steps gives `OutOfFuel`. On success every node has a
      back link or its initial label, and with non-negative costs the labels
      meet Bellman's condition over the usable links. */
  method LabelCorrecting(links: seq<LinkData>, cost: seq<real>, fs: seq<seq<int>>, rs: seq<seq<int>>,
                         through: seq<bool>, origin: nat, fuel: nat)
    returns (r: Result<(seq<Option<nat>>, seq<real>)>)
    requires |cost| == |links| && Stars(links, fs, rs) && |through| == |rs| && origin < |rs|
    ensures r.Err? ==> r.error == OutOfFuel
    ensures r.Ok? ==> |r.value.0| == |rs| && |r.value.1| == |rs|
    ensures r.Ok? ==> BackLinks(links, cost, through, origin, r.value.1, r.value.0)
    ensures r.Ok? ==> r.value.1[origin] <= 0.0
    ensures r.Ok? && NonNegative(cost) ==> Settled(links, cost, through, origin, r.value.1)
  {
    var n := |rs|;
    var back: seq<Option<nat>> := seq(n, _ => None);
    var dist := seq(n, i => InitialLabel(origin, i));
    StarIds(links, fs, rs, origin);
    var scan: seq<nat> := Heads(links, fs[origin]);
    if NonNegative(cost) {
      InitiallyPending(links, cost, fs, rs, through, origin, dist, scan);
    }
    var f := fuel;
    while scan != []
      invariant |dist| == n && |back| == n
      invariant NodeIds(scan, n)
      invariant BackLinks(links, cost, through, origin, dist, back)
      invariant dist[origin] <= 0.0
      invariant NonNegative(cost) ==> PendingOrSettled(links, cost, through, origin, dist, scan)
      decreases f
    {
      if f == 0 {
        return Err(OutOfFuel);
      }
      f := f - 1;
      dist, back, scan := ScanStep(links, cost, fs, rs, through, origin, dist, back, scan);
    }
    r := Ok((back, dist));
  }

  /** After node `i` is scanned, every usable link is settled or has its
      head in the new scan list. */
  lemma Rescanned(links: seq<LinkData>, cost: seq<real>, fs: seq<seq<int>>, rs: seq<seq<int>>,
                  through: seq<bool>, origin: nat, scan: seq<nat>,
                  dist: seq<real>, back: seq<Option<nat>>, dist': seq<real>, back': seq<Option<nat>>, changed: bool, next: seq<nat>)
    requires Stars(links, fs, rs) && |dist| == |rs| && scan != [] && NonNegative(cost)
    requires ScanEffect(links, cost, through, origin, scan[0], dist, back, dist', back', changed)
    requires PendingOrSettled(links, cost, through, origin, dist, scan)
    requires LinkIds(fs[scan[0]], |links|)
    requires next == if changed then scan[1..] + NewHeads(links, fs[scan[0]], scan[1..]) else scan[1..]
    ensures PendingOrSettled(links, cost, through, origin, dist', next)
  {
    var i, rest := scan[0], scan[1..];
    assert forall x :: x in scan ==> x == i || x in rest;
    forall l | 0 <= l < |links| && Usable(through, origin, links[l].tail)
      ensures dist'[links[l].head] <= dist'[links[l].tail] + cost[l] || links[l].head in next
    {
      if links[l].head == i {
      } else if links[l].tail == i && changed {
        assert l in fs[i];
        var k :| 0 <= k < |fs[i]| && fs[i][k] == l;
        assert links[fs[i][k]].head in rest || links[fs[i][k]].head in NewHeads(links, fs[i], rest);
      } else if changed {
        assert dist'[links[l].tail] == dist[links[l].tail];
      }
    }
  }

  /** Scanning node `i` keeps every back link valid: a label that drops
      only strengthens the inequality at the links leaving it. */
  lemma BackLinksKept(links: seq<LinkData>, cost: seq<real>, through: seq<bool>, origin: nat, i: nat,
                      dist: seq<real>, back: seq<Option<nat>>, dist': seq<real>, back': seq<Option<nat>>, changed: bool)
    requires ScanEffect(links, cost, through, origin, i, dist, back, dist', back', changed)
    requires BackLinks(links, cost, through, origin, dist, back)
    ensures BackLinks(links, cost, through, origin, dist', back')
  {
    if changed {
      forall j | 0 <= j < |back'| && j != i && back'[j].Some? && NonNegative(cost)
        ensures dist'[j] >= dist'[links[back'[j].value].tail] + cost[back'[j].value]
      {
        assert back'[j] == back[j];
      }
    }
  }

  /** Before the search only the links leaving the origin can break
      Bellman's condition, and their heads are the initial scan list. */
  lemma InitiallyPending(links: seq<LinkData>, cost: seq<real>, fs: seq<seq<int>>, rs: seq<seq<int>>,
                         through: seq<bool>, origin: nat, dist: seq<real>, scan: seq<nat>)
    requires |cost| == |links| && Stars(links, fs, rs) && |through| == |rs| && origin < |rs|
    requires NonNegative(cost) && dist == seq(|rs|, i => InitialLabel(origin, i))
    requires LinkIds(fs[origin], |links|) && scan == Heads(links, fs[origin])
    ensures PendingOrSettled(links, cost, through, origin, dist, scan)
  {
    forall l | 0 <= l < |links| && Usable(through, origin, links[l].tail)
      ensures dist[links[l].head] <= dist[links[l].tail] + cost[l] || links[l].head in scan
    {
      if links[l].tail == origin {
        assert l in fs[origin];
        var k :| 0 <= k < |fs[origin]| && fs[origin][k] == l;
        assert scan[k] == links[l].head;
      } else {
        assert cost[l] >= 0.0;
      }
    }
  }

  /** One step of the search: the first node of the scan list is taken
      off and scanned, and when its label dropped the heads of its forward
      star not already listed are appended. */
  method ScanStep(links: seq<LinkData>, cost: seq<real>, fs: seq<seq<int>>, rs: seq<seq<int>>,
                  through: seq<bool>, origin: nat, dist: seq<real>, back: seq<Option<nat>>, scan: seq<nat>)
    returns (dist': seq<real>, back': seq<Option<nat>>, next: seq<nat>)
    requires |cost| == |links| && Stars(links, fs, rs) && |through| == |rs| && origin < |rs|
    requires |dist| == |rs| && |back| == |rs| && scan != []
    requires NodeIds(scan, |rs|)
    requires BackLinks(links, cost, through, origin, dist, back) && dist[origin] <= 0.0
    requires NonNegative(cost) ==> PendingOrSettled(links, cost, through, origin, dist, scan)
    ensures |dist'| == |rs| && |back'| == |rs|
    ensures NodeIds(next, |rs|)
    ensures BackLinks(links, cost, through, origin, dist', back') && dist'[origin] <= 0.0
    ensures NonNegative(cost) ==> PendingOrSettled(links, cost, through, origin, dist', next)
  {
    var i := scan[0];
    var rest := scan[1..];
    var changed;
    dist', back', changed := ScanNode(links, cost, rs[i], through, origin, i, dist, back);
    StarIds(links, fs, rs, i);
    next := if changed then rest + NewHeads(links, fs[i], rest) else rest;
    if changed {
      NewHeadsWithin(links, fs[i], rest, |rs|);
    }
    if NonNegative(cost) {
      Rescanned(links, cost, fs, rs, through, origin, scan, dist, back, dist', back', changed, next);
    }
    BackLinksKept(links, cost, through, origin, i, dist, back, dist', back', changed);
  }

  /** The stars of node `i` hold link numbers only. */
  lemma StarIds(links: seq<LinkData>, fs: seq<seq<int>>, rs: seq<seq<int>>, i: nat)
    requires Stars(links, fs, rs) && i < |rs|
    ensures LinkIds(fs[i], |links|) && LinkIds(rs[i], |links|)
  {
    forall k | 0 <= k < |fs[i]| ensures 0 <= fs[i][k] < |links| { assert fs[i][k] in fs[i]; }
    forall k | 0 <= k < |rs[i]| ensures 0 <= rs[i][k] < |links| { assert rs[i][k] in rs[i]; }
  }

  lemma {:induction false} NewHeadsWithin(links: seq<LinkData>, ls: seq<int>, scan: seq<nat>, n: nat)
    requires LinkIds(ls, |links|) && LinksWithin(links, n)
    ensures NodeIds(NewHeads(links, ls, scan), n)
  {
    if ls != [] {
      NewHeadsWithin(links, ls[..|ls| - 1], scan, n);
    }
  }

  // ---------------------------------------------------------------------
  // Routes and their costs

  /** `p` lists links walked backwards from `d`: its last link leaves
      `cur`, and each link's head is where the previous one left off. */
  predicate Route(links: seq<LinkData>, p: seq<nat>, d: nat, cur: nat)
    decreases |p|
  {
    if p == [] then cur == d
    else
      var l := p[|p| - 1];
      l < |links| && links[l].tail == cur && Route(links, p[..|p| - 1], d, links[l].head)
  }

  /** Every link of `p` leaves a node usable from `origin`. */
  predicate UsableTails(links: seq<LinkData>, through: seq<bool>, origin: nat, p: seq<nat>) {
    forall k :: 0 <= k < |p| ==> p[k] < |links| && links[p[k]].tail < |through| && Usable(through, origin, links[p[k]].tail)
  }

  /** Every link of `p` is the back link of its head. */
  predicate OnBackLinks(links: seq<LinkData>, back: seq<Option<nat>>, p: seq<nat>) {
    forall k :: 0 <= k < |p| ==> p[k] < |links| && links[p[k]].head < |back| && back[links[p[k]].head] == Some(p[k])
  }

  function PathCost(cost: seq<real>, p: seq<nat>): real
    requires forall k :: 0 <= k < |p| ==> p[k] < |cost|
  {
    if p == [] then 0.0 else PathCost(cost, p[..|p| - 1]) + cost[p[|p| - 1]]
  }

  /** `p` leads from `origin` to `d` over usable links and costs no more
      than any other such route. */
  ghost predicate ShortestRoute(links: seq<LinkData>, cost: seq<real>, through: seq<bool>, origin: nat, d: nat, p: seq<nat>)
    requires |cost| == |links|
  {
    Route(links, p, d, origin) && UsableTails(links, through, origin, p)
    && forall q :: Route(links, q, d, origin) && UsableTails(links, through, origin, q) ==> PathCost(cost, p) <= PathCost(cost, q)
  }

  /** Along back links the labels drop by at least each link's cost. */
  lemma {:induction false} BackRouteCost(links: seq<LinkData>, cost: seq<real>, through: seq<bool>, origin: nat,
                                         dist: seq<real>, back: seq<Option<nat>>, p: seq<nat>, d: nat, cur: nat)
    requires |cost| == |links| && LinksWithin(links, |dist|) && |through| == |dist| && |back| == |dist|
    requires BackLinks(links, cost, through, origin, dist, back) && NonNegative(cost)
    requires Route(links, p, d, cur) && OnBackLinks(links, back, p) && d < |dist| && cur < |dist|
    ensures dist[d] >= dist[cur] + PathCost(cost, p)
    decreases |p|
  {
    if p != [] {
      var l := p[|p| - 1];
      var h := links[l].head;
      assert back[h] == Some(l);
      assert OnBackLinks(links, back, p[..|p| - 1]) by {
        forall k | 0 <= k < |p| - 1 ensures p[..|p| - 1][k] == p[k] { }
      }
      BackRouteCost(links, cost, through, origin, dist, back, p[..|p| - 1], d, h);
    }
  }

  /** Under Bellman's condition no usable route reaches `d` for less than
      the difference of the labels. */
  lemma {:induction false} SettledRouteCost(links: seq<LinkData>, cost: seq<real>, through: seq<bool>, origin: nat,
                                            dist: seq<real>, q: seq<nat>, d: nat, cur: nat)
    requires |cost| == |links| && LinksWithin(links, |dist|) && |through| == |dist|
    requires Settled(links, cost, through, origin, dist)
    requires Route(links, q, d, cur) && UsableTails(links, through, origin, q) && d < |dist| && cur < |dist|
    ensures dist[d] <= dist[cur] + PathCost(cost, q)
    decreases |q|
  {
    if q != [] {
      var l := q[|q| - 1];
      assert UsableTails(links, through, origin, q[..|q| - 1]) by {
        forall k | 0 <= k < |q| - 1 ensures q[..|q| - 1][k] == q[k] { }
      }
      SettledRouteCost(links, cost, through, origin, dist, q[..|q| - 1], d, links[l].head);
    }
  }

  /** With non-negative costs a route along the back links of a settled
      search is a shortest usable route. */
  lemma BackRouteShortest(links: seq<LinkData>, cost: seq<real>, through: seq<bool>, origin: nat,
                          dist: seq<real>, back: seq<Option<nat>>, p: seq<nat>, d: nat)
    requires |cost| == |links| && LinksWithin(links, |dist|) && |through| == |dist| && |back| == |dist|
    requires BackLinks(links, cost, through, origin, dist, back) && NonNegative(cost)
    requires Settled(links, cost, through, origin, dist)
    requires Route(links, p, d, origin) && OnBackLinks(links, back, p) && d < |dist| && origin < |dist|
    ensures ShortestRoute(links, cost, through, origin, d, p)
  {
    BackRouteCost(links, cost, through, origin, dist, back, p, d, origin);
    forall k | 0 <= k < |p|
      ensures p[k] < |links| && links[p[k]].tail < |through| && Usable(through, origin, links[p[k]].tail)
    {
      var h := links[p[k]].head;
      assert back[h] == Some(p[k]);
    }
    forall q | Route(links, q, d, origin) && UsableTails(links, through, origin, q)
      ensures PathCost(cost, p) <= PathCost(cost, q)
    {
      SettledRouteCost(links, cost, through, origin, dist, q, d, origin);
    }
  }

  // ---------------------------------------------------------------------
  // All-or-nothing loading

  /** An origin-destination pair as read from the demand file. */
  datatype OD = OD(origin: string, destination: string, demand: real)

  /** The flows after `demand` is added to every link of `p`, once per
      use. */
  function AddPath(flows: seq<real>, p: seq<nat>, demand: real): (r: seq<real>)
    requires forall k :: 0 <= k < |p| ==> p[k] < |flows|
    ensures |r| == |flows|
  {
    if p == [] then flows
    else
      var f := AddPath(flows, p[..|p| - 1], demand);
      var l := p[|p| - 1];
      f[l := f[l] + demand]
  }

  /** How often link `l` occurs in `p`. */
  function Uses(p: seq<nat>, l: nat): nat {
    if p == [] then 0 else Uses(p[..|p| - 1], l) + (if p[|p| - 1] == l then 1 else 0)
  }

  /** The demand `demand` spread over link `l` by path `p`: once per use. */
  function Spread(demand: real, p: seq<nat>, l: nat): real {
    demand * (Uses(p, l) as real)
  }

  /** Loading a path raises each link's flow by the demand times the
      number of times the path uses it. */
  lemma {:induction false} AddPathUses(flows: seq<real>, p: seq<nat>, demand: real, l: nat)
    requires forall k :: 0 <= k < |p| ==> p[k] < |flows|
    requires l < |flows|
    ensures AddPath(flows, p, demand)[l] == flows[l] + Spread(demand, p, l)
  {
    if p != [] {
      var q := p[..|p| - 1];
      AddPathUses(flows, q, demand, l);
      var u := Uses(q, l) as real;
      if p[|p| - 1] == l {
        assert Uses(p, l) as real == u + 1.0;
        assert demand * (u + 1.0) == demand * u + demand;
      } else {
        assert Uses(p, l) as real == u;
      }
    }
  }

  /** One loaded pair: the OD pair's number, its origin and destination
      nodes, and the links walked back from the destination. */
  datatype Load = Load(od: nat, origin: nat, destination: nat, path: seq<nat>)

  /** Every load names an OD pair and lists link numbers. */
  predicate LoadsFit(loads: seq<Load>, ods: nat, links: nat) {
    forall j :: 0 <= j < |loads| ==>
      loads[j].od < ods && forall k :: 0 <= k < |loads[j].path| ==> loads[j].path[k] < links
  }

  /** The flows after every load in turn. */
  function Loaded(flows: seq<real>, loads: seq<Load>, ods: seq<OD>): (r: seq<real>)
    requires LoadsFit(loads, |ods|, |flows|)
    ensures |r| == |flows|
  {
    if loads == [] then flows
    else
      var last := loads[|loads| - 1];
      AddPath(Loaded(flows, loads[..|loads| - 1], ods), last.path, ods[last.od].demand)
  }

  /** The total demand routed over link `l`, counting each use. */
  function Volume(loads: seq<Load>, ods: seq<OD>, l: nat): real
    requires forall j :: 0 <= j < |loads| ==> loads[j].od < |ods|
  {
    if loads == [] then 0.0
    else
      var last := loads[|loads| - 1];
      Volume(loads[..|loads| - 1], ods, l) + Spread(ods[last.od].demand, last.path, l)
  }

  /** The loads but the last still fit. */
  lemma LoadsFitInit(loads: seq<Load>, ods: nat, links: nat)
    requires LoadsFit(loads, ods, links) && loads != []
    ensures LoadsFit(loads[..|loads| - 1], ods, links)
  {
    var init := loads[..|loads| - 1];
    forall j | 0 <= j < |init| ensures init[j] == loads[j] { }
  }

  /** Loading the last path adds its demand to link `l` once per use. */
  lemma LoadedLast(flows: seq<real>, loads: seq<Load>, ods: seq<OD>, l: nat)
    requires LoadsFit(loads, |ods|, |flows|) && l < |flows| && loads != []
    ensures LoadsFit(loads[..|loads| - 1], |ods|, |flows|)
    ensures Loaded(flows, loads, ods)[l] == Loaded(flows, loads[..|loads| - 1], ods)[l]
              + Spread(ods[loads[|loads| - 1].od].demand, loads[|loads| - 1].path, l)
  {
    var last := loads[|loads| - 1];
    LoadsFitInit(loads, |ods|, |flows|);
    var prev := Loaded(flows, loads[..|loads| - 1], ods);
    AddPathUses(prev, last.path, ods[last.od].demand, l);
    assert Loaded(flows, loads, ods) == AddPath(prev, last.path, ods[last.od].demand);
  }

  /** Loading from zero flows gives every link exactly the demand routed
      over it. */
  lemma {:induction false} LoadedVolume(flows: seq<real>, loads: seq<Load>, ods: seq<OD>, l: nat)
    requires LoadsFit(loads, |ods|, |flows|) && l < |flows|
    ensures Loaded(flows, loads, ods)[l] == flows[l] + Volume(loads, ods, l)
  {
    if loads != [] {
      var init, last := loads[..|loads| - 1], loads[|loads| - 1];
      LoadedLast(flows, loads, ods, l);
      LoadedVolume(flows, init, ods, l);
      assert Volume(loads, ods, l) == Volume(init, ods, l) + Spread(ods[last.od].demand, last.path, l);
    }
  }

  /** Each back link enters its own node. */
  predicate BackHeads(links: seq<LinkData>, back: seq<Option<nat>>) {
    forall i :: 0 <= i < |back| && back[i].Some? ==> back[i].value < |links| && links[back[i].value].head == i
  }

  /** The walk of `allOrNothing` from destination `d` back to `origin`
      along the back links, adding `demand` to each link passed. A node
      without a back link raises `KeyError`; a walk longer than `fuel`
      steps gives `OutOfFuel`. */
  method WalkBack(links: seq<LinkData>, back: seq<Option<nat>>, origin: nat, d: nat, demand: real,
                  flows: seq<real>, fuel: nat)
    returns (r: Result<seq<real>>, ghost path: seq<nat>)
    requires LinksWithin(links, |back|) && |flows| == |links| && BackHeads(links, back)
    requires origin < |back| && d < |back|
    ensures r.Err? ==> r.error == KeyError || r.error == OutOfFuel
    ensures r.Err? && r.error == KeyError ==>
      exists x :: 0 <= x < |back| && x != origin && back[x].None? && Route(links, path, d, x)
    ensures r.Ok? ==> Route(links, path, d, origin) && OnBackLinks(links, back, path)
    ensures r.Ok? ==> (forall k :: 0 <= k < |path| ==> path[k] < |links|) && r.value == AddPath(flows, path, demand)
  {
    var cur: nat := d;
    var f := flows;
    path := [];
    var n := fuel;
    while cur != origin
      invariant cur < |back|
      invariant Route(links, path, d, cur) && OnBackLinks(links, back, path)
      invariant forall k :: 0 <= k < |path| ==> path[k] < |links|
      invariant f == AddPath(flows, path, demand)
      decreases n
    {
      if n == 0 {
        return Err(OutOfFuel), path;
      }
      n := n - 1;
      match back[cur] {
        case None =>
          return Err(KeyError), path;
        case Some(l) =>
          ghost var p := path;
          f := f[l := f[l] + demand];
          path := path + [l];
          assert path[..|path| - 1] == p;
          cur := links[l].tail;
      }
    }
    r := Ok(f);
  }

  /** The position of node name `x`, as a dictionary lookup finds it. */
  function IndexOf(names: seq<string>, x: string): (r: Option<nat>)
    ensures r.Some? ==> r.value < |names| && names[r.value] == x
    ensures r.None? <==> x !in names
  {
    if names == [] then None
    else if names[0] == x then Some(0)
    else match IndexOf(names[1..], x)
      case None => None
      case Some(i) => Some(i + 1)
  }

  /** A load that routes its OD pair from the pair's origin to its
      destination over usable links; with non-negative costs the route is
      a shortest one. */
  ghost predicate Routed(links: seq<LinkData>, cost: seq<real>, through: seq<bool>, names: seq<string>,
                         ods: seq<OD>, ld: Load)
    requires |cost| == |links|
  {
    ld.od < |ods| && ld.origin < |names| && ld.destination < |names|
    && names[ld.origin] == ods[ld.od].origin && names[ld.destination] == ods[ld.od].destination
    && Route(links, ld.path, ld.destination, ld.origin) && UsableTails(links, through, ld.origin, ld.path)
    && (NonNegative(cost) ==> ShortestRoute(links, cost, through, ld.origin, ld.destination, ld.path))
  }

  /** What the search from `o` leaves: back links and labels for every
      node, settled when no cost is negative. */
  ghost predicate SearchedFrom(links: seq<LinkData>, cost: seq<real>, through: seq<bool>, o: nat,
                               dist: seq<real>, back: seq<Option<nat>>)
    requires |cost| == |links|
  {
    |through| == |back| && |dist| == |back| && o < |back| && LinksWithin(links, |back|)
    && BackLinks(links, cost, through, o, dist, back)
    && (NonNegative(cost) ==> Settled(links, cost, through, o, dist))
  }

  /** The loading of OD pair `k`, whose origin is node `o`, along the back
      links of the search from `o`. A destination equal to the origin
      needs no walk; a destination that is not a node raises `KeyError`. */
  method LoadPair(links: seq<LinkData>, cost: seq<real>, through: seq<bool>, names: seq<string>, ods: seq<OD>,
                  k: nat, o: nat, back: seq<Option<nat>>, dist: seq<real>, flows: seq<real>, fuel: nat)
    returns (r: Result<seq<real>>, ghost ld: Load)
    requires |cost| == |links| && |flows| == |links| && LinksWithin(links, |names|)
    requires k < |ods| && o < |names| && ods[k].origin == names[o] && |back| == |names|
    requires SearchedFrom(links, cost, through, o, dist, back)
    ensures r.Err? ==> r.error == KeyError || r.error == OutOfFuel
    ensures r.Ok? ==> ld.od == k && ld.origin == o && LoadsFit([ld], |ods|, |links|)
    ensures r.Ok? ==> Routed(links, cost, through, names, ods, ld)
    ensures r.Ok? ==> r.value == AddPath(flows, ld.path, ods[k].demand)
  {
    ld := Load(k, o, o, []);
    if ods[k].destination == names[o] {
      if NonNegative(cost) {
        BackRouteShortest(links, cost, through, o, dist, back, [], o);
      }
      return Ok(flows), ld;
    }
    match IndexOf(names, ods[k].destination) {
      case None =>
        return Err(KeyError), ld;
      case Some(d) =>
        var res, path := WalkBack(links, back, o, d, ods[k].demand, flows, fuel);
        ld := Load(k, o, d, path);
        if res.Err? {
          return Err(res.error), ld;
        }
        if NonNegative(cost) {
          BackRouteShortest(links, cost, through, o, dist, back, path, d);
        }
        forall j | 0 <= j < |path| ensures links[path[j]].tail < |through| && Usable(through, o, links[path[j]].tail) {
          assert back[links[path[j]].head] == Some(path[j]);
        }
        r := Ok(res.value);
    }
  }

  /** The OD pairs whose origin is named `x`, in OD order. */
  function PairsFrom(ods: seq<OD>, x: string): (r: seq<nat>)
    ensures forall j :: 0 <= j < |r| ==> r[j] < |ods|
  {
    if ods == [] then []
    else PairsFrom(ods[..|ods| - 1], x) + (if ods[|ods| - 1].origin == x then [|ods| - 1] else [])
  }

  /** The order in which `allOrNothing` visits the OD pairs: origin by
      origin in node order, and by OD order within one origin. */
  function Schedule(names: seq<string>, ods: seq<OD>): (r: seq<nat>)
    ensures forall j :: 0 <= j < |r| ==> r[j] < |ods|
  {
    if names == [] then [] else Schedule(names[..|names| - 1], ods) + PairsFrom(ods, names[|names| - 1])
  }

  function OdsOf(loads: seq<Load>): (r: seq<nat>)
    ensures |r| == |loads| && forall j :: 0 <= j < |loads| ==> r[j] == loads[j].od
  {
    if loads == [] then [] else OdsOf(loads[..|loads| - 1]) + [loads[|loads| - 1].od]
  }

  function Zeros(n: nat): (r: seq<real>)
    ensures |r| == n && forall l :: 0 <= l < n ==> r[l] == 0.0
  {
    seq(n, _ => 0.0)
  }

  /** `allOrNothing`: for every node in turn a shortest-path search from
      it, then the demand of every OD pair leaving it loaded onto the back
      links from its destination. The flows are the demands routed over
      each link; every OD pair is routed from its origin to its
      destination, by a shortest usable route when costs are non-negative,
      in the order `Schedule` gives. */
  method AllOrNothing(links: seq<LinkData>, cost: seq<real>, fs: seq<seq<int>>, rs: seq<seq<int>>,
                      through: seq<bool>, names: seq<string>, ods: seq<OD>, fuel: nat)
    returns (r: Result<seq<real>>, ghost loads: seq<Load>)
    requires |cost| == |links| && Stars(links, fs, rs) && |through| == |rs| && |names| == |rs|
    ensures r.Err? ==> r.error == KeyError || r.error == OutOfFuel
    ensures r.Ok? ==> LoadsFit(loads, |ods|, |links|) && r.value == Loaded(Zeros(|links|), loads, ods)
    ensures r.Ok? ==> AllRouted(links, cost, through, names, ods, loads)
    ensures r.Ok? ==> OdsOf(loads) == Schedule(names, ods)
  {
    var flows := Zeros(|links|);
    loads := [];
    var o := 0;
    while o < |names|
      invariant o <= |names|
      invariant LoadedAll(links, cost, through, names, ods, loads, flows)
      invariant OdsOf(loads) == Schedule(names[..o], ods)
    {
      var search := LabelCorrecting(links, cost, fs, rs, through, o, fuel);
      if search.Err? {
        return Err(search.error), loads;
      }
      var back, dist := search.value.0, search.value.1;
      var res;
      res, loads := LoadOrigin(links, cost, through, names, ods, o, back, dist, flows, loads, fuel);
      if res.Err? {
        return Err(res.error), loads;
      }
      flows := res.value;
      assert names[..o + 1][..o] == names[..o];
      o := o + 1;
    }
    assert names[..o] == names;
    r := Ok(flows);
  }

  /** The OD pairs leaving node `o`, loaded in OD order onto the back links
      of the search from `o`. */
  method LoadOrigin(links: seq<LinkData>, cost: seq<real>, through: seq<bool>, names: seq<string>, ods: seq<OD>,
                    o: nat, back: seq<Option<nat>>, dist: seq<real>, flows: seq<real>, ghost loads: seq<Load>, fuel: nat)
    returns (r: Result<seq<real>>, ghost loads': seq<Load>)
    requires |cost| == |links| && |flows| == |links| && LinksWithin(links, |names|)
    requires o < |names| && |back| == |names| && SearchedFrom(links, cost, through, o, dist, back)
    requires LoadedAll(links, cost, through, names, ods, loads, flows)
    ensures r.Err? ==> r.error == KeyError || r.error == OutOfFuel
    ensures r.Ok? ==> LoadedAll(links, cost, through, names, ods, loads', r.value)
    ensures r.Ok? ==> OdsOf(loads') == OdsOf(loads) + PairsFrom(ods, names[o])
  {
    var f := flows;
    loads' := loads;
    var k := 0;
    while k < |ods|
      invariant k <= |ods|
      invariant LoadedAll(links, cost, through, names, ods, loads', f)
      invariant OdsOf(loads') == OdsOf(loads) + PairsFrom(ods[..k], names[o])
    {
      PairsFromStep(ods, k, names[o]);
      if ods[k].origin == names[o] {
        var res, ld := LoadPair(links, cost, through, names, ods, k, o, back, dist, f, fuel);
        if res.Err? {
          return Err(res.error), loads';
        }
        Appended(links, cost, through, names, ods, f, loads', ld);
        AppendAssoc(OdsOf(loads), PairsFrom(ods[..k], names[o]), [k]);
        f, loads' := res.value, loads' + [ld];
      }
      k := k + 1;
    }
    assert ods[..k] == ods;
    r := Ok(f);
  }

  ghost predicate AllRouted(links: seq<LinkData>, cost: seq<real>, through: seq<bool>, names: seq<string>,
                            ods: seq<OD>, loads: seq<Load>)
    requires |cost| == |links|
  {
    forall j :: 0 <= j < |loads| ==> Routed(links, cost, through, names, ods, loads[j])
  }

  /** `flows` is what loading `loads` in turn onto zero flows gives, and
      every load is routed. */
  ghost predicate LoadedAll(links: seq<LinkData>, cost: seq<real>, through: seq<bool>, names: seq<string>,
                            ods: seq<OD>, loads: seq<Load>, flows: seq<real>)
    requires |cost| == |links|
  {
    LoadsFit(loads, |ods|, |links|) && flows == Loaded(Zeros(|links|), loads, ods)
    && AllRouted(links, cost, through, names, ods, loads)
  }

  /** Appending one routed load keeps the loads routed, adds its path to
      the flows and extends the pair order by it. */
  lemma Appended(links: seq<LinkData>, cost: seq<real>, through: seq<bool>, names: seq<string>, ods: seq<OD>,
                 flows: seq<real>, loads: seq<Load>, ld: Load)
    requires |cost| == |links|
    requires LoadedAll(links, cost, through, names, ods, loads, flows)
    requires LoadsFit([ld], |ods|, |links|) && Routed(links, cost, through, names, ods, ld)
    ensures LoadedAll(links, cost, through, names, ods, loads + [ld], AddPath(flows, ld.path, ods[ld.od].demand))
    ensures OdsOf(loads + [ld]) == OdsOf(loads) + [ld.od]
  {
    var all := loads + [ld];
    assert all[..|loads|] == loads;
    assert forall j :: 0 <= j < |loads| ==> all[j] == loads[j];
  }

  lemma PairsFromStep(ods: seq<OD>, k: nat, x: string)
    requires k < |ods|
    ensures PairsFrom(ods[..k + 1], x) == PairsFrom(ods[..k], x) + (if ods[k].origin == x then [k] else [])
  {
    assert ods[..k + 1][..k] == ods[..k];
  }

  lemma {:induction false} PairsFromCount(ods: seq<OD>, x: string, k: nat)
    ensures multiset(PairsFrom(ods, x))[k] == if k < |ods| && ods[k].origin == x then 1 else 0
  {
    if ods != [] {
      var init := ods[..|ods| - 1];
      PairsFromCount(init, x, k);
      assert k < |init| ==> init[k] == ods[k];
      var tail := if ods[|ods| - 1].origin == x then [|ods| - 1] else [];
      assert PairsFrom(ods, x) == PairsFrom(init, x) + tail;
      assert multiset(PairsFrom(ods, x))[k] == multiset(PairsFrom(init, x))[k] + multiset(tail)[k];
    }
  }

  /** `allOrNothing` loads OD pair `k` once for every node named as its
      origin: exactly once, since node names are the distinct keys of the
      node dictionary, when the origin is a node, and never otherwise. */
  lemma {:induction false} ScheduleCount(names: seq<string>, ods: seq<OD>, k: nat)
    requires k < |ods|
    ensures multiset(Schedule(names, ods))[k] == multiset(names)[ods[k].origin]
  {
    if names != [] {
      var init := names[..|names| - 1];
      var last := names[|names| - 1];
      ScheduleCount(init, ods, k);
      PairsFromCount(ods, last, k);
      SnocCount(names, ods[k].origin);
      assert multiset(Schedule(names, ods))[k] == multiset(Schedule(init, ods))[k] + multiset(PairsFrom(ods, last))[k];
    }
  }

  /** Occurrences in a list are those in all but its last entry, plus
      one when the last entry is `x`. */
  lemma SnocCount<T>(s: seq<T>, x: T)
    requires s != []
    ensures multiset(s)[x] == multiset(s[..|s| - 1])[x] + (if s[|s| - 1] == x then 1 else 0)
  {
    assert s == s[..|s| - 1] + [s[|s| - 1]];
  }

  // ---------------------------------------------------------------------
  // Topological order and the acyclic shortest path

  /** `order` numbers the nodes 1..n so that every link leads to a higher
      number, and `topo` lists the nodes by number (the topological list
      without its dummy first entry). */
  predicate TopologicalOrder(links: seq<LinkData>, order: seq<int>, topo: seq<nat>, n: nat) {
    |order| == n && |topo| == n && LinksWithin(links, n)
    && (forall t :: 0 <= t < n ==> topo[t] < n && order[topo[t]] == t + 1)
    && (forall i :: 0 <= i < n ==> 1 <= order[i] <= n && topo[order[i] - 1] == i)
    && (forall l :: 0 <= l < |links| ==> order[links[l].tail] < order[links[l].head])
  }

  /** Every usable link into a node numbered after the origin and before
      `t` meets Bellman's condition. */
  predicate SettledAfter(links: seq<LinkData>, cost: seq<real>, through: seq<bool>, origin: nat,
                         order: seq<int>, dist: seq<real>, t: int)
    requires |cost| == |links| && LinksWithin(links, |dist|) && |through| == |dist| && |order| == |dist| && origin < |dist|
  {
    forall l :: (0 <= l < |links| && Usable(through, origin, links[l].tail)
                 && order[origin] < order[links[l].head] < t) ==>
      dist[links[l].head] <= dist[links[l].tail] + cost[l]
  }

  /** Scanning the node numbered `t` settles the links into it and leaves
      the links into earlier nodes settled, since no link leaves it towards
      them. */
  lemma TopologicalScan(links: seq<LinkData>, cost: seq<real>, through: seq<bool>, origin: nat, order: seq<int>,
                        topo: seq<nat>, t: int, dist: seq<real>, back: seq<Option<nat>>,
                        dist': seq<real>, back': seq<Option<nat>>, changed: bool)
    requires 1 <= t <= |dist| && origin < |dist|
    requires TopologicalOrder(links, order, topo, |dist|)
    requires ScanEffect(links, cost, through, origin, topo[t - 1], dist, back, dist', back', changed)
    requires SettledAfter(links, cost, through, origin, order, dist, t)
    ensures SettledAfter(links, cost, through, origin, order, dist', t + 1)
  {
    var i := topo[t - 1];
    forall l | 0 <= l < |links| && Usable(through, origin, links[l].tail) && order[origin] < order[links[l].head] < t + 1
      ensures dist'[links[l].head] <= dist'[links[l].tail] + cost[l]
    {
      assert order[links[l].tail] < order[links[l].head];
      if links[l].head != i {
        assert order[links[l].head] != t;
        assert links[l].tail != i;
      }
    }
  }

  /** `acyclicShortestPath`: the nodes after the origin are scanned once
      each, in topological order up to `numNodes`. When `numNodes` is the
      number of nodes, every usable link into a node after the origin meets
      Bellman's condition, whatever the sign of the costs; a larger
      `numNodes` runs off the end of the topological list. */
  method AcyclicShortestPath(links: seq<LinkData>, cost: seq<real>, rs: seq<seq<int>>, through: seq<bool>,
                             order: seq<int>, topo: seq<nat>, origin: nat, numNodes: int)
    returns (r: Result<(seq<Option<nat>>, seq<real>)>)
    requires |cost| == |links| && |through| == |rs| && origin < |rs|
    requires forall i :: 0 <= i < |rs| ==> rs[i] == Entering(links, i)
    requires TopologicalOrder(links, order, topo, |rs|)
    ensures r.Err? <==> numNodes > |rs|
    ensures r.Err? ==> r.error == IndexError
    ensures r.Ok? ==> |r.value.0| == |rs| && |r.value.1| == |rs|
    ensures r.Ok? ==> BackLinks(links, cost, through, origin, r.value.1, r.value.0)
    ensures r.Ok? && numNodes == |rs| ==> SettledAfter(links, cost, through, origin, order, r.value.1, |rs| + 1)
  {
    var n := |rs|;
    var back: seq<Option<nat>> := seq(n, _ => None);
    var dist := seq(n, i => InitialLabel(origin, i));
    var t := order[origin] + 1;
    while t <= numNodes
      invariant order[origin] + 1 <= t <= n + 1
      invariant |dist| == n && |back| == n
      invariant BackLinks(links, cost, through, origin, dist, back)
      invariant SettledAfter(links, cost, through, origin, order, dist, t)
    {
      if t > n {
        return Err(IndexError);
      }
      var i := topo[t - 1];
      var dist', back', changed := ScanNode(links, cost, rs[i], through, origin, i, dist, back);
      BackLinksKept(links, cost, through, origin, i, dist, back, dist', back', changed);
      TopologicalScan(links, cost, through, origin, order, topo, t, dist, back, dist', back', changed);
      dist, back := dist', back';
      t := t + 1;
    }
    r := Ok((back, dist));
  }

  // ---------------------------------------------------------------------
  // Finding a topological order

  /** `findLeastEnteringLinks`: the first node whose current reverse star
      is shortest among those shorter than `numLinks + 1`, or `None` when
      there is no such node. */
  method LeastEnteringNode(stars: seq<seq<int>>, numLinks: int) returns (r: Option<nat>)
    ensures r.None? <==> forall i :: 0 <= i < |stars| ==> |stars[i]| > numLinks
    ensures r.Some? ==> r.value < |stars| && |stars[r.value]| <= numLinks
    ensures r.Some? ==> forall i :: 0 <= i < |stars| ==> |stars[r.value]| <= |stars[i]|
    ensures r.Some? ==> forall i :: 0 <= i < r.value ==> |stars[r.value]| < |stars[i]|
  {
    var least := numLinks + 1;
    r := None;
    var i := 0;
    while i < |stars|
      invariant 0 <= i <= |stars|
      invariant r.None? ==> least == numLinks + 1 && forall j :: 0 <= j < i ==> |stars[j]| > numLinks
      invariant r.Some? ==> r.value < i && least == |stars[r.value]| <= numLinks
      invariant r.Some? ==> forall j :: 0 <= j < i ==> least <= |stars[j]|
      invariant r.Some? ==> forall j :: 0 <= j < r.value ==> least < |stars[j]|
    {
      if |stars[i]| < least {
        least := |stars[i]|;
        r := Some(i);
      }
      i := i + 1;
    }
  }

  /** The placeholder `[0] * numLinks` that replaces the reverse star of a
      numbered node. */
  function Placeholder(numLinks: nat): (r: seq<int>)
    ensures |r| == numLinks && forall k :: 0 <= k < numLinks ==> r[k] == 0
  {
    seq(numLinks, _ => 0)
  }

  /** Python's `list.remove`: the first occurrence of `x` is dropped. */
  function RemoveFirst(s: seq<int>, x: int): (r: seq<int>)
    requires x in s
    ensures multiset(r) == multiset(s) - multiset{x}
  {
    assert s == [s[0]] + s[1..];
    if s[0] == x then s[1..] else [s[0]] + RemoveFirst(s[1..], x)
  }

  /** The current reverse star `s` of an unnumbered node `i` holds, once
      each, the links into `i` whose tail is not numbered yet, less those
      in `gone`. */
  ghost predicate Awaiting(links: seq<LinkData>, i: nat, numbered: seq<nat>, gone: seq<int>, s: seq<int>) {
    forall l :: multiset(s)[l] == if 0 <= l < |links| && links[l].head == i
                                     && links[l].tail !in numbered && l !in gone then 1 else 0
  }

  /** The forward star of a node lists its links in increasing order. */
  lemma {:induction false} LeavingIncreasing(links: seq<LinkData>, i: nat)
    ensures forall j, k :: 0 <= j < k < |Leaving(links, i)| ==> Leaving(links, i)[j] < Leaving(links, i)[k]
  {
    if links != [] {
      var n := |links| - 1;
      LeavingIncreasing(links[..n], i);
      var init := Leaving(links[..n], i);
      forall k | 0 <= k < |init| ensures init[k] < n {
        assert init[k] in init;
      }
    }
  }

  /** A link into another node leaves the reverse star of `i` as it is. */
  lemma AwaitingOther(links: seq<LinkData>, i: nat, numbered: seq<nat>, gone: seq<int>, x: nat, s: seq<int>)
    requires x < |links| && links[x].head != i
    requires Awaiting(links, i, numbered, gone, s)
    ensures Awaiting(links, i, numbered, gone + [x], s)
  {
    forall l ensures (l in gone + [x]) == (l in gone || l == x) { }
  }

  /** A pending link into `i` is in its reverse star, and removing it
      there records it as gone. */
  lemma AwaitingRemove(links: seq<LinkData>, i: nat, numbered: seq<nat>, gone: seq<int>, x: nat, s: seq<int>)
    requires x < |links| && links[x].head == i && links[x].tail !in numbered && x !in gone
    requires Awaiting(links, i, numbered, gone, s)
    ensures x in s
    ensures Awaiting(links, i, numbered, gone + [x], RemoveFirst(s, x))
  {
    assert multiset(s)[x] == 1;
    forall l ensures (l in gone + [x]) == (l in gone || l == x) { }
  }

  /** Once every link out of `v` is gone, the reverse stars are those of
      `v` numbered. */
  lemma AwaitingNumbered(links: seq<LinkData>, i: nat, numbered: seq<nat>, v: nat, s: seq<int>)
    requires Awaiting(links, i, numbered, Leaving(links, v), s)
    ensures Awaiting(links, i, numbered + [v], [], s)
  {
    forall l ensures (0 <= l < |links| && l in Leaving(links, v)) == (0 <= l < |links| && links[l].tail == v) { }
    forall l | 0 <= l < |links| ensures (links[l].tail in numbered + [v]) == (links[l].tail in numbered || links[l].tail == v) { }
  }

  /** While the links out of `v` are removed: numbered nodes and `v` keep
      their reverse stars, and every other node's star awaits its links
      less those in `gone`. */
  ghost predicate Detaching(links: seq<LinkData>, stars: seq<seq<int>>, stars': seq<seq<int>>, v: nat,
                            numbered: seq<nat>, gone: seq<int>) {
    |stars'| == |stars|
    && (forall i :: 0 <= i < |stars| && (i == v || i in numbered) ==> stars'[i] == stars[i])
    && (forall i :: 0 <= i < |stars| && i != v && i !in numbered ==> Awaiting(links, i, numbered, gone, stars'[i]))
  }

  /** One round of that loop: `reverseStar.remove(ij)` at the head of `ij`. */
  method DetachLink(links: seq<LinkData>, v: nat, stars: seq<seq<int>>, stars': seq<seq<int>>,
                    ghost numbered: seq<nat>, ghost gone: seq<int>, ij: nat)
    returns (stars'': seq<seq<int>>)
    requires LinksWithin(links, |stars|) && v < |stars| && v !in numbered
    requires ij < |links| && links[ij].tail == v && ij !in gone
    requires forall l :: 0 <= l < |links| && links[l].head in numbered ==> links[l].tail in numbered
    requires forall l :: 0 <= l < |links| && links[l].head == v ==> links[l].tail in numbered
    requires Detaching(links, stars, stars', v, numbered, gone)
    ensures Detaching(links, stars, stars'', v, numbered, gone + [ij])
  {
    var h := links[ij].head;
    assert h != v && h !in numbered;
    AwaitingRemove(links, h, numbered, gone, ij, stars'[h]);
    var s := RemoveFirst(stars'[h], ij);
    forall i | 0 <= i < |stars| && i != v && i !in numbered && i != h
      ensures Awaiting(links, i, numbered, gone + [ij], stars'[i])
    {
      AwaitingOther(links, i, numbered, gone, ij, stars'[i]);
    }
    stars'' := stars'[h := s];
  }

  /** Before `v` is detached: it is not numbered, every link into it or
      into a numbered node comes from a numbered node, and every other
      node awaits its pending links. */
  ghost predicate DetachReady(links: seq<LinkData>, stars: seq<seq<int>>, v: nat, numbered: seq<nat>) {
    LinksWithin(links, |stars|) && v < |stars| && v !in numbered
    && (forall l :: 0 <= l < |links| && links[l].head in numbered ==> links[l].tail in numbered)
    && (forall l :: 0 <= l < |links| && links[l].head == v ==> links[l].tail in numbered)
    && (forall i :: 0 <= i < |stars| && i != v && i !in numbered ==> Awaiting(links, i, numbered, [], stars[i]))
  }

  /** After `v` is detached: `v` and the numbered nodes keep their stars,
      and every other node awaits its links as if `v` were numbered. */
  ghost predicate DetachDone(links: seq<LinkData>, stars: seq<seq<int>>, stars': seq<seq<int>>, v: nat,
                             numbered: seq<nat>) {
    |stars'| == |stars|
    && (forall i :: 0 <= i < |stars| && (i == v || i in numbered) ==> stars'[i] == stars[i])
    && (forall i :: 0 <= i < |stars| && i !in numbered + [v] ==> Awaiting(links, i, numbered + [v], [], stars'[i]))
  }

  /** The loop of `findTopologicalOrder` that removes every link leaving
      the newly numbered node `v` from the reverse star of its head. */
  method Detach(links: seq<LinkData>, fs: seq<seq<int>>, v: nat, stars: seq<seq<int>>, ghost numbered: seq<nat>)
    returns (stars': seq<seq<int>>)
    requires v < |fs| && fs[v] == Leaving(links, v)
    requires DetachReady(links, stars, v, numbered)
    ensures DetachDone(links, stars, stars', v, numbered)
  {
    var out := fs[v];
    LeavingIncreasing(links, v);
    stars' := stars;
    var k := 0;
    while k < |out|
      invariant 0 <= k <= |out|
      invariant Detaching(links, stars, stars', v, numbered, out[..k])
    {
      var ij := out[k];
      assert ij in out;
      assert ij !in out[..k] by {
        forall j | 0 <= j < k ensures out[j] != ij { }
      }
      stars' := DetachLink(links, v, stars, stars', numbered, out[..k], ij);
      assert out[..k + 1] == out[..k] + [ij];
      k := k + 1;
    }
    assert out[..k] == out;
    forall i | 0 <= i < |stars| && i !in numbered + [v]
      ensures Awaiting(links, i, numbered + [v], [], stars'[i])
    {
      AwaitingNumbered(links, i, numbered, v, stars'[i]);
    }
  }

  /** The nodes `0..n-1`, in order. */
  function Count(n: nat): (r: seq<nat>)
    ensures |r| == n
    ensures forall k :: 0 <= k < n ==> r[k] == k
  {
    if n == 0 then [] else Count(n - 1) + [n - 1]
  }

  /** The nodes a sequence mentions. */
  function Mentioned(s: seq<nat>): set<nat> {
    set x | x in s
  }

  lemma NodeSetSize(n: nat)
    ensures |Mentioned(Count(n))| == n
    ensures forall i :: i in Mentioned(Count(n)) <==> 0 <= i < n
  {
    MentionedSize(Count(n));
    forall i: nat | i < n ensures i in Mentioned(Count(n)) {
      assert Count(n)[i] == i;
    }
    forall i: nat | i in Mentioned(Count(n)) ensures i < n {
      var k :| 0 <= k < n && Count(n)[k] == i;
    }
  }

  /** A sequence mentions at most as many nodes as it has entries, and
      exactly as many when its entries differ. */
  lemma {:induction false} MentionedSize(s: seq<nat>)
    ensures |Mentioned(s)| <= |s|
    ensures (forall j, k :: 0 <= j < k < |s| ==> s[j] != s[k]) ==> |Mentioned(s)| == |s|
  {
    if s != [] {
      var init := s[..|s| - 1];
      MentionedSize(init);
      assert Mentioned(s) == Mentioned(init) + {s[|s| - 1]};
      if forall j, k :: 0 <= j < k < |s| ==> s[j] != s[k] {
        assert s[|s| - 1] !in Mentioned(init);
      }
    }
  }

  lemma SubsetSize(a: set<nat>, b: set<nat>)
    requires a <= b
    ensures |a| <= |b|
  {
    assert b == a + (b - a);
  }

  /** Fewer than `n` entries leave one of the nodes `0..n-1` out. */
  lemma Unmentioned(s: seq<nat>, n: nat) returns (i: nat)
    requires |s| < n
    ensures i < n && i !in s
  {
    var a, b := Mentioned(s), Mentioned(Count(n));
    MentionedSize(s);
    NodeSetSize(n);
    assert b == (b - a) + (b * a);
    SubsetSize(b * a, a);
    i :| i in b - a;
  }

  /** `n` different nodes below `n` are all of them. */
  lemma AllMentioned(s: seq<nat>, n: nat)
    requires |s| == n && forall k :: 0 <= k < |s| ==> s[k] < n
    requires forall j, k :: 0 <= j < k < |s| ==> s[j] != s[k]
    ensures forall i :: 0 <= i < n ==> i in s
  {
    var a, b := Mentioned(s), Mentioned(Count(n));
    MentionedSize(s);
    NodeSetSize(n);
    assert b == a + (b - a);
    assert b - a == {};
    forall i | 0 <= i < n ensures i in s {
      assert i in b;
    }
  }

  /** A cycle, as `findTopologicalOrder` detects it: a non-empty set of
      nodes each of which has a link entering it from the set. */
  ghost predicate Cyclic(links: seq<LinkData>, n: nat) {
    exists c: set<nat> :: CycleWitness(links, n, c)
  }

  ghost predicate CycleWitness(links: seq<LinkData>, n: nat, c: set<nat>) {
    c != {} && forall i :: i in c ==> i < n && EnteredFrom(links, i, c)
  }

  /** Some link enters `i` from a node of `c`. */
  ghost predicate EnteredFrom(links: seq<LinkData>, i: nat, c: set<nat>) {
    exists l :: 0 <= l < |links| && links[l].head == i && links[l].tail in c
  }

  /** Under a topological order every non-empty set of nodes has a member
      that no link enters from the set: the one with the least number. */
  lemma {:induction false} FirstInOrder(links: seq<LinkData>, order: seq<int>, topo: seq<nat>, n: nat,
                                        c: set<nat>, s: nat) returns (m: nat)
    requires TopologicalOrder(links, order, topo, n) && s in c && s < n
    ensures m in c && m < n
    ensures forall l :: 0 <= l < |links| && links[l].head == m ==> links[l].tail !in c
    decreases order[s]
  {
    if l :| 0 <= l < |links| && links[l].head == s && links[l].tail in c {
      m := FirstInOrder(links, order, topo, n, c, links[l].tail);
    } else {
      m := s;
    }
  }

  /** A network with a topological order has no cycle. */
  lemma OrderedIsAcyclic(links: seq<LinkData>, order: seq<int>, topo: seq<nat>, n: nat)
    requires TopologicalOrder(links, order, topo, n)
    ensures !Cyclic(links, n)
  {
    forall c: set<nat> ensures !CycleWitness(links, n, c) {
      if c != {} && forall i :: i in c ==> i < n {
        var s :| s in c;
        var m := FirstInOrder(links, order, topo, n, c, s);
        assert !EnteredFrom(links, m, c);
      }
    }
  }

  /** Every link into `i`, once: the reverse star `finalize` builds. */
  lemma {:induction false} EnteringAwaiting(links: seq<LinkData>, i: nat)
    ensures Awaiting(links, i, [], [], Entering(links, i))
  {
    if links != [] {
      var n := |links| - 1;
      EnteringAwaiting(links[..n], i);
      assert Entering(links, i) == Entering(links[..n], i) + (if links[n].head == i then [n] else []);
      forall l | 0 <= l < n ensures links[..n][l] == links[l] { }
    }
  }

  /** With no links every reverse star is empty. */
  lemma AwaitingNothing(links: seq<LinkData>, i: nat, numbered: seq<nat>, s: seq<int>)
    requires links == [] && Awaiting(links, i, numbered, [], s)
    ensures s == []
  {
    forall l ensures multiset(s)[l] == multiset{}[l] { }
    assert multiset(s) == multiset{};
  }

  /** The state of `findTopologicalOrder`, for a network with links, once
      the nodes of `topo` have been numbered in turn: they carry the numbers
      1, 2, ... and the placeholder star, every other node keeps its number
      and awaits its links from unnumbered nodes, and every link into a
      numbered node comes from a node numbered before it. */
  ghost predicate Numbering(links: seq<LinkData>, rs: seq<seq<int>>, order0: seq<int>, order: seq<int>,
                            stars: seq<seq<int>>, topo: seq<nat>) {
    |order| == |rs| && |stars| == |rs| && |order0| == |rs| && LinksWithin(links, |rs|)
    && (forall k :: 0 <= k < |topo| ==> topo[k] < |rs| && order[topo[k]] == k + 1)
    && (forall i :: 0 <= i < |rs| && i in topo ==> stars[i] == Placeholder(|links|))
    && (forall i :: 0 <= i < |rs| && i !in topo ==> order[i] == order0[i] && Awaiting(links, i, topo, [], stars[i]))
    && (forall l :: 0 <= l < |links| && links[l].head in topo ==>
          links[l].tail in topo && order[links[l].tail] < order[links[l].head])
    && (topo == [] ==> stars == rs)
  }

  /** When the least reverse star still holds a link, the unnumbered nodes
      form a cycle. */
  lemma CycleFound(links: seq<LinkData>, rs: seq<seq<int>>, order0: seq<int>, order: seq<int>,
                   stars: seq<seq<int>>, topo: seq<nat>, v: nat)
    requires Ordering(links, rs, order0, order, stars, topo)
    requires |topo| < |rs| && v < |rs| && |stars[v]| > 0
    requires forall i :: 0 <= i < |rs| ==> |stars[v]| <= |stars[i]|
    ensures Cyclic(links, |rs|)
  {
    var n := |rs|;
    NodeSetSize(n);
    var c := Mentioned(Count(n)) - Mentioned(topo);
    var m := Unmentioned(topo, n);
    assert m in c;
    forall i | i in c ensures i < n && EnteredFrom(links, i, c) {
      var l := stars[i][0];
      assert l in multiset(stars[i]);
      assert links[l].tail in c;
    }
    assert CycleWitness(links, n, c);
  }

  /** Numbering `v`, which no pending link enters, keeps the state. */
  lemma NumberNext(links: seq<LinkData>, rs: seq<seq<int>>, order0: seq<int>, order: seq<int>,
                   stars: seq<seq<int>>, topo: seq<nat>, v: nat, stars': seq<seq<int>>)
    requires |links| > 0 && Numbering(links, rs, order0, order, stars, topo)
    requires v < |rs| && v !in topo
    requires forall l :: 0 <= l < |links| && links[l].head == v ==> links[l].tail in topo
    requires |stars'| == |rs|
    requires stars'[v] == Placeholder(|links|)
    requires forall i :: 0 <= i < |rs| && i in topo ==> stars'[i] == stars[i]
    requires forall i :: 0 <= i < |rs| && i !in topo + [v] ==> Awaiting(links, i, topo + [v], [], stars'[i])
    ensures Numbering(links, rs, order0, order[v := |topo| + 1], stars', topo + [v])
  {
    var order' := order[v := |topo| + 1];
    forall l | 0 <= l < |links| && links[l].head in topo + [v]
      ensures links[l].tail in topo + [v] && order'[links[l].tail] < order'[links[l].head]
    {
      var t := links[l].tail;
      assert t in topo;
      var k :| 0 <= k < |topo| && topo[k] == t;
      assert order[t] == k + 1;
    }
  }

  /** Once every node is numbered the numbers are a topological order. */
  lemma NumberingComplete(links: seq<LinkData>, rs: seq<seq<int>>, order0: seq<int>, order: seq<int>,
                          stars: seq<seq<int>>, topo: seq<nat>)
    requires Numbering(links, rs, order0, order, stars, topo) && |topo| == |rs|
    ensures TopologicalOrder(links, order, topo, |rs|)
  {
    var n := |rs|;
    forall j, k | 0 <= j < k < n ensures topo[j] != topo[k] {
      assert order[topo[j]] != order[topo[k]];
    }
    AllMentioned(topo, n);
    forall i | 0 <= i < n ensures 1 <= order[i] <= n && topo[order[i] - 1] == i {
      var k :| 0 <= k < n && topo[k] == i;
    }
  }

  /** The final loops of `findTopologicalOrder`: every reverse star is
      emptied, then each link is appended to the star of its head. */
  method RebuildReverseStars(links: seq<LinkData>, n: nat) returns (rs: seq<seq<int>>)
    requires LinksWithin(links, n)
    ensures |rs| == n && forall i :: 0 <= i < n ==> rs[i] == Entering(links, i)
  {
    rs := seq(n, _ => []);
    var l := 0;
    while l < |links|
      invariant 0 <= l <= |links| && |rs| == n
      invariant forall i :: 0 <= i < n ==> rs[i] == Entering(links[..l], i)
    {
      var h := links[l].head;
      assert links[..l + 1][..l] == links[..l];
      rs := rs[h := rs[h] + [l]];
      l := l + 1;
    }
    assert links[..l] == links;
  }

  /** The loop state of `findTopologicalOrder` after numbering the nodes
      of `topo` in turn. */
  ghost predicate Ordering(links: seq<LinkData>, rs: seq<seq<int>>, order0: seq<int>, order: seq<int>,
                           stars: seq<seq<int>>, topo: seq<nat>) {
    |order| == |rs| && |stars| == |rs| && |order0| == |rs| && |topo| <= |rs|
    && (|links| > 0 ==> Numbering(links, rs, order0, order, stars, topo))
    && (|links| == 0 ==> (forall i :: 0 <= i < |rs| ==> stars[i] == [])
                         && order == if topo == [] then order0 else order0[0 := |topo|])
  }

  /** One round of `findTopologicalOrder`: the node with the fewest
      entering links is numbered `count + 1` and detached, unless a link
      still enters it, which shows a cycle. */
  method NumberStep(links: seq<LinkData>, fs: seq<seq<int>>, rs: seq<seq<int>>, order0: seq<int>, numLinks: int,
                    count: nat, order: seq<int>, stars: seq<seq<int>>, ghost topo: seq<nat>)
    returns (cycle: bool, order': seq<int>, stars': seq<seq<int>>, ghost topo': seq<nat>)
    requires Stars(links, fs, rs) && |order0| == |rs| && numLinks == |links|
    requires count == |topo| < |rs| && Ordering(links, rs, order0, order, stars, topo)
    ensures cycle ==> |links| > 0 && Cyclic(links, |rs|) && order' == order && stars' == stars && topo' == topo
    ensures !cycle ==> |topo'| == count + 1 && Ordering(links, rs, order0, order', stars', topo')
  {
    var pick := LeastEnteringNode(stars, numLinks);
    var short := ShortStar(links, rs, order0, order, stars, topo);
    var v := pick.value;
    if |stars[v]| > 0 {
      CycleFound(links, rs, order0, order, stars, topo, v);
      return true, order, stars, topo;
    }
    cycle := false;
    order' := order[v := count + 1];
    var placed := stars[v := Placeholder(numLinks)];
    ghost var numbered := if |links| > 0 then topo else [];
    StepReady(links, rs, order0, order, stars, topo, v, numbered);
    stars' := Detach(links, fs, v, placed, numbered);
    StepDone(links, rs, order0, order, stars, topo, v, numbered, stars');
    topo' := topo + [v];
  }

  /** Some reverse star is no longer than the number of links: a numbered
      node's placeholder, or, before any node is numbered, any star. */
  lemma ShortStar(links: seq<LinkData>, rs: seq<seq<int>>, order0: seq<int>, order: seq<int>,
                  stars: seq<seq<int>>, topo: seq<nat>) returns (i: nat)
    requires forall j :: 0 <= j < |rs| ==> rs[j] == Entering(links, j)
    requires |topo| < |rs| && Ordering(links, rs, order0, order, stars, topo)
    ensures i < |stars| && |stars[i]| <= |links|
  {
    if topo == [] || |links| == 0 {
      i := 0;
    } else {
      i := topo[0];
    }
  }

  /** The node picked with an empty reverse star is ready to be detached. */
  lemma StepReady(links: seq<LinkData>, rs: seq<seq<int>>, order0: seq<int>, order: seq<int>,
                  stars: seq<seq<int>>, topo: seq<nat>, v: nat, numbered: seq<nat>)
    requires Ordering(links, rs, order0, order, stars, topo)
    requires v < |rs| && |stars[v]| == 0 && numbered == if |links| > 0 then topo else []
    ensures DetachReady(links, stars[v := Placeholder(|links|)], v, numbered)
  {
    assert multiset(stars[v]) == multiset{};
    forall i | 0 <= i < |rs| && i != v && i !in numbered
      ensures Awaiting(links, i, numbered, [], stars[v := Placeholder(|links|)][i])
    {
      if |links| == 0 {
        assert stars[i] == [];
      }
    }
  }

  /** After the detaching, the picked node counts as numbered. */
  lemma StepDone(links: seq<LinkData>, rs: seq<seq<int>>, order0: seq<int>, order: seq<int>,
                 stars: seq<seq<int>>, topo: seq<nat>, v: nat, numbered: seq<nat>, stars': seq<seq<int>>)
    requires |topo| < |rs| && Ordering(links, rs, order0, order, stars, topo)
    requires v < |rs| && |stars[v]| == 0 && numbered == if |links| > 0 then topo else []
    requires forall i :: 0 <= i < v ==> |stars[v]| < |stars[i]|
    requires DetachReady(links, stars[v := Placeholder(|links|)], v, numbered)
    requires DetachDone(links, stars[v := Placeholder(|links|)], stars', v, numbered)
    ensures Ordering(links, rs, order0, order[v := |topo| + 1], stars', topo + [v])
  {
    if |links| > 0 {
      NumberNext(links, rs, order0, order, stars, topo, v, stars');
    } else {
      assert stars[0] == [];
      assert v == 0;
      forall i | 0 <= i < |rs| && i != v ensures stars'[i] == [] {
        AwaitingNothing(links, i, [v], stars'[i]);
      }
    }
  }

  /** `findTopologicalOrder`. On a network with links it numbers the nodes
      1..n so that every link leads to a higher number and restores the
      reverse stars, or it finds a cycle and raises, leaving the numbers
      and placeholder stars set so far. On a network without links every
      reverse star and every placeholder is empty, so the first node is
      picked on every round and ends up numbered n; the other nodes keep
      whatever number they had. */
  method TopologicalOrdering(links: seq<LinkData>, fs: seq<seq<int>>, rs: seq<seq<int>>, order0: seq<int>,
                             numLinks: int)
    returns (r: Result<()>, order: seq<int>, stars: seq<seq<int>>, ghost topo: seq<nat>)
    requires Stars(links, fs, rs) && |order0| == |rs| && numLinks == |links|
    ensures |order| == |rs| && |stars| == |rs|
    ensures r.Ok? ==> stars == rs
    ensures r.Ok? && |links| > 0 ==> TopologicalOrder(links, order, topo, |rs|)
    ensures r.Err? ==> r.error == BadNetworkOperation && |links| > 0 && Cyclic(links, |rs|)
    ensures r.Err? ==> Numbering(links, rs, order0, order, stars, topo)
    ensures |links| == 0 ==> r.Ok? && order == if |rs| == 0 then order0 else order0[0 := |rs|]
  {
    var n := |rs|;
    var count := 0;
    order, stars, topo := order0, rs, [];
    forall i | 0 <= i < n ensures Awaiting(links, i, [], [], rs[i]) {
      EnteringAwaiting(links, i);
    }
    while count < n
      invariant count == |topo| && Ordering(links, rs, order0, order, stars, topo)
      decreases n - count
    {
      var cycle;
      cycle, order, stars, topo := NumberStep(links, fs, rs, order0, numLinks, count, order, stars, topo);
      if cycle {
        return Err(BadNetworkOperation), order, stars, topo;
      }
      count := count + 1;
    }
    if |links| > 0 {
      NumberingComplete(links, rs, order0, order, stars, topo);
    }
    stars := RebuildReverseStars(links, n);
    r := Ok(());
  }
}
