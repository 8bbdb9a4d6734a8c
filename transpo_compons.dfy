/** Links and paths of the transport network
    (infrarisk/src/network_sim_models/transportation/transpo_compons.py and
    the older copies dreaminsg_integrated_model/network_sim_models/
    transportation/link.py and path.py, which compute the same costs).

    A link's cost is the BPR travel time plus its toll and distance terms.
    The power in the BPR term is a parameter (`pow`): only its sign and its
    monotonicity matter to what is proved here. Divisions by zero raise
    ZeroDivisionError as Python's do, and an attribute the constructor never
    sets (`flow`, `cost`) is `None` until it is assigned. */
module TranspoCompons {
  import opened Wrappers

  /** The network-wide weights of the toll and distance terms
      (`network.tollFactor`, `network.distanceFactor`). */
  datatype CostFactors = CostFactors(tollFactor: real, distanceFactor: real)

  /** The part of a link's cost that does not depend on its flow. */
  function BaseCost(fft: real, toll: real, length: real, f: CostFactors): real {
    fft + toll * f.tollFactor + length * f.distanceFactor
  }

  /** A power function that is non-negative on positive bases. */
  ghost predicate NonNegativePow(pow: (real, real) -> real) {
    forall x, y :: x > 0.0 ==> pow(x, y) >= 0.0
  }

  /** A power function that grows with its positive base. */
  ghost predicate MonotonePow(pow: (real, real) -> real) {
    forall x, x', y :: 0.0 < x <= x' ==> pow(x, y) <= pow(x', y)
  }

  /** `calculateCost`: the base cost when the volume-to-capacity ratio is
      not positive, the BPR travel time plus tolls and distance otherwise. */
  function BprCost(flow: real, capacity: real, fft: real, alpha: real, beta: real, toll: real, length: real,
                   f: CostFactors, pow: (real, real) -> real): (r: Result<real>)
    ensures r.Err? <==> capacity == 0.0
    ensures r.Err? ==> r.error == ZeroDivisionError
    ensures r.Ok? && flow / capacity <= 0.0 ==> r.value == BaseCost(fft, toll, length, f)
  {
    if capacity == 0.0 then Err(ZeroDivisionError)
    else
      var vcRatio := flow / capacity;
      if vcRatio <= 0.0 then Ok(fft + toll * f.tollFactor + length * f.distanceFactor)
      else
        var travelTime := fft * (1.0 + alpha * pow(vcRatio, beta));
        Ok(travelTime + toll * f.tollFactor + length * f.distanceFactor)
  }

  lemma MulMonotone(a: real, x: real, y: real)
    requires a >= 0.0 && x <= y
    ensures a * x <= a * y
  {
    assert a * y - a * x == a * (y - x);
  }

  /** With non-negative free-flow time and `alpha`, congestion never makes
      a link cheaper than its base cost. */
  lemma BprAboveBase(flow: real, capacity: real, fft: real, alpha: real, beta: real, toll: real, length: real,
                     f: CostFactors, pow: (real, real) -> real)
    requires capacity != 0.0 && fft >= 0.0 && alpha >= 0.0 && NonNegativePow(pow)
    ensures BprCost(flow, capacity, fft, alpha, beta, toll, length, f, pow).value >= BaseCost(fft, toll, length, f)
  {
    var vc := flow / capacity;
    if vc > 0.0 {
      var p := pow(vc, beta);
      MulMonotone(alpha, 0.0, p);
      MulMonotone(fft, 1.0, 1.0 + alpha * p);
    }
  }

  /** On a link of positive capacity the cost grows with the flow, when the
      power grows with its base. */
  lemma BprMonotone(flow: real, flow': real, capacity: real, fft: real, alpha: real, beta: real,
                    toll: real, length: real, f: CostFactors, pow: (real, real) -> real)
    requires capacity > 0.0 && flow <= flow' && fft >= 0.0 && alpha >= 0.0
    requires NonNegativePow(pow) && MonotonePow(pow)
    ensures BprCost(flow, capacity, fft, alpha, beta, toll, length, f, pow).value
         <= BprCost(flow', capacity, fft, alpha, beta, toll, length, f, pow).value
  {
    var vc, vc' := flow / capacity, flow' / capacity;
    assert vc <= vc' by {
      assert flow' / capacity - flow / capacity == (flow' - flow) / capacity;
    }
    if vc <= 0.0 {
      BprAboveBase(flow', capacity, fft, alpha, beta, toll, length, f, pow);
    } else {
      var p, p' := pow(vc, beta), pow(vc', beta);
      MulMonotone(alpha, p, p');
      MulMonotone(fft, 1.0 + alpha * p, 1.0 + alpha * p');
    }
  }

  /** `calculateBeckmannComponent`: the integral of the link's cost from 0
      to its flow, 0 when the ratio is not positive. */
  function Beckmann(flow: real, capacity: real, fft: real, alpha: real, beta: real, toll: real, length: real,
                    f: CostFactors, pow: (real, real) -> real): (r: Result<real>)
    ensures capacity == 0.0 ==> r == Err(ZeroDivisionError)
    ensures capacity != 0.0 && flow / capacity <= 0.0 ==> r == Ok(0.0)
    ensures capacity != 0.0 && flow / capacity > 0.0 && beta + 1.0 == 0.0 ==> r == Err(ZeroDivisionError)
  {
    if capacity == 0.0 then Err(ZeroDivisionError)
    else
      var vcRatio := flow / capacity;
      if vcRatio <= 0.0 then Ok(0.0)
      else if beta + 1.0 == 0.0 then Err(ZeroDivisionError)
      else
        Ok(flow * (toll * f.tollFactor + length * f.distanceFactor
                   + fft * (1.0 + alpha / (beta + 1.0) * pow(vcRatio, beta))))
  }

  /** The integral under the cost curve never exceeds the rectangle of flow
      times cost: for `beta >= 0` the integrated BPR term is the cost's own
      term divided by `beta + 1`. */
  lemma BeckmannBelowFlowTimesCost(flow: real, capacity: real, fft: real, alpha: real, beta: real,
                                   toll: real, length: real, f: CostFactors, pow: (real, real) -> real)
    requires capacity > 0.0 && flow >= 0.0 && fft >= 0.0 && alpha >= 0.0 && beta >= 0.0
    requires NonNegativePow(pow)
    ensures Beckmann(flow, capacity, fft, alpha, beta, toll, length, f, pow).Ok?
    ensures Beckmann(flow, capacity, fft, alpha, beta, toll, length, f, pow).value
         <= flow * BprCost(flow, capacity, fft, alpha, beta, toll, length, f, pow).value
  {
    var vc := flow / capacity;
    if vc > 0.0 {
      var p := pow(vc, beta);
      var a := alpha / (beta + 1.0);
      assert a <= alpha by {
        assert a * (beta + 1.0) == alpha;
        assert a >= 0.0;
        MulMonotone(a, 0.0, beta);
        assert alpha - a == a * beta;
      }
      MulMonotone(p, a, alpha);
      assert a * p <= alpha * p;
      MulMonotone(fft, 1.0 + a * p, 1.0 + alpha * p);
      var rest := toll * f.tollFactor + length * f.distanceFactor;
      MulMonotone(flow, rest + fft * (1.0 + a * p), fft * (1.0 + alpha * p) + rest);
    } else {
      assert flow == 0.0 by {
        assert flow / capacity >= 0.0;
      }
    }
  }

  /** The key that sorts links in forward-star order. */
  function SortKey(tail: int, head: int, numLinks: int): int {
    tail * numLinks + head
  }

  /** When every head is a number below `numLinks`, the key orders links by
      tail and then by head, so two links share a key only when they share
      both ends. */
  lemma SortKeyOrder(tail: int, head: int, tail': int, head': int, numLinks: int)
    requires 0 <= head < numLinks && 0 <= head' < numLinks
    ensures SortKey(tail, head, numLinks) < SortKey(tail', head', numLinks)
        <==> tail < tail' || (tail == tail' && head < head')
  {
    if tail < tail' {
      SmallerTailFirst(tail, head, tail', head', numLinks);
    } else if tail' < tail {
      SmallerTailFirst(tail', head', tail, head, numLinks);
    }
  }

  lemma SmallerTailFirst(tail: int, head: int, tail': int, head': int, numLinks: int)
    requires 0 <= head < numLinks && 0 <= head' < numLinks && tail < tail'
    ensures SortKey(tail, head, numLinks) < SortKey(tail', head', numLinks)
  {
    var k := tail' - tail;
    assert tail' * numLinks == tail * numLinks + k * numLinks;
    assert k * numLinks >= numLinks by {
      assert k * numLinks == (k - 1) * numLinks + numLinks;
      assert (k - 1) * numLinks >= 0;
    }
  }

  class Link {
    const tail: int
    const head: int
    const capacity: real
    const length: real
    /** Written by the recovery code when a road is closed or reopened. */
    var freeFlowTime: real
    const fftBase: real
    const alpha: real
    const beta: real
    const speedLimit: real
    const toll: real
    const linkType: int
    const sortKey: int
    /** Set by the assignment code; `None` until then. */
    var flow: Option<real>
    /** Set by `updateCost`; `None` until then. */
    var cost: Option<real>

    constructor (tail: int, head: int, numLinks: int, capacity: real, length: real, freeFlowTime: real,
                 fftBase: real, alpha: real, beta: real, speedLimit: real, toll: real, linkType: int)
      ensures this.tail == tail && this.head == head && this.capacity == capacity && this.length == length
      ensures this.freeFlowTime == freeFlowTime && this.fftBase == fftBase
      ensures this.alpha == alpha && this.beta == beta && this.speedLimit == speedLimit
      ensures this.toll == toll && this.linkType == linkType
      ensures sortKey == SortKey(tail, head, numLinks)
      ensures flow.None? && cost.None?
    {
      this.tail := tail;
      this.head := head;
      this.capacity := capacity;
      this.length := length;
      this.freeFlowTime := freeFlowTime;
      this.fftBase := fftBase;
      this.alpha := alpha;
      this.beta := beta;
      this.speedLimit := speedLimit;
      this.toll := toll;
      this.linkType := linkType;
      sortKey := tail * numLinks + head;
      flow := None;
      cost := None;
    }

    /** `calculateCost`, which reads the link's flow. */
    function CalculateCost(f: CostFactors, pow: (real, real) -> real): (r: Result<real>)
      reads this
      ensures flow.None? ==> r == Err(AttributeError)
      ensures flow.Some? && capacity != 0.0 ==> r.Ok?
    {
      if flow.None? then Err(AttributeError)
      else BprCost(flow.value, capacity, freeFlowTime, alpha, beta, toll, length, f, pow)
    }

    /** `calculateBeckmannComponent`. */
    function BeckmannComponent(f: CostFactors, pow: (real, real) -> real): (r: Result<real>)
      reads this
      ensures flow.None? ==> r == Err(AttributeError)
      ensures flow.Some? && capacity > 0.0 && flow.value <= 0.0 ==> r == Ok(0.0)
    {
      if flow.None? then Err(AttributeError)
      else
        assert capacity > 0.0 && flow.value <= 0.0 ==> flow.value / capacity <= 0.0;
        Beckmann(flow.value, capacity, freeFlowTime, alpha, beta, toll, length, f, pow)
    }

    /** `updateCost`: the stored cost becomes the computed one; when the
        computation raises, nothing is stored. */
    method UpdateCost(f: CostFactors, pow: (real, real) -> real) returns (err: Option<Exception>)
      modifies this`cost
      ensures CalculateCost(f, pow).Ok? ==> cost == Some(CalculateCost(f, pow).value) && err.None?
      ensures CalculateCost(f, pow).Err? ==> cost == old(cost) && err == Some(CalculateCost(f, pow).error)
    {
      var c := CalculateCost(f, pow);
      if c.Err? {
        return Some(c.error);
      }
      cost := Some(c.value);
      err := None;
    }
  }

  /** The cost `Path.calculateCost` adds up: the stored cost of each link
      of the path in turn. A link id missing from the network raises
      KeyError; a link whose cost was never stored raises AttributeError. */
  function PathCost(ids: seq<string>, links: map<string, Link>): (r: Result<real>)
    reads links.Values
    ensures r.Ok? <==> forall ij :: ij in ids ==> ij in links && links[ij].cost.Some?
    ensures r.Err? ==> r.error == KeyError || r.error == AttributeError
  {
    if ids == [] then Ok(0.0)
    else
      match PathCost(ids[..|ids| - 1], links)
      case Err(e) => Err(e)
      case Ok(sum) =>
        var ij := ids[|ids| - 1];
        if ij !in links then Err(KeyError)
        else if links[ij].cost.None? then Err(AttributeError)
        else Ok(sum + links[ij].cost.value)
  }

  /** Splitting a path splits its cost. */
  lemma {:induction false} PathCostAppend(a: seq<string>, b: seq<string>, links: map<string, Link>)
    requires PathCost(a, links).Ok? && PathCost(b, links).Ok?
    ensures PathCost(a + b, links) == Ok(PathCost(a, links).value + PathCost(b, links).value)
    decreases |b|
  {
    if b == [] {
      assert a + b == a;
    } else {
      var init := b[..|b| - 1];
      assert (a + b)[..|a + b| - 1] == a + init;
      assert PathCost(init, links).Ok? by {
        assert forall ij :: ij in init ==> ij in b;
      }
      PathCostAppend(a, init, links);
    }
  }

  /** A path over links of non-negative cost has a non-negative cost. */
  lemma {:induction false} PathCostNonNegative(ids: seq<string>, links: map<string, Link>)
    requires PathCost(ids, links).Ok?
    requires forall ij :: ij in ids ==> links[ij].cost.value >= 0.0
    ensures PathCost(ids, links).value >= 0.0
  {
    if ids != [] {
      var init := ids[..|ids| - 1];
      assert forall ij :: ij in init ==> ij in ids;
      PathCostNonNegative(init, links);
    }
  }

  class Path {
    const links: seq<string>
    var flow: real
    var cost: real

    constructor (links: seq<string>, flow: real, cost: real)
      ensures this.links == links && this.flow == flow && this.cost == cost
    {
      this.links := links;
      this.flow := flow;
      this.cost := cost;
    }

    /** `calculateCost`: the loop over the path's links. */
    method CalculateCost(network: map<string, Link>) returns (r: Result<real>)
      ensures r == PathCost(links, network)
    {
      var sum := 0.0;
      var i := 0;
      while i < |links|
        invariant 0 <= i <= |links|
        invariant PathCost(links[..i], network) == Ok(sum)
      {
        assert links[..i + 1][..i] == links[..i];
        var ij := links[i];
        if ij !in network {
          PathCostStops(links, i + 1, network);
          return Err(KeyError);
        }
        if network[ij].cost.None? {
          PathCostStops(links, i + 1, network);
          return Err(AttributeError);
        }
        sum := sum + network[ij].cost.value;
        i := i + 1;
      }
      assert links[..i] == links;
      r := Ok(sum);
    }

    /** `updateCost`. */
    method UpdateCost(network: map<string, Link>) returns (err: Option<Exception>)
      modifies this`cost
      ensures PathCost(links, network).Ok? ==> cost == PathCost(links, network).value && err.None?
      ensures PathCost(links, network).Err? ==> cost == old(cost) && err == Some(PathCost(links, network).error)
    {
      var c := CalculateCost(network);
      if c.Err? {
        return Some(c.error);
      }
      cost := c.value;
      err := None;
    }
  }

  /** Once the sum has raised, the rest of the path changes nothing. */
  lemma {:induction false} PathCostStops(ids: seq<string>, i: nat, links: map<string, Link>)
    requires 0 < i <= |ids|
    requires PathCost(ids[..i], links).Err?
    ensures PathCost(ids, links) == PathCost(ids[..i], links)
    decreases |ids| - i
  {
    if i == |ids| {
      assert ids[..i] == ids;
    } else {
      assert ids[..i + 1][..i] == ids[..i];
      PathCostStops(ids, i + 1, links);
    }
  }

  /** `Path(links, network, flow)`: the constructor stores the summed cost
      of the links; when the sum raises, no path is made. The flow
      defaults to 0. */
  method NewPath(ids: seq<string>, network: map<string, Link>, flow: real := 0.0) returns (r: Result<Path>)
    ensures r.Ok? <==> PathCost(ids, network).Ok?
    ensures r.Err? ==> r.error == PathCost(ids, network).error
    ensures r.Ok? ==> fresh(r.value) && r.value.links == ids && r.value.flow == flow
    ensures r.Ok? ==> r.value.cost == PathCost(ids, network).value
  {
    var c := PathCost(ids, network);
    if c.Err? {
      return Err(c.error);
    }
    var p := new Path(ids, flow, 0.0);
    var err := p.UpdateCost(network);
    r := Ok(p);
  }
}
