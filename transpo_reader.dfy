/** The TNTP file readers and the consistency checks of the transport
    network class (infrarisk/src/network_sim_models/transportation/network.py):
    the body loops of `readNetworkFile` and `readDemandFile`, `validate`,
    `finalize` and `formAdjacencyMatrix`.

    Python dictionaries keep insertion order, and `validate` and `finalize`
    visit links and OD pairs in that order, so each dictionary is a map
    together with the sequence of its keys. Parsing a number (`float(...)`)
    is the parameter `toFloat`, `None` standing for the ValueError it raises.
    A raising call leaves no state behind in the model: the readers raise
    out of the network's constructor, so a half-read network is never used. */
module TranspoReader {
  import opened Wrappers
  import opened Text
  import opened Lists
  import TU = TranspoUtils
  import TC = TranspoCompons

  // ---------------------------------------------------------------------
  // Ordered dictionaries

  /** `ids` lists the keys of `m` once each, in insertion order. */
  ghost predicate Ordered<V>(ids: seq<string>, m: map<string, V>) {
    Distinct(ids) && forall k :: k in m <==> k in ids
  }

  /** `d[k] = v` on an ordered dictionary: a new key goes last, an old one
      keeps its place. */
  function Put<V>(ids: seq<string>, m: map<string, V>, k: string, v: V): (r: (seq<string>, map<string, V>))
    ensures Ordered(ids, m) ==> Ordered(r.0, r.1)
    ensures r.1 == m[k := v]
    ensures k !in m ==> r.0 == ids + [k]
  {
    if k in m then (ids, m[k := v]) else (ids + [k], m[k := v])
  }

  // ---------------------------------------------------------------------
  // One line of a data section

  /** A line after `strip()`, the cut at the first `~` and the blank test:
      skipped, or its whitespace-separated fields (`line.split()`). */
  datatype LineKind = Skip | Data(fields: seq<string>)

  function Classify(line: string): (r: LineKind)
    ensures r.Skip? <==> Strip(line) == [] || Strip(line)[0] == '~'
    ensures r.Data? ==> r.fields != []
  {
    var s := Strip(line);
    var l := TU.Uncommented(s);
    if |l| == 0 then Skip
    else
      assert l[0] == s[0];
      Data(Tokens(l))
  }

  /** A line that is not skipped has at least one field. */
  predicate FieldsPresent(kinds: seq<LineKind>) {
    forall i :: 0 <= i < |kinds| && kinds[i].Data? ==> kinds[i].fields != []
  }

  /** Every line of a section, classified. */
  function Kinds(lines: seq<string>): (r: seq<LineKind>)
    ensures |r| == |lines| && FieldsPresent(r)
  {
    if lines == [] then [] else [Classify(lines[0])] + Kinds(lines[1..])
  }

  lemma {:induction false} KindAt(lines: seq<string>, i: nat)
    requires i < |lines|
    ensures Kinds(lines)[i] == Classify(lines[i])
  {
    if i > 0 {
      KindAt(lines[1..], i - 1);
    }
  }

  /** The number of lines that are not skipped. */
  function DataCount(kinds: seq<LineKind>): nat {
    if kinds == [] then 0 else (if kinds[0].Data? then 1 else 0) + DataCount(kinds[1..])
  }

  // ---------------------------------------------------------------------
  // The network file

  datatype LinkRecord = LinkRecord(tail: string, head: string, capacity: real, length: real,
                                   freeFlowTime: real, alpha: real, beta: real, speedLimit: real,
                                   toll: real, linkType: string)

  /** What reading the network file builds: the link dictionary and the
      node dictionary, each node reduced to whether it is a zone. */
  datatype Graph = Graph(linkIds: seq<string>, links: map<string, LinkRecord>,
                         nodeIds: seq<string>, zones: map<string, bool>)

  ghost predicate WellKept(g: Graph) {
    Ordered(g.linkIds, g.links) && Ordered(g.nodeIds, g.zones)
  }

  /** Every link ends at known nodes. */
  predicate Closed(g: Graph) {
    forall id :: id in g.links ==> g.links[id].tail in g.zones && g.links[id].head in g.zones
  }

  /** A link line has at least eleven fields and the eleventh is `;`. */
  predicate LinkLineFormatted(data: seq<string>) {
    |data| >= 11 && data[10] == ";"
  }

  /** `float` applied to each field in turn. */
  function Floats(ts: seq<string>, toFloat: string -> Option<real>): (r: Result<seq<real>>)
    ensures r.Ok? <==> forall i :: 0 <= i < |ts| ==> toFloat(ts[i]).Some?
    ensures r.Err? ==> r.error == ValueError
    ensures r.Ok? ==> |r.value| == |ts| && forall i :: 0 <= i < |ts| ==> toFloat(ts[i]) == Some(r.value[i])
  {
    if ts == [] then Ok([])
    else match toFloat(ts[0])
      case None => Err(ValueError)
      case Some(x) =>
        match Floats(ts[1..], toFloat)
        case Err(e) => Err(e)
        case Ok(xs) =>
          assert forall i :: 1 <= i < |ts| ==> ts[i] == ts[1..][i - 1];
          Ok([x] + xs)
  }

  /** The link a line describes: tail, head, then capacity, length,
      free-flow time, alpha, beta, speed limit and toll as numbers, then the
      link type. */
  function LinkOfFields(data: seq<string>, toFloat: string -> Option<real>): (r: Result<LinkRecord>)
    ensures !LinkLineFormatted(data) ==> r == Err(BadFileFormat)
    ensures r.Err? ==> r.error == BadFileFormat || r.error == ValueError
    ensures r.Ok? ==> LinkLineFormatted(data) && r.value.tail == data[0] && r.value.head == data[1]
                      && toFloat(data[2]) == Some(r.value.capacity) && toFloat(data[4]) == Some(r.value.freeFlowTime)
                      && toFloat(data[8]) == Some(r.value.toll) && r.value.linkType == data[9]
  {
    if !LinkLineFormatted(data) then Err(BadFileFormat)
    else match Floats(data[2..9], toFloat)
      case Err(e) => Err(e)
      case Ok(v) =>
        assert data[2..9][0] == data[2] && data[2..9][2] == data[4] && data[2..9][6] == data[8];
        Ok(LinkRecord(data[0], data[1], v[0], v[1], v[2], v[3], v[4], v[5], v[6], data[9]))
  }

  /** Whether a new node is a zone: the first digit run of its name, read
      as a number, is at most the number of zones. A name without digits
      raises IndexError; an unknown number of zones makes the comparison
      with `None` raise TypeError. */
  function ZoneFlag(name: string, numZones: Option<int>): (r: Result<bool>)
    ensures r.Err? ==> r.error == IndexError || r.error == TypeError
    ensures numZones.None? ==> r.Err?
    ensures r.Ok? <==> numZones.Some? && exists i :: 0 <= i < |name| && IsDigit(name[i])
  {
    match FirstDigitRun(name)
    case Err(e) => Err(e)
    case Ok(d) => if numZones.None? then Err(TypeError) else Ok(ParseDigits(d) <= numZones.value)
  }

  lemma {:induction false} DigitsOfNumber(s: string)
    requires forall i :: 0 <= i < |s| ==> IsDigit(s[i])
    ensures Digits(s) == s
  {
    if s != [] {
      DigitsOfNumber(s[1..]);
    }
  }

  /** In a TNTP file nodes are numbered, and node `n` is a zone exactly
      when `n` is at most the number of zones. */
  lemma NumberedNodeZone(n: nat, numZones: int)
    ensures ZoneFlag(NatToString(n), Some(numZones)) == Ok(n <= numZones)
  {
    var s := NatToString(n);
    DigitsOfNumber(s);
    assert FirstDigitRun(s) == Ok(s);
    ParseNatToString(n);
  }

  /** Creates the node if it is not there yet. */
  function AddNode(g: Graph, name: string, numZones: Option<int>): (r: Result<Graph>)
    requires WellKept(g)
    ensures r.Ok? ==> WellKept(r.value) && r.value.linkIds == g.linkIds && r.value.links == g.links
    ensures r.Ok? ==> name in r.value.zones && forall n :: n in g.zones ==> n in r.value.zones && r.value.zones[n] == g.zones[n]
    ensures name in g.zones ==> r == Ok(g)
  {
    if name in g.zones then Ok(g)
    else match ZoneFlag(name, numZones)
      case Err(e) => Err(e)
      case Ok(z) =>
        var (ids, m) := Put(g.nodeIds, g.zones, name, z);
        Ok(g.(nodeIds := ids, zones := m))
  }

  /** `"T_L{}".format(linkID)`. */
  function LinkName(k: nat): string {
    "T_L" + NatToString(k)
  }

  /** The `j`-th id is `T_L<first + j>`. */
  predicate NamedFrom(ids: seq<string>, first: nat) {
    forall j :: 0 <= j < |ids| ==> ids[j] == LinkName(first + j)
  }

  /** One link line: the link under the name `T_L<k>`, then its tail and
      its head as nodes. */
  function AddLinkLine(g: Graph, data: seq<string>, k: nat, numZones: Option<int>,
                       toFloat: string -> Option<real>): (r: Result<Graph>)
    requires WellKept(g)
    ensures r.Ok? ==> WellKept(r.value) && LinkLineFormatted(data)
    ensures r.Ok? ==> (Closed(g) ==> Closed(r.value))
    ensures r.Ok? ==> LinkName(k) in r.value.links && r.value.links == g.links[LinkName(k) := r.value.links[LinkName(k)]]
    ensures r.Ok? && LinkName(k) !in g.links ==> r.value.linkIds == g.linkIds + [LinkName(k)]
  {
    match LinkOfFields(data, toFloat)
    case Err(e) => Err(e)
    case Ok(l) =>
      var (ids, m) := Put(g.linkIds, g.links, LinkName(k), l);
      var g1 := g.(linkIds := ids, links := m);
      match AddNode(g1, l.tail, numZones)
      case Err(e) => Err(e)
      case Ok(g2) => AddNode(g2, l.head, numZones)
  }

  /** The link loop of `readNetworkFile` over the lines after the metadata,
      the next link being number `k`. */
  function ReadLinks(kinds: seq<LineKind>, k: nat, g: Graph, numZones: Option<int>,
                     toFloat: string -> Option<real>): (r: Result<Graph>)
    requires WellKept(g)
    decreases |kinds|
  {
    if kinds == [] then Ok(g)
    else match kinds[0]
      case Skip => ReadLinks(kinds[1..], k, g, numZones, toFloat)
      case Data(data) =>
        match AddLinkLine(g, data, k, numZones, toFloat)
        case Err(e) => Err(e)
        case Ok(g') => ReadLinks(kinds[1..], k + 1, g', numZones, toFloat)
  }

  method ReadLinkLines(kinds: seq<LineKind>, g0: Graph, numZones: Option<int>,
                       toFloat: string -> Option<real>) returns (r: Result<Graph>)
    requires WellKept(g0)
    ensures r == ReadLinks(kinds, 1, g0, numZones, toFloat)
  {
    var g := g0;
    var linkId: nat := 1;
    var i := 0;
    while i < |kinds|
      invariant 0 <= i <= |kinds| && WellKept(g)
      invariant ReadLinks(kinds[i..], linkId, g, numZones, toFloat) == ReadLinks(kinds, 1, g0, numZones, toFloat)
    {
      var step := ReadLinkLine(kinds, i, linkId, g, numZones, toFloat);
      if step.Err? {
        return Err(step.error);
      }
      g, linkId := step.value.0, step.value.1;
      i := i + 1;
    }
    return Ok(g);
  }

  /** The body of the link loop for line `i`: the graph and the next link
      number after it, or the exception it raises. */
  method ReadLinkLine(kinds: seq<LineKind>, i: nat, k: nat, g: Graph, numZones: Option<int>,
                      toFloat: string -> Option<real>) returns (r: Result<(Graph, nat)>)
    requires i < |kinds| && WellKept(g)
    ensures r.Err? ==> ReadLinks(kinds[i..], k, g, numZones, toFloat) == Err(r.error)
    ensures r.Ok? ==> WellKept(r.value.0)
    ensures r.Ok? ==>
      ReadLinks(kinds[i..], k, g, numZones, toFloat) == ReadLinks(kinds[i + 1..], r.value.1, r.value.0, numZones, toFloat)
  {
    ReadLinksAt(kinds, i, k, g, numZones, toFloat);
    match kinds[i] {
      case Skip =>
        r := Ok((g, k));
      case Data(data) =>
        var step := AddLinkLine(g, data, k, numZones, toFloat);
        if step.Err? {
          r := Err(step.error);
        } else {
          r := Ok((step.value, k + 1));
        }
    }
  }

  /** One line of the link loop. */
  lemma ReadLinksAt(kinds: seq<LineKind>, i: nat, k: nat, g: Graph, numZones: Option<int>,
                    toFloat: string -> Option<real>)
    requires i < |kinds| && WellKept(g)
    ensures kinds[i].Skip? ==>
      ReadLinks(kinds[i..], k, g, numZones, toFloat) == ReadLinks(kinds[i + 1..], k, g, numZones, toFloat)
    ensures kinds[i].Data? ==>
      ReadLinks(kinds[i..], k, g, numZones, toFloat) ==
        match AddLinkLine(g, kinds[i].fields, k, numZones, toFloat)
        case Err(e) => Err(e)
        case Ok(g') => ReadLinks(kinds[i + 1..], k + 1, g', numZones, toFloat)
  {
    assert kinds[i..][1..] == kinds[i + 1..];
  }

  /** Links are named `T_L1`, `T_L2`, … in file order, one per line that is
      not skipped. */
  lemma {:induction false} LinksNamedInOrder(kinds: seq<LineKind>, k: nat, g: Graph, numZones: Option<int>,
                                             toFloat: string -> Option<real>)
    requires k == |g.linkIds| + 1 && WellKept(g) && NamedFrom(g.linkIds, 1)
    requires ReadLinks(kinds, k, g, numZones, toFloat).Ok?
    ensures var ids := ReadLinks(kinds, k, g, numZones, toFloat).value.linkIds;
            |ids| == k - 1 + DataCount(kinds) && NamedFrom(ids, 1)
    decreases |kinds|
  {
    if kinds != [] {
      var rest := kinds[1..];
      if kinds[0].Skip? {
        assert ReadLinks(kinds, k, g, numZones, toFloat) == ReadLinks(rest, k, g, numZones, toFloat);
        LinksNamedInOrder(rest, k, g, numZones, toFloat);
      } else {
        NamedStep(g, kinds[0].fields, k, numZones, toFloat);
        var g' := AddLinkLine(g, kinds[0].fields, k, numZones, toFloat).value;
        assert ReadLinks(kinds, k, g, numZones, toFloat) == ReadLinks(rest, k + 1, g', numZones, toFloat);
        LinksNamedInOrder(rest, k + 1, g', numZones, toFloat);
      }
    }
  }

  lemma NamedStep(g: Graph, data: seq<string>, k: nat, numZones: Option<int>, toFloat: string -> Option<real>)
    requires k == |g.linkIds| + 1 && WellKept(g) && NamedFrom(g.linkIds, 1)
    requires AddLinkLine(g, data, k, numZones, toFloat).Ok?
    ensures var g' := AddLinkLine(g, data, k, numZones, toFloat).value;
            WellKept(g') && |g'.linkIds| == k && NamedFrom(g'.linkIds, 1)
  {
    if LinkName(k) in g.links {
      var j :| 0 <= j < |g.linkIds| && g.linkIds[j] == LinkName(k);
      PrefixedNumberInjective("T_L", 1 + j, k);
    }
  }

  /** Reading keeps every link attached to known nodes. */
  lemma {:induction false} ReadLinksClosed(kinds: seq<LineKind>, k: nat, g: Graph, numZones: Option<int>,
                                           toFloat: string -> Option<real>)
    requires WellKept(g)
    requires ReadLinks(kinds, k, g, numZones, toFloat).Ok?
    ensures WellKept(ReadLinks(kinds, k, g, numZones, toFloat).value)
    ensures Closed(g) ==> Closed(ReadLinks(kinds, k, g, numZones, toFloat).value)
    decreases |kinds|
  {
    if kinds != [] {
      match kinds[0]
      case Skip =>
        ReadLinksClosed(kinds[1..], k, g, numZones, toFloat);
      case Data(data) =>
        ReadLinksClosed(kinds[1..], k + 1, AddLinkLine(g, data, k, numZones, toFloat).value, numZones, toFloat);
    }
  }

  /** A file that reads without error has every data line formatted: at
      least eleven fields, the eleventh `;`. */
  lemma {:induction false} ReadLinksFormatted(kinds: seq<LineKind>, k: nat, g: Graph, numZones: Option<int>,
                                              toFloat: string -> Option<real>)
    requires WellKept(g)
    requires ReadLinks(kinds, k, g, numZones, toFloat).Ok?
    ensures forall i :: 0 <= i < |kinds| && kinds[i].Data? ==> LinkLineFormatted(kinds[i].fields)
    decreases |kinds|
  {
    if kinds != [] {
      match kinds[0]
      case Skip =>
        ReadLinksFormatted(kinds[1..], k, g, numZones, toFloat);
      case Data(data) =>
        ReadLinksFormatted(kinds[1..], k + 1, AddLinkLine(g, data, k, numZones, toFloat).value, numZones, toFloat);
    }
    forall i | 1 <= i < |kinds|
      ensures kinds[i] == kinds[1..][i - 1]
    {
    }
  }

  // ---------------------------------------------------------------------
  // The demand file

  datatype ODRecord = ODRecord(origin: string, destination: string, demand: real)

  /** The OD dictionary and the running total of demand. */
  datatype Demands = Demands(odIds: seq<string>, ods: map<string, ODRecord>, total: real)

  /** `str(origin) + "->" + str(destination)`. */
  function OdId(origin: string, destination: string): string {
    origin + "->" + destination
  }

  /** Every OD pair is stored under the key made of its own ends. */
  ghost predicate KeyedByEnds(dm: Demands) {
    Ordered(dm.odIds, dm.ods) && forall id :: id in dm.ods ==> id == OdId(dm.ods[id].origin, dm.ods[id].destination)
  }

  /** `demand[: len(demand) - 1]`: the amount without its trailing `;`. */
  function DropLast(s: string): (r: string)
    ensures |r| == if s == [] then 0 else |s| - 1
  {
    if s == [] then [] else s[..|s| - 1]
  }

  /** `ODpair[ODID] = OD(...)` and `totalDemand += demand`. */
  function Record(dm: Demands, origin: string, destination: string, demand: real): (r: Demands)
    ensures KeyedByEnds(dm) ==> KeyedByEnds(r)
    ensures r.total == dm.total + demand
  {
    var p := Put(dm.odIds, dm.ods, OdId(origin, destination), ODRecord(origin, destination, demand));
    Demands(p.0, p.1, dm.total + demand)
  }

  /** The entries `destination : amount;` of one line, from entry `i`
      on: the amount is read before the `:` is checked, and the origin is
      needed only once both passed. */
  function AddEntries(data: seq<string>, i: nat, origin: Option<string>, dm: Demands,
                      toFloat: string -> Option<real>): (r: Result<Demands>)
    ensures KeyedByEnds(dm) && r.Ok? ==> KeyedByEnds(r.value)
    ensures r.Err? ==> r.error == ValueError || r.error == BadFileFormat || r.error == UnboundLocalError
    decreases |data| / 3 - i
  {
    if i >= |data| / 3 then Ok(dm)
    else
      var destination, check := data[i * 3], data[i * 3 + 1];
      match toFloat(DropLast(data[i * 3 + 2]))
      case None => Err(ValueError)
      case Some(demand) =>
        if check != ":" then Err(BadFileFormat)
        else if origin.None? then Err(UnboundLocalError)
        else
          AddEntries(data, i + 1, origin, Record(dm, origin.value, destination, demand), toFloat)
  }

  method AddEntryFields(data: seq<string>, origin: Option<string>, dm0: Demands,
                        toFloat: string -> Option<real>) returns (r: Result<Demands>)
    ensures r == AddEntries(data, 0, origin, dm0, toFloat)
  {
    var dm := dm0;
    for i := 0 to |data| / 3
      invariant AddEntries(data, i, origin, dm, toFloat) == AddEntries(data, 0, origin, dm0, toFloat)
    {
      var destination, check := data[i * 3], data[i * 3 + 1];
      var demand := toFloat(DropLast(data[i * 3 + 2]));
      if demand.None? {
        return Err(ValueError);
      }
      if check != ":" {
        return Err(BadFileFormat);
      }
      if origin.None? {
        return Err(UnboundLocalError);
      }
      dm := Record(dm, origin.value, destination, demand.value);
    }
    return Ok(dm);
  }

  /** The line loop of `readDemandFile`: an `Origin` line names the origin
      of the entries after it; any other line must have a multiple of three
      or of four fields. */
  function ReadDemands(kinds: seq<LineKind>, origin: Option<string>, dm: Demands,
                       toFloat: string -> Option<real>): (r: Result<Demands>)
    requires FieldsPresent(kinds)
    ensures KeyedByEnds(dm) && r.Ok? ==> KeyedByEnds(r.value)
    decreases |kinds|
  {
    if kinds == [] then Ok(dm)
    else match kinds[0]
      case Skip => ReadDemands(kinds[1..], origin, dm, toFloat)
      case Data(data) =>
        if data[0] == "Origin" then
          if |data| < 2 then Err(IndexError) else ReadDemands(kinds[1..], Some(data[1]), dm, toFloat)
        else if |data| % 3 != 0 && |data| % 4 != 0 then Err(BadFileFormat)
        else match AddEntries(data, 0, origin, dm, toFloat)
          case Err(e) => Err(e)
          case Ok(dm') => ReadDemands(kinds[1..], origin, dm', toFloat)
  }

  method ReadDemandLines(kinds: seq<LineKind>, dm0: Demands, toFloat: string -> Option<real>)
    returns (r: Result<Demands>)
    requires FieldsPresent(kinds)
    ensures r == ReadDemands(kinds, None, dm0, toFloat)
  {
    var dm := dm0;
    var origin: Option<string> := None;
    var i := 0;
    while i < |kinds|
      invariant 0 <= i <= |kinds|
      invariant ReadDemands(kinds[i..], origin, dm, toFloat) == ReadDemands(kinds, None, dm0, toFloat)
    {
      assert kinds[i..][1..] == kinds[i + 1..];
      match kinds[i] {
        case Skip =>
        case Data(data) =>
          if data[0] == "Origin" {
            if |data| < 2 {
              return Err(IndexError);
            }
            origin := Some(data[1]);
          } else {
            if |data| % 3 != 0 && |data| % 4 != 0 {
              return Err(BadFileFormat);
            }
            var step := AddEntryFields(data, origin, dm, toFloat);
            if step.Err? {
              return Err(step.error);
            }
            dm := step.value;
          }
      }
      i := i + 1;
    }
    return Ok(dm);
  }

  /** An entry before any `Origin` line raises UnboundLocalError once its
      amount and its `:` have been read. */
  lemma EntryNeedsOrigin(data: seq<string>, dm: Demands, toFloat: string -> Option<real>)
    requires |data| >= 3 && data[1] == ":" && toFloat(DropLast(data[2])).Some?
    ensures AddEntries(data, 0, None, dm, toFloat) == Err(UnboundLocalError)
  {
  }

  /** Each stored entry adds its amount to the total, also when its pair
      was already stored and is overwritten. */
  lemma {:induction false} TotalCountsEveryEntry(data: seq<string>, i: nat, origin: Option<string>, dm: Demands,
                                                 toFloat: string -> Option<real>)
    requires AddEntries(data, i, origin, dm, toFloat).Ok?
    ensures AddEntries(data, i, origin, dm, toFloat).value.total == dm.total + Amounts(data, i, toFloat)
    decreases |data| / 3 - i
  {
    if i < |data| / 3 {
      var demand := toFloat(DropLast(data[i * 3 + 2])).value;
      var dm' := Record(dm, origin.value, data[i * 3], demand);
      assert AddEntries(data, i, origin, dm, toFloat) == AddEntries(data, i + 1, origin, dm', toFloat);
      TotalCountsEveryEntry(data, i + 1, origin, dm', toFloat);
    }
  }

  /** The amounts of the entries of a line from entry `i` on, each read
      as a number (zero where it does not parse). */
  function Amounts(data: seq<string>, i: nat, toFloat: string -> Option<real>): real
    decreases |data| / 3 - i
  {
    if i >= |data| / 3 then 0.0
    else
      var a := toFloat(DropLast(data[i * 3 + 2]));
      (if a.Some? then a.value else 0.0) + Amounts(data, i + 1, toFloat)
  }

  // ---------------------------------------------------------------------
  // validate

  predicate NonNegativeLink(l: LinkRecord) {
    l.capacity >= 0.0 && l.length >= 0.0 && l.freeFlowTime >= 0.0 && l.alpha >= 0.0
    && l.beta >= 0.0 && l.speedLimit >= 0.0 && l.toll >= 0.0
  }

  /** The link loop of `validate`, from flag `valid`: a missing end raises,
      but so does any link after one with a negative parameter, because
      that link left the flag false; a negative parameter itself is only
      reported. The result is the flag after the loop. */
  function CheckLinks(ids: seq<string>, links: map<string, LinkRecord>, zones: map<string, bool>,
                      valid: bool): Result<bool>
    requires forall id :: id in ids ==> id in links
  {
    if ids == [] then Ok(valid)
    else
      var l := links[ids[0]];
      if !(valid && l.head in zones && l.tail in zones) then Err(BadFileFormat)
      else CheckLinks(ids[1..], links, zones, NonNegativeLink(l))
  }

  method ValidateLinks(ids: seq<string>, links: map<string, LinkRecord>, zones: map<string, bool>)
    returns (r: Result<bool>)
    requires forall id :: id in ids ==> id in links
    ensures r == CheckLinks(ids, links, zones, true)
  {
    var valid := true;
    for i := 0 to |ids|
      invariant CheckLinks(ids[i..], links, zones, valid) == CheckLinks(ids, links, zones, true)
    {
      assert ids[i..][1..] == ids[i + 1..];
      var l := links[ids[i]];
      valid := valid && l.head in zones;
      valid := valid && l.tail in zones;
      if !valid {
        return Err(BadFileFormat);
      }
      valid := valid && l.capacity >= 0.0;
      valid := valid && l.length >= 0.0;
      valid := valid && l.freeFlowTime >= 0.0;
      valid := valid && l.alpha >= 0.0;
      valid := valid && l.beta >= 0.0;
      valid := valid && l.speedLimit >= 0.0;
      valid := valid && l.toll >= 0.0;
    }
    return Ok(valid);
  }

  /** The link loop passes exactly when every link ends at known nodes and
      every link but the last has no negative parameter; the flag it leaves
      says whether the last one has none either. */
  lemma {:induction false} CheckLinksPasses(ids: seq<string>, links: map<string, LinkRecord>, zones: map<string, bool>,
                                            valid: bool)
    requires forall id :: id in ids ==> id in links
    ensures CheckLinks(ids, links, zones, valid).Ok? <==>
              (ids == [] || valid)
              && (forall i :: 0 <= i < |ids| ==> links[ids[i]].head in zones && links[ids[i]].tail in zones)
              && (forall i :: 0 <= i < |ids| - 1 ==> NonNegativeLink(links[ids[i]]))
    ensures CheckLinks(ids, links, zones, valid).Ok? ==>
              CheckLinks(ids, links, zones, valid).value == if ids == [] then valid else NonNegativeLink(links[ids[|ids| - 1]])
  {
    if ids != [] {
      CheckLinksPasses(ids[1..], links, zones, NonNegativeLink(links[ids[0]]));
      assert forall i :: 1 <= i < |ids| ==> ids[i] == ids[1..][i - 1];
    }
  }

  predicate ODAcceptable(od: ODRecord, zones: map<string, bool>) {
    od.origin in zones && od.destination in zones && zones[od.origin] && zones[od.destination] && od.demand >= 0.0
  }

  /** The OD loop of `validate`: unknown ends, ends that are not zones and
      negative demand raise, and so does the first pair when the link loop
      left the flag false. */
  function CheckODs(ids: seq<string>, ods: map<string, ODRecord>, zones: map<string, bool>, valid: bool): Result<bool>
    requires forall id :: id in ids ==> id in ods
  {
    if ids == [] then Ok(valid)
    else
      var od := ods[ids[0]];
      if !(valid && od.origin in zones && od.destination in zones) then Err(BadFileFormat)
      else if !(zones[od.origin] && zones[od.destination]) then Err(BadFileFormat)
      else if !(od.demand >= 0.0) then Err(BadFileFormat)
      else CheckODs(ids[1..], ods, zones, true)
  }

  method ValidateODs(ids: seq<string>, ods: map<string, ODRecord>, zones: map<string, bool>, valid0: bool)
    returns (r: Result<bool>)
    requires forall id :: id in ids ==> id in ods
    ensures r == CheckODs(ids, ods, zones, valid0)
  {
    var valid := valid0;
    for i := 0 to |ids|
      invariant CheckODs(ids[i..], ods, zones, valid) == CheckODs(ids, ods, zones, valid0)
    {
      assert ids[i..][1..] == ids[i + 1..];
      var od := ods[ids[i]];
      valid := valid && od.origin in zones;
      valid := valid && od.destination in zones;
      if !valid {
        return Err(BadFileFormat);
      }
      valid := valid && zones[od.origin];
      valid := valid && zones[od.destination];
      if !valid {
        return Err(BadFileFormat);
      }
      valid := valid && od.demand >= 0.0;
      if !valid {
        return Err(BadFileFormat);
      }
    }
    return Ok(valid);
  }

  /** The OD loop passes exactly when there is no pair, or the flag is up
      and every pair joins two zones with a non-negative demand. */
  lemma {:induction false} CheckODsPasses(ids: seq<string>, ods: map<string, ODRecord>, zones: map<string, bool>,
                                          valid: bool)
    requires forall id :: id in ids ==> id in ods
    ensures CheckODs(ids, ods, zones, valid).Ok? <==>
              ids == [] || (valid && forall i :: 0 <= i < |ids| ==> ODAcceptable(ods[ids[i]], zones))
  {
    if ids != [] {
      CheckODsPasses(ids[1..], ods, zones, true);
      assert forall i :: 1 <= i < |ids| ==> ids[i] == ids[1..][i - 1];
    }
  }

  /** A negative parameter on the last link, with OD pairs to check, ends
      in the "not found" error of the first pair. */
  lemma NegativeLastLinkRaises(ids: seq<string>, links: map<string, LinkRecord>, odIds: seq<string>,
                               ods: map<string, ODRecord>, zones: map<string, bool>)
    requires forall id :: id in ids ==> id in links
    requires forall id :: id in odIds ==> id in ods
    requires ids != [] && !NonNegativeLink(links[ids[|ids| - 1]]) && odIds != []
    requires CheckLinks(ids, links, zones, true).Ok?
    ensures CheckODs(odIds, ods, zones, CheckLinks(ids, links, zones, true).value) == Err(BadFileFormat)
  {
    CheckLinksPasses(ids, links, zones, true);
  }

  /** The metadata counts checked against what was read. */
  datatype Counts = Counts(numNodes: Option<int>, numLinks: Option<int>, numZones: Option<int>)

  /** The number of zone nodes. */
  function ZoneCount(ids: seq<string>, zones: map<string, bool>): nat
    requires forall n :: n in ids ==> n in zones
  {
    if ids == [] then 0 else (if zones[ids[0]] then 1 else 0) + ZoneCount(ids[1..], zones)
  }

  /** The end of `validate` as written: a node or link count that differs
      from the file is replaced by it, but a differing zone count replaces
      the link count (with the number of links) and keeps the metadata's
      number of zones. */
  function ReconcileAsWritten(c: Counts, nodes: nat, links: nat, zones: nat): (r: Counts)
    ensures r.numNodes.Some? ==> r.numNodes == Some(nodes)
    ensures r.numLinks.Some? ==> r.numLinks == Some(links)
    ensures r.numZones == c.numZones
  {
    var c1 := if c.numNodes.Some? && nodes != c.numNodes.value then c.(numNodes := Some(nodes)) else c;
    var c2 := if c1.numLinks.Some? && links != c1.numLinks.value then c1.(numLinks := Some(links)) else c1;
    if c2.numZones.Some? && zones != c2.numZones.value then c2.(numLinks := Some(links)) else c2
  }

  /** A zone count that disagrees survives: metadata announcing three
      zones for a network with two keeps three. */
  lemma ZoneCountKept()
    ensures ReconcileAsWritten(Counts(Some(4), Some(5), Some(3)), 4, 5, 2).numZones == Some(3)
  {
  }

  /** The end of `validate` with the zone count replaced like the other
      two. */
  function Reconcile(c: Counts, nodes: nat, links: nat, zones: nat): (r: Counts)
    ensures r.numNodes == (if c.numNodes.Some? then Some(nodes) else None)
    ensures r.numLinks == (if c.numLinks.Some? then Some(links) else None)
    ensures r.numZones == (if c.numZones.Some? then Some(zones) else None)
  {
    var c1 := if c.numNodes.Some? && nodes != c.numNodes.value then c.(numNodes := Some(nodes)) else c;
    var c2 := if c1.numLinks.Some? && links != c1.numLinks.value then c1.(numLinks := Some(links)) else c1;
    if c2.numZones.Some? && zones != c2.numZones.value then c2.(numZones := Some(zones)) else c2
  }

  // ---------------------------------------------------------------------
  // finalize and formAdjacencyMatrix

  /** The links leaving (`forward`) or entering node `n`, in link order. */
  function Star(ids: seq<string>, links: map<string, LinkRecord>, n: string, forward: bool): (r: seq<string>)
    requires forall id :: id in ids ==> id in links
  {
    if ids == [] then []
    else
      var last := ids[|ids| - 1];
      Star(ids[..|ids| - 1], links, n, forward) + (if (if forward then links[last].tail else links[last].head) == n then [last] else [])
  }

  lemma {:induction false} StarWithin(ids: seq<string>, links: map<string, LinkRecord>, n: string, forward: bool)
    requires forall x :: x in ids ==> x in links
    ensures forall x :: x in Star(ids, links, n, forward) ==> x in ids
  {
    if ids != [] {
      StarWithin(ids[..|ids| - 1], links, n, forward);
    }
  }

  /** Every link appears in the forward star of its tail and the reverse
      star of its head, and in no other. */
  lemma {:induction false} StarMembership(ids: seq<string>, links: map<string, LinkRecord>, n: string, forward: bool, id: string)
    requires forall x :: x in ids ==> x in links
    requires Distinct(ids) && id in ids
    ensures id in Star(ids, links, n, forward) <==> (if forward then links[id].tail else links[id].head) == n
  {
    var init := ids[..|ids| - 1];
    if id != ids[|ids| - 1] {
      assert id in init by {
        var j :| 0 <= j < |ids| && ids[j] == id;
        assert init[j] == id;
      }
      StarMembership(init, links, n, forward, id);
    } else {
      StarWithin(init, links, n, forward);
    }
  }

  /** `stars` holds every node's star among the links `ids`. */
  predicate StarsOf(stars: map<string, seq<string>>, ids: seq<string>, links: map<string, LinkRecord>,
                    zones: map<string, bool>, forward: bool)
    requires forall id :: id in ids ==> id in links
  {
    stars.Keys == zones.Keys && forall n :: n in zones ==> stars[n] == Star(ids, links, n, forward)
  }

  /** Appending link `i` to the star of its end extends all stars by one
      link. */
  lemma StarsStep(stars: map<string, seq<string>>, ids: seq<string>, links: map<string, LinkRecord>,
                  zones: map<string, bool>, i: nat, forward: bool)
    requires i < |ids| && forall id :: id in ids ==> id in links
    requires StarsOf(stars, ids[..i], links, zones, forward)
    requires (if forward then links[ids[i]].tail else links[ids[i]].head) in zones
    ensures var end := if forward then links[ids[i]].tail else links[ids[i]].head;
            StarsOf(stars[end := stars[end] + [ids[i]]], ids[..i + 1], links, zones, forward)
  {
    assert ids[..i + 1][..i] == ids[..i];
  }

  /** Every link of `ids` ends at known nodes. */
  predicate KnownEnds(ids: seq<string>, links: map<string, LinkRecord>, zones: map<string, bool>)
    requires forall id :: id in ids ==> id in links
  {
    forall i :: 0 <= i < |ids| ==> links[ids[i]].tail in zones && links[ids[i]].head in zones
  }

  lemma KnownEndsStep(ids: seq<string>, links: map<string, LinkRecord>, zones: map<string, bool>, i: nat)
    requires i < |ids| && forall id :: id in ids ==> id in links
    requires KnownEnds(ids[..i], links, zones) && links[ids[i]].tail in zones && links[ids[i]].head in zones
    ensures KnownEnds(ids[..i + 1], links, zones)
  {
    assert ids[..i + 1] == ids[..i] + [ids[i]];
  }

  /** The stars `finalize` builds: both for every node, KeyError when a
      link ends at an unknown node. */
  method BuildStars(ids: seq<string>, links: map<string, LinkRecord>, zones: map<string, bool>)
    returns (r: Result<(map<string, seq<string>>, map<string, seq<string>>)>)
    requires forall id :: id in ids ==> id in links
    ensures r.Ok? <==> KnownEnds(ids, links, zones)
    ensures r.Err? ==> r.error == KeyError
    ensures r.Ok? ==> StarsOf(r.value.0, ids, links, zones, true) && StarsOf(r.value.1, ids, links, zones, false)
  {
    var fs: map<string, seq<string>> := map n | n in zones :: [];
    var rs: map<string, seq<string>> := map n | n in zones :: [];
    for i := 0 to |ids|
      invariant StarsOf(fs, ids[..i], links, zones, true) && StarsOf(rs, ids[..i], links, zones, false)
      invariant fs.Keys == zones.Keys && rs.Keys == zones.Keys
      invariant KnownEnds(ids[..i], links, zones)
    {
      var l := links[ids[i]];
      if l.tail !in zones {
        return Err(KeyError);
      }
      StarsStep(fs, ids, links, zones, i, true);
      fs := fs[l.tail := fs[l.tail] + [ids[i]]];
      if l.head !in zones {
        return Err(KeyError);
      }
      StarsStep(rs, ids, links, zones, i, false);
      rs := rs[l.head := rs[l.head] + [ids[i]]];
      KnownEndsStep(ids, links, zones, i);
    }
    assert ids[..|ids|] == ids;
    return Ok((fs, rs));
  }

  /** Looking links up in dictionary order visits every link. */
  lemma EndsKnown(g: Graph)
    requires WellKept(g)
    ensures Closed(g) <==> KnownEnds(g.linkIds, g.links, g.zones)
    ensures (forall id :: id in g.links ==> g.links[id].tail in g.zones) <==>
            forall i :: 0 <= i < |g.linkIds| ==> g.links[g.linkIds[i]].tail in g.zones
  {
    forall id | id in g.links
      ensures exists i :: 0 <= i < |g.linkIds| && g.linkIds[i] == id
    {
      var i :| 0 <= i < |g.linkIds| && g.linkIds[i] == id;
    }
  }

  /** Whether some link goes from `i` to `j`. */
  function Adjacent(ids: seq<string>, links: map<string, LinkRecord>, i: string, j: string): bool
    requires forall id :: id in ids ==> id in links
  {
    ids != [] && ((links[ids[|ids| - 1]].tail == i && links[ids[|ids| - 1]].head == j) || Adjacent(ids[..|ids| - 1], links, i, j))
  }

  lemma {:induction false} AdjacentMeansLink(ids: seq<string>, links: map<string, LinkRecord>, i: string, j: string)
    requires forall id :: id in ids ==> id in links
    ensures Adjacent(ids, links, i, j) <==> exists k :: 0 <= k < |ids| && links[ids[k]].tail == i && links[ids[k]].head == j
  {
    if ids != [] {
      var init := ids[..|ids| - 1];
      AdjacentMeansLink(init, links, i, j);
      assert forall k :: 0 <= k < |init| ==> init[k] == ids[k];
    }
  }

  /** `adj` has a row for every node, and its entry for two nodes says
      whether one of the first `k` links joins them. */
  predicate MatrixUpTo(adj: map<string, map<string, int>>, ids: seq<string>, links: map<string, LinkRecord>,
                       zones: map<string, bool>, k: nat)
    requires k <= |ids| && forall id :: id in ids ==> id in links
  {
    adj.Keys == zones.Keys
    && forall i, j :: i in zones && j in zones ==> j in adj[i] && adj[i][j] == if Adjacent(ids[..k], links, i, j) then 1 else 0
  }

  lemma MatrixStep(adj: map<string, map<string, int>>, ids: seq<string>, links: map<string, LinkRecord>,
                   zones: map<string, bool>, k: nat)
    requires k < |ids| && forall id :: id in ids ==> id in links
    requires MatrixUpTo(adj, ids, links, zones, k) && links[ids[k]].tail in zones
    ensures var l := links[ids[k]];
            MatrixUpTo(adj[l.tail := adj[l.tail][l.head := 1]], ids, links, zones, k + 1)
  {
    assert ids[..k + 1][..k] == ids[..k];
  }

  /** `formAdjacencyMatrix`: a row of zeros for every node, then a 1 for
      each link. The row is looked up, so an unknown tail raises KeyError;
      an unknown head only adds a column to its row. */
  method AdjacencyMatrix(ids: seq<string>, links: map<string, LinkRecord>, zones: map<string, bool>)
    returns (r: Result<map<string, map<string, int>>>)
    requires forall id :: id in ids ==> id in links
    ensures r.Ok? <==> forall k :: 0 <= k < |ids| ==> links[ids[k]].tail in zones
    ensures r.Err? ==> r.error == KeyError
    ensures r.Ok? ==> MatrixUpTo(r.value, ids, links, zones, |ids|)
  {
    var row := map j | j in zones :: 0;
    var adj := map i | i in zones :: row;
    for k := 0 to |ids|
      invariant MatrixUpTo(adj, ids, links, zones, k) && adj.Keys == zones.Keys
      invariant forall m :: 0 <= m < k ==> links[ids[m]].tail in zones
    {
      var l := links[ids[k]];
      if l.tail !in zones {
        return Err(KeyError);
      }
      MatrixStep(adj, ids, links, zones, k);
      adj := adj[l.tail := adj[l.tail][l.head := 1]];
    }
    return Ok(adj);
  }

  /** The cost `finalize` gives a link before any flow: its free-flow time
      plus its distance and toll terms. */
  function InitialCost(l: LinkRecord, f: TC.CostFactors): real {
    l.freeFlowTime + l.length * f.distanceFactor + l.toll * f.tollFactor
  }

  /** That cost is the one the BPR function gives the link at zero flow,
      whatever the power function. */
  lemma InitialCostAtZeroFlow(l: LinkRecord, f: TC.CostFactors, pow: (real, real) -> real)
    requires l.capacity != 0.0
    ensures TC.BprCost(0.0, l.capacity, l.freeFlowTime, l.alpha, l.beta, l.toll, l.length, f, pow) == Ok(InitialCost(l, f))
  {
    assert 0.0 / l.capacity == 0.0;
    assert InitialCost(l, f) == TC.BaseCost(l.freeFlowTime, l.toll, l.length, f);
  }

  /** What `finalize` sets: the stars of the nodes, the cost and flow of
      the links and the least cost of the OD pairs. */
  datatype LinkState = LinkState(forward: map<string, seq<string>>, reverse: map<string, seq<string>>,
                                 cost: map<string, real>, flow: map<string, real>, leastCost: map<string, real>)

  /** Every node has its forward and reverse star, every link its
      zero-flow cost and no flow, every OD pair least cost 0. */
  ghost predicate Finalized(g: Graph, dm: Demands, f: TC.CostFactors, s: LinkState)
    requires WellKept(g)
  {
    StarsOf(s.forward, g.linkIds, g.links, g.zones, true) && StarsOf(s.reverse, g.linkIds, g.links, g.zones, false)
    && s.cost == (map id | id in g.links :: InitialCost(g.links[id], f))
    && s.flow == (map id | id in g.links :: 0.0)
    && s.leastCost == (map od | od in dm.ods :: 0.0)
  }

  method FinalizeNetwork(g: Graph, dm: Demands, f: TC.CostFactors) returns (r: Result<LinkState>)
    requires WellKept(g)
    ensures r.Ok? <==> Closed(g)
    ensures r.Err? ==> r.error == KeyError
    ensures r.Ok? ==> Finalized(g, dm, f, r.value)
  {
    EndsKnown(g);
    var stars := BuildStars(g.linkIds, g.links, g.zones);
    if stars.Err? {
      return Err(stars.error);
    }
    var cost := map id | id in g.links :: InitialCost(g.links[id], f);
    var flow := map id | id in g.links :: 0.0;
    var leastCost := map od | od in dm.ods :: 0.0;
    return Ok(LinkState(stars.value.0, stars.value.1, cost, flow, leastCost));
  }

  // ---------------------------------------------------------------------
  // The network object

  class TransportNetwork {
    var graph: Graph
    var demands: Demands
    var counts: Counts
    var factors: TC.CostFactors
    var forward: map<string, seq<string>>
    var reverse: map<string, seq<string>>
    var cost: map<string, real>
    var flow: map<string, real>
    var leastCost: map<string, real>
    var adjacency: map<string, map<string, int>>

    ghost predicate Valid()
      reads this
    {
      WellKept(graph) && KeyedByEnds(demands)
    }

    /** An empty network before its files are read. */
    constructor (factors: TC.CostFactors)
      ensures Valid() && graph == Graph([], map[], [], map[]) && demands == Demands([], map[], 0.0)
      ensures counts == Counts(None, None, None) && this.factors == factors
    {
      graph := Graph([], map[], [], map[]);
      demands := Demands([], map[], 0.0);
      counts := Counts(None, None, None);
      this.factors := factors;
      forward, reverse := map[], map[];
      cost, flow, leastCost := map[], map[], map[];
      adjacency := map[];
    }

    /** The link lines of the network file, after the metadata that set
        `numZones`. */
    method ReadNetworkLines(lines: seq<string>, toFloat: string -> Option<real>) returns (err: Option<Exception>)
      requires Valid()
      modifies this
      ensures Valid()
      ensures var r := ReadLinks(Kinds(lines), 1, old(graph), old(counts.numZones), toFloat);
              if r.Ok? then err == None && graph == r.value else err == Some(r.error) && graph == old(graph)
      ensures demands == old(demands) && counts == old(counts)
    {
      var r := ReadLinkLines(Kinds(lines), graph, counts.numZones, toFloat);
      if r.Err? {
        return Some(r.error);
      }
      ReadLinksClosed(Kinds(lines), 1, graph, counts.numZones, toFloat);
      graph := r.value;
      return None;
    }

    /** The entry lines of the demand file, after its metadata. */
    method ReadDemandFileLines(lines: seq<string>, toFloat: string -> Option<real>) returns (err: Option<Exception>)
      requires Valid()
      modifies this
      ensures Valid()
      ensures var r := ReadDemands(Kinds(lines), None, old(demands), toFloat);
              if r.Ok? then err == None && demands == r.value else err == Some(r.error) && demands == old(demands)
      ensures graph == old(graph) && counts == old(counts)
    {
      var r := ReadDemandLines(Kinds(lines), demands, toFloat);
      if r.Err? {
        return Some(r.error);
      }
      demands := r.value;
      return None;
    }

    /** `validate`: both loops, then the counts brought in line with the
        file. */
    method Validate() returns (err: Option<Exception>)
      requires Valid()
      modifies this
      ensures Valid() && graph == old(graph) && demands == old(demands)
      ensures var links := CheckLinks(graph.linkIds, graph.links, graph.zones, true);
              var r := if links.Err? then links else CheckODs(demands.odIds, demands.ods, graph.zones, links.value);
              if r.Ok? then err == None && counts == Reconcile(old(counts), |graph.nodeIds|, |graph.linkIds|, ZoneCount(graph.nodeIds, graph.zones))
              else err == Some(r.error) && counts == old(counts)
    {
      var links := ValidateLinks(graph.linkIds, graph.links, graph.zones);
      if links.Err? {
        return Some(links.error);
      }
      var ods := ValidateODs(demands.odIds, demands.ods, graph.zones, links.value);
      if ods.Err? {
        return Some(ods.error);
      }
      counts := Reconcile(counts, |graph.nodeIds|, |graph.linkIds|, ZoneCount(graph.nodeIds, graph.zones));
      return None;
    }

    /** `finalize`. */
    method Finalize() returns (err: Option<Exception>)
      requires Valid()
      modifies this
      ensures Valid() && graph == old(graph) && demands == old(demands) && counts == old(counts)
      ensures err == None <==> Closed(graph)
      ensures err.Some? ==> err == Some(KeyError)
      ensures err == None ==> Finalized(graph, demands, factors, LinkState(forward, reverse, cost, flow, leastCost))
    {
      var r := FinalizeNetwork(graph, demands, factors);
      if r.Err? {
        return Some(r.error);
      }
      forward, reverse, cost, flow, leastCost := r.value.forward, r.value.reverse, r.value.cost, r.value.flow, r.value.leastCost;
      return None;
    }

    /** `formAdjacencyMatrix`. */
    method FormAdjacencyMatrix() returns (err: Option<Exception>)
      requires Valid()
      modifies this
      ensures Valid() && graph == old(graph) && demands == old(demands) && counts == old(counts)
      ensures err == None <==> forall id :: id in graph.links ==> graph.links[id].tail in graph.zones
      ensures err.Some? ==> err == Some(KeyError)
      ensures err == None ==> adjacency.Keys == graph.zones.Keys
      ensures err == None ==> forall i, j :: i in graph.zones && j in graph.zones ==>
                j in adjacency[i] && adjacency[i][j] == if Adjacent(graph.linkIds, graph.links, i, j) then 1 else 0
    {
      var g := graph;
      EndsKnown(g);
      var r := AdjacencyMatrix(g.linkIds, g.links, g.zones);
      if r.Err? {
        return Some(r.error);
      }
      assert g.linkIds[..|g.linkIds|] == g.linkIds;
      adjacency := r.value;
      return None;
    }
  }
}
