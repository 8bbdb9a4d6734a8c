/** The repair crews of infrarisk/src/repair_crews.py. The water, power and
    transport crew classes have the same fields and the same methods, so
    one class with a `kind` models all three. */
module RepairCrews {
  import opened Wrappers

  datatype CrewKind = WaterCrew | PowerCrew | TranspoCrew

  class RepairCrew {
    const kind: CrewKind
    const name: int
    const initLoc: string
    const crewSize: Option<int>
    var availabilityStatus: int
    var componentsRepaired: seq<string>
    /** `None` until a trip start is set. */
    var nextTripStart: Option<int>
    /** The location the getter and setter use. */
    var crewLoc: string
    /** The attribute `reset_locs` writes; it does not exist (`None`) until
        the first reset. */
    var currLoc: Option<string>

    /** A new crew stands at its initial location, is available, has
        repaired nothing and has no trip planned. */
    constructor (kind: CrewKind, name: int, initLoc: string, crewSize: Option<int>)
      ensures this.kind == kind && this.name == name && this.initLoc == initLoc && this.crewSize == crewSize
      ensures crewLoc == initLoc && nextTripStart.None? && availabilityStatus == 1
      ensures componentsRepaired == [] && currLoc.None?
    {
      this.kind := kind;
      this.name := name;
      this.initLoc := initLoc;
      this.crewSize := crewSize;
      availabilityStatus := 1;
      componentsRepaired := [];
      nextTripStart := None;
      crewLoc := initLoc;
      currLoc := None;
    }

    /** `reset_locs` writes the initial location into `curr_loc`, an
        attribute nothing else reads, so the location the getter returns is
        not reset. */
    method ResetLocs()
      modifies this`currLoc
      ensures currLoc == Some(initLoc)
    {
      currLoc := Some(initLoc);
    }

    method SetNextTripStart(time: int)
      modifies this`nextTripStart
      ensures nextTripStart == Some(time)
    {
      nextTripStart := Some(time);
    }

    method GetNextTripStart() returns (time: Option<int>)
      ensures time == nextTripStart
    {
      time := nextTripStart;
    }

    method SetCrewLoc(loc: string)
      modifies this`crewLoc
      ensures crewLoc == loc
    {
      crewLoc := loc;
    }

    method GetCrewLoc() returns (loc: string)
      ensures loc == crewLoc
    {
      loc := crewLoc;
    }
  }

  /** Setting the next trip start and reading it back gives the value set
      and leaves the location alone. */
  method TripStartRoundTrip(crew: RepairCrew, time: int) returns (read: Option<int>)
    modifies crew
    ensures read == Some(time)
    ensures crew.crewLoc == old(crew.crewLoc) && crew.currLoc == old(crew.currLoc)
  {
    crew.SetNextTripStart(time);
    read := crew.GetNextTripStart();
  }

  /** Setting the location and reading it back gives the value set and
      leaves the trip start alone. */
  method CrewLocRoundTrip(crew: RepairCrew, loc: string) returns (read: string)
    modifies crew
    ensures read == loc
    ensures crew.nextTripStart == old(crew.nextTripStart)
  {
    crew.SetCrewLoc(loc);
    read := crew.GetCrewLoc();
  }

  /** A reset does not change what the location getter returns: a crew
      moved away from its office is still reported there after a reset. */
  method ResetKeepsCrewLoc(crew: RepairCrew, loc: string) returns (read: string)
    modifies crew
    ensures read == loc
    ensures crew.currLoc == Some(crew.initLoc)
  {
    crew.SetCrewLoc(loc);
    crew.ResetLocs();
    read := crew.GetCrewLoc();
  }
}
