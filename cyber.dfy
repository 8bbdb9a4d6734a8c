/** The cyber layer of the water network (infrarisk/src/cyber): the
    programmable logic controller with its sensor registry, and the
    actuators that switch a pump or a tank's discharge pipe by replacing
    the pump's or the tank's named open/close control in the water model.

    A control is a solver object: the model keeps the control names in a
    `WaterControls.Registry` and the link names of the network in `links`
    (looking up a link that is not there is a KeyError, as in the solver).
    The tank level sensors are not part of this model; the trigger is given
    the level and the two thresholds it would read from one. */
module Cyber {
  import opened Wrappers
  import opened Text
  import WaterControls
  import WaterNetwork
  import PI = PhysicalInterdependencies
  import SI = SimInterdependencies
  import ComponentTables

  // ---------------------------------------------------------------------
  // Controllers

  class PLController {
    const name: string
    const kind: string
    var status: int
    var sensors: map<string, seq<string>>
    var actuators: map<string, seq<string>>

    /** A new controller is on unless told otherwise, with no sensors and
        no actuators. */
    constructor (name: string, kind: string, status: int := 1)
      ensures this.name == name && this.kind == kind && this.status == status
      ensures sensors == map[] && actuators == map[]
    {
      this.name := name;
      this.kind := kind;
      this.status := status;
      sensors := map[];
      actuators := map[];
    }

    method TurnOff()
      modifies this
      ensures status == 0
      ensures sensors == old(sensors) && actuators == old(actuators)
    {
      status := 0;
    }

    /** Turning on sets the status to 1 whatever it was, so a second call
        changes nothing. */
    method TurnOn()
      modifies this
      ensures status == 1
      ensures sensors == old(sensors) && actuators == old(actuators)
    {
      status := 1;
    }

    /** `add_sensor`: appends to the list kept for the sensor type, a
        KeyError when the controller has no such type. */
    method AddSensor(sensor: string, sensorType: string) returns (r: Result<()>)
      modifies this
      ensures r.Ok? <==> sensorType in old(sensors)
      ensures r.Ok? ==> sensors == old(sensors)[sensorType := old(sensors)[sensorType] + [sensor]]
      ensures r.Err? ==> r == Err(KeyError) && sensors == old(sensors)
      ensures status == old(status) && actuators == old(actuators)
    {
      if sensorType !in sensors {
        return Err(KeyError);
      }
      sensors := sensors[sensorType := sensors[sensorType] + [sensor]];
      r := Ok(());
    }

    /** `add_actuator` as written: it appends to `self.actuators`, an
        attribute no controller has (the registry is `_actuators`), so it
        always raises an AttributeError and changes nothing. */
    method AddActuatorAsWritten(actuator: string, actuatorType: string) returns (r: Result<()>)
      ensures r == Err(AttributeError)
    {
      r := Err(AttributeError);
    }

    /** `add_actuator` on the registry the constructor creates, the same
        way `add_sensor` works. */
    method AddActuator(actuator: string, actuatorType: string) returns (r: Result<()>)
      modifies this
      ensures r.Ok? <==> actuatorType in old(actuators)
      ensures r.Ok? ==> actuators == old(actuators)[actuatorType := old(actuators)[actuatorType] + [actuator]]
      ensures r.Err? ==> r == Err(KeyError) && actuators == old(actuators)
      ensures status == old(status) && sensors == old(sensors)
    {
      if actuatorType !in actuators {
        return Err(KeyError);
      }
      actuators := actuators[actuatorType := actuators[actuatorType] + [actuator]];
      r := Ok(());
    }
  }

  // ---------------------------------------------------------------------
  // Component ids of actuators

  /** The actuator constructors take `get_compon_details(id)[4]`. The
      lookup returns a dictionary, which has no key 4, or `None`, which
      cannot be indexed: as written the id can never be read. */
  function IdAsWritten(lookup: Result<PI.Lookup>): (r: Result<string>)
    ensures r.Err?
    ensures lookup.Ok? && lookup.value.Found? ==> r == Err(KeyError)
    ensures lookup.Ok? && lookup.value.Unknown? ==> r == Err(TypeError)
  {
    match lookup
    case Err(e) => Err(e)
    case Ok(Unknown(_)) => Err(TypeError)
    case Ok(Found(_)) => Err(KeyError)
  }

  /** The id the constructors evidently want: the `id` entry of the
      dictionary; `None` still cannot be indexed. */
  function ComponentId(lookup: Result<PI.Lookup>): Result<string> {
    match lookup
    case Err(e) => Err(e)
    case Ok(Unknown(_)) => Err(TypeError)
    case Ok(Found(d)) => Ok(d.id)
  }

  /** For a conventionally named water component the corrected reading
      gives its number, where the code as written fails. */
  lemma ComponentIdOfName(t: string, n: nat, tables: SI.Infra -> ComponentTables.Table)
    requires t in tables(SI.Water)
    requires forall i :: 0 <= i < |t| ==> IsAlpha(t[i])
    ensures var lookup := PI.LookupIn(SI.PrefixOf(SI.Water) + "_" + t + NatToString(n), tables);
      ComponentId(lookup) == Ok(NatToString(n)) && IdAsWritten(lookup) == Err(KeyError)
  {
    PI.NamingRoundTripIn(SI.Water, t, n, tables);
  }

  // ---------------------------------------------------------------------
  // Switching a control

  /** The control names after switching to `on`: both `on` and `off` are
      removed where present, then `on` is added. */
  function Switched(names: seq<string>, on: string, off: string): seq<string> {
    WaterControls.Without(WaterControls.Without(names, on), off) + [on]
  }

  /** After a switch, `on` is the only one of the pair that is present,
      every other name is kept, and the names stay distinct. */
  lemma SwitchedSpec(names: seq<string>, on: string, off: string)
    requires WaterControls.Distinct(names) && on != off
    ensures on in Switched(names, on, off) && off !in Switched(names, on, off)
    ensures forall x :: x != on && x != off ==> (x in Switched(names, on, off) <==> x in names)
    ensures WaterControls.Distinct(Switched(names, on, off))
  {
    var w := WaterControls.Without(WaterControls.Without(names, on), off);
    WaterControls.WithoutDistinct(names, on);
    WaterControls.WithoutDistinct(WaterControls.Without(names, on), off);
    assert on !in w;
  }

  /** What an actuator does with the control names: nothing unless its
      status is 1; then a failed link lookup raises and changes nothing,
      and otherwise the control is switched to `on`. */
  function Actuate(status: int, link: Result<string>, links: set<string>, names: seq<string>,
                   on: string, off: string): (Result<()>, seq<string>)
  {
    if status != 1 then (Ok(()), names)
    else if link.Err? then (Err(link.error), names)
    else if link.value !in links then (Err(KeyError), names)
    else (Ok(()), Switched(names, on, off))
  }

  /** An actuator either leaves the names alone or leaves exactly `on`
      of its pair, and it fails only when on and a link is missing. */
  lemma ActuateSpec(status: int, link: Result<string>, links: set<string>, names: seq<string>, on: string, off: string)
    requires WaterControls.Distinct(names) && on != off
    ensures var (r, names') := Actuate(status, link, links, names, on, off);
      WaterControls.Distinct(names')
      && (r.Ok? && status == 1 ==> on in names' && off !in names')
      && (r.Err? || status != 1 ==> names' == names)
      && (forall x :: x != on && x != off ==> (x in names' <==> x in names))
      && (r.Err? <==> status == 1 && (link.Err? || link.value !in links))
  {
    SwitchedSpec(names, on, off);
  }

  /** Replaces the names of the controls on `names` by their switched
      form, as the actuators do with `remove_control` and `add_control`. */
  method Switch(controls: WaterControls.Registry, on: string, off: string)
    requires controls.Valid() && on != off
    modifies controls
    ensures controls.Valid()
    ensures controls.names == Switched(old(controls.names), on, off)
  {
    controls.Discard(on);
    controls.Discard(off);
    var added := controls.Add(on);
    assert added.Ok?;
  }

  /** The open and close control names of a pump or a tank. */
  function OpenPump(pumpId: string): string { "open pump " + pumpId }
  function ClosePump(pumpId: string): string { "close pump " + pumpId }
  function OpenDischarge(tankId: string): string { "open discharge " + tankId }
  function CloseDischarge(tankId: string): string { "close discharge " + tankId }

  lemma ControlNamesDiffer(id: string)
    ensures OpenPump(id) != ClosePump(id) && OpenDischarge(id) != CloseDischarge(id)
  {
    assert OpenPump(id)[0] != ClosePump(id)[0];
    assert OpenDischarge(id)[0] != CloseDischarge(id)[0];
  }

  /** The discharge pipe of a tank, `W_PDP` followed by the tank number. */
  function DischargePipeOf(tankId: string): Result<string> {
    match WaterNetwork.DischargeIndex(tankId)
    case Err(e) => Err(e)
    case Ok(i) => Ok(WaterNetwork.DischargePipeName(i))
  }

  // ---------------------------------------------------------------------
  // Actuators

  class WaterPumpActuator {
    const name: string
    const pumpId: string
    const controllerId: string
    const kind: string
    const id: string
    var status: int

    /** The id is the `id` entry of the component's details, the
        corrected reading of the constructor (see `ComponentId`); a
        component whose id cannot be read makes no actuator. */
    constructor (pumpId: string, name: string, controllerId: string,
                 tables: SI.Infra -> ComponentTables.Table,
                 kind: string := "Water pump actuator", status: int := 1)
      requires ComponentId(PI.LookupIn(pumpId, tables)).Ok?
      ensures this.pumpId == pumpId && this.name == name && this.controllerId == controllerId
      ensures Ok(this.id) == ComponentId(PI.LookupIn(pumpId, tables))
      ensures this.kind == kind && this.status == status
    {
      this.name := name;
      this.pumpId := pumpId;
      this.controllerId := controllerId;
      this.kind := kind;
      this.id := ComponentId(PI.LookupIn(pumpId, tables)).value;
      this.status := status;
    }

    /** `turn_on_pump`: with status 1 the pump's controls become exactly
        its open control; otherwise only a message is printed. */
    method TurnOnPump(controls: WaterControls.Registry, links: set<string>) returns (r: Result<()>)
      requires controls.Valid()
      modifies controls
      ensures controls.Valid()
      ensures (r, controls.names) == Actuate(status, Ok(pumpId), links, old(controls.names), OpenPump(pumpId), ClosePump(pumpId))
    {
      ControlNamesDiffer(pumpId);
      if status == 1 {
        if pumpId !in links {
          return Err(KeyError);
        }
        Switch(controls, OpenPump(pumpId), ClosePump(pumpId));
      }
      r := Ok(());
    }

    /** `turn_off_pump`: the same with the close control. */
    method TurnOffPump(controls: WaterControls.Registry, links: set<string>) returns (r: Result<()>)
      requires controls.Valid()
      modifies controls
      ensures controls.Valid()
      ensures (r, controls.names) == Actuate(status, Ok(pumpId), links, old(controls.names), ClosePump(pumpId), OpenPump(pumpId))
    {
      ControlNamesDiffer(pumpId);
      if status == 1 {
        if pumpId !in links {
          return Err(KeyError);
        }
        Switch(controls, ClosePump(pumpId), OpenPump(pumpId));
      }
      r := Ok(());
    }
  }

  class DischargePipeActuator {
    const name: string
    const tankId: string
    const controllerId: string
    const kind: string
    const id: string
    var status: int

    /** The id is the `id` entry of the component's details, the
        corrected reading of the constructor (see `ComponentId`); a
        component whose id cannot be read makes no actuator. */
    constructor (tankId: string, name: string, controllerId: string,
                 tables: SI.Infra -> ComponentTables.Table,
                 kind: string := "Discharge pipe actuator", status: int := 1)
      requires ComponentId(PI.LookupIn(tankId, tables)).Ok?
      ensures this.tankId == tankId && this.name == name && this.controllerId == controllerId
      ensures Ok(this.id) == ComponentId(PI.LookupIn(tankId, tables))
      ensures this.kind == kind && this.status == status
    {
      this.name := name;
      this.tankId := tankId;
      this.controllerId := controllerId;
      this.kind := kind;
      this.id := ComponentId(PI.LookupIn(tankId, tables)).value;
      this.status := status;
    }

    /** `turn_on_discharge`: with status 1 the tank's discharge pipe must
        exist (an IndexError for a tank id without `W_T`, a KeyError for a
        missing pipe), and the tank's controls become exactly its open
        discharge control. */
    method TurnOnDischarge(controls: WaterControls.Registry, links: set<string>) returns (r: Result<()>)
      requires controls.Valid()
      modifies controls
      ensures controls.Valid()
      ensures (r, controls.names) == Actuate(status, DischargePipeOf(tankId), links, old(controls.names),
                                             OpenDischarge(tankId), CloseDischarge(tankId))
    {
      ControlNamesDiffer(tankId);
      if status == 1 {
        var index := WaterNetwork.DischargeIndex(tankId);
        if index.Err? {
          return Err(index.error);
        }
        if WaterNetwork.DischargePipeName(index.value) !in links {
          return Err(KeyError);
        }
        Switch(controls, OpenDischarge(tankId), CloseDischarge(tankId));
      }
      r := Ok(());
    }

    /** `turn_off_discharge`: the same with the close control. */
    method TurnOffDischarge(controls: WaterControls.Registry, links: set<string>) returns (r: Result<()>)
      requires controls.Valid()
      modifies controls
      ensures controls.Valid()
      ensures (r, controls.names) == Actuate(status, DischargePipeOf(tankId), links, old(controls.names),
                                             CloseDischarge(tankId), OpenDischarge(tankId))
    {
      ControlNamesDiffer(tankId);
      if status == 1 {
        var index := WaterNetwork.DischargeIndex(tankId);
        if index.Err? {
          return Err(index.error);
        }
        if WaterNetwork.DischargePipeName(index.value) !in links {
          return Err(KeyError);
        }
        Switch(controls, CloseDischarge(tankId), OpenDischarge(tankId));
      }
      r := Ok(());
    }
  }

  /** Which way the trigger switches the discharge: off at or below the
      minimum level, on at or above the maximum, otherwise not at all. */
  datatype Trigger = TurnOff | TurnOn | NoAction

  function TriggerFor(level: real, minLevel: real, maxLevel: real): (t: Trigger)
    ensures t == TurnOff <==> level <= minLevel
    ensures t == TurnOn <==> minLevel < level && maxLevel <= level
    ensures t == NoAction <==> minLevel < level < maxLevel
  {
    if level <= minLevel then TurnOff else if level >= maxLevel then TurnOn else NoAction
  }

  class ValveActuator {
    const name: string
    const kind: string
    const id: string
    var status: int

    constructor (name: string, id: string, kind: string := "water_plc", status: int := 1)
      ensures this.name == name && this.id == id && this.kind == kind && this.status == status
    {
      this.name := name;
      this.id := id;
      this.kind := kind;
      this.status := status;
    }

    /** `trigger_discharge_pipe_actuator`: when this actuator is on, the
        sensor's level decides whether the discharge actuator is turned
        off, turned on or left alone; when it is off, nothing changes. */
    method TriggerDischargePipeActuator(level: real, minLevel: real, maxLevel: real,
                                        actuator: DischargePipeActuator,
                                        controls: WaterControls.Registry, links: set<string>)
      returns (r: Result<()>)
      requires controls.Valid()
      modifies controls
      ensures controls.Valid()
      ensures status != 1 || TriggerFor(level, minLevel, maxLevel) == NoAction ==>
                r.Ok? && controls.names == old(controls.names)
      ensures status == 1 && TriggerFor(level, minLevel, maxLevel) == TurnOff ==>
                (r, controls.names) == Actuate(actuator.status, DischargePipeOf(actuator.tankId), links,
                                               old(controls.names), CloseDischarge(actuator.tankId),
                                               OpenDischarge(actuator.tankId))
      ensures status == 1 && TriggerFor(level, minLevel, maxLevel) == TurnOn ==>
                (r, controls.names) == Actuate(actuator.status, DischargePipeOf(actuator.tankId), links,
                                               old(controls.names), OpenDischarge(actuator.tankId),
                                               CloseDischarge(actuator.tankId))
    {
      r := Ok(());
      if status == 1 {
        if level <= minLevel {
          r := actuator.TurnOffDischarge(controls, links);
        } else if level >= maxLevel {
          r := actuator.TurnOnDischarge(controls, links);
        }
      }
    }
  }

  /** The discharge actuator of tank `W_T{n}` acts on the pipe that the
      cyber layer adds for that tank. */
  lemma DischargeActuatorPipe(n: nat)
    ensures DischargePipeOf("W_T" + NatToString(n)) == Ok("W_PDP" + NatToString(n))
  {
    WaterNetwork.DischargeNames(n);
  }
}
