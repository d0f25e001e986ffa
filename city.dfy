/**
 * The grid movement of the city simulation (src/threadcity/city.rs):
 * creating a city, spawning vehicles, one movement step and the snapshot
 * the display reads. Crossing a bridge is not performed here: a step
 * returns the crossings it would hand to `cross_bridge`.
 */
module ThreadCity {

  datatype VehicleType = Car | Ambulance | Boat | SupplyTruck

  datatype Vehicle = Vehicle(id: nat, vtype: VehicleType, pos: (nat, nat), dest: (nat, nat))

  /** A bridge, by its id only. */
  datatype Bridge = Bridge(id: nat)

  /** A crossing request: the vehicle's type and the bridge id. */
  type Crossing = (VehicleType, nat)

  predicate Arrived(v: Vehicle)
  {
    v.pos == v.dest
  }

  predicate AllArrived(vs: seq<Vehicle>)
  {
    forall i :: 0 <= i < |vs| ==> Arrived(vs[i])
  }

  /** One cell toward `d` along one axis. */
  function Toward(x: nat, d: nat): nat
  {
    if x < d then x + 1 else if x > d then x - 1 else x
  }

  /** Where one step leaves a vehicle. */
  function Move(v: Vehicle): Vehicle
  {
    if Arrived(v) then v
    else v.(pos := (Toward(v.pos.0, v.dest.0), Toward(v.pos.1, v.dest.1)))
  }

  /** The crossing a vehicle requests in a step: a moving vehicle whose new row is 1, 2 or 3. */
  function CrossingOf(v: Vehicle): seq<Crossing>
  {
    var y := Move(v).pos.1;
    if !Arrived(v) && 1 <= y <= 3 then [(v.vtype, y)] else []
  }

  /** The crossings of one step, in vehicle order. */
  function Crossings(vs: seq<Vehicle>): seq<Crossing>
  {
    if vs == [] then [] else Crossings(vs[..|vs| - 1]) + CrossingOf(vs[|vs| - 1])
  }

  /** Every vehicle moved once. */
  function StepAll(vs: seq<Vehicle>): seq<Vehicle>
  {
    seq(|vs|, i requires 0 <= i < |vs| => Move(vs[i]))
  }

  /** n steps in a row. */
  function StepN(vs: seq<Vehicle>, n: nat): seq<Vehicle>
    decreases n
  {
    if n == 0 then vs else StepN(StepAll(vs), n - 1)
  }

  function Abs(a: int): nat
  {
    if a < 0 then -a else a
  }

  function Max(a: nat, b: nat): nat
  {
    if a < b then b else a
  }

  /** Remaining distance in steps: the larger of the two axis gaps. */
  function Distance(v: Vehicle): nat
  {
    Max(Abs(v.pos.0 - v.dest.0), Abs(v.pos.1 - v.dest.1))
  }

  /** The largest remaining distance of a fleet. */
  function MaxDistance(vs: seq<Vehicle>): (m: nat)
    ensures forall i :: 0 <= i < |vs| ==> Distance(vs[i]) <= m
  {
    if vs == [] then 0 else Max(Distance(vs[0]), MaxDistance(vs[1..]))
  }

  /**
   * A step leaves the id, type and destination alone; a vehicle that has
   * arrived stays put, and any other gets exactly one step closer.
   */
  lemma MoveFacts(v: Vehicle)
    ensures Move(v).id == v.id && Move(v).vtype == v.vtype && Move(v).dest == v.dest
    ensures Arrived(v) ==> Move(v) == v
    ensures !Arrived(v) ==> Distance(Move(v)) == Distance(v) - 1
    ensures Arrived(v) <==> Distance(v) == 0
  {
  }

  /** Each crossing names bridge 1, 2 or 3, so `bridges[b - 1]` is in range. */
  lemma {:induction false} CrossingsNameBridges(vs: seq<Vehicle>)
    ensures forall k :: 0 <= k < |Crossings(vs)| ==> 1 <= Crossings(vs)[k].1 <= 3
    ensures |Crossings(vs)| <= |vs|
  {
    if vs != [] {
      CrossingsNameBridges(vs[..|vs| - 1]);
    }
  }

  lemma {:induction false} StepNDistance(vs: seq<Vehicle>, n: nat)
    ensures |StepN(vs, n)| == |vs|
    ensures forall i :: 0 <= i < |vs| ==>
      Distance(StepN(vs, n)[i]) == if Distance(vs[i]) <= n then 0 else Distance(vs[i]) - n
    decreases n
  {
    if n > 0 {
      var next := StepAll(vs);
      forall i | 0 <= i < |vs| ensures Distance(next[i]) == if Distance(vs[i]) == 0 then 0 else Distance(vs[i]) - 1 {
        MoveFacts(vs[i]);
      }
      StepNDistance(next, n - 1);
    }
  }

  /** The largest distance is that of some vehicle, so the bound is tight. */
  lemma {:induction false} MaxDistanceAttained(vs: seq<Vehicle>)
    requires vs != []
    ensures exists i :: 0 <= i < |vs| && Distance(vs[i]) == MaxDistance(vs)
  {
    if |vs| > 1 && MaxDistance(vs[1..]) > Distance(vs[0]) {
      MaxDistanceAttained(vs[1..]);
      var k :| 0 <= k < |vs[1..]| && Distance(vs[1..][k]) == MaxDistance(vs[1..]);
      assert vs[k + 1] == vs[1..][k];
    } else {
      assert Distance(vs[0]) == MaxDistance(vs);
    }
  }

  /**
   * After as many steps as the largest remaining distance every vehicle
   * has arrived, so the next step reports it: the driver loop ends.
   */
  lemma EventuallyAllArrive(vs: seq<Vehicle>, n: nat)
    requires n >= MaxDistance(vs)
    ensures AllArrived(StepN(vs, n))
  {
    StepNDistance(vs, n);
    forall i | 0 <= i < |vs| ensures Arrived(StepN(vs, n)[i]) {
      MoveFacts(StepN(vs, n)[i]);
    }
  }

  class City {
    var width: nat
    var height: nat
    var vehicles: seq<Vehicle>
    var nextId: nat
    var bridges: seq<Bridge>

    /** Vehicle ids strictly increase and are all below `nextId`. */
    ghost predicate Valid()
      reads this
    {
      && (forall i, j :: 0 <= i < j < |vehicles| ==> vehicles[i].id < vehicles[j].id)
      && (forall i :: 0 <= i < |vehicles| ==> vehicles[i].id < nextId)
      && |bridges| == 3
    }

    /** City::new: no vehicles, next id 0, bridges 1, 2 and 3. */
    constructor (width: nat, height: nat)
      ensures Valid()
      ensures this.width == width && this.height == height
      ensures vehicles == [] && nextId == 0
      ensures bridges == [Bridge(1), Bridge(2), Bridge(3)]
    {
      this.width := width;
      this.height := height;
      vehicles := [];
      nextId := 0;
      bridges := [Bridge(1), Bridge(2), Bridge(3)];
    }

    /** Appends a vehicle with the next id at `start`, then advances the id. */
    method SpawnVehicle(start: (nat, nat), dest: (nat, nat), vtype: VehicleType)
      requires Valid()
      modifies this`vehicles, this`nextId
      ensures Valid()
      ensures vehicles == old(vehicles) + [Vehicle(old(nextId), vtype, start, dest)]
      ensures nextId == old(nextId) + 1
    {
      var v := Vehicle(nextId, vtype, start, dest);
      nextId := nextId + 1;
      vehicles := vehicles + [v];
    }

    /**
     * One movement step: every vehicle not yet at its destination moves a
     * cell per axis toward it. Returns whether all had already arrived,
     * and the crossings in vehicle order.
     */
    method Step() returns (allArrived: bool, crossings: seq<Crossing>)
      modifies this`vehicles
      ensures old(Valid()) ==> Valid()
      ensures vehicles == StepAll(old(vehicles))
      ensures allArrived <==> AllArrived(old(vehicles))
      ensures crossings == Crossings(old(vehicles))
    {
      allArrived := true;
      crossings := [];
      var i := 0;
      while i < |vehicles|
        invariant 0 <= i <= |vehicles| == |old(vehicles)|
        invariant forall k :: 0 <= k < i ==> vehicles[k] == Move(old(vehicles)[k])
        invariant forall k :: i <= k < |vehicles| ==> vehicles[k] == old(vehicles)[k]
        invariant allArrived <==> AllArrived(old(vehicles)[..i])
        invariant crossings == Crossings(old(vehicles)[..i])
      {
        assert old(vehicles)[..i + 1][..i] == old(vehicles)[..i];
        var v := vehicles[i];
        if v.pos != v.dest {
          allArrived := false;
          var (x, y) := v.pos;
          var (dx, dy) := v.dest;
          var newX := if x < dx then x + 1 else if x > dx then x - 1 else x;
          var newY := if y < dy then y + 1 else if y > dy then y - 1 else y;
          vehicles := vehicles[i := v.(pos := (newX, newY))];
          if newY == 1 {
            crossings := crossings + [(v.vtype, 1)];
          } else if newY == 2 {
            crossings := crossings + [(v.vtype, 2)];
          } else if newY == 3 {
            crossings := crossings + [(v.vtype, 3)];
          }
        }
        i := i + 1;
      }
      assert old(vehicles)[..i] == old(vehicles);
      forall k | 0 <= k < |vehicles| ensures vehicles[k].id == old(vehicles)[k].id {
        MoveFacts(old(vehicles)[k]);
      }
    }

    /** The width, the height and a copy of the vehicles; the city is unchanged. */
    method Snapshot() returns (w: nat, h: nat, vs: seq<Vehicle>)
      ensures w == width && h == height && vs == vehicles
    {
      w, h, vs := width, height, vehicles;
    }
  }
}
