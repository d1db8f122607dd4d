/** The replicated state record (`EntityNetworkAdapter.ServerResponse`): one snapshot of
    an entity that the server publishes and the clients apply as a whole. */
module ServerResponses {
  import opened Vectors

  /** The record's fields in declaration order. The rotation quaternion is represented
      by its Euler angles, the only view of it that the equality test uses. */
  datatype ServerResponse = ServerResponse(
    position: Vec3,
    velocity: Vec3,
    rotation: Vec3,
    faction: int,
    weaponGCDTimer: real,
    shell: real,
    core: real,
    energy: real,
    power: int,
    clientID: nat)
  {
    /** `IEquatable<ServerResponse>.Equals` exactly as written: the identifying fields
        must agree and every measured field must differ by MORE than its threshold. */
    predicate Equals(other: ServerResponse)
    {
      && clientID == other.clientID
      && SqrDistance(position, other.position) > 1.0
      && SqrDistance(velocity, other.velocity) > 1.0
      && SqrDistance(rotation, other.rotation) > 1.0
      && faction == other.faction
      && AbsDiff(weaponGCDTimer, other.weaponGCDTimer) > 0.1
      && power == other.power
      && AbsDiff(shell, other.shell) > 0.5
      && AbsDiff(core, other.core) > 0.5
      && AbsDiff(energy, other.energy) > 0.5
    }
  }

  /** The order in which `NetworkSerialize` writes the fields; the constructor takes its
      parameters in this same order. */
  const WireOrder: seq<string> :=
    ["position", "velocity", "rotation", "clientID", "faction",
     "weaponGCDTimer", "power", "shell", "core", "energy"]

  /** The struct's constructor, parameters in wire order. */
  function Make(position: Vec3, velocity: Vec3, rotation: Vec3, clientID: nat, faction: int,
                weaponGCDTimer: real, power: int, shell: real, core: real, energy: real): (r: ServerResponse)
    ensures r.position == position && r.velocity == velocity && r.rotation == rotation
    ensures r.clientID == clientID && r.faction == faction && r.weaponGCDTimer == weaponGCDTimer
    ensures r.power == power && r.shell == shell && r.core == core && r.energy == energy
  {
    ServerResponse(position, velocity, rotation, faction, weaponGCDTimer, shell, core, energy, power, clientID)
  }

  /** The value a fresh `NetworkVariable<ServerResponse>` holds: every field zero. */
  const DefaultResponse: ServerResponse := Make(Zero3, Zero3, Zero3, 0, 0, 0.0, 0, 0.0, 0.0, 0.0)

  /** The first record a server writes in `Start`: at rest at the origin with the identity
      rotation, an idle weapon, no power and full default health 1000/250/500. */
  function InitialResponse(owner: nat, faction: int): (r: ServerResponse)
    ensures r.clientID == owner && r.faction == faction
    ensures r.position == Zero3 && r.velocity == Zero3 && r.rotation == Zero3
    ensures r.weaponGCDTimer == 0.0 && r.power == 0
    ensures r.shell == 1000.0 && r.core == 250.0 && r.energy == 500.0
  {
    Make(Zero3, Zero3, Zero3, owner, faction, 0.0, 0, 1000.0, 250.0, 500.0)
  }

  /** As written, no record is Equal to itself: its distances to itself are all zero. */
  lemma EqualsIrreflexive(r: ServerResponse)
    ensures !r.Equals(r)
  {
  }

  /** The predicate is symmetric: each test compares a distance that does not depend on
      which record comes first. */
  lemma EqualsSymmetric(a: ServerResponse, b: ServerResponse)
    ensures a.Equals(b) <==> b.Equals(a)
  {
    SqrDistanceSymmetric(a.position, b.position);
    SqrDistanceSymmetric(a.velocity, b.velocity);
    SqrDistanceSymmetric(a.rotation, b.rotation);
  }

  lemma SqrDistanceSymmetric(a: Vec3, b: Vec3)
    ensures SqrDistance(a, b) == SqrDistance(b, a)
  {
  }

  /** Equal records are always distinct values, and records close in any one measured
      field are never Equal: the predicate can only hold of records that differ a lot. */
  lemma EqualsOnlyFarApart(a: ServerResponse, b: ServerResponse)
    ensures a.Equals(b) ==> a != b
    ensures AbsDiff(a.shell, b.shell) <= 0.5 ==> !a.Equals(b)
    ensures SqrDistance(a.position, b.position) <= 1.0 ==> !a.Equals(b)
  {
  }

  /** `a` with every measured field moved past its threshold and the identifying fields kept. */
  function Shifted(a: ServerResponse): (r: ServerResponse)
    ensures r.clientID == a.clientID && r.faction == a.faction && r.power == a.power
  {
    a.(position := Vec3(a.position.x + 2.0, a.position.y, a.position.z),
       velocity := Vec3(a.velocity.x + 2.0, a.velocity.y, a.velocity.z),
       rotation := Vec3(a.rotation.x + 2.0, a.rotation.y, a.rotation.z),
       weaponGCDTimer := a.weaponGCDTimer + 1.0,
       shell := a.shell + 1.0, core := a.core + 1.0, energy := a.energy + 1.0)
  }

  /** As written, `Equals` holds between every record and one that differs from it in every
      measured field, both ways round: it tests for large change, not for equality. */
  lemma EqualsHoldsForShifted(a: ServerResponse)
    ensures a.Equals(Shifted(a)) && Shifted(a).Equals(a)
    ensures a != Shifted(a)
  {
    var b := Shifted(a);
    assert SqrDistance(a.position, b.position) == 4.0;
    assert SqrDistance(a.velocity, b.velocity) == 4.0;
    assert SqrDistance(a.rotation, b.rotation) == 4.0;
    EqualsSymmetric(a, b);
  }

  /** A concrete instance: the initial record and one in which the entity has moved, turned,
      fired and lost health in every pool are Equal. */
  lemma EqualsHoldsAfterLargeChange()
    ensures InitialResponse(7, 1).Equals(
      Make(Vec3(10.0, 0.0, 0.0), Vec3(0.0, 5.0, 0.0), Vec3(0.0, 0.0, 90.0), 7, 1, 2.0, 0, 400.0, 100.0, 20.0))
  {
  }
}
