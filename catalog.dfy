/**
  The type catalog of `core.rs` (`ObjectTypes`): the weapon and unit types of
  the reference scenario, pushed into two vectors at construction, and their
  lookup by name (first match wins; an unknown name is a panic).
 */
module Catalog {
  import opened Wrappers

  datatype UnitClass = Infantry | Vehicle

  datatype WeaponType = WeaponType(name: string, damage: int, ap: int, accuracy: int, maxDistance: int)

  datatype UnitType = UnitType(
    name: string,
    unitClass: UnitClass,
    count: int,
    size: int,
    armor: int,
    toughness: int,
    weaponSkill: int,
    weaponTypeId: int,
    movePoints: int)

  function Cannon(): WeaponType {
    WeaponType("cannon", 9, 9, 5, 5)
  }

  function Rifle(): WeaponType {
    WeaponType("rifle", 2, 1, 5, 3)
  }

  function Tank(cannonId: int): UnitType {
    UnitType("tank", Vehicle, 1, 6, 11, 9, 5, cannonId, 5)
  }

  function Soldier(rifleId: int): UnitType {
    UnitType("soldier", Infantry, 4, 4, 1, 2, 5, rifleId, 3)
  }

  /** Every unit type's weapon is in the weapon table. */
  predicate WellFormed(unitTypes: seq<UnitType>, weaponTypes: seq<WeaponType>) {
    forall i :: 0 <= i < |unitTypes| ==> 0 <= unitTypes[i].weaponTypeId < |weaponTypes|
  }

  /** The index of the first element of `s` whose name is `key`, if there is one. */
  function FindByName<T>(s: seq<T>, nameOf: T -> string, key: string): (r: Option<nat>)
    ensures r.Some? ==> r.value < |s| && nameOf(s[r.value]) == key
    ensures r.Some? ==> forall j :: 0 <= j < r.value ==> nameOf(s[j]) != key
    ensures r.None? <==> forall j :: 0 <= j < |s| ==> nameOf(s[j]) != key
  {
    if |s| == 0 then None
    else if nameOf(s[0]) == key then Some(0)
    else
      match FindByName(s[1..], nameOf, key)
      case None => None
      case Some(i) => Some(i + 1)
  }

  function UnitTypeName(t: UnitType): string {
    t.name
  }

  function WeaponTypeName(t: WeaponType): string {
    t.name
  }

  /** The index of the first unit type called `name`, if there is one. */
  function FindUnitType(types: seq<UnitType>, name: string): Option<nat> {
    FindByName(types, UnitTypeName, name)
  }

  /** The index of the first weapon type called `name`, if there is one. */
  function FindWeaponType(types: seq<WeaponType>, name: string): Option<nat> {
    FindByName(types, WeaponTypeName, name)
  }

  /** In the reference tables each name is found at the index it was pushed to. */
  lemma ReferenceLookups()
    ensures FindWeaponType([Cannon(), Rifle()], "cannon") == Some(0)
    ensures FindWeaponType([Cannon(), Rifle()], "rifle") == Some(1)
    ensures FindUnitType([Tank(0), Soldier(1)], "tank") == Some(0)
    ensures FindUnitType([Tank(0), Soldier(1)], "soldier") == Some(1)
  {
    assert [Cannon(), Rifle()][1..] == [Rifle()];
    assert [Tank(0), Soldier(1)][1..] == [Soldier(1)];
  }

  /** `ObjectTypes`: the unit and weapon tables. */
  class ObjectTypes {
    var unitTypes: seq<UnitType>
    var weaponTypes: seq<WeaponType>

    /** `ObjectTypes::new`: weapons first, then the units that refer to them by name. */
    constructor ()
      ensures weaponTypes == [Cannon(), Rifle()]
      ensures unitTypes == [Tank(0), Soldier(1)]
      ensures WellFormed(unitTypes, weaponTypes)
    {
      unitTypes := [];
      weaponTypes := [];
      new;
      GetWeaponTypes();
      assert weaponTypes == [Cannon(), Rifle()];
      ReferenceLookups();
      GetUnitTypes();
    }

    /** `get_weapon_types`: pushes the cannon and the rifle. */
    method GetWeaponTypes()
      modifies this`weaponTypes
      ensures weaponTypes == old(weaponTypes) + [Cannon(), Rifle()]
    {
      weaponTypes := weaponTypes + [Cannon()];
      weaponTypes := weaponTypes + [Rifle()];
    }

    /** `get_unit_types`: pushes the tank (armed with the cannon) and the soldier (armed with the rifle). */
    method GetUnitTypes()
      requires FindWeaponType(weaponTypes, "cannon").Some? && FindWeaponType(weaponTypes, "rifle").Some?
      modifies this`unitTypes
      ensures unitTypes == old(unitTypes)
        + [Tank(FindWeaponType(weaponTypes, "cannon").value), Soldier(FindWeaponType(weaponTypes, "rifle").value)]
    {
      var cannonId := GetWeaponTypeId("cannon");
      var rifleId := GetWeaponTypeId("rifle");
      unitTypes := unitTypes + [Tank(cannonId)];
      unitTypes := unitTypes + [Soldier(rifleId)];
    }

    /** `get_unit_type_id_opt`: a scan for the first unit type with that name. */
    method GetUnitTypeIdOpt(name: string) returns (r: Option<nat>)
      ensures r == FindUnitType(unitTypes, name)
    {
      var i := 0;
      while i < |unitTypes|
        invariant 0 <= i <= |unitTypes|
        invariant forall j :: 0 <= j < i ==> unitTypes[j].name != name
      {
        if unitTypes[i].name == name {
          return Some(i);
        }
        i := i + 1;
      }
      r := None;
    }

    /** `get_unit_type`: the type at a table index (out of range is a panic). */
    function GetUnitType(id: int): UnitType
      reads this
      requires 0 <= id < |unitTypes|
    {
      unitTypes[id]
    }

    /** `get_unit_type_id`: as `get_unit_type_id_opt`, but an unknown name is a panic. */
    method GetUnitTypeId(name: string) returns (id: nat)
      requires FindUnitType(unitTypes, name).Some?
      ensures id == FindUnitType(unitTypes, name).value
    {
      var r := GetUnitTypeIdOpt(name);
      id := r.value;
    }

    /** `get_weapon_type_id`: a scan for the first weapon type with that name; an unknown name is a panic. */
    method GetWeaponTypeId(name: string) returns (id: nat)
      requires FindWeaponType(weaponTypes, name).Some?
      ensures id == FindWeaponType(weaponTypes, name).value
    {
      var i := 0;
      while i < |weaponTypes|
        invariant 0 <= i <= |weaponTypes|
        invariant forall j :: 0 <= j < i ==> weaponTypes[j].name != name
      {
        if weaponTypes[i].name == name {
          return i;
        }
        i := i + 1;
      }
      assert false;
    }
  }
}
