// The material tables of src/data/material_database.rs: a material is a
// name, a mass and its list of isotopes; the database is the list of
// materials, searched by name.

module MaterialDatabase {
  import opened Wrappers

  /** An isotope of a material: its identifier in the nuclear data and its
      atomic fraction. */
  datatype Isotope = Isotope(gid: nat, atomFraction: real)

  /** Material: its isotope list grows in place. */
  class Material {
    var name: string
    var mass: real
    var iso: seq<Isotope>

    constructor (name: string, mass: real)
      ensures this.name == name && this.mass == mass && iso == []
    {
      this.name := name;
      this.mass := mass;
      iso := [];
    }

    /** add_isotope: appends the isotope; name, mass and the earlier
        isotopes are kept. */
    method AddIsotope(isotope: Isotope)
      modifies this
      ensures iso == old(iso) + [isotope]
      ensures |iso| == old(|iso|) + 1 && iso[|iso| - 1] == isotope
      ensures name == old(name) && mass == old(mass)
    {
      iso := iso + [isotope];
    }
  }

  /** The index of the first name equal to `name`, searching from `from`. */
  function Position(names: seq<string>, name: string, from: nat): (r: Option<nat>)
    requires from <= |names|
    ensures r.Some? ==> from <= r.value < |names| && names[r.value] == name
    ensures r.Some? ==> forall j :: from <= j < r.value ==> names[j] != name
    ensures r.None? <==> forall j :: from <= j < |names| ==> names[j] != name
    decreases |names| - from
  {
    if from == |names| then None
    else if names[from] == name then Some(from)
    else Position(names, name, from + 1)
  }

  /** A name appended after a list that already holds it does not change
      where it is found: the first material of a name hides later ones. */
  lemma PositionAppend(names: seq<string>, extra: string, name: string)
    ensures Position(names, name, 0).Some? ==> Position(names + [extra], name, 0) == Position(names, name, 0)
    ensures Position(names, name, 0).None? ==>
      Position(names + [extra], name, 0) == (if extra == name then Some(|names|) else None)
  {
    var all := names + [extra];
    assert forall j :: 0 <= j < |names| ==> all[j] == names[j];
    assert all[|names|] == extra;
    var p := Position(names, name, 0);
    if p.Some? {
      assert all[p.value] == name;
    }
  }

  /** MaterialDatabase: the list of materials. */
  class MaterialDatabase {
    var mat: seq<Material>

    constructor ()
      ensures mat == []
    {
      mat := [];
    }

    /** The names of the materials, in order. */
    function Names(): (r: seq<string>)
      reads this, mat
      ensures |r| == |mat| && forall i :: 0 <= i < |mat| ==> r[i] == mat[i].name
    {
      NamesOf(mat)
    }

    /** add_material: appends the material, keeping the earlier ones; a
        name already present keeps being found where it was. */
    method AddMaterial(material: Material)
      modifies this
      ensures mat == old(mat) + [material]
      ensures Names() == old(Names()) + [material.name]
      ensures old(FindMaterial(material.name)).Some? ==> FindMaterial(material.name) == old(FindMaterial(material.name))
      ensures old(FindMaterial(material.name)).None? ==> FindMaterial(material.name) == Some(old(|mat|))
    {
      ghost var before := Names();
      mat := mat + [material];
      assert Names() == before + [material.name];
      PositionAppend(before, material.name, material.name);
    }

    /** find_material: the index of the first material of that name, None
        when no material has it. */
    function FindMaterial(name: string): (r: Option<nat>)
      reads this, mat
      ensures r.Some? ==> r.value < |mat| && mat[r.value].name == name
      ensures r.Some? ==> forall j :: 0 <= j < r.value ==> mat[j].name != name
      ensures r.None? <==> forall j :: 0 <= j < |mat| ==> mat[j].name != name
    {
      Position(Names(), name, 0)
    }
  }

  /** The names of a list of materials. */
  function NamesOf(ms: seq<Material>): (r: seq<string>)
    reads set m | m in ms
    ensures |r| == |ms| && forall i :: 0 <= i < |ms| ==> r[i] == ms[i].name
  {
    if ms == [] then [] else NamesOf(ms[..|ms| - 1]) + [ms[|ms| - 1].name]
  }
}
