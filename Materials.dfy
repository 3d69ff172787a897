/**
 * The parts of `usdUtils` the converter reads: the role table
 * (`usdUtils.Input.names` and `usdUtils.Input.channels`, two parallel
 * lists) and the material description (`usdUtils.Material`,
 * `usdUtils.Map`).  `usdUtils` is not part of this model, so the role
 * table is a parameter of everything that consults it; the only facts
 * taken about it are the names and component counts the usage text of
 * usdzconvert.py documents.
 */
module Materials {
  import opened Outcomes

  /** One role: its name and its default texture channels.  The number of
      components a constant for the role takes is the length of the channels. */
  datatype Role = Role(name: string, defaultChannels: string)
  {
    function ComponentCount(): nat { |defaultChannels| }
  }

  const ColorRoles: set<string> := {"diffuseColor", "normal", "emissiveColor"}
  const ScalarRoles: set<string> :=
    {"metallic", "roughness", "occlusion", "opacity", "clearcoat", "clearcoatRoughness"}

  /** The table the usage text describes: nine distinct roles, three with three
      components and six with one. */
  ghost predicate DocumentedRoles(roles: seq<Role>) {
    && (forall i, j :: 0 <= i < j < |roles| ==> roles[i].name != roles[j].name)
    && (set i | 0 <= i < |roles| :: roles[i].name) == ColorRoles + ScalarRoles
    && (forall i :: 0 <= i < |roles| && roles[i].name in ColorRoles ==> roles[i].ComponentCount() == 3)
    && (forall i :: 0 <= i < |roles| && roles[i].name in ScalarRoles ==> roles[i].ComponentCount() == 1)
  }

  /** A material input: constant component tokens (`getParameters` returns the
      tokens, not numbers), or a texture map (`usdUtils.Map`). */
  datatype Input =
    | Constant(values: seq<string>)
    | TextureMap(channels: string, file: string, fallback: Option<seq<string>>, texCoordSet: string)

  /** `usdUtils.Material`: an optional explicit path and the inputs by role name. */
  datatype Material = Material(name: string, path: string, inputs: map<string, Input>)
  {
    predicate IsEmpty() { inputs == map[] }
  }

  /** `usdUtils.Material(name)` */
  function NewMaterial(name: string): (m: Material)
    ensures m.name == name && m.path == "" && m.IsEmpty()
  {
    Material(name, "", map[])
  }
}
