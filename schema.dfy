/** The value shapes a preset registry stores: the Preset / Set / Group layout
    that the registry's SCHEMA constant describes. The registry never validates
    against that schema beyond the name check, so the datatypes only fix the
    shape; the JSON numbers (`schema_version`, `players`, `num_words`) are
    carried as opaque integers. */
module Schema {

  datatype Option<+T> = None | Some(value: T)

  /** A group of words drawn from some word packs. */
  datatype Group = Group(wordpacks: seq<string>, numWords: int)

  /** One set of a preset (a round), with its player count and groups. */
  datatype PresetSet = PresetSet(name: string, groups: seq<Group>, players: int)

  /** A preset as a caller hands it over. The `name` property may be absent
      (`None`); the registry rejects an absent or empty name. */
  datatype Preset = Preset(name: Option<string>, schemaVersion: int, sets: seq<PresetSet>)

  /** JavaScript truthiness of `obj.name`: present and not the empty string. */
  predicate HasName(p: Preset)
    ensures HasName(p) <==> p.name != None && p.name != Some("")
  {
    p.name.Some? && p.name.value != ""
  }

  /** The key a named preset is stored under. */
  function Key(p: Preset): (k: string)
    requires HasName(p)
    ensures k != "" && p.name == Some(k)
  {
    p.name.value
  }
}
