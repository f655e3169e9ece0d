/**
 The command catalog: a fixed mapping from a section key to the section's
 title, sidebar icon and ordered list of commands. It is written as a
 JavaScript object literal, so its keys also carry the order in which the
 sidebar lists them.
 */
module Catalog {

  datatype Option<T> = None | Some(value: T)

  /** The glyph a section shows in the sidebar; the icon library draws it. */
  datatype Icon = CommandIcon | MusicIcon | ShieldIcon | GamepadIcon | SparklesIcon

  /** One documented bot command. Only the name is kept: descriptions and
      usage strings are static text that no logic reads. */
  datatype Command = Command(name: string)

  datatype Section = Section(title: string, icon: Icon, commands: seq<Command>)

  /** The `sections` object: its keys in declaration order (the order
      `Object.entries` yields them) and the mapping from key to section. */
  datatype Catalog = Catalog(keys: seq<string>, sections: map<string, Section>)

  predicate DistinctKeys(keys: seq<string>) {
    forall i, j :: 0 <= i < j < |keys| ==> keys[i] != keys[j]
  }

  /** The key order lists every key of the mapping exactly once. */
  predicate WellFormed(c: Catalog) {
    && DistinctKeys(c.keys)
    && (forall i :: 0 <= i < |c.keys| ==> c.keys[i] in c.sections)
    && (forall k :: k in c.sections ==> k in c.keys)
  }

  /** Every section lists at least one command. */
  predicate NoEmptySection(c: Catalog) {
    forall k :: k in c.sections ==> |c.sections[k].commands| > 0
  }

  /** `sections[key]`: the section stored under `key`, or `None` where the
      object yields `undefined`. */
  function Lookup(c: Catalog, key: string): (r: Option<Section>)
    ensures r.Some? <==> key in c.sections
    ensures r.Some? ==> r.value == c.sections[key]
  {
    if key in c.sections then Some(c.sections[key]) else None
  }

  /** Every key the sidebar iterates over looks up a section, so a key taken
      from the sidebar can never make the lookup fail; and a key the sidebar
      does not offer has no section. */
  lemma SidebarKeysResolve(c: Catalog, key: string)
    requires WellFormed(c)
    ensures Lookup(c, key).Some? <==> key in c.keys
  {
  }
}
