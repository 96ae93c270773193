/**
 * The actor record read by the dice roller and the sheets. A field that is null or
 * undefined is `None`; numeric fields hold the result of `Number(...)` on the stored value.
 */
module Records {
  import opened Wrappers
  import opened JsValues
  import opened OrderedMaps

  /** An entry of `system.traits`; `caption` is the stored `label` (a keyword in Dafny). */
  datatype TraitData = TraitData(caption: Option<string>, value: Option<Number>)

  /** An entry of `system.skills`. */
  datatype SkillData = SkillData(caption: Option<string>, traitKey: Option<string>, value: Option<Number>)

  /** The parts of an actor's `system` object that the core reads or fills in. */
  datatype SystemData = SystemData(
    details: Option<Entries<string>>,
    traits: Option<Entries<TraitData>>,
    skills: Option<Entries<SkillData>>,
    notes: Option<string>)

  datatype Actor = Actor(name: string, system: SystemData)

  /** `CONFIG.BNW.traits` as the system's start-up hook sets it when nothing else has. */
  const DefaultConfigTraits: seq<string> := ["body", "mind", "spirit"]

  /** Truthiness of an optional string: present and non-empty. */
  predicate NonEmpty(s: Option<string>) {
    s.Some? && s.value != ""
  }

  /** Every object-valued map the record holds has unique keys, as a JavaScript object does. */
  predicate WellFormed(system: SystemData) {
    && (system.details.Some? ==> UniqueKeys(system.details.value))
    && (system.traits.Some? ==> UniqueKeys(system.traits.value))
    && (system.skills.Some? ==> UniqueKeys(system.skills.value))
  }
}
