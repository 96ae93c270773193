/**
 * The item (power) sheet's option lists: the trait choices, merged from the system's default
 * traits, the configured trait keys, the owning actor's traits and the item's current trait;
 * the skill choices, labelled `Label (Trait)` and sorted; and the fallback default trait key.
 */
module ItemSheet {
  import opened Wrappers
  import opened OrderedMaps
  import opened Text
  import opened Sorting
  import opened Records

  /** An element of `context.traitOptions`. */
  datatype TraitOption = TraitOption(key: string, caption: string)

  /** An element of `context.skillOptions`. */
  datatype SkillOption = SkillOption(key: string, caption: string)

  /** `data?.label ?? this._capitalize(key)`. */
  function TraitLabel(key: string, data: TraitData): string {
    data.caption.GetOr(Capitalize(key))
  }

  /** `Array.from(options.entries()).map(([key, label]) => ({ key, label }))`. */
  function ToTraitOptions(m: Entries<string>): (r: seq<TraitOption>)
    ensures |r| == |m|
    ensures forall i :: 0 <= i < |r| ==> r[i].key == m[i].0 && r[i].caption == m[i].1
  {
    seq(|m|, i requires 0 <= i < |m| => TraitOption(m[i].0, m[i].1))
  }

  function TraitOptionKeys(options: seq<TraitOption>): seq<string> {
    seq(|options|, i requires 0 <= i < |options| => options[i].key)
  }

  lemma ToTraitOptionsKeys(m: Entries<string>)
    ensures TraitOptionKeys(ToTraitOptions(m)) == Keys(m)
  {
  }

  /** The actor's `system.traits`, or nothing when the item has no actor. */
  function ActorTraits(actor: Option<Actor>): Entries<TraitData> {
    if actor.Some? then actor.value.system.traits.GetOr([]) else []
  }

  function ActorSkills(actor: Option<Actor>): Option<Entries<SkillData>> {
    if actor.Some? then actor.value.system.skills else None
  }

  /** The trait option map after the default, configured and actor passes. */
  function MergedTraits(defaults: Entries<TraitData>, configTraits: seq<string>, actor: Option<Actor>): Entries<string> {
    var fromDefaults := SetAllBy([], defaults, TraitLabel);
    var withConfig := SetMissingAll(fromDefaults, configTraits, Capitalize);
    if actor.Some? then SetAllBy(withConfig, ActorTraits(actor), TraitLabel) else withConfig
  }

  /** The specification of `_prepareTraitOptions`, as the ordered map it builds. */
  function TraitOptionMap(defaults: Entries<TraitData>, configTraits: seq<string>, actor: Option<Actor>, currentTrait: string): Entries<string> {
    var merged := MergedTraits(defaults, configTraits, actor);
    if currentTrait != "" && currentTrait !in Keys(merged) then Set(merged, currentTrait, Capitalize(currentTrait)) else merged
  }

  /** `for (const [key, data] of Object.entries(traits)) options.set(key, data?.label ?? this._capitalize(key))`. */
  method SetTraitLabels(options0: Entries<string>, traits: Entries<TraitData>) returns (options: Entries<string>)
    ensures options == SetAllBy(options0, traits, TraitLabel)
  {
    options := options0;
    var i := 0;
    while i < |traits|
      invariant 0 <= i <= |traits|
      invariant options == SetAllBy(options0, traits[..i], TraitLabel)
    {
      var key := traits[i].0;
      var data := traits[i].1;
      SetAllBySnoc(options0, traits, i, TraitLabel);
      options := Set(options, key, data.caption.GetOr(Capitalize(key)));
      i := i + 1;
    }
    assert traits[..|traits|] == traits;
  }

  /** `for (const key of CONFIG.BNW?.traits ?? []) if (!options.has(key)) options.set(key, this._capitalize(key))`. */
  method AddConfigTraitOptions(options0: Entries<string>, configTraits: seq<string>) returns (options: Entries<string>)
    ensures options == SetMissingAll(options0, configTraits, Capitalize)
  {
    options := options0;
    var i := 0;
    while i < |configTraits|
      invariant 0 <= i <= |configTraits|
      invariant options == SetMissingAll(options0, configTraits[..i], Capitalize)
    {
      var key := configTraits[i];
      SetMissingAllSnoc(options0, configTraits, i, Capitalize);
      if Get(options, key).None? {
        options := Set(options, key, Capitalize(key));
      }
      i := i + 1;
    }
    assert configTraits[..|configTraits|] == configTraits;
  }

  /** `_prepareTraitOptions(actor, currentTrait)`; `defaults` is what `_getDefaultTraitData` returns. */
  method PrepareTraitOptions(defaults: Entries<TraitData>, configTraits: seq<string>, actor: Option<Actor>, currentTrait: string)
    returns (traitOptions: seq<TraitOption>)
    ensures traitOptions == PrepareTraitOptionsSpec(defaults, configTraits, actor, currentTrait)
  {
    var options := SetTraitLabels([], defaults);
    options := AddConfigTraitOptions(options, configTraits);
    if actor.Some? {
      options := SetTraitLabels(options, actor.value.system.traits.GetOr([]));
    }
    if currentTrait != "" && Get(options, currentTrait).None? {
      options := Set(options, currentTrait, Capitalize(currentTrait));
    }
    traitOptions := ToTraitOptions(options);
  }

  /** The order of the trait options: defaults, then new configured keys, then new actor keys, then the current trait. */
  lemma TraitOptionOrder(defaults: Entries<TraitData>, configTraits: seq<string>, actor: Option<Actor>, currentTrait: string)
    ensures var r := TraitOptionMap(defaults, configTraits, actor, currentTrait);
      var merged := AppendNew(AppendNew(AppendNew([], Keys(defaults)), configTraits), Keys(ActorTraits(actor)));
      && UniqueKeys(r)
      && Keys(r) == if currentTrait != "" then AppendNew(merged, [currentTrait]) else merged
  {
    var m := MergedTraits(defaults, configTraits, actor);
    assert UniqueKeys<string>([]);
    if actor.None? {
      assert Keys(ActorTraits(actor)) == [];
    }
    if currentTrait != "" {
      assert [currentTrait][..0] == [];
    }
  }

  /** Each option's label: an actor label beats a default label; a configured or current key alone gets its capitalised name. */
  lemma TraitOptionLabel(defaults: Entries<TraitData>, configTraits: seq<string>, actor: Option<Actor>, currentTrait: string, k: string)
    ensures Get(TraitOptionMap(defaults, configTraits, actor, currentTrait), k) ==
      if actor.Some? && Get(ActorTraits(actor), k).Some? then Some(TraitLabel(k, Get(ActorTraits(actor), k).value))
      else if Get(defaults, k).Some? then Some(TraitLabel(k, Get(defaults, k).value))
      else if k in configTraits || (k == currentTrait && k != "") then Some(Capitalize(k))
      else None
  {
    var fromDefaults := SetAllBy([], defaults, TraitLabel);
    var withConfig := SetMissingAll(fromDefaults, configTraits, Capitalize);
    var merged := MergedTraits(defaults, configTraits, actor);
    assert UniqueKeys<string>([]);
    GetSetAllBy([], defaults, TraitLabel, k);
    GetSetMissingAll(fromDefaults, configTraits, Capitalize, k);
    if actor.Some? {
      GetSetAllBy(withConfig, ActorTraits(actor), TraitLabel, k);
    }
    if currentTrait != "" && currentTrait !in Keys(merged) {
      GetSet(merged, currentTrait, Capitalize(currentTrait), k);
    }
  }

  /** A non-empty current trait is always offered. */
  lemma CurrentTraitOffered(defaults: Entries<TraitData>, configTraits: seq<string>, actor: Option<Actor>, currentTrait: string)
    requires currentTrait != ""
    ensures currentTrait in TraitOptionKeys(PrepareTraitOptionsSpec(defaults, configTraits, actor, currentTrait))
  {
    var m := TraitOptionMap(defaults, configTraits, actor, currentTrait);
    assert currentTrait in Keys(m);
    var i :| 0 <= i < |m| && Keys(m)[i] == currentTrait;
    assert TraitOptionKeys(ToTraitOptions(m))[i] == currentTrait;
  }

  function PrepareTraitOptionsSpec(defaults: Entries<TraitData>, configTraits: seq<string>, actor: Option<Actor>, currentTrait: string): seq<TraitOption> {
    ToTraitOptions(TraitOptionMap(defaults, configTraits, actor, currentTrait))
  }

  /** `_defaultTraitKey(traitOptions)`; `defaults` is what `_getDefaultTraitData` returns. */
  function DefaultTraitKey(traitOptions: seq<TraitOption>, configTraits: seq<string>, defaults: Entries<TraitData>): (r: string)
    ensures |traitOptions| > 0 && traitOptions[0].key != "" ==> r == traitOptions[0].key
    ensures !(|traitOptions| > 0 && traitOptions[0].key != "") && |configTraits| > 0 ==> r == configTraits[0]
    ensures !(|traitOptions| > 0 && traitOptions[0].key != "") && |configTraits| == 0 ==>
      r == if |defaults| > 0 && defaults[0].0 != "" then defaults[0].0 else "body"
  {
    if |traitOptions| > 0 && traitOptions[0].key != "" then traitOptions[0].key
    else if |configTraits| > 0 then configTraits[0]
    else if |defaults| > 0 && defaults[0].0 != "" then defaults[0].0
    else "body"
  }

  /** When the first configured trait key is non-empty, the default trait key of the trait options is a non-empty key among them. */
  lemma DefaultTraitKeyOffered(defaults: Entries<TraitData>, configTraits: seq<string>, actor: Option<Actor>, currentTrait: string)
    requires |configTraits| > 0 && configTraits[0] != ""
    ensures var options := PrepareTraitOptionsSpec(defaults, configTraits, actor, currentTrait);
      var k := DefaultTraitKey(options, configTraits, defaults);
      k != "" && k in TraitOptionKeys(options)
  {
    var m := TraitOptionMap(defaults, configTraits, actor, currentTrait);
    var options := ToTraitOptions(m);
    TraitOptionOrder(defaults, configTraits, actor, currentTrait);
    var withDefaults := AppendNew([], Keys(defaults));
    var withConfig := AppendNew(withDefaults, configTraits);
    assert configTraits[0] in withConfig;
    var merged := AppendNew(withConfig, Keys(ActorTraits(actor)));
    assert configTraits[0] in merged;
    assert configTraits[0] in Keys(m) by {
      if currentTrait != "" {
        assert configTraits[0] in AppendNew(merged, [currentTrait]);
      }
    }
    ToTraitOptionsKeys(m);
    if |options| > 0 && options[0].key != "" {
      assert TraitOptionKeys(options)[0] == options[0].key;
    }
  }

  /** With the start-up trait list `['body', 'mind', 'spirit']`, the default trait key is always an offered, non-empty key. */
  lemma StartupDefaultTraitKeyOffered(defaults: Entries<TraitData>, actor: Option<Actor>, currentTrait: string)
    ensures var options := PrepareTraitOptionsSpec(defaults, DefaultConfigTraits, actor, currentTrait);
      var k := DefaultTraitKey(options, DefaultConfigTraits, defaults);
      k != "" && k in TraitOptionKeys(options)
  {
    DefaultTraitKeyOffered(defaults, DefaultConfigTraits, actor, currentTrait);
  }

  /** `traitLabelMap.get(traitKey) ?? this._capitalize(traitKey)` for a truthy key, `''` otherwise. */
  function TraitLabelFor(traitOptions: seq<TraitOption>, traitKey: string): (r: string)
    ensures traitKey == "" ==> r == ""
    ensures traitKey != "" && traitKey !in TraitOptionKeys(traitOptions) ==> r == Capitalize(traitKey)
    ensures traitKey != "" && traitKey in TraitOptionKeys(traitOptions) ==>
      exists i :: 0 <= i < |traitOptions| && traitOptions[i].key == traitKey && r == traitOptions[i].caption
  {
    var pairs := seq(|traitOptions|, i requires 0 <= i < |traitOptions| => (traitOptions[i].key, traitOptions[i].caption));
    assert Keys(pairs) == TraitOptionKeys(traitOptions);
    if traitKey == "" then ""
    else match Get(pairs, traitKey)
      case Some(l) =>
        GetIsSomeEntry(pairs, traitKey);
        l
      case None => Capitalize(traitKey)
  }

  /** The value `Get` reads is the value of some entry with that key. */
  lemma GetIsSomeEntry<V>(m: Entries<V>, k: string)
    requires Get(m, k).Some?
    ensures exists i :: 0 <= i < |m| && m[i].0 == k && m[i].1 == Get(m, k).value
  {
    var n := |m| - 1;
    if m[n].0 != k {
      assert Get(m, k) == Get(m[..n], k);
      GetIsSomeEntry(m[..n], k);
      var i :| 0 <= i < |m[..n]| && m[..n][i].0 == k && m[..n][i].1 == Get(m, k).value;
      assert m[i] == m[..n][i];
    }
  }

  /** The base label: the trimmed stored label when it is not blank, else the capitalised key. */
  function BaseLabel(key: string, caption: Option<string>): (r: string)
    ensures caption.Some? && !AllWhitespace(caption.value) ==> r == Trim(caption.value) && r != []
    ensures !(caption.Some? && !AllWhitespace(caption.value)) ==> r == Capitalize(key)
  {
    if caption.Some? && caption.value != "" && |Trim(caption.value)| > 0 then Trim(caption.value) else Capitalize(key)
  }

  /** The label of a skill option: `${baseLabel} (${traitLabel})`, or the base label when the trait label is empty. */
  function SkillOptionLabel(key: string, data: SkillData, traitOptions: seq<TraitOption>, defaultTraitKey: string): (r: string)
    ensures var base := BaseLabel(key, data.caption);
      var traitLabel := TraitLabelFor(traitOptions, data.traitKey.GetOr(defaultTraitKey));
      r == if traitLabel != "" then base + " (" + traitLabel + ")" else base
  {
    var baseLabel := BaseLabel(key, data.caption);
    var traitKey := data.traitKey.GetOr(defaultTraitKey);
    var traitLabel := if traitKey != "" then TraitLabelFor(traitOptions, traitKey) else "";
    if traitLabel != "" then baseLabel + " (" + traitLabel + ")" else baseLabel
  }

  function SkillOptionOf(key: string, data: SkillData, traitOptions: seq<TraitOption>, defaultTraitKey: string): SkillOption {
    SkillOption(key, SkillOptionLabel(key, data, traitOptions, defaultTraitKey))
  }

  /** Every option is stored under its own key. */
  predicate KeyedBy(m: Entries<SkillOption>) {
    forall i :: 0 <= i < |m| ==> m[i].1.key == m[i].0
  }

  /** The effect of `mergeSkills(skills)` on the option map: one `set(key, { key, label })` per skill, in order. */
  function MergeSkills(m: Entries<SkillOption>, skills: Entries<SkillData>, traitOptions: seq<TraitOption>, defaultTraitKey: string)
    : (r: Entries<SkillOption>)
    ensures Keys(r) == AppendNew(Keys(m), Keys(skills))
    ensures UniqueKeys(m) ==> UniqueKeys(r)
    ensures KeyedBy(m) ==> KeyedBy(r)
  {
    if skills == [] then
      assert Keys(skills) == [];
      m
    else
      var p := MergeSkills(m, skills[..|skills| - 1], traitOptions, defaultTraitKey);
      var e := skills[|skills| - 1];
      KeysSnoc(skills);
      SetKeyedBy(p, e.0, SkillOptionOf(e.0, e.1, traitOptions, defaultTraitKey));
      Set(p, e.0, SkillOptionOf(e.0, e.1, traitOptions, defaultTraitKey))
  }

  lemma SetKeyedBy(m: Entries<SkillOption>, k: string, o: SkillOption)
    requires o.key == k
    ensures KeyedBy(m) ==> KeyedBy(Set(m, k, o))
  {
    SetEntries(m, k, o);
  }

  /** One more skill merged is one more `set`. */
  lemma MergeSkillsSnoc(m: Entries<SkillOption>, skills: Entries<SkillData>, i: nat, traitOptions: seq<TraitOption>, defaultTraitKey: string)
    requires i < |skills|
    ensures
      var key := skills[i].0;
      var data := skills[i].1;
      var baseLabel := BaseLabel(key, data.caption);
      var traitKey := data.traitKey.GetOr(defaultTraitKey);
      var traitLabel := if traitKey != "" then TraitLabelFor(traitOptions, traitKey) else "";
      var caption := if traitLabel != "" then baseLabel + " (" + traitLabel + ")" else baseLabel;
      MergeSkills(m, skills[..i + 1], traitOptions, defaultTraitKey) ==
        Set(MergeSkills(m, skills[..i], traitOptions, defaultTraitKey), key, SkillOption(key, caption))
  {
    assert skills[..i + 1][..i] == skills[..i] && skills[..i + 1][i] == skills[i];
  }

  /** After a merge, a merged key holds the option built from its (last) entry; any other key is as before. */
  lemma {:induction false} GetMergeSkills(m: Entries<SkillOption>, skills: Entries<SkillData>, traitOptions: seq<TraitOption>,
                                          defaultTraitKey: string, k: string)
    requires UniqueKeys(m)
    ensures Get(MergeSkills(m, skills, traitOptions, defaultTraitKey), k) ==
      match Get(skills, k) case Some(d) => Some(SkillOptionOf(k, d, traitOptions, defaultTraitKey)) case None => Get(m, k)
  {
    if skills != [] {
      var e := skills[|skills| - 1];
      var p := MergeSkills(m, skills[..|skills| - 1], traitOptions, defaultTraitKey);
      GetMergeSkills(m, skills[..|skills| - 1], traitOptions, defaultTraitKey, k);
      GetSet(p, e.0, SkillOptionOf(e.0, e.1, traitOptions, defaultTraitKey), k);
    }
  }

  /** The option map after merging the default skills and then the actor's skills. */
  function MergedSkillOptions(defaultSkills: Entries<SkillData>, actor: Option<Actor>, traitOptions: seq<TraitOption>,
                              defaultTraitKey: string): Entries<SkillOption> {
    var fromDefaults := MergeSkills([], defaultSkills, traitOptions, defaultTraitKey);
    if ActorSkills(actor).Some? then MergeSkills(fromDefaults, ActorSkills(actor).value, traitOptions, defaultTraitKey) else fromDefaults
  }

  /** The option map of `_prepareSkillOptions` before sorting; `defaultSkills` is what `_getDefaultSkillData` returns. */
  function SkillOptionMap(defaultSkills: Entries<SkillData>, actor: Option<Actor>, currentSkill: string,
                          traitOptions: seq<TraitOption>, defaultTraitKey: string): Entries<SkillOption> {
    var merged := MergedSkillOptions(defaultSkills, actor, traitOptions, defaultTraitKey);
    if currentSkill != "" && currentSkill !in Keys(merged) then
      var currentData := Get(ActorSkills(actor).GetOr([]), currentSkill);
      Set(merged, currentSkill, SkillOptionOf(currentSkill, currentData.GetOr(SkillData(None, None, None)), traitOptions, defaultTraitKey))
    else merged
  }

  function Values<V>(m: Entries<V>): seq<V> {
    seq(|m|, i requires 0 <= i < |m| => m[i].1)
  }

  function OptionCaption(o: SkillOption): string {
    o.caption
  }

  function OptionKey(o: SkillOption): string {
    o.key
  }

  /** The specification of `_prepareSkillOptions`. */
  function SkillOptionsSpec(defaultSkills: Entries<SkillData>, configTraits: seq<string>, defaultTraits: Entries<TraitData>,
                            actor: Option<Actor>, currentSkill: string, traitOptions: seq<TraitOption>): seq<SkillOption> {
    var defaultTraitKey := DefaultTraitKey(traitOptions, configTraits, defaultTraits);
    SortBy(Values(SkillOptionMap(defaultSkills, actor, currentSkill, traitOptions, defaultTraitKey)), OptionCaption)
  }

  /** `mergeSkills(skills)` for a skills object that is present. */
  method MergeSkillOptions(options0: Entries<SkillOption>, skills: Entries<SkillData>, traitOptions: seq<TraitOption>, defaultTraitKey: string)
    returns (options: Entries<SkillOption>)
    ensures options == MergeSkills(options0, skills, traitOptions, defaultTraitKey)
  {
    options := options0;
    var i := 0;
    while i < |skills|
      invariant 0 <= i <= |skills|
      invariant options == MergeSkills(options0, skills[..i], traitOptions, defaultTraitKey)
    {
      var key := skills[i].0;
      var data := skills[i].1;
      var baseLabel := BaseLabel(key, data.caption);
      var traitKey := data.traitKey.GetOr(defaultTraitKey);
      var traitLabel := if traitKey != "" then TraitLabelFor(traitOptions, traitKey) else "";
      var caption := if traitLabel != "" then baseLabel + " (" + traitLabel + ")" else baseLabel;
      MergeSkillsSnoc(options0, skills, i, traitOptions, defaultTraitKey);
      options := Set(options, key, SkillOption(key, caption));
      i := i + 1;
    }
    assert skills[..|skills|] == skills;
  }

  /** `_prepareSkillOptions(actor, currentSkill, traitOptions)`. */
  method PrepareSkillOptions(defaultSkills: Entries<SkillData>, configTraits: seq<string>, defaultTraits: Entries<TraitData>,
                             actor: Option<Actor>, currentSkill: string, traitOptions: seq<TraitOption>)
    returns (skillOptions: seq<SkillOption>)
    ensures skillOptions == SkillOptionsSpec(defaultSkills, configTraits, defaultTraits, actor, currentSkill, traitOptions)
  {
    var defaultTraitKey := DefaultTraitKey(traitOptions, configTraits, defaultTraits);
    var options := MergeSkillOptions([], defaultSkills, traitOptions, defaultTraitKey);
    if actor.Some? {
      var actorSkills := actor.value.system.skills;
      if actorSkills.Some? {
        options := MergeSkillOptions(options, actorSkills.value, traitOptions, defaultTraitKey);
      }
    }
    if currentSkill != "" && Get(options, currentSkill).None? {
      var currentData := if actor.Some? then Get(actor.value.system.skills.GetOr([]), currentSkill) else None;
      var data := currentData.GetOr(SkillData(None, None, None));
      options := Set(options, currentSkill, SkillOption(currentSkill, SkillOptionLabel(currentSkill, data, traitOptions, defaultTraitKey)));
    }
    skillOptions := SortBy(Values(options), OptionCaption);
  }

  /** The skill data an option is built from: the actor's if it has the key, else the default's, else nothing. */
  function SkillSource(defaultSkills: Entries<SkillData>, actor: Option<Actor>, k: string): SkillData {
    match Get(ActorSkills(actor).GetOr([]), k)
    case Some(d) => d
    case None => Get(defaultSkills, k).GetOr(SkillData(None, None, None))
  }

  /** After both merges an actor skill beats a default skill of the same key. */
  lemma MergedSkillOptionsContents(defaultSkills: Entries<SkillData>, actor: Option<Actor>,
                                   traitOptions: seq<TraitOption>, defaultTraitKey: string, k: string)
    ensures var m := MergedSkillOptions(defaultSkills, actor, traitOptions, defaultTraitKey);
      && UniqueKeys(m) && KeyedBy(m)
      && (k in Keys(m) <==> k in Keys(defaultSkills) || k in Keys(ActorSkills(actor).GetOr([])))
      && (k in Keys(m) ==> Get(m, k) == Some(SkillOptionOf(k, SkillSource(defaultSkills, actor, k), traitOptions, defaultTraitKey)))
  {
    var fromDefaults := MergeSkills([], defaultSkills, traitOptions, defaultTraitKey);
    assert UniqueKeys<SkillOption>([]) && KeyedBy([]) && Keys<SkillOption>([]) == [];
    GetMergeSkills([], defaultSkills, traitOptions, defaultTraitKey, k);
    if ActorSkills(actor).Some? {
      GetMergeSkills(fromDefaults, ActorSkills(actor).value, traitOptions, defaultTraitKey, k);
    } else {
      var none: Entries<SkillData> := [];
      assert Keys(none) == [];
    }
  }

  /** What the option map holds for each key: the options built from the winning source, for exactly the offered keys. */
  lemma SkillOptionMapContents(defaultSkills: Entries<SkillData>, actor: Option<Actor>, currentSkill: string,
                               traitOptions: seq<TraitOption>, defaultTraitKey: string, k: string)
    ensures var m := SkillOptionMap(defaultSkills, actor, currentSkill, traitOptions, defaultTraitKey);
      && UniqueKeys(m) && KeyedBy(m)
      && (k in Keys(m) <==> k in Keys(defaultSkills) || k in Keys(ActorSkills(actor).GetOr([])) || (k == currentSkill && k != ""))
      && (k in Keys(m) ==> Get(m, k) == Some(SkillOptionOf(k, SkillSource(defaultSkills, actor, k), traitOptions, defaultTraitKey)))
  {
    var merged := MergedSkillOptions(defaultSkills, actor, traitOptions, defaultTraitKey);
    MergedSkillOptionsContents(defaultSkills, actor, traitOptions, defaultTraitKey, k);
    if currentSkill != "" && currentSkill !in Keys(merged) {
      MergedSkillOptionsContents(defaultSkills, actor, traitOptions, defaultTraitKey, currentSkill);
      var currentData := Get(ActorSkills(actor).GetOr([]), currentSkill);
      assert currentData.None?;
      assert Get(defaultSkills, currentSkill).None?;
      var o := SkillOptionOf(currentSkill, SkillData(None, None, None), traitOptions, defaultTraitKey);
      GetSet(merged, currentSkill, o, k);
      SetEntries(merged, currentSkill, o);
    }
  }

  /** The values of a map keyed by its own keys are distinct by key. */
  lemma ValuesDistinct(m: Entries<SkillOption>)
    requires UniqueKeys(m) && KeyedBy(m)
    ensures DistinctBy(Values(m), OptionKey)
  {
    forall i, j | 0 <= i < j < |Values(m)|
      ensures OptionKey(Values(m)[i]) != OptionKey(Values(m)[j])
    {
      assert Keys(m)[i] == m[i].0 && Keys(m)[j] == m[j].0;
    }
  }

  /** The skill options are sorted by label, unique by key, and each is built from its winning source. */
  lemma SkillOptionsShape(defaultSkills: Entries<SkillData>, configTraits: seq<string>, defaultTraits: Entries<TraitData>,
                          actor: Option<Actor>, currentSkill: string, traitOptions: seq<TraitOption>)
    ensures var r := SkillOptionsSpec(defaultSkills, configTraits, defaultTraits, actor, currentSkill, traitOptions);
      var defaultTraitKey := DefaultTraitKey(traitOptions, configTraits, defaultTraits);
      && SortedBy(r, OptionCaption)
      && DistinctBy(r, OptionKey)
      && forall o :: o in r ==> o == SkillOptionOf(o.key, SkillSource(defaultSkills, actor, o.key), traitOptions, defaultTraitKey)
  {
    var defaultTraitKey := DefaultTraitKey(traitOptions, configTraits, defaultTraits);
    var m := SkillOptionMap(defaultSkills, actor, currentSkill, traitOptions, defaultTraitKey);
    var r := SkillOptionsSpec(defaultSkills, configTraits, defaultTraits, actor, currentSkill, traitOptions);
    SkillOptionMapContents(defaultSkills, actor, currentSkill, traitOptions, defaultTraitKey, "");
    ValuesDistinct(m);
    SortByDistinct(Values(m), OptionCaption, OptionKey);
    forall o | o in r
      ensures o == SkillOptionOf(o.key, SkillSource(defaultSkills, actor, o.key), traitOptions, defaultTraitKey)
    {
      assert o in multiset(Values(m));
      var i :| 0 <= i < |m| && Values(m)[i] == o;
      MapEntryIsOption(defaultSkills, actor, currentSkill, traitOptions, defaultTraitKey, i);
    }
  }

  /** Every entry of the option map is the option built from its key's winning source. */
  lemma MapEntryIsOption(defaultSkills: Entries<SkillData>, actor: Option<Actor>, currentSkill: string,
                         traitOptions: seq<TraitOption>, defaultTraitKey: string, i: nat)
    requires i < |SkillOptionMap(defaultSkills, actor, currentSkill, traitOptions, defaultTraitKey)|
    ensures var o := SkillOptionMap(defaultSkills, actor, currentSkill, traitOptions, defaultTraitKey)[i].1;
      o == SkillOptionOf(o.key, SkillSource(defaultSkills, actor, o.key), traitOptions, defaultTraitKey)
  {
    var m := SkillOptionMap(defaultSkills, actor, currentSkill, traitOptions, defaultTraitKey);
    SkillOptionMapContents(defaultSkills, actor, currentSkill, traitOptions, defaultTraitKey, m[i].0);
    GetAt(m, i);
  }

  /** A skill is offered exactly when it is a default skill, an actor skill, or the non-empty current skill. */
  lemma SkillOptionOffered(defaultSkills: Entries<SkillData>, configTraits: seq<string>, defaultTraits: Entries<TraitData>,
                           actor: Option<Actor>, currentSkill: string, traitOptions: seq<TraitOption>, k: string)
    ensures var r := SkillOptionsSpec(defaultSkills, configTraits, defaultTraits, actor, currentSkill, traitOptions);
      (exists o :: o in r && o.key == k) <==>
        k in Keys(defaultSkills) || k in Keys(ActorSkills(actor).GetOr([])) || (k == currentSkill && k != "")
  {
    var defaultTraitKey := DefaultTraitKey(traitOptions, configTraits, defaultTraits);
    var m := SkillOptionMap(defaultSkills, actor, currentSkill, traitOptions, defaultTraitKey);
    var r := SkillOptionsSpec(defaultSkills, configTraits, defaultTraits, actor, currentSkill, traitOptions);
    SkillOptionMapContents(defaultSkills, actor, currentSkill, traitOptions, defaultTraitKey, k);
    assert multiset(r) == multiset(Values(m));
    KeyOfferedIffPresent(m, r, k);
  }

  /** Any ordering of the options of a keyed map offers exactly the map's keys. */
  lemma KeyOfferedIffPresent(m: Entries<SkillOption>, r: seq<SkillOption>, k: string)
    requires KeyedBy(m) && multiset(r) == multiset(Values(m))
    ensures (exists o :: o in r && o.key == k) <==> k in Keys(m)
  {
    if k in Keys(m) {
      var i :| 0 <= i < |m| && Keys(m)[i] == k;
      assert Values(m)[i] in multiset(r);
    }
    if o :| o in r && o.key == k {
      assert o in multiset(Values(m));
      var i :| 0 <= i < |m| && Values(m)[i] == o;
      assert Keys(m)[i] == k;
    }
  }

  /** A skill option's label starts with its base label; a skill without a trait of its own is labelled with the default trait. */
  lemma SkillOptionLabelShape(key: string, data: SkillData, traitOptions: seq<TraitOption>, defaultTraitKey: string)
    ensures var base := BaseLabel(key, data.caption);
      var r := SkillOptionLabel(key, data, traitOptions, defaultTraitKey);
      && |base| <= |r| && r[..|base|] == base
      && (r == base <==> TraitLabelFor(traitOptions, data.traitKey.GetOr(defaultTraitKey)) == "")
      && (data.traitKey.None? && defaultTraitKey != "" && defaultTraitKey !in TraitOptionKeys(traitOptions) ==>
            r == base + " (" + Capitalize(defaultTraitKey) + ")")
  {
    var base := BaseLabel(key, data.caption);
    var tl := TraitLabelFor(traitOptions, data.traitKey.GetOr(defaultTraitKey));
    var r := SkillOptionLabel(key, data, traitOptions, defaultTraitKey);
    if tl != "" {
      assert r == base + (" (" + tl + ")");
      assert |r| > |base|;
    }
  }
}
