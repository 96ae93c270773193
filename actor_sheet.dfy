/**
 * The actor sheet's view model: `getData` fills in defaults on a clone of the actor's
 * `system` data, `_prepareTraits` lists the traits and `_prepareSkills` groups the skills
 * by trait with a per-skill pool.
 */
module ActorSheet {
  import opened Wrappers
  import opened JsValues
  import opened OrderedMaps
  import opened Text
  import opened Sorting
  import opened Records
  import opened Dice

  /** An element of `context.traits`. */
  datatype TraitView = TraitView(key: string, caption: string, value: Number)

  /** An element of a group in `context.skillsByTrait`. */
  datatype SkillView = SkillView(key: string, caption: string, traitKey: string, value: Number, pool: Number)

  function TraitViewOf(key: string, data: TraitData): TraitView {
    TraitView(key, data.caption.GetOr(Capitalize(key)), OrZero(data.value))
  }

  /** `_prepareTraits`: one entry per trait, in map order. */
  function PrepareTraits(traits: Entries<TraitData>): (r: seq<TraitView>)
    ensures |r| == |traits|
    ensures forall i :: 0 <= i < |r| ==>
      && r[i].key == traits[i].0
      && r[i].caption == (if traits[i].1.caption.Some? then traits[i].1.caption.value else Capitalize(traits[i].0))
      && r[i].value == (if traits[i].1.value.Some? then traits[i].1.value.value else Finite(0))
  {
    if traits == [] then []
    else
      var rest := PrepareTraits(traits[1..]);
      assert forall i :: 1 <= i < |traits| ==> traits[i] == traits[1..][i - 1];
      [TraitViewOf(traits[0].0, traits[0].1)] + rest
  }

  function TraitKeysOf(traits: seq<TraitView>): seq<string> {
    seq(|traits|, i requires 0 <= i < |traits| => traits[i].key)
  }

  lemma PrepareTraitsKeys(traits: Entries<TraitData>)
    ensures TraitKeysOf(PrepareTraits(traits)) == Keys(traits)
  {
  }

  /** `traits[0]?.key ?? CONFIG.BNW?.traits?.[0] ?? 'strength'`. */
  function DefaultSkillTrait(traits: seq<TraitView>, configTraits: seq<string>): (r: string)
    ensures |traits| > 0 ==> r == traits[0].key
    ensures |traits| == 0 && |configTraits| > 0 ==> r == configTraits[0]
    ensures |traits| == 0 && |configTraits| == 0 ==> r == "strength"
  {
    if |traits| > 0 then traits[0].key
    else if |configTraits| > 0 then configTraits[0]
    else "strength"
  }

  /** `traits.find((t) => t.key === key)`. */
  function FindTrait(traits: seq<TraitView>, key: string): (r: Option<TraitView>)
    ensures r.Some? <==> key in TraitKeysOf(traits)
    ensures r.Some? ==> r.value in traits && r.value.key == key
  {
    if traits == [] then None
    else
      assert TraitKeysOf(traits) == [traits[0].key] + TraitKeysOf(traits[1..]);
      if traits[0].key == key then Some(traits[0]) else FindTrait(traits[1..], key)
  }

  /** The group a skill goes to: its own trait key if set, else the default key. */
  function GroupKeyOf(data: SkillData, defaultKey: string): string {
    data.traitKey.GetOr(defaultKey)
  }

  /** The value of the skill's trait, 0 when that trait is not declared. */
  function TraitValueFor(traits: seq<TraitView>, traitKey: string): Number {
    match FindTrait(traits, traitKey)
    case Some(t) => t.value
    case None => Finite(0)
  }

  /** The view of one skill, with its pool `Math.max(traitValue + skillValue, 1)`. */
  function SkillViewOf(key: string, data: SkillData, traits: seq<TraitView>, defaultKey: string): SkillView {
    var traitKey := GroupKeyOf(data, defaultKey);
    var skillValue := OrZero(data.value);
    SkillView(key, data.caption.GetOr(Capitalize(key)), traitKey, skillValue,
      Max(Add(TraitValueFor(traits, traitKey), skillValue), Finite(1)))
  }

  /** A skill's view: its group key, label and value, and a pool of at least one die that adds the trait's value, or 0 for an undeclared trait. */
  lemma SkillViewOfSpec(key: string, data: SkillData, traits: seq<TraitView>, defaultKey: string)
    ensures var v := SkillViewOf(key, data, traits, defaultKey);
      && v.key == key && v.traitKey == GroupKeyOf(data, defaultKey)
      && v.caption == data.caption.GetOr(Capitalize(key)) && v.value == OrZero(data.value)
    ensures var v := SkillViewOf(key, data, traits, defaultKey);
      v.pool.IsFinite() ==> v.pool.value >= 1
    ensures var v := SkillViewOf(key, data, traits, defaultKey);
      v.traitKey !in TraitKeysOf(traits) ==> v.pool == Max(v.value, Finite(1))
    ensures var v := SkillViewOf(key, data, traits, defaultKey);
      TraitValueFor(traits, v.traitKey).IsFinite() && v.value.IsFinite() ==>
        v.pool.IsFinite() && v.pool.value == if TraitValueFor(traits, v.traitKey).value + v.value.value >= 1
          then TraitValueFor(traits, v.traitKey).value + v.value.value else 1
  {
    var traitKey := GroupKeyOf(data, defaultKey);
    var skillValue := OrZero(data.value);
    var sum := Add(TraitValueFor(traits, traitKey), skillValue);
    if traitKey !in TraitKeysOf(traits) {
      assert TraitValueFor(traits, traitKey) == Finite(0);
      assert sum == skillValue;
    }
  }

  function GroupKeys(skills: Entries<SkillData>, defaultKey: string): seq<string> {
    seq(|skills|, i requires 0 <= i < |skills| => GroupKeyOf(skills[i].1, defaultKey))
  }

  /** The views of the skills whose group is `k`, in skill order. */
  function Bucket(skills: Entries<SkillData>, k: string, traits: seq<TraitView>, defaultKey: string): seq<SkillView> {
    if skills == [] then []
    else
      var last := skills[|skills| - 1];
      Bucket(skills[..|skills| - 1], k, traits, defaultKey)
        + (if GroupKeyOf(last.1, defaultKey) == k then [SkillViewOf(last.0, last.1, traits, defaultKey)] else [])
  }

  function CaptionOf(v: SkillView): string {
    v.caption
  }

  /** The final content of group `k`: sorted by label when `k` is a declared trait, in insertion order otherwise. */
  function GroupOf(skills: Entries<SkillData>, k: string, traits: seq<TraitView>, defaultKey: string): seq<SkillView> {
    var b := Bucket(skills, k, traits, defaultKey);
    if k in TraitKeysOf(traits) then SortBy(b, CaptionOf) else b
  }

  /** The specification of `_prepareSkills`: declared traits first, then other trait keys in order of first use. */
  function SkillGroups(skills: Entries<SkillData>, traits: seq<TraitView>, configTraits: seq<string>): Entries<seq<SkillView>> {
    var defaultKey := DefaultSkillTrait(traits, configTraits);
    var keys := AppendNew(TraitKeysOf(traits), GroupKeys(skills, defaultKey));
    seq(|keys|, i requires 0 <= i < |keys| => (keys[i], GroupOf(skills, keys[i], traits, defaultKey)))
  }

  lemma GroupKeysSnoc(skills: Entries<SkillData>, defaultKey: string)
    requires skills != []
    ensures GroupKeys(skills, defaultKey) ==
      GroupKeys(skills[..|skills| - 1], defaultKey) + [GroupKeyOf(skills[|skills| - 1].1, defaultKey)]
  {
  }

  /** A key no skill maps to has an empty bucket. */
  lemma {:induction false} BucketUnused(skills: Entries<SkillData>, k: string, traits: seq<TraitView>, defaultKey: string)
    requires k !in GroupKeys(skills, defaultKey)
    ensures Bucket(skills, k, traits, defaultKey) == []
  {
    if skills != [] {
      GroupKeysSnoc(skills, defaultKey);
      BucketUnused(skills[..|skills| - 1], k, traits, defaultKey);
    }
  }

  /** What the grouping loop of `_prepareSkills` keeps after the first `n` skills. */
  ghost predicate Grouped(groups: Entries<seq<SkillView>>, skills: Entries<SkillData>, n: nat, traits: seq<TraitView>, defaultKey: string)
    requires n <= |skills|
  {
    && UniqueKeys(groups)
    && Keys(groups) == AppendNew(TraitKeysOf(traits), GroupKeys(skills[..n], defaultKey))
    && forall g :: 0 <= g < |groups| ==> groups[g].1 == Bucket(skills[..n], groups[g].0, traits, defaultKey)
  }

  lemma BucketSnoc(skills: Entries<SkillData>, i: nat, k: string, traits: seq<TraitView>, defaultKey: string)
    requires i < |skills|
    ensures Bucket(skills[..i + 1], k, traits, defaultKey) == Bucket(skills[..i], k, traits, defaultKey)
      + (if GroupKeyOf(skills[i].1, defaultKey) == k then [SkillViewOf(skills[i].0, skills[i].1, traits, defaultKey)] else [])
  {
    assert skills[..i + 1][..i] == skills[..i] && skills[..i + 1][i] == skills[i];
  }

  /** Opening a missing group with an empty list keeps the loop's bookkeeping for the first `i` skills. */
  lemma OpenGroupStep(groups: Entries<seq<SkillView>>, skills: Entries<SkillData>, i: nat, traits: seq<TraitView>, defaultKey: string)
    requires i < |skills| && Grouped(groups, skills, i, traits, defaultKey)
    requires Get(groups, GroupKeyOf(skills[i].1, defaultKey)).None?
    ensures UniqueKeys(Set(groups, GroupKeyOf(skills[i].1, defaultKey), []))
    ensures Keys(Set(groups, GroupKeyOf(skills[i].1, defaultKey), [])) ==
      AppendNew(TraitKeysOf(traits), GroupKeys(skills[..i + 1], defaultKey))
    ensures var r := Set(groups, GroupKeyOf(skills[i].1, defaultKey), []);
      forall g :: 0 <= g < |r| ==> r[g].1 == Bucket(skills[..i], r[g].0, traits, defaultKey)
  {
    var k := GroupKeyOf(skills[i].1, defaultKey);
    assert skills[..i + 1][..i] == skills[..i] && skills[..i + 1][i] == skills[i];
    GroupKeysSnoc(skills[..i + 1], defaultKey);
    assert k !in Keys(groups);
    assert k !in GroupKeys(skills[..i], defaultKey);
    BucketUnused(skills[..i], k, traits, defaultKey);
    SetEntries(groups, k, []);
    var r := Set(groups, k, []);
    assert r == groups + [(k, [])];
    forall g | 0 <= g < |r|
      ensures r[g].1 == Bucket(skills[..i], r[g].0, traits, defaultKey)
    {
      if g < |groups| {
        assert r[g] == groups[g];
      } else {
        assert r[g] == (k, []);
      }
    }
  }

  /** Pushing the view of skill `i` onto its (present) group completes the step. */
  lemma PushStep(groups: Entries<seq<SkillView>>, skills: Entries<SkillData>, i: nat, traits: seq<TraitView>, defaultKey: string)
    requires i < |skills|
    requires UniqueKeys(groups)
    requires Keys(groups) == AppendNew(TraitKeysOf(traits), GroupKeys(skills[..i + 1], defaultKey))
    requires forall g :: 0 <= g < |groups| ==> groups[g].1 == Bucket(skills[..i], groups[g].0, traits, defaultKey)
    ensures Get(groups, GroupKeyOf(skills[i].1, defaultKey)).Some?
    ensures
      var k := GroupKeyOf(skills[i].1, defaultKey);
      Grouped(Set(groups, k, Get(groups, k).value + [SkillViewOf(skills[i].0, skills[i].1, traits, defaultKey)]), skills, i + 1, traits, defaultKey)
  {
    var k := GroupKeyOf(skills[i].1, defaultKey);
    var view := SkillViewOf(skills[i].0, skills[i].1, traits, defaultKey);
    GroupKeysSnoc(skills[..i + 1], defaultKey);
    assert skills[..i + 1][i] == skills[i];
    assert k in Keys(groups);
    var g0 :| 0 <= g0 < |groups| && groups[g0].0 == k;
    GetAt(groups, g0);
    SetEntries(groups, k, Get(groups, k).value + [view]);
    var r := Set(groups, k, Get(groups, k).value + [view]);
    forall g | 0 <= g < |r|
      ensures r[g].1 == Bucket(skills[..i + 1], r[g].0, traits, defaultKey)
    {
      BucketSnoc(skills, i, r[g].0, traits, defaultKey);
      if groups[g].0 == k {
        assert Keys(groups)[g] == Keys(groups)[g0];
      }
    }
    assert UniqueKeys(r);
    assert Keys(r) == Keys(groups);
  }

  /** One iteration of the grouping loop. */
  lemma AddSkillStep(groups: Entries<seq<SkillView>>, skills: Entries<SkillData>, i: nat, traits: seq<TraitView>, defaultKey: string)
    requires i < |skills| && Grouped(groups, skills, i, traits, defaultKey)
    ensures
      var k := GroupKeyOf(skills[i].1, defaultKey);
      var ready := if Get(groups, k).None? then Set(groups, k, []) else groups;
      && Get(ready, k).Some?
      && Grouped(Set(ready, k, Get(ready, k).value + [SkillViewOf(skills[i].0, skills[i].1, traits, defaultKey)]), skills, i + 1, traits, defaultKey)
  {
    var k := GroupKeyOf(skills[i].1, defaultKey);
    if Get(groups, k).None? {
      OpenGroupStep(groups, skills, i, traits, defaultKey);
      PushStep(Set(groups, k, []), skills, i, traits, defaultKey);
    } else {
      assert skills[..i + 1][..i] == skills[..i] && skills[..i + 1][i] == skills[i];
      GroupKeysSnoc(skills[..i + 1], defaultKey);
      assert k in GroupKeys(skills[..i + 1], defaultKey);
      PushStep(groups, skills, i, traits, defaultKey);
    }
  }

  /** What the sorting loop of `_prepareSkills` keeps after the first `t` traits. */
  ghost predicate SortedUpTo(groups: Entries<seq<SkillView>>, skills: Entries<SkillData>, t: nat, traits: seq<TraitView>, defaultKey: string)
    requires t <= |traits|
  {
    && UniqueKeys(groups)
    && Keys(groups) == AppendNew(TraitKeysOf(traits), GroupKeys(skills, defaultKey))
    && forall g :: 0 <= g < |groups| ==> groups[g].1 == SortedIf(Bucket(skills, groups[g].0, traits, defaultKey), groups[g].0 in TraitKeysOf(traits)[..t])
  }

  function SortedIf(b: seq<SkillView>, sorted: bool): seq<SkillView> {
    if sorted then SortBy(b, CaptionOf) else b
  }

  /** Sorting the group of trait `t` by label. */
  lemma SortStep(groups: Entries<seq<SkillView>>, skills: Entries<SkillData>, t: nat, traits: seq<TraitView>, defaultKey: string)
    requires t < |traits| && Distinct(TraitKeysOf(traits)) && SortedUpTo(groups, skills, t, traits, defaultKey)
    ensures SortedUpTo(Set(groups, traits[t].key, SortBy(Get(groups, traits[t].key).GetOr([]), CaptionOf)), skills, t + 1, traits, defaultKey)
  {
    var key := traits[t].key;
    assert key == TraitKeysOf(traits)[t];
    assert key in Keys(groups);
    var g0 :| 0 <= g0 < |groups| && Keys(groups)[g0] == key;
    GetAt(groups, g0);
    assert Get(groups, key).GetOr([]) == groups[g0].1;
    var r := Set(groups, key, SortBy(groups[g0].1, CaptionOf));
    SetEntries(groups, key, SortBy(groups[g0].1, CaptionOf));
    forall g | 0 <= g < |r|
      ensures r[g].1 == SortedIf(Bucket(skills, r[g].0, traits, defaultKey), r[g].0 in TraitKeysOf(traits)[..t + 1])
    {
      SortStepEntry(groups, skills, t, traits, defaultKey, g0, g);
    }
  }

  /** One entry of the groups after `SortStep`. */
  lemma SortStepEntry(groups: Entries<seq<SkillView>>, skills: Entries<SkillData>, t: nat, traits: seq<TraitView>, defaultKey: string,
                      g0: nat, g: nat)
    requires t < |traits| && Distinct(TraitKeysOf(traits)) && SortedUpTo(groups, skills, t, traits, defaultKey)
    requires g0 < |groups| && groups[g0].0 == traits[t].key && g < |groups|
    ensures var r := Set(groups, traits[t].key, SortBy(groups[g0].1, CaptionOf));
      g < |r| && r[g].0 == groups[g].0 &&
      r[g].1 == SortedIf(Bucket(skills, r[g].0, traits, defaultKey), r[g].0 in TraitKeysOf(traits)[..t + 1])
  {
    var key := traits[t].key;
    var v := SortBy(groups[g0].1, CaptionOf);
    assert Keys(groups)[g0] == key;
    SetEntries(groups, key, v);
    TraitPrefixSnoc(traits, t);
    if groups[g].0 == key {
      assert Keys(groups)[g] == Keys(groups)[g0];
      assert g == g0;
    }
  }

  lemma TraitPrefixSnoc(traits: seq<TraitView>, t: nat)
    requires t < |traits| && Distinct(TraitKeysOf(traits))
    ensures forall x :: x in TraitKeysOf(traits)[..t + 1] <==> x in TraitKeysOf(traits)[..t] || x == traits[t].key
    ensures traits[t].key !in TraitKeysOf(traits)[..t]
  {
    var ks := TraitKeysOf(traits);
    assert ks[..t + 1] == ks[..t] + [ks[t]];
  }

  /** The groups opened for the declared traits are the bookkeeping for no skills yet. */
  lemma GroupedStart(groups: Entries<seq<SkillView>>, skills: Entries<SkillData>, traits: seq<TraitView>, defaultKey: string)
    requires Distinct(TraitKeysOf(traits)) && Keys(groups) == TraitKeysOf(traits)
    requires forall g :: 0 <= g < |groups| ==> groups[g].1 == []
    ensures Grouped(groups, skills, 0, traits, defaultKey)
  {
    assert skills[..0] == [];
    assert GroupKeys(skills[..0], defaultKey) == [];
  }

  /** After all skills, the grouping bookkeeping is the sorting bookkeeping for no sorted trait yet. */
  lemma GroupedDone(groups: Entries<seq<SkillView>>, skills: Entries<SkillData>, traits: seq<TraitView>, defaultKey: string)
    requires Grouped(groups, skills, |skills|, traits, defaultKey)
    ensures SortedUpTo(groups, skills, 0, traits, defaultKey)
  {
    assert skills[..|skills|] == skills;
  }

  /** Once every declared trait's group is sorted, the groups are `SkillGroups`. */
  lemma SortedAll(groups: Entries<seq<SkillView>>, skills: Entries<SkillData>, traits: seq<TraitView>, configTraits: seq<string>)
    requires SortedUpTo(groups, skills, |traits|, traits, DefaultSkillTrait(traits, configTraits))
    ensures groups == SkillGroups(skills, traits, configTraits)
  {
    var traitKeys := TraitKeysOf(traits);
    assert traitKeys[..|traits|] == traitKeys;
    var r := SkillGroups(skills, traits, configTraits);
    assert |groups| == |Keys(groups)| == |r|;
    forall g | 0 <= g < |groups|
      ensures groups[g] == r[g]
    {
      assert Keys(groups)[g] == groups[g].0;
    }
  }

  /** `_prepareSkills`. */
  method PrepareSkills(skills: Entries<SkillData>, traits: seq<TraitView>, configTraits: seq<string>)
    returns (groups: Entries<seq<SkillView>>)
    requires Distinct(TraitKeysOf(traits))
    ensures groups == SkillGroups(skills, traits, configTraits)
  {
    var traitKeys := TraitKeysOf(traits);
    groups := [];
    var t := 0;
    while t < |traits|
      invariant 0 <= t <= |traits|
      invariant Keys(groups) == traitKeys[..t]
      invariant forall g :: 0 <= g < |groups| ==> groups[g].1 == []
    {
      assert traits[t].key == traitKeys[t] && traits[t].key !in traitKeys[..t];
      groups := Set(groups, traits[t].key, []);
      assert traitKeys[..t + 1] == traitKeys[..t] + [traits[t].key];
      t := t + 1;
    }

    var defaultKey := DefaultSkillTrait(traits, configTraits);
    assert traitKeys[..|traits|] == traitKeys;
    GroupedStart(groups, skills, traits, defaultKey);
    var i := 0;
    while i < |skills|
      invariant 0 <= i <= |skills|
      invariant Grouped(groups, skills, i, traits, defaultKey)
    {
      AddSkillStep(groups, skills, i, traits, defaultKey);
      var key := skills[i].0;
      var data := skills[i].1;
      var traitKey := GroupKeyOf(data, defaultKey);
      if Get(groups, traitKey).None? {
        groups := Set(groups, traitKey, []);
      }
      groups := Set(groups, traitKey, Get(groups, traitKey).value + [SkillViewOf(key, data, traits, defaultKey)]);
      i := i + 1;
    }

    GroupedDone(groups, skills, traits, defaultKey);
    t := 0;
    while t < |traits|
      invariant 0 <= t <= |traits|
      invariant SortedUpTo(groups, skills, t, traits, defaultKey)
    {
      SortStep(groups, skills, t, traits, defaultKey);
      var key := traits[t].key;
      groups := Set(groups, key, SortBy(Get(groups, key).GetOr([]), CaptionOf));
      t := t + 1;
    }
    SortedAll(groups, skills, traits, configTraits);
  }

  /** The view `_prepareSkills` builds for entry `j` of the skills map. */
  function ViewAt(skills: Entries<SkillData>, j: nat, traits: seq<TraitView>, defaultKey: string): SkillView
    requires j < |skills|
  {
    SkillViewOf(skills[j].0, skills[j].1, traits, defaultKey)
  }

  /** `v` is the view of a skill whose group is `k`. */
  ghost predicate ViewOfSkillIn(skills: Entries<SkillData>, k: string, traits: seq<TraitView>, defaultKey: string, v: SkillView) {
    exists j :: 0 <= j < |skills| && v == ViewAt(skills, j, traits, defaultKey) && GroupKeyOf(skills[j].1, defaultKey) == k
  }

  /** Every element of a bucket is the view of a skill that maps to that bucket. */
  lemma {:induction false} BucketMember(skills: Entries<SkillData>, k: string, traits: seq<TraitView>, defaultKey: string, v: SkillView)
    requires v in Bucket(skills, k, traits, defaultKey)
    ensures ViewOfSkillIn(skills, k, traits, defaultKey, v)
  {
    var n := |skills| - 1;
    var p := skills[..n];
    if v in Bucket(p, k, traits, defaultKey) {
      BucketMember(p, k, traits, defaultKey, v);
      var j :| 0 <= j < |p| && v == ViewAt(p, j, traits, defaultKey) && GroupKeyOf(p[j].1, defaultKey) == k;
      assert p[j] == skills[j];
      assert v == ViewAt(skills, j, traits, defaultKey);
    } else {
      assert v == ViewAt(skills, n, traits, defaultKey) && GroupKeyOf(skills[n].1, defaultKey) == k;
    }
  }

  /** With unique skill keys, a bucket holds each skill of its key exactly once and no other. */
  lemma {:induction false} BucketCount(skills: Entries<SkillData>, k: string, traits: seq<TraitView>, defaultKey: string, i: nat)
    requires UniqueKeys(skills) && i < |skills|
    ensures multiset(Bucket(skills, k, traits, defaultKey))[ViewAt(skills, i, traits, defaultKey)] ==
      if GroupKeyOf(skills[i].1, defaultKey) == k then 1 else 0
  {
    var n := |skills| - 1;
    if i < n {
      KeysSnoc(skills);
      BucketCount(skills[..n], k, traits, defaultKey, i);
      BucketCountEarlier(skills, k, traits, defaultKey, i);
    } else {
      BucketCountLast(skills, k, traits, defaultKey);
    }
  }

  /** The step of `BucketCount` for a skill before the last one, given the count in the prefix. */
  lemma BucketCountEarlier(skills: Entries<SkillData>, k: string, traits: seq<TraitView>, defaultKey: string, i: nat)
    requires UniqueKeys(skills) && i < |skills| - 1
    requires var p := skills[..|skills| - 1];
      multiset(Bucket(p, k, traits, defaultKey))[ViewAt(p, i, traits, defaultKey)] ==
      if GroupKeyOf(p[i].1, defaultKey) == k then 1 else 0
    ensures multiset(Bucket(skills, k, traits, defaultKey))[ViewAt(skills, i, traits, defaultKey)] ==
      if GroupKeyOf(skills[i].1, defaultKey) == k then 1 else 0
  {
    var n := |skills| - 1;
    var p := skills[..n];
    var v := ViewAt(skills, i, traits, defaultKey);
    var tail := if GroupKeyOf(skills[n].1, defaultKey) == k then [ViewAt(skills, n, traits, defaultKey)] else [];
    BucketSnocView(skills, k, traits, defaultKey);
    MultisetCountConcat(Bucket(p, k, traits, defaultKey), tail, v);
    ViewAtPrefix(skills, n, i, traits, defaultKey);
    assert p[i] == skills[i];
    ViewsDiffer(skills, i, n, traits, defaultKey);
    assert multiset(tail)[v] == 0;
  }

  /** The step of `BucketCount` for the last skill. */
  lemma BucketCountLast(skills: Entries<SkillData>, k: string, traits: seq<TraitView>, defaultKey: string)
    requires UniqueKeys(skills) && skills != []
    ensures var n := |skills| - 1;
      multiset(Bucket(skills, k, traits, defaultKey))[ViewAt(skills, n, traits, defaultKey)] ==
      if GroupKeyOf(skills[n].1, defaultKey) == k then 1 else 0
  {
    var n := |skills| - 1;
    var p := skills[..n];
    var v := ViewAt(skills, n, traits, defaultKey);
    var tail := if GroupKeyOf(skills[n].1, defaultKey) == k then [v] else [];
    BucketSnocView(skills, k, traits, defaultKey);
    MultisetCountConcat(Bucket(p, k, traits, defaultKey), tail, v);
    BucketLacksLast(skills, k, traits, defaultKey);
  }

  /** `Bucket` on a non-empty map, with the last view written through `ViewAt`. */
  lemma BucketSnocView(skills: Entries<SkillData>, k: string, traits: seq<TraitView>, defaultKey: string)
    requires skills != []
    ensures var n := |skills| - 1;
      Bucket(skills, k, traits, defaultKey) == Bucket(skills[..n], k, traits, defaultKey)
        + (if GroupKeyOf(skills[n].1, defaultKey) == k then [ViewAt(skills, n, traits, defaultKey)] else [])
  {
  }

  /** A skill's view does not depend on the entries after it. */
  lemma ViewAtPrefix(skills: Entries<SkillData>, n: nat, i: nat, traits: seq<TraitView>, defaultKey: string)
    requires i < n <= |skills|
    ensures ViewAt(skills[..n], i, traits, defaultKey) == ViewAt(skills, i, traits, defaultKey)
  {
    assert skills[..n][i] == skills[i];
  }

  /** With unique keys, two skills have different views. */
  lemma ViewsDiffer(skills: Entries<SkillData>, i: nat, j: nat, traits: seq<TraitView>, defaultKey: string)
    requires UniqueKeys(skills) && i < j < |skills|
    ensures ViewAt(skills, i, traits, defaultKey) != ViewAt(skills, j, traits, defaultKey)
  {
    assert Keys(skills)[i] == skills[i].0 && Keys(skills)[j] == skills[j].0;
  }

  lemma MultisetCountConcat(a: seq<SkillView>, b: seq<SkillView>, v: SkillView)
    ensures multiset(a + b)[v] == multiset(a)[v] + multiset(b)[v]
  {
    assert multiset(a + b) == multiset(a) + multiset(b);
  }

  /** With unique keys, the last skill's view is not in the bucket built from the skills before it. */
  lemma BucketLacksLast(skills: Entries<SkillData>, k: string, traits: seq<TraitView>, defaultKey: string)
    requires UniqueKeys(skills) && skills != []
    ensures multiset(Bucket(skills[..|skills| - 1], k, traits, defaultKey))[ViewAt(skills, |skills| - 1, traits, defaultKey)] == 0
  {
    var n := |skills| - 1;
    var p := skills[..n];
    var v := ViewAt(skills, n, traits, defaultKey);
    forall j | 0 <= j < |p|
      ensures ViewAt(p, j, traits, defaultKey) != v
    {
      assert Keys(skills)[j] == p[j].0 && Keys(skills)[n] == skills[n].0;
    }
    assert !ViewOfSkillIn(p, k, traits, defaultKey, v);
    if v in Bucket(p, k, traits, defaultKey) {
      BucketMember(p, k, traits, defaultKey, v);
    }
    assert v !in multiset(Bucket(p, k, traits, defaultKey));
  }

  /** The keys of `skillsByTrait`: unique, the declared traits first and in order, and every skill's group present. */
  lemma SkillGroupsKeys(skills: Entries<SkillData>, traits: seq<TraitView>, configTraits: seq<string>)
    requires Distinct(TraitKeysOf(traits))
    ensures var r := SkillGroups(skills, traits, configTraits);
      && UniqueKeys(r)
      && |traits| <= |r|
      && (forall t :: 0 <= t < |traits| ==> r[t].0 == traits[t].key)
      && forall i :: 0 <= i < |skills| ==> GroupKeyOf(skills[i].1, DefaultSkillTrait(traits, configTraits)) in Keys(r)
  {
    var defaultKey := DefaultSkillTrait(traits, configTraits);
    var keys := AppendNew(TraitKeysOf(traits), GroupKeys(skills, defaultKey));
    var r := SkillGroups(skills, traits, configTraits);
    assert Keys(r) == keys;
    forall i | 0 <= i < |skills|
      ensures GroupKeyOf(skills[i].1, defaultKey) in Keys(r)
    {
      assert GroupKeys(skills, defaultKey)[i] == GroupKeyOf(skills[i].1, defaultKey);
    }
    forall t | 0 <= t < |traits|
      ensures r[t].0 == traits[t].key
    {
      assert keys[..|traits|][t] == TraitKeysOf(traits)[t];
    }
  }

  /** Each group of a declared trait is sorted by label; every group holds only skills of its key. */
  lemma SkillGroupsContents(skills: Entries<SkillData>, traits: seq<TraitView>, configTraits: seq<string>, g: nat, v: SkillView)
    requires g < |SkillGroups(skills, traits, configTraits)|
    ensures var r := SkillGroups(skills, traits, configTraits);
      r[g].0 in TraitKeysOf(traits) ==> SortedBy(r[g].1, CaptionOf)
    ensures var r := SkillGroups(skills, traits, configTraits);
      v in r[g].1 ==> ViewOfSkillIn(skills, r[g].0, traits, DefaultSkillTrait(traits, configTraits), v)
  {
    var defaultKey := DefaultSkillTrait(traits, configTraits);
    var r := SkillGroups(skills, traits, configTraits);
    var b := Bucket(skills, r[g].0, traits, defaultKey);
    if v in r[g].1 {
      if r[g].0 in TraitKeysOf(traits) {
        assert multiset(r[g].1) == multiset(b);
        assert v in multiset(b);
      }
      BucketMember(skills, r[g].0, traits, defaultKey, v);
    }
  }

  /** With unique skill keys, every skill appears exactly once in `skillsByTrait`: in its own trait's group. */
  lemma SkillInExactlyOneGroup(skills: Entries<SkillData>, traits: seq<TraitView>, configTraits: seq<string>, i: nat, g: nat)
    requires UniqueKeys(skills) && i < |skills|
    requires g < |SkillGroups(skills, traits, configTraits)|
    ensures var r := SkillGroups(skills, traits, configTraits);
      var defaultKey := DefaultSkillTrait(traits, configTraits);
      multiset(r[g].1)[ViewAt(skills, i, traits, defaultKey)] == if r[g].0 == GroupKeyOf(skills[i].1, defaultKey) then 1 else 0
  {
    var defaultKey := DefaultSkillTrait(traits, configTraits);
    var r := SkillGroups(skills, traits, configTraits);
    BucketCount(skills, r[g].0, traits, defaultKey, i);
  }

  /** The detail fields `getData` fills with `''` when they are undefined. */
  const DefaultDetailKeys: seq<string> := ["playerName", "heroName", "codeName", "origin", "affiliation", "background"]

  function EmptyDetail(key: string): string {
    ""
  }

  /** `{ label: this._capitalize(traitKey), value: 0 }`. */
  function NewTrait(key: string): TraitData {
    TraitData(Some(Capitalize(key)), Some(Finite(0)))
  }

  /** `system.details` after `??= {}` and the default loop. */
  function FilledDetails(system: SystemData): Entries<string> {
    SetMissingAll(system.details.GetOr([]), DefaultDetailKeys, EmptyDetail)
  }

  /** `system.traits` after `??= {}` and the configured-trait loop. */
  function FilledTraits(system: SystemData, configTraits: seq<string>): Entries<TraitData> {
    SetMissingAll(system.traits.GetOr([]), configTraits, NewTrait)
  }

  /** `system.skills` after `??= {}` and the replacement by the default skills. */
  function StartSkills(system: SystemData, defaultSkills: Entries<SkillData>): Entries<SkillData> {
    var skills := system.skills.GetOr([]);
    if skills == [] && defaultSkills != [] then defaultSkills else skills
  }

  /** `if (!skillData.trait) skillData.trait = skill.trait`, where `skill.trait` is the skill's group key. */
  function Backfill(data: SkillData, groupKey: string): SkillData {
    if NonEmpty(data.traitKey) then data else data.(traitKey := Some(groupKey))
  }

  /** Every skill backfilled with its own group key. */
  function BackfillSkills(skills: Entries<SkillData>, defaultKey: string): Entries<SkillData> {
    seq(|skills|, s requires 0 <= s < |skills| => (skills[s].0, Backfill(skills[s].1, GroupKeyOf(skills[s].1, defaultKey))))
  }

  /** The parts of the sheet context that `getData` computes. */
  datatype SheetContext = SheetContext(system: SystemData, traits: seq<TraitView>, skillsByTrait: Entries<seq<SkillView>>)

  function BackfilledIf(data: SkillData, defaultKey: string, backfilled: bool): SkillData {
    if backfilled then Backfill(data, GroupKeyOf(data, defaultKey)) else data
  }

  /** The backfill loop's bookkeeping: exactly the skills named in `done` are backfilled. */
  ghost predicate BackfilledFor(skills: Entries<SkillData>, start: Entries<SkillData>, defaultKey: string, done: set<string>) {
    && |skills| == |start|
    && forall s :: 0 <= s < |skills| ==> skills[s] == (start[s].0, BackfilledIf(start[s].1, defaultKey, start[s].0 in done))
  }

  /** Writing the backfilled entry of skill `j` marks that skill as done. */
  lemma BackfillSetStep(skills: Entries<SkillData>, start: Entries<SkillData>, defaultKey: string, done: set<string>, j: nat)
    requires UniqueKeys(start) && BackfilledFor(skills, start, defaultKey, done) && j < |start|
    ensures BackfilledFor(Set(skills, start[j].0, BackfilledIf(start[j].1, defaultKey, true)), start, defaultKey, done + {start[j].0})
  {
    var d := BackfilledIf(start[j].1, defaultKey, true);
    var r := Set(skills, start[j].0, d);
    assert Keys(skills) == Keys(start);
    assert Keys(skills)[j] == start[j].0;
    SetEntries(skills, start[j].0, d);
    forall s | 0 <= s < |r|
      ensures r[s] == (start[s].0, BackfilledIf(start[s].1, defaultKey, start[s].0 in done + {start[j].0}))
    {
      if s != j {
        assert Keys(start)[s] != Keys(start)[j];
      }
    }
  }

  /** A skill whose entry is already backfilled can be marked as done without writing it. */
  lemma BackfillKeepStep(skills: Entries<SkillData>, start: Entries<SkillData>, defaultKey: string, done: set<string>, j: nat)
    requires UniqueKeys(start) && BackfilledFor(skills, start, defaultKey, done) && j < |start|
    requires skills[j].1 == BackfilledIf(start[j].1, defaultKey, true)
    ensures BackfilledFor(skills, start, defaultKey, done + {start[j].0})
  {
    forall s | 0 <= s < |skills|
      ensures skills[s] == (start[s].0, BackfilledIf(start[s].1, defaultKey, start[s].0 in done + {start[j].0}))
    {
      if s != j {
        assert Keys(start)[s] != Keys(start)[j];
      }
    }
  }

  /** Backfilling the skill behind one grouped view. */
  lemma BackfillStep(skills: Entries<SkillData>, start: Entries<SkillData>, traits: seq<TraitView>, defaultKey: string,
                     done: set<string>, k: string, view: SkillView)
    requires UniqueKeys(start) && BackfilledFor(skills, start, defaultKey, done)
    requires ViewOfSkillIn(start, k, traits, defaultKey, view)
    ensures
      var data := Get(skills, view.key).GetOr(SkillData(None, None, None));
      BackfilledFor(if !NonEmpty(data.traitKey) then Set(skills, view.key, data.(traitKey := Some(view.traitKey))) else skills,
        start, defaultKey, done + {view.key})
  {
    var j :| 0 <= j < |start| && view == ViewAt(start, j, traits, defaultKey) && GroupKeyOf(start[j].1, defaultKey) == k;
    assert Keys(skills) == Keys(start);
    assert Keys(skills)[j] == start[j].0;
    GetAt(skills, j);
    var data := Get(skills, view.key).GetOr(SkillData(None, None, None));
    assert data == skills[j].1;
    if !NonEmpty(data.traitKey) {
      assert data.(traitKey := Some(view.traitKey)) == BackfilledIf(start[j].1, defaultKey, true);
      BackfillSetStep(skills, start, defaultKey, done, j);
    } else {
      BackfillKeepStep(skills, start, defaultKey, done, j);
    }
  }

  /** Every skill of the map appears in some group of `_prepareSkills`. */
  lemma EverySkillGrouped(skills: Entries<SkillData>, traits: seq<TraitView>, configTraits: seq<string>, s: nat)
    requires UniqueKeys(skills) && Distinct(TraitKeysOf(traits)) && s < |skills|
    ensures InSomeGroup(SkillGroups(skills, traits, configTraits), ViewAt(skills, s, traits, DefaultSkillTrait(traits, configTraits)))
  {
    var defaultKey := DefaultSkillTrait(traits, configTraits);
    var r := SkillGroups(skills, traits, configTraits);
    SkillGroupsKeys(skills, traits, configTraits);
    var k := GroupKeyOf(skills[s].1, defaultKey);
    assert k in Keys(r);
    var g :| 0 <= g < |r| && Keys(r)[g] == k;
    SkillInExactlyOneGroup(skills, traits, configTraits, s, g);
  }

  /** The details loop of `getData`: each default detail key is set to `''` when undefined. */
  method FillDetails(details0: Entries<string>) returns (details: Entries<string>)
    ensures details == SetMissingAll(details0, DefaultDetailKeys, EmptyDetail)
  {
    details := details0;
    var i := 0;
    while i < |DefaultDetailKeys|
      invariant 0 <= i <= |DefaultDetailKeys|
      invariant details == SetMissingAll(details0, DefaultDetailKeys[..i], EmptyDetail)
    {
      var key := DefaultDetailKeys[i];
      SetMissingAllSnoc(details0, DefaultDetailKeys, i, EmptyDetail);
      if Get(details, key).None? {
        details := Set(details, key, "");
      }
      i := i + 1;
    }
    assert DefaultDetailKeys[..|DefaultDetailKeys|] == DefaultDetailKeys;
  }

  /** The configured-trait loop of `getData`: `system.traits[traitKey] ??= { label, value: 0 }`. */
  method AddConfigTraits(traits0: Entries<TraitData>, configTraits: seq<string>) returns (traits: Entries<TraitData>)
    ensures traits == SetMissingAll(traits0, configTraits, NewTrait)
  {
    traits := traits0;
    var i := 0;
    while i < |configTraits|
      invariant 0 <= i <= |configTraits|
      invariant traits == SetMissingAll(traits0, configTraits[..i], NewTrait)
    {
      var key := configTraits[i];
      SetMissingAllSnoc(traits0, configTraits, i, NewTrait);
      if Get(traits, key).None? {
        traits := Set(traits, key, TraitData(Some(Capitalize(key)), Some(Finite(0))));
      }
      i := i + 1;
    }
    assert configTraits[..|configTraits|] == configTraits;
  }

  /** Every member of every group is the view of a skill of that group. */
  ghost predicate GroupsFromSkills(groups: Entries<seq<SkillView>>, start: Entries<SkillData>, traits: seq<TraitView>, defaultKey: string) {
    forall g, v :: 0 <= g < |groups| && v in groups[g].1 ==> ViewOfSkillIn(start, groups[g].0, traits, defaultKey, v)
  }

  /** Every skill's view is a member of some group. */
  ghost predicate GroupsCover(groups: Entries<seq<SkillView>>, start: Entries<SkillData>, traits: seq<TraitView>, defaultKey: string) {
    forall s :: 0 <= s < |start| ==> InSomeGroup(groups, ViewAt(start, s, traits, defaultKey))
  }

  ghost predicate InSomeGroup(groups: Entries<seq<SkillView>>, v: SkillView) {
    exists g :: 0 <= g < |groups| && v in groups[g].1
  }

  lemma SkillGroupsFromSkillsAndCover(skills: Entries<SkillData>, traits: seq<TraitView>, configTraits: seq<string>)
    requires UniqueKeys(skills) && Distinct(TraitKeysOf(traits))
    ensures GroupsFromSkills(SkillGroups(skills, traits, configTraits), skills, traits, DefaultSkillTrait(traits, configTraits))
    ensures GroupsCover(SkillGroups(skills, traits, configTraits), skills, traits, DefaultSkillTrait(traits, configTraits))
  {
    var r := SkillGroups(skills, traits, configTraits);
    forall g, v | 0 <= g < |r| && v in r[g].1
      ensures ViewOfSkillIn(skills, r[g].0, traits, DefaultSkillTrait(traits, configTraits), v)
    {
      SkillGroupsContents(skills, traits, configTraits, g, v);
    }
    forall s | 0 <= s < |skills|
      ensures InSomeGroup(r, ViewAt(skills, s, traits, DefaultSkillTrait(traits, configTraits)))
    {
      EverySkillGrouped(skills, traits, configTraits, s);
    }
  }

  /** The keys of all members of the first `n` groups are in `done`. */
  ghost predicate MembersDone(groups: Entries<seq<SkillView>>, n: nat, done: set<string>) {
    forall h, v :: 0 <= h < n && h < |groups| && v in groups[h].1 ==> v.key in done
  }

  lemma MembersDoneMono(groups: Entries<seq<SkillView>>, n: nat, done: set<string>, more: set<string>)
    requires MembersDone(groups, n, done) && done <= more
    ensures MembersDone(groups, n, more)
  {
  }

  lemma MembersDoneNext(groups: Entries<seq<SkillView>>, n: nat, done: set<string>)
    requires n < |groups| && MembersDone(groups, n, done)
    requires forall v :: v in groups[n].1 ==> v.key in done
    ensures MembersDone(groups, n + 1, done)
  {
  }

  /** Once every grouped skill is done and every skill is grouped, the map is the backfilled skills. */
  lemma BackfillComplete(skills: Entries<SkillData>, start: Entries<SkillData>, traits: seq<TraitView>, defaultKey: string,
                         groups: Entries<seq<SkillView>>, done: set<string>)
    requires BackfilledFor(skills, start, defaultKey, done)
    requires MembersDone(groups, |groups|, done) && GroupsCover(groups, start, traits, defaultKey)
    ensures skills == BackfillSkills(start, defaultKey)
  {
    forall s | 0 <= s < |start|
      ensures start[s].0 in done
    {
      assert InSomeGroup(groups, ViewAt(start, s, traits, defaultKey));
      var h :| 0 <= h < |groups| && ViewAt(start, s, traits, defaultKey) in groups[h].1;
    }
  }

  /** The backfill loop of `getData`: every grouped skill without a truthy trait takes its group's key. */
  method BackfillTraits(start: Entries<SkillData>, traitViews: seq<TraitView>, defaultKey: string,
                        groups: Entries<seq<SkillView>>) returns (skills: Entries<SkillData>)
    requires UniqueKeys(start)
    requires GroupsFromSkills(groups, start, traitViews, defaultKey) && GroupsCover(groups, start, traitViews, defaultKey)
    ensures skills == BackfillSkills(start, defaultKey)
  {
    skills := start;
    ghost var done: set<string> := {};
    var g := 0;
    while g < |groups|
      invariant 0 <= g <= |groups|
      invariant BackfilledFor(skills, start, defaultKey, done)
      invariant MembersDone(groups, g, done)
    {
      ghost var done' := done;
      skills, done' := BackfillGroup(skills, start, traitViews, defaultKey, groups[g].0, groups[g].1, done);
      MembersDoneMono(groups, g, done, done');
      done := done';
      MembersDoneNext(groups, g, done);
      g := g + 1;
    }
    BackfillComplete(skills, start, traitViews, defaultKey, groups, done);
  }

  /** The inner loop of the backfill, over the members of the group of key `k`. */
  method BackfillGroup(skills0: Entries<SkillData>, start: Entries<SkillData>, traitViews: seq<TraitView>, defaultKey: string,
                       k: string, members: seq<SkillView>, ghost done0: set<string>)
    returns (skills: Entries<SkillData>, ghost done: set<string>)
    requires UniqueKeys(start) && BackfilledFor(skills0, start, defaultKey, done0)
    requires forall v :: v in members ==> ViewOfSkillIn(start, k, traitViews, defaultKey, v)
    ensures BackfilledFor(skills, start, defaultKey, done)
    ensures done0 <= done && forall v :: v in members ==> v.key in done
  {
    skills := skills0;
    done := done0;
    var j := 0;
    while j < |members|
      invariant 0 <= j <= |members|
      invariant BackfilledFor(skills, start, defaultKey, done)
      invariant done0 <= done
      invariant forall v :: v in members[..j] ==> v.key in done
    {
      var view := members[j];
      assert members[..j + 1] == members[..j] + [view];
      BackfillStep(skills, start, traitViews, defaultKey, done, k, view);
      var data := Get(skills, view.key).GetOr(SkillData(None, None, None));
      if !NonEmpty(data.traitKey) {
        skills := Set(skills, view.key, data.(traitKey := Some(view.traitKey)));
      }
      done := done + {view.key};
      j := j + 1;
    }
    assert members[..j] == members;
  }

  /** `getData`, past `super.getData`: default-filling on a copy of `system`, the trait and skill views, and the trait backfill. */
  method GetData(system: SystemData, configTraits: seq<string>, defaultSkills: Entries<SkillData>) returns (ctx: SheetContext)
    requires WellFormed(system) && UniqueKeys(defaultSkills)
    ensures ctx.system.details == Some(FilledDetails(system))
    ensures ctx.system.traits == Some(FilledTraits(system, configTraits))
    ensures ctx.system.notes == Some(system.notes.GetOr(""))
    ensures ctx.traits == PrepareTraits(FilledTraits(system, configTraits))
    ensures ctx.skillsByTrait == SkillGroups(StartSkills(system, defaultSkills), ctx.traits, configTraits)
    ensures ctx.system.skills == Some(BackfillSkills(StartSkills(system, defaultSkills), DefaultSkillTrait(ctx.traits, configTraits)))
  {
    var details := FillDetails(system.details.GetOr([]));
    var traits := system.traits.GetOr([]);
    var skills := system.skills.GetOr([]);
    if skills == [] && defaultSkills != [] {
      skills := defaultSkills;
    }
    var notes := system.notes.GetOr("");
    traits := AddConfigTraits(traits, configTraits);

    var traitViews := PrepareTraits(traits);
    PrepareTraitsKeys(traits);
    var groups := PrepareSkills(skills, traitViews, configTraits);
    SkillGroupsFromSkillsAndCover(skills, traitViews, configTraits);
    skills := BackfillTraits(skills, traitViews, DefaultSkillTrait(traitViews, configTraits), groups);
    ctx := SheetContext(SystemData(Some(details), Some(traits), Some(skills), Some(notes)), traitViews, groups);
  }

  /** Default-filling never moves or changes an existing detail or trait, and adds exactly the missing defaults. */
  lemma DefaultFillingPreserves(system: SystemData, configTraits: seq<string>, k: string)
    requires WellFormed(system)
    ensures var d := system.details.GetOr([]);
      && FilledDetails(system)[..|d|] == d
      && Get(FilledDetails(system), k) == if k in Keys(d) then Get(d, k) else if k in DefaultDetailKeys then Some("") else None
    ensures var t := system.traits.GetOr([]);
      && FilledTraits(system, configTraits)[..|t|] == t
      && Get(FilledTraits(system, configTraits), k) ==
        if k in Keys(t) then Get(t, k) else if k in configTraits then Some(TraitData(Some(Capitalize(k)), Some(Finite(0)))) else None
  {
    GetSetMissingAll(system.details.GetOr([]), DefaultDetailKeys, EmptyDetail, k);
    GetSetMissingAll(system.traits.GetOr([]), configTraits, NewTrait, k);
  }

  /** After default-filling, every default detail key and every configured trait key is present. */
  lemma DefaultsPresent(system: SystemData, configTraits: seq<string>)
    ensures forall k :: k in DefaultDetailKeys ==> k in Keys(FilledDetails(system))
    ensures forall k :: k in configTraits ==> k in Keys(FilledTraits(system, configTraits))
    ensures UniqueKeys(system.traits.GetOr([])) ==> Distinct(TraitKeysOf(PrepareTraits(FilledTraits(system, configTraits))))
  {
    PrepareTraitsKeys(FilledTraits(system, configTraits));
  }

  /** The default skills replace the skill map only when it is empty and they are not. */
  lemma DefaultSkillsOnlyWhenEmpty(system: SystemData, defaultSkills: Entries<SkillData>)
    ensures system.skills.Some? && system.skills.value != [] ==> StartSkills(system, defaultSkills) == system.skills.value
    ensures StartSkills(system, defaultSkills) == [] <==> system.skills.GetOr([]) == [] && defaultSkills == []
    ensures system.skills.GetOr([]) == [] && defaultSkills != [] ==> StartSkills(system, defaultSkills) == defaultSkills
  {
  }

  /**
   * The backfill keeps every skill and its position, leaves a truthy trait alone and otherwise sets the
   * trait to the skill's group key; the trait is then truthy unless the group key is the empty string.
   */
  lemma BackfillSkillsSpec(skills: Entries<SkillData>, defaultKey: string, s: nat)
    requires s < |skills|
    ensures var r := BackfillSkills(skills, defaultKey);
      && |r| == |skills| && Keys(r) == Keys(skills)
      && r[s].1.caption == skills[s].1.caption && r[s].1.value == skills[s].1.value
      && (NonEmpty(skills[s].1.traitKey) ==> r[s].1 == skills[s].1)
      && (!NonEmpty(skills[s].1.traitKey) ==> r[s].1.traitKey == Some(GroupKeyOf(skills[s].1, defaultKey)))
      && (NonEmpty(r[s].1.traitKey) <==> NonEmpty(skills[s].1.traitKey) || GroupKeyOf(skills[s].1, defaultKey) != "")
  {
    var r := BackfillSkills(skills, defaultKey);
    assert Keys(r) == Keys(skills);
  }

  /** A second backfill changes nothing, and the group a skill belongs to is the same after backfill. */
  lemma BackfillIdempotent(skills: Entries<SkillData>, defaultKey: string)
    ensures BackfillSkills(BackfillSkills(skills, defaultKey), defaultKey) == BackfillSkills(skills, defaultKey)
    ensures GroupKeys(BackfillSkills(skills, defaultKey), defaultKey) == GroupKeys(skills, defaultKey)
  {
    var r := BackfillSkills(skills, defaultKey);
    assert GroupKeys(r, defaultKey) == GroupKeys(skills, defaultKey);
  }

  /** `bonusDice: Number(item.system?.dice ?? 0)` of a power roll: always a number. */
  function PowerRollBonus(dice: Option<Number>): (r: Option<Number>)
    ensures r == Some(if dice.Some? then dice.value else Finite(0))
  {
    Some(OrZero(dice))
  }

  /** A power roll's chat card carries its item's dice as `bonusDice` exactly when they are positive. */
  lemma PowerRollBonusOnCard(dice: Option<Number>)
    ensures BonusField(OrZero(PowerRollBonus(dice))).Some? <==> dice.Some? && Positive(dice.value)
    ensures BonusField(OrZero(PowerRollBonus(dice))).Some? ==> BonusField(OrZero(PowerRollBonus(dice))).value == dice.value
  {
  }
}
