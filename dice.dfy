/**
 * `rollTraitSkill`: pool size, target selection, the abort rules, the outcome and the
 * chat payload; and the parse rules of the target-number prompt. The dialogs, the
 * random engine and the chat message are the host's: the operator's answer and the
 * evaluated roll come in as parameters.
 */
module Dice {
  import opened Wrappers
  import opened JsValues
  import opened OrderedMaps
  import opened Records
  import opened Runs

  /** How the target-number prompt was answered. */
  datatype PromptReply =
      /** Every dialog was closed without confirming. */
    | Dismissed
      /** The DialogV2 form was submitted: `formData.get('target')` and the input element's value. */
    | Submitted(formValue: Option<Number>, inputValue: Option<Number>)
      /** The Dialog.prompt form was confirmed: the input element's value (None when no element was found). */
    | Confirmed(inputValue: Option<Number>)

  predicate FiniteCandidate(c: Option<Number>) {
    c.Some? && c.value.IsFinite()
  }

  /** Candidate `k` is the first one that parses to a finite number. */
  predicate FirstFiniteAt(candidates: seq<Option<Number>>, k: int) {
    0 <= k < |candidates| && FiniteCandidate(candidates[k]) &&
    forall j :: 0 <= j < k ==> !FiniteCandidate(candidates[j])
  }

  /** The first candidate that parses to a finite number, else the default. */
  function FirstFinite(candidates: seq<Option<Number>>, default: Number): (r: Number)
    ensures forall k :: FirstFiniteAt(candidates, k) ==> r == candidates[k].value
    ensures (forall k :: 0 <= k < |candidates| ==> !FiniteCandidate(candidates[k])) ==> r == default
  {
    if candidates == [] then default
    else if FiniteCandidate(candidates[0]) then candidates[0].value
    else
      var r := FirstFinite(candidates[1..], default);
      assert forall k :: 1 <= k < |candidates| ==> candidates[k] == candidates[1..][k - 1];
      r
  }

  /** The DialogV2 `submit` callback: the form-data value if it is finite, then the input's value, then the default. */
  function SubmitTarget(formValue: Option<Number>, inputValue: Option<Number>, default: Number): (r: Number)
    ensures r == FirstFinite([formValue, inputValue], default)
  {
    if formValue.Some? && formValue.value.IsFinite() then formValue.value
    else if inputValue.Some? && inputValue.value.IsFinite() then inputValue.value
    else default
  }

  /** The Dialog.prompt `callback`: `Number(undefined)` is NaN, so a missing input gives the default. */
  function CallbackTarget(inputValue: Option<Number>, default: Number): (r: Number)
    ensures r == FirstFinite([inputValue], default)
  {
    var value := inputValue.GetOr(NaN);
    if value.IsFinite() then value else default
  }

  /** What `promptTargetNumber` resolves to: None for a dismissed prompt. */
  function PromptValue(reply: PromptReply, default: Number): (r: Option<Number>)
    ensures r.None? <==> reply.Dismissed?
    ensures r.Some? ==> r.value.IsFinite() || r.value == default
  {
    match reply
    case Dismissed => None
    case Submitted(f, i) => Some(SubmitTarget(f, i, default))
    case Confirmed(i) => Some(CallbackTarget(i, default))
  }

  /** `Number(target ?? 0) || 7`: the value the prompt is pre-filled with. */
  function DefaultTarget(target: Option<Number>): (r: Number)
    ensures Truthy(r)
    ensures target.None? ==> r == Finite(7)
    ensures target.Some? ==> r == if Truthy(target.value) then target.value else Finite(7)
  {
    var n := OrZero(target);
    if Truthy(n) then n else Finite(7)
  }

  /** `target ?? await promptTargetNumber(...)`: an explicit target is used unchanged and no prompt is shown. */
  function ResolveTarget(target: Option<Number>, reply: PromptReply): (r: Option<Number>)
    ensures target.Some? ==> r == target
    ensures target.None? ==> r == PromptValue(reply, Finite(7))
    ensures r.None? <==> target.None? && reply.Dismissed?
    ensures target.None? && r.Some? ==> r.value.IsFinite()
  {
    if target.Some? then target else PromptValue(reply, DefaultTarget(target))
  }

  /** All three summands are finite and add up to at least one. */
  predicate SumAtLeastOne(traitValue: Number, skillValue: Number, bonus: Number) {
    traitValue.IsFinite() && skillValue.IsFinite() && bonus.IsFinite() &&
    traitValue.value + skillValue.value + bonus.value >= 1
  }

  /** The pool: trait + skill + bonus, or 1 when that sum is not finite or below 1. */
  function PoolSize(traitValue: Number, skillValue: Number, bonus: Number): (pool: int)
    ensures pool >= 1
    ensures SumAtLeastOne(traitValue, skillValue, bonus) ==> pool == traitValue.value + skillValue.value + bonus.value
    ensures !SumAtLeastOne(traitValue, skillValue, bonus) ==> pool == 1
  {
    var sum := Add(Add(traitValue, skillValue), bonus);
    if !sum.IsFinite() || sum.value < 1 then 1 else sum.value
  }

  /** `systemData.traits[traitKey]`. */
  function TraitOf(system: SystemData, traitKey: string): Option<TraitData> {
    match system.traits
    case None => None
    case Some(traits) => Get(traits, traitKey)
  }

  /** `systemData.skills[skillKey]`, looked up only for a truthy key. */
  function SkillOf(system: SystemData, skillKey: Option<string>): Option<SkillData> {
    if !NonEmpty(skillKey) then None
    else
      match system.skills
      case None => None
      case Some(skills) => Get(skills, skillKey.value)
  }

  /** `Number(skill?.value ?? 0)`: a missing skill contributes 0. */
  function SkillValue(skill: Option<SkillData>): Number {
    match skill
    case None => Finite(0)
    case Some(d) => OrZero(d.value)
  }

  /** `skill?.label ?? skillKey ?? label` (`label` is the caller's caption). */
  function SkillLabel(skill: Option<SkillData>, skillKey: Option<string>, caption: string): (r: string)
    ensures skill.Some? && skill.value.caption.Some? ==> r == skill.value.caption.value
    ensures !(skill.Some? && skill.value.caption.Some?) && skillKey.Some? ==> r == skillKey.value
    ensures !(skill.Some? && skill.value.caption.Some?) && skillKey.None? ==> r == caption
  {
    if skill.Some? && skill.value.caption.Some? then skill.value.caption.value else skillKey.GetOr(caption)
  }

  /** The card title: the caller's caption if non-empty, else "Skill (Trait)" when the skill has a non-empty label, else the trait label. */
  function Title(caption: string, skill: Option<SkillData>, traitLabel: string): (r: string)
    ensures caption != "" ==> r == caption
    ensures caption == "" && skill.Some? && NonEmpty(skill.value.caption) ==> r == skill.value.caption.value + " (" + traitLabel + ")"
    ensures caption == "" && !(skill.Some? && NonEmpty(skill.value.caption)) ==> r == traitLabel
  {
    if caption != "" then caption
    else if skill.Some? && NonEmpty(skill.value.caption) then skill.value.caption.value + " (" + traitLabel + ")"
    else traitLabel
  }

  /** Without a caption, the title always shows the trait label; it is empty only when the caption, the skill label and the trait label all are. */
  lemma TitleShowsTrait(caption: string, skill: Option<SkillData>, traitLabel: string)
    ensures caption == "" ==> exists p, q :: Title(caption, skill, traitLabel) == p + traitLabel + q
    ensures Title(caption, skill, traitLabel) == "" <==>
      caption == "" && traitLabel == "" && !(skill.Some? && NonEmpty(skill.value.caption))
  {
    var r := Title(caption, skill, traitLabel);
    if caption == "" {
      var p, q := "", "";
      if skill.Some? && NonEmpty(skill.value.caption) {
        p, q := skill.value.caption.value + " (", ")";
        assert |r| > 0;
      }
      assert r == p + traitLabel + q;
    }
  }

  /** `bonusValue > 0 ? bonusValue : null`. */
  function BonusField(bonus: Number): (r: Option<Number>)
    ensures r.Some? <==> Positive(bonus)
    ensures r.Some? ==> r.value == bonus
  {
    if Positive(bonus) then Some(bonus) else None
  }

  datatype Warning = ActorRequired | UnknownTrait(key: string) | UnknownSkill(key: string)

  /** The data handed to the chat-card template. */
  datatype ChatData = ChatData(
    actorName: string,
    traitLabel: string,
    skillLabel: string,
    pool: int,
    dice: seq<int>,
    highest: int,
    target: Number,
    success: bool,
    bonusDice: Option<Number>,
    title: string)

  /** The notifications `rollTraitSkill` raises. */
  function RollWarnings(actor: Option<Actor>, traitKey: string, skillKey: Option<string>): seq<Warning> {
    if actor.None? then [ActorRequired]
    else if TraitOf(actor.value.system, traitKey).None? then [UnknownTrait(traitKey)]
    else if NonEmpty(skillKey) && SkillOf(actor.value.system, skillKey).None? then [UnknownSkill(skillKey.value)]
    else []
  }

  /** The chat payload for a roll of `pool` dice against `target`. */
  function Card(
    actorName: string, traitKey: string, traitData: TraitData, skill: Option<SkillData>, skillKey: Option<string>,
    caption: string, bonusValue: Number, pool: int, target: Number, roll: int -> seq<DiceTerm>): ChatData
  {
    var dice := DiceResults(roll(pool));
    var traitLabel := traitData.caption.GetOr(traitKey);
    ChatData(actorName, traitLabel, SkillLabel(skill, skillKey, caption), pool, dice, Highest(dice), target,
      AtLeast(Finite(Highest(dice)), target), BonusField(bonusValue), Title(caption, skill, traitLabel))
  }

  /** The chat payload `rollTraitSkill` renders, or None where it returns null before rolling. */
  function RollResult(
    actor: Option<Actor>, traitKey: string, skillKey: Option<string>, target: Option<Number>,
    bonusDice: Option<Number>, caption: string, reply: PromptReply, roll: int -> seq<DiceTerm>): Option<ChatData>
  {
    if actor.None? || TraitOf(actor.value.system, traitKey).None? || ResolveTarget(target, reply).None? then None
    else
      var traitData := TraitOf(actor.value.system, traitKey).value;
      var skill := SkillOf(actor.value.system, skillKey);
      var pool := PoolSize(OrZero(traitData.value), SkillValue(skill), OrZero(bonusDice));
      Some(Card(actor.value.name, traitKey, traitData, skill, skillKey, caption, OrZero(bonusDice), pool,
        ResolveTarget(target, reply).value, roll))
  }

  /**
   * What a roll produces: the abort rules with their notifications, and each field of the
   * payload tied to the rule that computes it.
   */
  lemma RollTraitSkillSpec(
    actor: Option<Actor>, traitKey: string, skillKey: Option<string>, target: Option<Number>,
    bonusDice: Option<Number>, caption: string, reply: PromptReply, roll: int -> seq<DiceTerm>)
    ensures var card := RollResult(actor, traitKey, skillKey, target, bonusDice, caption, reply, roll);
      var warnings := RollWarnings(actor, traitKey, skillKey);
      && (actor.None? ==> card.None? && warnings == [ActorRequired])
      && (actor.Some? && TraitOf(actor.value.system, traitKey).None? ==> card.None? && warnings == [UnknownTrait(traitKey)])
      && (actor.Some? && TraitOf(actor.value.system, traitKey).Some? ==>
            warnings == if NonEmpty(skillKey) && SkillOf(actor.value.system, skillKey).None? then [UnknownSkill(skillKey.value)] else [])
      && (card.Some? <==> actor.Some? && TraitOf(actor.value.system, traitKey).Some? && ResolveTarget(target, reply).Some?)
    ensures var card := RollResult(actor, traitKey, skillKey, target, bonusDice, caption, reply, roll);
      card.Some? ==>
        var c := card.value;
        var traitData := TraitOf(actor.value.system, traitKey).value;
        && c.pool >= 1
        && (SumAtLeastOne(OrZero(traitData.value), SkillValue(SkillOf(actor.value.system, skillKey)), OrZero(bonusDice)) ==>
              c.pool == OrZero(traitData.value).value + SkillValue(SkillOf(actor.value.system, skillKey)).value + OrZero(bonusDice).value)
        && c.dice != [] && c.highest in c.dice && (forall d :: d in c.dice ==> d <= c.highest)
        && (target.Some? ==> c.target == target.value)
        && (target.None? ==> c.target.IsFinite() || c.target == Finite(7))
        && (c.success <==> (c.target.Finite? && exists d :: d in c.dice && d >= c.target.value) || c.target == NegInfinity)
        && (c.bonusDice.Some? <==> Positive(OrZero(bonusDice)))
  {
    var card := RollResult(actor, traitKey, skillKey, target, bonusDice, caption, reply, roll);
    if card.Some? {
      var c := card.value;
      SuccessIffSomeRunMeetsTarget(c.dice, c.target);
    }
  }

  /** The skill named by a truthy key, with the notification for one the actor lacks. */
  method LookUpSkill(system: SystemData, skillKey: Option<string>) returns (skill: Option<SkillData>, warnings: seq<Warning>)
    ensures skill == SkillOf(system, skillKey)
    ensures warnings == if NonEmpty(skillKey) && skill.None? then [UnknownSkill(skillKey.value)] else []
  {
    warnings := [];
    skill := None;
    if NonEmpty(skillKey) {
      skill := SkillOf(system, skillKey);
      if skill.None? {
        warnings := [UnknownSkill(skillKey.value)];
      }
    }
  }

  /** `traitValue + skillValue + bonusValue`, replaced by 1 when not finite or below 1. */
  method PoolFor(traitValue: Number, skillValue: Number, bonusValue: Number) returns (pool: int)
    ensures pool == PoolSize(traitValue, skillValue, bonusValue)
  {
    var sum := Add(Add(traitValue, skillValue), bonusValue);
    if !sum.IsFinite() || sum.value < 1 {
      sum := Finite(1);
    }
    pool := sum.value;
  }

  /**
   * `rollTraitSkill`. `reply` is the operator's answer if a prompt is shown; `roll(n)` is
   * the host's evaluation of `${n}d6x=6`. The result is None where the source returns
   * null before rolling; otherwise it is the chat payload.
   */
  method RollTraitSkill(
    actor: Option<Actor>, traitKey: string, skillKey: Option<string>, target: Option<Number>,
    bonusDice: Option<Number>, caption: string, reply: PromptReply, roll: int -> seq<DiceTerm>)
    returns (card: Option<ChatData>, warnings: seq<Warning>)
    ensures card == RollResult(actor, traitKey, skillKey, target, bonusDice, caption, reply, roll)
    ensures warnings == RollWarnings(actor, traitKey, skillKey)
  {
    if actor.None? {
      return None, [ActorRequired];
    }
    var system := actor.value.system;
    var traitData := TraitOf(system, traitKey);
    if traitData.None? {
      return None, [UnknownTrait(traitKey)];
    }

    var skill;
    skill, warnings := LookUpSkill(system, skillKey);

    var bonusValue := OrZero(bonusDice);
    var pool := PoolFor(OrZero(traitData.value.value), SkillValue(skill), bonusValue);

    var defaultTarget := DefaultTarget(target);
    var resolvedTarget := if target.Some? then target else PromptValue(reply, defaultTarget);
    if resolvedTarget.None? {
      return None, warnings;
    }

    assert resolvedTarget == ResolveTarget(target, reply);
    var c := RollCard(actor.value.name, traitKey, traitData.value, skill, skillKey, caption, bonusValue, pool,
      resolvedTarget.value, roll);
    card := Some(c);
  }

  /** Rolling `${pool}d6x=6`, reducing the dice to runs, and building the chat payload. */
  method RollCard(
    actorName: string, traitKey: string, traitData: TraitData, skill: Option<SkillData>, skillKey: Option<string>,
    caption: string, bonusValue: Number, pool: int, target: Number, roll: int -> seq<DiceTerm>)
    returns (c: ChatData)
    ensures c == Card(actorName, traitKey, traitData, skill, skillKey, caption, bonusValue, pool, target, roll)
  {
    var dice := CollectRuns(roll(pool));
    var highest := Highest(dice);
    var success := AtLeast(Finite(highest), target);
    var traitLabel := traitData.caption.GetOr(traitKey);
    c := ChatData(
      actorName,
      traitLabel,
      SkillLabel(skill, skillKey, caption),
      pool,
      dice,
      highest,
      target,
      success,
      BonusField(bonusValue),
      Title(caption, skill, traitLabel));
  }


  /** Success means the highest run meets the target, which is the same as some run meeting it. */
  lemma SuccessIffSomeRunMeetsTarget(runs: seq<int>, target: Number)
    requires runs != []
    ensures AtLeast(Finite(Highest(runs)), target) <==>
      (target.Finite? && exists r :: r in runs && r >= target.value) || target == NegInfinity
  {
    var h := Highest(runs);
    if target.Finite? && exists r :: r in runs && r >= target.value {
      var r :| r in runs && r >= target.value;
      assert r <= h;
    }
  }

  /** The prompt is only consulted for a null target, and then it is pre-filled with 7. */
  lemma PromptDefaultIsSeven(target: Option<Number>, reply: PromptReply)
    requires target.None?
    ensures ResolveTarget(target, reply) == PromptValue(reply, DefaultTarget(target))
    ensures DefaultTarget(target) == Finite(7)
  {
  }
}
