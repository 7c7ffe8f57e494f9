/** Effects and the modifiers they fold into (wungeons2/src/effects.rs).
    `usize` counters are `nat`, `isize` ones `int`; overflow is not modelled. */
module Effects {
  import opened Wrappers

  datatype Effect =
    | ShopDiscount
    | WordSizeChange(change: int)
    | GainGold(gold: nat)
    | VowelMultIncrease(increase: nat)
    | VowelMultMultIncrease(mult: nat, curse: Option<Effect>)
    | ConsonantMultIncrease(increase: nat)
    | ConsonantMultMultIncrease(mult: nat, curse: Option<Effect>)
    | RackSizeChange(change: int)

  datatype LetterType = Consonant | Vowel

  datatype MultType = Increase | Mult

  type LetterMult = (LetterType, MultType, nat)

  /** The contents of an `AllModifiers`. */
  datatype Modifiers = Modifiers(gold: nat, shopDiscount: nat, wordSizeChange: int,
                                 mults: seq<LetterMult>, rackSizeChange: int)

  /** `AllModifiers::default()`. */
  const NO_MODIFIERS := Modifiers(0, 0, 0, [], 0)

  /** `AllModifiers`: a record the game updates in place. */
  class AllModifiers {
    var gold: nat
    var shopDiscount: nat
    var wordSizeChange: int
    var mults: seq<LetterMult>
    var rackSizeChange: int

    function Value(): Modifiers
      reads this
    {
      Modifiers(gold, shopDiscount, wordSizeChange, mults, rackSizeChange)
    }

    /** `AllModifiers::default()`. */
    constructor ()
      ensures Value() == NO_MODIFIERS
    {
      gold, shopDiscount, wordSizeChange, mults, rackSizeChange := 0, 0, 0, [], 0;
    }

    /** `AllModifiers::add`: sums three of the counters, moves `rhs.mults` onto
        the end of `mults`, and leaves `rack_size_change` alone on both sides. */
    method Add(rhs: AllModifiers)
      requires rhs != this
      modifies this, rhs
      ensures Value() == AddedModifiers(old(Value()), old(rhs.Value()))
      ensures rhs.Value() == old(rhs.Value()).(mults := [])
    {
      gold := gold + rhs.gold;
      shopDiscount := shopDiscount + rhs.shopDiscount;
      wordSizeChange := wordSizeChange + rhs.wordSizeChange;
      mults := mults + rhs.mults;
      rhs.mults := [];
    }
  }

  /** The receiver's contents after `add`. */
  function AddedModifiers(m: Modifiers, rhs: Modifiers): (r: Modifiers)
    ensures r.rackSizeChange == m.rackSizeChange
    ensures |r.mults| == |m.mults| + |rhs.mults|
    ensures r.mults[..|m.mults|] == m.mults && r.mults[|m.mults|..] == rhs.mults
    ensures r.gold - m.gold == rhs.gold && r.shopDiscount - m.shopDiscount == rhs.shopDiscount
    ensures r.wordSizeChange - m.wordSizeChange == rhs.wordSizeChange
  {
    Modifiers(m.gold + rhs.gold, m.shopDiscount + rhs.shopDiscount,
              m.wordSizeChange + rhs.wordSizeChange, m.mults + rhs.mults, m.rackSizeChange)
  }

  /** One effect folded into the modifiers; a curse is folded right after
      the multiplier it comes with. */
  function ApplyEffect(m: Modifiers, e: Effect): Modifiers
    decreases e
  {
    match e
    case ShopDiscount => m.(shopDiscount := m.shopDiscount + 1)
    case WordSizeChange(change) => m.(wordSizeChange := m.wordSizeChange + change)
    case GainGold(change) => m.(gold := m.gold + change)
    case VowelMultIncrease(n) => m.(mults := m.mults + [(Vowel, Increase, n)])
    case VowelMultMultIncrease(mult, curse) =>
      var m' := m.(mults := m.mults + [(Vowel, Mult, mult)]);
      if curse.None? then m' else ApplyEffect(m', curse.value)
    case ConsonantMultIncrease(n) => m.(mults := m.mults + [(Consonant, Increase, n)])
    case ConsonantMultMultIncrease(mult, curse) =>
      var m' := m.(mults := m.mults + [(Consonant, Mult, mult)]);
      if curse.None? then m' else ApplyEffect(m', curse.value)
    case RackSizeChange(change) => m.(rackSizeChange := m.rackSizeChange + change)
  }

  /** The effects folded left to right. */
  function ApplyEffects(m: Modifiers, effects: seq<Effect>): Modifiers
    decreases effects
  {
    if |effects| == 0 then m else ApplyEffects(ApplyEffect(m, effects[0]), effects[1..])
  }

  /** Effects and their curses, counted: the measure of the fold's recursion. */
  function EffectSize(e: Effect): nat {
    match e
    case VowelMultMultIncrease(_, curse) => if curse.None? then 1 else 1 + EffectSize(curse.value)
    case ConsonantMultMultIncrease(_, curse) => if curse.None? then 1 else 1 + EffectSize(curse.value)
    case _ => 1
  }

  function EffectsSize(effects: seq<Effect>): nat {
    if |effects| == 0 then 0 else EffectSize(effects[0]) + EffectsSize(effects[1..])
  }

  lemma {:induction false} EffectsSizeSplit(effects: seq<Effect>, i: nat)
    requires i < |effects|
    ensures EffectsSize(effects[i..]) == EffectSize(effects[i]) + EffectsSize(effects[i + 1..])
  {
    assert effects[i..][1..] == effects[i + 1..];
  }

  lemma {:induction false} EffectsSizeSuffix(effects: seq<Effect>, i: nat)
    requires i <= |effects|
    ensures EffectsSize(effects[i..]) <= EffectsSize(effects)
  {
    if i > 0 {
      EffectsSizeSuffix(effects, i - 1);
      EffectsSizeSplit(effects, i - 1);
    }
  }

  /** `get_all_modifiers_from_effects`: folds every effect into `mods`, in order. */
  method GetAllModifiersFromEffects(mods: AllModifiers, effects: seq<Effect>)
    modifies mods
    ensures mods.Value() == ApplyEffects(old(mods.Value()), effects)
    decreases EffectsSize(effects)
  {
    var i := 0;
    while i < |effects|
      invariant i <= |effects|
      invariant ApplyEffects(mods.Value(), effects[i..]) == ApplyEffects(old(mods.Value()), effects)
    {
      var e := effects[i];
      assert effects[i..][1..] == effects[i + 1..];
      ghost var before := mods.Value();
      match e {
        case ShopDiscount =>
          mods.shopDiscount := mods.shopDiscount + 1;
        case WordSizeChange(change) =>
          mods.wordSizeChange := mods.wordSizeChange + change;
        case GainGold(change) =>
          mods.gold := mods.gold + change;
        case VowelMultIncrease(n) =>
          mods.mults := mods.mults + [(Vowel, Increase, n)];
        case VowelMultMultIncrease(mult, curse) =>
          mods.mults := mods.mults + [(Vowel, Mult, mult)];
          if curse.Some? {
            EffectsSizeSuffix(effects, i);
            EffectsSizeSplit(effects, i);
            assert EffectsSize([curse.value]) == EffectSize(curse.value) by {
              assert [curse.value][1..] == [];
            }
            GetAllModifiersFromEffects(mods, [curse.value]);
            assert [curse.value][1..] == [];
          }
        case ConsonantMultIncrease(n) =>
          mods.mults := mods.mults + [(Consonant, Increase, n)];
        case ConsonantMultMultIncrease(mult, curse) =>
          mods.mults := mods.mults + [(Consonant, Mult, mult)];
          if curse.Some? {
            EffectsSizeSuffix(effects, i);
            EffectsSizeSplit(effects, i);
            assert EffectsSize([curse.value]) == EffectSize(curse.value) by {
              assert [curse.value][1..] == [];
            }
            GetAllModifiersFromEffects(mods, [curse.value]);
            assert [curse.value][1..] == [];
          }
        case RackSizeChange(change) =>
          mods.rackSizeChange := mods.rackSizeChange + change;
      }
      assert mods.Value() == ApplyEffect(before, e);
      i := i + 1;
    }
  }

  /** Folding a concatenation folds the first part, then the second. */
  lemma {:induction false} ApplyEffectsConcat(m: Modifiers, e1: seq<Effect>, e2: seq<Effect>)
    ensures ApplyEffects(m, e1 + e2) == ApplyEffects(ApplyEffects(m, e1), e2)
    decreases e1
  {
    if |e1| > 0 {
      assert (e1 + e2)[1..] == e1[1..] + e2;
      ApplyEffectsConcat(ApplyEffect(m, e1[0]), e1[1..], e2);
    } else {
      assert e1 + e2 == e2;
    }
  }

  /** The gold every effect (and curse) grants. */
  function GoldOf(e: Effect): nat {
    match e
    case GainGold(g) => g
    case VowelMultMultIncrease(_, curse) => if curse.None? then 0 else GoldOf(curse.value)
    case ConsonantMultMultIncrease(_, curse) => if curse.None? then 0 else GoldOf(curse.value)
    case _ => 0
  }

  /** The shop discounts an effect grants. */
  function DiscountOf(e: Effect): nat {
    match e
    case ShopDiscount => 1
    case VowelMultMultIncrease(_, curse) => if curse.None? then 0 else DiscountOf(curse.value)
    case ConsonantMultMultIncrease(_, curse) => if curse.None? then 0 else DiscountOf(curse.value)
    case _ => 0
  }

  /** The word-count change an effect grants. */
  function WordSizeOf(e: Effect): int {
    match e
    case WordSizeChange(c) => c
    case VowelMultMultIncrease(_, curse) => if curse.None? then 0 else WordSizeOf(curse.value)
    case ConsonantMultMultIncrease(_, curse) => if curse.None? then 0 else WordSizeOf(curse.value)
    case _ => 0
  }

  /** The rack-size change an effect grants. */
  function RackSizeOf(e: Effect): int {
    match e
    case RackSizeChange(c) => c
    case VowelMultMultIncrease(_, curse) => if curse.None? then 0 else RackSizeOf(curse.value)
    case ConsonantMultMultIncrease(_, curse) => if curse.None? then 0 else RackSizeOf(curse.value)
    case _ => 0
  }

  /** The multipliers an effect appends, its own before its curse's. */
  function MultsOf(e: Effect): seq<LetterMult> {
    match e
    case VowelMultIncrease(n) => [(Vowel, Increase, n)]
    case ConsonantMultIncrease(n) => [(Consonant, Increase, n)]
    case VowelMultMultIncrease(mult, curse) =>
      [(Vowel, Mult, mult)] + (if curse.None? then [] else MultsOf(curse.value))
    case ConsonantMultMultIncrease(mult, curse) =>
      [(Consonant, Mult, mult)] + (if curse.None? then [] else MultsOf(curse.value))
    case _ => []
  }

  /** Each counter of the result is the old one plus what the effect grants:
      no effect touches a counter other than its own. */
  lemma {:induction false} ApplyEffectFields(m: Modifiers, e: Effect)
    ensures ApplyEffect(m, e) == Modifiers(m.gold + GoldOf(e), m.shopDiscount + DiscountOf(e),
      m.wordSizeChange + WordSizeOf(e), m.mults + MultsOf(e), m.rackSizeChange + RackSizeOf(e))
    decreases e
  {
    match e
    case VowelMultMultIncrease(mult, curse) =>
      if curse.Some? {
        ApplyEffectFields(m.(mults := m.mults + [(Vowel, Mult, mult)]), curse.value);
        AppendOneThenMore(m.mults, (Vowel, Mult, mult), MultsOf(curse.value));
      }
    case ConsonantMultMultIncrease(mult, curse) =>
      if curse.Some? {
        ApplyEffectFields(m.(mults := m.mults + [(Consonant, Mult, mult)]), curse.value);
        AppendOneThenMore(m.mults, (Consonant, Mult, mult), MultsOf(curse.value));
      }
    case _ =>
  }

  /** Appending one multiplier and then more is appending them together. */
  lemma AppendOneThenMore(ms: seq<LetterMult>, t: LetterMult, more: seq<LetterMult>)
    ensures ms + [t] + more == ms + ([t] + more)
  { }

  /** A multiplier effect with a curse is the multiplier then the curse. */
  lemma CurseFoldedAfter(m: Modifiers, mult: nat, curse: Effect)
    ensures ApplyEffect(m, VowelMultMultIncrease(mult, Some(curse))) ==
      ApplyEffects(m, [VowelMultMultIncrease(mult, None), curse])
    ensures ApplyEffect(m, ConsonantMultMultIncrease(mult, Some(curse))) ==
      ApplyEffects(m, [ConsonantMultMultIncrease(mult, None), curse])
  {
    assert [VowelMultMultIncrease(mult, None), curse][1..] == [curse];
    assert [ConsonantMultMultIncrease(mult, None), curse][1..] == [curse];
    assert [curse][1..] == [];
    var v := VowelMultMultIncrease(mult, None);
    var c := ConsonantMultMultIncrease(mult, None);
    assert ApplyEffects(m, [v, curse]) == ApplyEffects(ApplyEffect(m, v), [curse]);
    assert ApplyEffects(ApplyEffect(m, v), [curse]) == ApplyEffect(ApplyEffect(m, v), curse);
    assert ApplyEffects(m, [c, curse]) == ApplyEffects(ApplyEffect(m, c), [curse]);
    assert ApplyEffects(ApplyEffect(m, c), [curse]) == ApplyEffect(ApplyEffect(m, c), curse);
  }

  /** `lowercase_first_letter`, for ASCII letters. */
  function ToLower(c: char): char {
    if 'A' <= c <= 'Z' then (c as int + 32) as char else c
  }

  function LowercaseFirstLetter(s: string): (r: string)
    ensures |r| == |s|
    ensures |s| > 0 ==> r[0] == ToLower(s[0]) && r[1..] == s[1..]
    ensures |s| > 0 && 'A' <= s[0] <= 'Z' ==> 'a' <= r[0] <= 'z'
  {
    if |s| == 0 then "" else [ToLower(s[0])] + s[1..]
  }

  /** Decimal digits of a natural number, as `format!("{}")` writes them. */
  function NatToString(n: nat): (s: string)
    ensures |s| > 0
    ensures forall i :: 0 <= i < |s| ==> '0' <= s[i] <= '9'
    decreases n
  {
    if n < 10 then [Digit(n)] else NatToString(n / 10) + [Digit(n % 10)]
  }

  function Digit(d: nat): (c: char)
    requires d < 10
    ensures '0' <= c <= '9'
  {
    ('0' as int + d) as char
  }

  /** `format!("{}")` of an `isize`: a minus sign before negative numbers. */
  function IntToString(i: int): string {
    if i < 0 then "-" + NatToString(-i) else NatToString(i)
  }

  /** The value of a string of decimal digits. */
  function ParseDigits(s: string): nat
    requires forall i :: 0 <= i < |s| ==> '0' <= s[i] <= '9'
  {
    if |s| == 0 then 0 else 10 * ParseDigits(s[..|s| - 1]) + (s[|s| - 1] as int - '0' as int)
  }

  /** The digits read back as the number they were written from. */
  lemma {:induction false} NatToStringRoundTrip(n: nat)
    ensures ParseDigits(NatToString(n)) == n
  {
    if n >= 10 {
      NatToStringRoundTrip(n / 10);
      var s := NatToString(n);
      assert s[..|s| - 1] == NatToString(n / 10);
    }
  }

  /** `explain_curse`; `None` where the source hits `todo!()`. */
  function ExplainCurse(curse: Option<Effect>): (r: Option<string>)
    ensures curse.None? ==> r == Some("")
    ensures r.None? <==> curse.Some? && !(curse.value.WordSizeChange? || curse.value.RackSizeChange?)
  {
    match curse
    case None => Some("")
    case Some(WordSizeChange(change)) => Some(". [Curse] " + IntToString(change) + " word count")
    case Some(RackSizeChange(change)) => Some(". [Curse] " + IntToString(change) + " rack size")
    case Some(_) => None
  }

  /** `get_effect_description`; `None` where its curse explanation panics. */
  function GetEffectDescription(effect: Effect): (r: Option<string>)
    ensures r.None? <==>
      (effect.VowelMultMultIncrease? || effect.ConsonantMultMultIncrease?) && ExplainCurse(effect.curse).None?
    ensures r.Some? && !effect.ShopDiscount? ==> |r.value| >= 6 && (r.value[..6] == "Gain +" || r.value[..6] == "Gain x")
  {
    match effect
    case ShopDiscount => Some("Get a shop discount")
    case WordSizeChange(change) => Some("Gain +" + IntToString(change) + " word count")
    case RackSizeChange(change) => Some("Gain +" + IntToString(change) + " rack size")
    case VowelMultIncrease(mult) => Some("Gain +" + NatToString(mult) + " vowel mult")
    case VowelMultMultIncrease(mult, curse) =>
      var c :- ExplainCurse(curse);
      Some("Gain x" + NatToString(mult) + " vowel mult" + c)
    case ConsonantMultIncrease(mult) => Some("Gain +" + NatToString(mult) + " consonant mult")
    case ConsonantMultMultIncrease(mult, curse) =>
      var c :- ExplainCurse(curse);
      Some("Gain x" + NatToString(mult) + " consonant mult" + c)
    case GainGold(gold) => Some("Gain +" + NatToString(gold) + " gold")
  }

  predicate IsDigit(c: char) {
    '0' <= c <= '9'
  }

  /** The longest run of decimal digits at the front of s. */
  function LeadingDigits(s: string): (d: string)
    ensures d <= s
    ensures forall i :: 0 <= i < |d| ==> IsDigit(d[i])
    ensures |d| < |s| ==> !IsDigit(s[|d|])
  {
    if |s| == 0 || !IsDigit(s[0]) then "" else [s[0]] + LeadingDigits(s[1..])
  }

  /** The number written at the front of s, with an optional minus sign. */
  function ReadInt(s: string): int {
    if |s| > 0 && s[0] == '-' then 0 - ParseDigits(LeadingDigits(s[1..]))
    else ParseDigits(LeadingDigits(s))
  }

  /** The amount an effect's description states, where it states one. */
  function EffectAmount(effect: Effect): Option<int> {
    match effect
    case ShopDiscount => None
    case WordSizeChange(change) => Some(change)
    case RackSizeChange(change) => Some(change)
    case VowelMultIncrease(mult) => Some(mult)
    case VowelMultMultIncrease(mult, _) => Some(mult)
    case ConsonantMultIncrease(mult) => Some(mult)
    case ConsonantMultMultIncrease(mult, _) => Some(mult)
    case GainGold(gold) => Some(gold)
  }

  /** Digits followed by a non-digit are read back whole. */
  lemma {:induction false} LeadingDigitsOf(ds: string, rest: string)
    requires forall i :: 0 <= i < |ds| ==> IsDigit(ds[i])
    requires |rest| > 0 && !IsDigit(rest[0])
    ensures LeadingDigits(ds + rest) == ds
  {
    if |ds| > 0 {
      assert (ds + rest)[1..] == ds[1..] + rest;
      LeadingDigitsOf(ds[1..], rest);
    }
  }

  /** A number written by `format!` and followed by a space reads back. */
  lemma IntReadsBack(i: int, rest: string)
    requires |rest| > 0 && rest[0] == ' '
    ensures ReadInt(IntToString(i) + rest) == i
  {
    if i < 0 {
      assert ("-" + NatToString(-i) + rest)[1..] == NatToString(-i) + rest;
      LeadingDigitsOf(NatToString(-i), rest);
      NatToStringRoundTrip(-i);
    } else {
      LeadingDigitsOf(NatToString(i), rest);
      NatToStringRoundTrip(i);
    }
  }

  /** A six-character prefix, a number and text starting with a space: the
      number reads back from after the prefix. */
  lemma AfterPrefix(prefix: string, number: string, i: int, rest: string)
    requires |prefix| == 6 && number == IntToString(i) && |rest| > 0 && rest[0] == ' '
    ensures ReadInt((prefix + number + rest)[6..]) == i
  {
    assert (prefix + number + rest)[6..] == number + rest;
    IntReadsBack(i, rest);
  }

  /** As `AfterPrefix`, with a curse explanation appended after the text. */
  lemma AfterPrefixThen(prefix: string, number: string, i: int, rest: string, tail: string)
    requires |prefix| == 6 && number == IntToString(i) && |rest| > 0 && rest[0] == ' '
    ensures ReadInt((prefix + number + rest + tail)[6..]) == i
  {
    assert prefix + number + rest + tail == prefix + number + (rest + tail);
    AfterPrefix(prefix, number, i, rest + tail);
  }

  /** After the six-character "Gain +" or "Gain x", the description states
      the effect's amount: the number there reads back as that amount. */
  lemma DescriptionStatesAmount(effect: Effect)
    requires GetEffectDescription(effect).Some? && EffectAmount(effect).Some?
    ensures ReadInt(GetEffectDescription(effect).value[6..]) == EffectAmount(effect).value
  {
    match effect
    case WordSizeChange(change) =>
      AfterPrefix("Gain +", IntToString(change), change, " word count");
    case RackSizeChange(change) =>
      AfterPrefix("Gain +", IntToString(change), change, " rack size");
    case VowelMultIncrease(mult) =>
      AfterPrefix("Gain +", NatToString(mult), mult, " vowel mult");
    case VowelMultMultIncrease(mult, curse) =>
      AfterPrefixThen("Gain x", NatToString(mult), mult, " vowel mult", ExplainCurse(curse).value);
    case ConsonantMultIncrease(mult) =>
      AfterPrefix("Gain +", NatToString(mult), mult, " consonant mult");
    case ConsonantMultMultIncrease(mult, curse) =>
      AfterPrefixThen("Gain x", NatToString(mult), mult, " consonant mult", ExplainCurse(curse).value);
    case GainGold(gold) =>
      AfterPrefix("Gain +", NatToString(gold), gold, " gold");
  }
}
