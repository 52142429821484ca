/**
 * The keyword filter evaluator of src/Utils.h: a list of typed, possibly
 * negated keyword conditions, with a bitmask caching which condition types
 * are present, and the scope checks that evaluate the list against an actor,
 * its worn armor, its active magic effects, or a race's editor ID.
 *
 * Host-engine objects are plain values: a keyword form is the set of keyword
 * names `HasKeywordString` answers for, an actor carries its own keywords, its
 * inventory and its active-effect list, and a form is its kind plus its
 * editor ID. The regular-expression full match used for editor IDs is a
 * parameter `idMatches(pattern, editorID)` that the model leaves open.
 */
module Filters {

  /**
   * `StringFilter::Type`; `NoType` is `kNone` (= -1). The enumerator count
   * `kTotal` names no filter type and has no counterpart here.
   */
  datatype FilterType = NoType | ActorKeyword | ArmorKeyword | MagicKeyword | FormEditorID

  /** The numeric value of each enumerator. */
  function Ordinal(t: FilterType): int
  {
    match t
    case NoType => -1
    case ActorKeyword => 0
    case ArmorKeyword => 1
    case MagicKeyword => 2
    case FormEditorID => 3
  }

  /** One condition. (The source defaults `type` to `kFormEditorID` and `isNegate` to false.) */
  datatype StringFilter = StringFilter(str: string, ftype: FilterType, isNegate: bool)

  /** A keyword-bearing form: its keyword names. */
  datatype KeywordForm = KeywordForm(keywords: set<string>)

  predicate HasKeywordString(form: KeywordForm, s: string)
  {
    s in form.keywords
  }

  /** One inventory entry: whether the item is an armor, the held count, the worn state. */
  datatype InventoryEntry = InventoryEntry(isArmor: bool, count: int, worn: bool, armor: KeywordForm)

  /** One active effect: its `kInactive` flag and its base effect. */
  datatype ActiveEffect = ActiveEffect(inactive: bool, baseEffect: KeywordForm)

  datatype Actor = Actor(form: KeywordForm, inventory: seq<InventoryEntry>, activeEffects: seq<ActiveEffect>)

  /** The form kinds `Evaluate` distinguishes; a character carries its actor data. */
  datatype FormKind = ActorCharacter(actor: Actor) | Race | OtherKind

  datatype Form = Form(kind: FormKind, editorID: string)

  // ---------------------------------------------------------------------
  // The bitmask of present types
  // ---------------------------------------------------------------------

  /** The `Flag` bit of a type; `kNone` has none, since its shift is undefined. */
  function Bit(t: FilterType): bv32
    requires t != NoType
  {
    match t
    case ActorKeyword => 1
    case ArmorKeyword => 2
    case MagicKeyword => 4
    case FormEditorID => 8
  }

  /** Each flag is `1 << type`, as the `Flag` enumerators are defined. */
  lemma BitIsShift(t: FilterType)
    requires t != NoType
    ensures Bit(t) == (1 as bv32) << (Ordinal(t) as nat)
  {
    match t
    case ActorKeyword =>
    case ArmorKeyword =>
    case MagicKeyword =>
    case FormEditorID =>
  }

  /** Every flag is a single bit. */
  lemma BitIsFlag(t: FilterType)
    requires t != NoType
    ensures Bit(t) == 1 || Bit(t) == 2 || Bit(t) == 4 || Bit(t) == 8
  {
  }

  /** Different types have different flags. */
  lemma BitInjective(u: FilterType, t: FilterType)
    requires u != NoType && t != NoType
    ensures Bit(u) == Bit(t) <==> u == t
  {
  }

  /** Some stored filter has type `t`. */
  ghost predicate HasType(data: seq<StringFilter>, t: FilterType)
  {
    exists i :: 0 <= i < |data| && data[i].ftype == t
  }

  /** The four `Flag` bits together. */
  const AllFlags: bv32 := 0xF

  /**
   * The cached flags agree with the stored filters: the bit of a type is set
   * exactly when a filter of that type is stored, and no other bit is set.
   */
  ghost predicate FlagsAgree(flags: bv32, data: seq<StringFilter>)
  {
    flags & !AllFlags == 0 &&
    forall t :: t != NoType ==> ((flags & Bit(t) != 0) <==> HasType(data, t))
  }

  /** ORing in a single-bit flag `c` sets flag `d` exactly when it was set already or `c` is `d`. */
  lemma OrSetsBit(m: bv32, c: bv32, d: bv32)
    requires c == 1 || c == 2 || c == 4 || c == 8
    requires d == 1 || d == 2 || d == 4 || d == 8
    ensures ((m | c) & d != 0) <==> (m & d != 0 || c == d)
  {
  }

  /** ORing in a single-bit flag sets no bit outside the four flags. */
  lemma OrKeepsFlagBits(m: bv32, c: bv32)
    requires m & !AllFlags == 0
    requires c == 1 || c == 2 || c == 4 || c == 8
    ensures (m | c) & !AllFlags == 0
  {
  }

  /** ORing in the bit of `u` sets the bit of `t` exactly when it was set already or `u` is `t`. */
  lemma FlagStep(m: bv32, u: FilterType, t: FilterType)
    requires u != NoType && t != NoType
    ensures ((m | Bit(u)) & Bit(t) != 0) <==> (m & Bit(t) != 0 || u == t)
  {
    BitIsFlag(u);
    BitIsFlag(t);
    BitInjective(u, t);
    OrSetsBit(m, Bit(u), Bit(t));
  }

  /** A type is present after an append exactly when it was before or is the new filter's. */
  lemma HasTypeAppend(data: seq<StringFilter>, f: StringFilter, t: FilterType)
    ensures HasType(data + [f], t) <==> HasType(data, t) || f.ftype == t
  {
    var d := data + [f];
    if HasType(data, t) {
      var i :| 0 <= i < |data| && data[i].ftype == t;
      assert d[i] == data[i];
    }
    if f.ftype == t {
      assert d[|data|] == f;
    }
    if HasType(d, t) && f.ftype != t {
      var i :| 0 <= i < |d| && d[i].ftype == t;
      assert i < |data| && data[i] == d[i];
    }
  }

  /** No filters, no flags. */
  lemma EmptyFlagsAgree()
    ensures FlagsAgree(0, [])
  {
  }

  /** Appending a filter and ORing in its bit keeps the flags in agreement with the filters. */
  lemma AddKeepsFlagsAgree(flags: bv32, data: seq<StringFilter>, f: StringFilter)
    requires FlagsAgree(flags, data) && f.ftype != NoType
    ensures FlagsAgree(flags | Bit(f.ftype), data + [f])
  {
    BitIsFlag(f.ftype);
    OrKeepsFlagBits(flags, Bit(f.ftype));
    forall t | t != NoType
      ensures ((flags | Bit(f.ftype)) & Bit(t) != 0) <==> HasType(data + [f], t)
    {
      FlagStep(flags, f.ftype, t);
      HasTypeAppend(data, f, t);
    }
  }

  /** The filters determine the flags: two flag words agreeing with the same filters are equal. */
  lemma FlagsDetermined(a: bv32, b: bv32, data: seq<StringFilter>)
    requires FlagsAgree(a, data) && FlagsAgree(b, data)
    ensures a == b
  {
    assert (a & 1 != 0) <==> (b & 1 != 0) by { assert Bit(ActorKeyword) == 1; }
    assert (a & 2 != 0) <==> (b & 2 != 0) by { assert Bit(ArmorKeyword) == 2; }
    assert (a & 4 != 0) <==> (b & 4 != 0) by { assert Bit(MagicKeyword) == 4; }
    assert (a & 8 != 0) <==> (b & 8 != 0) by { assert Bit(FormEditorID) == 8; }
    SameFlagBits(a, b);
  }

  /** Two words with no bit outside the four flags and the same four flag bits are equal. */
  lemma SameFlagBits(a: bv32, b: bv32)
    requires a & !AllFlags == 0 && b & !AllFlags == 0
    requires (a & 1 != 0) <==> (b & 1 != 0)
    requires (a & 2 != 0) <==> (b & 2 != 0)
    requires (a & 4 != 0) <==> (b & 4 != 0)
    requires (a & 8 != 0) <==> (b & 8 != 0)
    ensures a == b
  {
  }

  // ---------------------------------------------------------------------
  // Specifications of the scope checks
  // ---------------------------------------------------------------------

  /** A filter passes against a form: keyword present XOR negated. */
  predicate Passes(f: StringFilter, form: KeywordForm)
  {
    HasKeywordString(form, f.str) != f.isNegate
  }

  /** A filter takes part in a check scoped to `t` (`kNone` means every filter does). */
  predicate Applies(f: StringFilter, t: FilterType)
  {
    f.ftype == t || t == NoType
  }

  /** Every filter taking part in a `t`-scoped check passes against `form`. */
  ghost predicate FormPasses(data: seq<StringFilter>, form: KeywordForm, t: FilterType)
  {
    forall i :: 0 <= i < |data| && Applies(data[i], t) ==> Passes(data[i], form)
  }

  /** The actor check: vacuous without actor filters, else every actor filter passes. */
  ghost predicate ActorPasses(data: seq<StringFilter>, actor: Actor)
  {
    !HasType(data, ActorKeyword) || FormPasses(data, actor.form, ActorKeyword)
  }

  /** An inventory entry counted by the armor check. */
  predicate WornArmor(e: InventoryEntry)
  {
    e.isArmor && e.count > 0 && e.worn
  }

  /** The armor check: vacuous without armor filters, else some worn armor passes them all. */
  ghost predicate ArmorPasses(data: seq<StringFilter>, actor: Actor)
  {
    !HasType(data, ArmorKeyword) ||
    exists j :: 0 <= j < |actor.inventory| && WornArmor(actor.inventory[j]) &&
                FormPasses(data, actor.inventory[j].armor, ArmorKeyword)
  }

  /** The magic check: vacuous without magic filters, else some active effect's base passes them all. */
  ghost predicate EffectsPass(data: seq<StringFilter>, actor: Actor)
  {
    !HasType(data, MagicKeyword) ||
    exists j :: 0 <= j < |actor.activeEffects| && !actor.activeEffects[j].inactive &&
                FormPasses(data, actor.activeEffects[j].baseEffect, MagicKeyword)
  }

  /** Every editor-ID filter's pattern fully matches `editorID`. */
  ghost predicate EditorIDPasses(data: seq<StringFilter>, editorID: string, idMatches: (string, string) -> bool)
  {
    forall i :: 0 <= i < |data| && data[i].ftype == FormEditorID ==> idMatches(data[i].str, editorID)
  }

  /** What `Evaluate` decides for a form. */
  ghost predicate Accepts(data: seq<StringFilter>, form: Form, idMatches: (string, string) -> bool)
  {
    match form.kind
    case ActorCharacter(actor) => ActorPasses(data, actor) && ArmorPasses(data, actor) && EffectsPass(data, actor)
    case Race => EditorIDPasses(data, form.editorID, idMatches)
    case OtherKind => false
  }

  // ---------------------------------------------------------------------
  // Properties of the scope checks
  // ---------------------------------------------------------------------

  /** Filters of other types never cause a false result: appending one only adds its own test when it applies. */
  lemma {:induction false} FormPassesAppend(data: seq<StringFilter>, f: StringFilter, form: KeywordForm, t: FilterType)
    ensures FormPasses(data + [f], form, t) <==> FormPasses(data, form, t) && (Applies(f, t) ==> Passes(f, form))
  {
    var d := data + [f];
    assert d[|data|] == f;
    if FormPasses(data, form, t) && (Applies(f, t) ==> Passes(f, form)) {
      forall i | 0 <= i < |d| && Applies(d[i], t) ensures Passes(d[i], form) {
        if i < |data| { assert d[i] == data[i]; }
      }
    }
    if FormPasses(d, form, t) {
      forall i | 0 <= i < |data| && Applies(data[i], t) ensures Passes(data[i], form) {
        assert d[i] == data[i];
      }
    }
  }

  /** The unscoped check (`kNone`) implies every scoped one. */
  lemma UnscopedImpliesScoped(data: seq<StringFilter>, form: KeywordForm, t: FilterType)
    requires FormPasses(data, form, NoType)
    ensures FormPasses(data, form, t)
  {
    forall i | 0 <= i < |data| && Applies(data[i], t) ensures Passes(data[i], form) {
      assert Applies(data[i], NoType);
    }
  }

  /**
   * Negation law: when every other filter of the check passes, flipping the
   * negate flag of one participating filter flips the outcome of the check.
   */
  lemma {:induction false} FlipNegateInverts(data: seq<StringFilter>, k: nat, form: KeywordForm, t: FilterType)
    requires k < |data| && Applies(data[k], t)
    requires forall i :: 0 <= i < |data| && i != k && Applies(data[i], t) ==> Passes(data[i], form)
    ensures Passes(data[k].(isNegate := !data[k].isNegate), form) == !Passes(data[k], form)
    ensures FormPasses(data[k := data[k].(isNegate := !data[k].isNegate)], form, t) == !FormPasses(data, form, t)
  {
    var flipped := data[k := data[k].(isNegate := !data[k].isNegate)];
    if Passes(data[k], form) {
      assert !Passes(flipped[k], form);
    } else {
      forall i | 0 <= i < |flipped| && Applies(flipped[i], t) ensures Passes(flipped[i], form) {
        if i != k { assert flipped[i] == data[i]; }
      }
    }
  }

  /** The flag short-circuit of the actor check never changes its result. */
  lemma ActorShortCircuitRedundant(data: seq<StringFilter>, actor: Actor)
    ensures ActorPasses(data, actor) <==> FormPasses(data, actor.form, ActorKeyword)
  {
  }

  /** With armor filters present and nothing worn, the armor check fails. */
  lemma ArmorNeedsWornArmor(data: seq<StringFilter>, actor: Actor)
    requires HasType(data, ArmorKeyword)
    requires forall j :: 0 <= j < |actor.inventory| ==> !WornArmor(actor.inventory[j])
    ensures !ArmorPasses(data, actor)
  {
  }

  /** The armor check does not depend on the order in which the inventory is enumerated. */
  lemma ArmorOrderIrrelevant(data: seq<StringFilter>, actor: Actor, inventory: seq<InventoryEntry>)
    requires multiset(inventory) == multiset(actor.inventory)
    ensures ArmorPasses(data, actor.(inventory := inventory)) <==> ArmorPasses(data, actor)
  {
    var other := actor.(inventory := inventory);
    if HasType(data, ArmorKeyword) {
      if ArmorPasses(data, actor) {
        var j :| 0 <= j < |actor.inventory| && WornArmor(actor.inventory[j]) &&
                 FormPasses(data, actor.inventory[j].armor, ArmorKeyword);
        assert actor.inventory[j] in multiset(inventory);
        var j' :| 0 <= j' < |inventory| && inventory[j'] == actor.inventory[j];
      }
      if ArmorPasses(data, other) {
        var j :| 0 <= j < |inventory| && WornArmor(inventory[j]) &&
                 FormPasses(data, inventory[j].armor, ArmorKeyword);
        assert inventory[j] in multiset(actor.inventory);
        var j' :| 0 <= j' < |actor.inventory| && actor.inventory[j'] == inventory[j];
      }
    }
  }

  /** An inactive effect, wherever it sits in the list, never changes the magic check. */
  lemma InactiveEffectIgnored(data: seq<StringFilter>, actor: Actor, k: nat, e: ActiveEffect)
    requires k <= |actor.activeEffects| && e.inactive
    ensures EffectsPass(data, actor.(activeEffects := actor.activeEffects[..k] + [e] + actor.activeEffects[k..]))
            <==> EffectsPass(data, actor)
  {
    var effects := actor.activeEffects;
    var grown := effects[..k] + [e] + effects[k..];
    assert forall j :: 0 <= j < k ==> grown[j] == effects[j];
    assert forall j :: k < j < |grown| ==> grown[j] == effects[j - 1];
    if HasType(data, MagicKeyword) && EffectsPass(data, actor) {
      var j :| 0 <= j < |effects| && !effects[j].inactive && FormPasses(data, effects[j].baseEffect, MagicKeyword);
      var j' := if j < k then j else j + 1;
      assert grown[j'] == effects[j];
    }
  }

  /** An empty filter list accepts every character and every race, and still rejects other forms. */
  lemma EmptyListAccepts(form: Form, idMatches: (string, string) -> bool)
    ensures Accepts([], form, idMatches) <==> !form.kind.OtherKind?
  {
  }

  /** Adding a filter only narrows what `Evaluate` accepts. */
  lemma {:induction false} AddNarrows(data: seq<StringFilter>, f: StringFilter, form: Form, idMatches: (string, string) -> bool)
    requires Accepts(data + [f], form, idMatches)
    ensures Accepts(data, form, idMatches)
  {
    var d := data + [f];
    forall t ensures HasType(data, t) ==> HasType(d, t) {
      if HasType(data, t) {
        var i :| 0 <= i < |data| && data[i].ftype == t;
        assert d[i] == data[i];
      }
    }
    forall g: KeywordForm, t ensures FormPasses(d, g, t) ==> FormPasses(data, g, t) {
      FormPassesAppend(data, f, g, t);
    }
    match form.kind
    case ActorCharacter(actor) =>
    case Race =>
      forall i | 0 <= i < |data| && data[i].ftype == FormEditorID ensures idMatches(data[i].str, form.editorID) {
        assert d[i] == data[i];
      }
    case OtherKind =>
  }

  /** Appending a filter of another type leaves the armor check unchanged. */
  lemma {:induction false} AddOtherTypeKeepsArmor(data: seq<StringFilter>, f: StringFilter, actor: Actor)
    requires f.ftype != ArmorKeyword
    ensures ArmorPasses(data + [f], actor) <==> ArmorPasses(data, actor)
  {
    var d := data + [f];
    assert HasType(d, ArmorKeyword) <==> HasType(data, ArmorKeyword) by {
      if HasType(d, ArmorKeyword) {
        var i :| 0 <= i < |d| && d[i].ftype == ArmorKeyword;
        assert i < |data| && data[i] == d[i];
      }
      if HasType(data, ArmorKeyword) {
        var i :| 0 <= i < |data| && data[i].ftype == ArmorKeyword;
        assert d[i] == data[i];
      }
    }
    forall g: KeywordForm ensures FormPasses(d, g, ArmorKeyword) <==> FormPasses(data, g, ArmorKeyword) {
      FormPassesAppend(data, f, g, ArmorKeyword);
    }
  }

  // ---------------------------------------------------------------------
  // The filter list
  // ---------------------------------------------------------------------

  class StringFilterList {
    var data: seq<StringFilter>
    var flags: bv32

    /** The cached flags agree with the stored filters. */
    ghost predicate Valid()
      reads this
    {
      FlagsAgree(flags, data)
    }

    constructor ()
      ensures Valid() && data == [] && flags == 0
    {
      data := [];
      flags := 0;
    }

    /** Appends a filter and sets the bit of its type. */
    method Add(f: StringFilter)
      requires Valid()
      requires f.ftype != NoType
      modifies this
      ensures Valid()
      ensures data == old(data) + [f]
      ensures flags == old(flags) | Bit(f.ftype)
    {
      AddKeepsFlagsAgree(flags, data, f);
      data := data + [f];
      flags := flags | Bit(f.ftype);
    }

    /** Whether a filter of type `t` is stored, read from the flags. */
    function HasFilterType(t: FilterType): (r: bool)
      reads this
      requires Valid() && t != NoType
      ensures r <==> HasType(data, t)
    {
      flags & Bit(t) != 0
    }

    /** The source's default scope `kNone` is the call with `t == NoType`: every filter takes part. */
    method FormHasKeywords(form: KeywordForm, t: FilterType) returns (r: bool)
      ensures r <==> FormPasses(data, form, t)
    {
      var i := 0;
      while i < |data|
        invariant 0 <= i <= |data|
        invariant forall k :: 0 <= k < i && Applies(data[k], t) ==> Passes(data[k], form)
      {
        var keyword := data[i];
        var hasKeyword := HasKeywordString(form, keyword.str);
        if keyword.isNegate {
          hasKeyword := !hasKeyword;
        }
        if !hasKeyword && (keyword.ftype == t || t == NoType) {
          return false;
        }
        i := i + 1;
      }
      return true;
    }

    method FormEditorIDMatch(editorID: string, idMatches: (string, string) -> bool) returns (r: bool)
      ensures r <==> EditorIDPasses(data, editorID, idMatches)
    {
      var i := 0;
      while i < |data|
        invariant 0 <= i <= |data|
        invariant forall k :: 0 <= k < i && data[k].ftype == FormEditorID ==> idMatches(data[k].str, editorID)
      {
        var keyword := data[i];
        if keyword.ftype == FormEditorID {
          if !idMatches(keyword.str, editorID) {
            return false;
          }
        }
        i := i + 1;
      }
      return true;
    }

    method ActiveEffectsHasKeywords(actor: Actor) returns (r: bool)
      requires Valid()
      ensures r <==> EffectsPass(data, actor)
    {
      if !HasFilterType(MagicKeyword) {
        return true;
      }
      var effects := actor.activeEffects;
      var i := 0;
      while i < |effects|
        invariant 0 <= i <= |effects|
        invariant forall k :: 0 <= k < i && !effects[k].inactive ==> !FormPasses(data, effects[k].baseEffect, MagicKeyword)
      {
        var effect := effects[i];
        if !effect.inactive {
          var found := FormHasKeywords(effect.baseEffect, MagicKeyword);
          if found {
            return true;
          }
        }
        i := i + 1;
      }
      return false;
    }

    method ActorHasKeywords(actor: Actor) returns (r: bool)
      requires Valid()
      ensures r <==> ActorPasses(data, actor)
    {
      if !HasFilterType(ActorKeyword) {
        return true;
      }
      var i := 0;
      while i < |data|
        invariant 0 <= i <= |data|
        invariant forall k :: 0 <= k < i && data[k].ftype == ActorKeyword ==> Passes(data[k], actor.form)
      {
        var keyword := data[i];
        var hasKeyword := HasKeywordString(actor.form, keyword.str);
        if keyword.isNegate {
          hasKeyword := !hasKeyword;
        }
        if !hasKeyword && keyword.ftype == ActorKeyword {
          return false;
        }
        i := i + 1;
      }
      return true;
    }

    method ArmorHasKeywords(actor: Actor) returns (r: bool)
      requires Valid()
      ensures r <==> ArmorPasses(data, actor)
    {
      if !HasFilterType(ArmorKeyword) {
        return true;
      }
      var inv := actor.inventory;
      var i := 0;
      while i < |inv|
        invariant 0 <= i <= |inv|
        invariant forall k :: 0 <= k < i && WornArmor(inv[k]) ==> !FormPasses(data, inv[k].armor, ArmorKeyword)
      {
        var entry := inv[i];
        if entry.count > 0 && entry.worn {
          if entry.isArmor {
            var found := FormHasKeywords(entry.armor, ArmorKeyword);
            if found {
              return true;
            }
          }
        }
        i := i + 1;
      }
      return false;
    }

    method Evaluate(form: Form, idMatches: (string, string) -> bool) returns (r: bool)
      requires Valid()
      ensures r <==> Accepts(data, form, idMatches)
    {
      match form.kind
      case ActorCharacter(actor) =>
        var isActorHasKeyword := ActorHasKeywords(actor);
        var isArmorHasKeyword := ArmorHasKeywords(actor);
        var isMagicHasKeyword := ActiveEffectsHasKeywords(actor);
        return isActorHasKeyword && isArmorHasKeyword && isMagicHasKeyword;
      case Race =>
        r := FormEditorIDMatch(form.editorID, idMatches);
        return r;
      case OtherKind =>
        return false;
    }
  }
}
