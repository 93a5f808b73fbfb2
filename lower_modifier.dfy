/**
 * The `Lower` value modifier (lib/searchgasm/modifiers/lower.rb): the names
 * it answers to and the type of the values it yields.
 */
module LowerModifier {
  import opened RubyValues

  /** The extra name `Lower` answers to besides the generic ones. */
  const Downcase: string := "downcase"

  /**
   * `modifier_names`: the generic modifier names (from the base class, a
   * parameter here) followed by `"downcase"`.
   */
  function ModifierNames(baseNames: seq<string>): (names: seq<string>)
    ensures |names| == |baseNames| + 1
    ensures names[..|baseNames|] == baseNames
    ensures names[|names| - 1] == Downcase
  {
    baseNames + [Downcase]
  }

  /** A name is a modifier name exactly when it is a generic name or `"downcase"`. */
  lemma ModifierNamesMembership(baseNames: seq<string>, name: string)
    ensures name in ModifierNames(baseNames) <==> name in baseNames || name == Downcase
  {
  }

  /** Every generic name keeps its position; only `"downcase"` is added. */
  lemma ModifierNamesExtend(baseNames: seq<string>)
    ensures forall i :: 0 <= i < |baseNames| ==> ModifierNames(baseNames)[i] == baseNames[i]
    ensures multiset(ModifierNames(baseNames)) == multiset(baseNames) + multiset{Downcase}
  {
  }

  /** `return_type`: the modified value is always a string, whatever the column. */
  function ReturnType(): (t: Value)
    ensures t.Sym? && t.name == "string"
  {
    Sym("string")
  }
}
