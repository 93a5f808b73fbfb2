# searchgasm core in Dafny

This project models three small pieces of searchgasm, a Rails plugin that
builds ActiveRecord find options from search objects.

- **Scope merge.** `options_from_scope_for_searchgasm` reads the model's current
  `with_scope` find options and builds the options a new searcher inherits:
  - `:group`, `:include`, `:select`, `:readonly` and `:from` pass through only
    where the caller left them out;
  - `:joins` joins both sides, scope first;
  - `:limit`, `:offset` and `:order` are copied under their guards;
  - `:conditions` is always carried over.
- **Protection lists.** `conditions_protected` and `conditions_accessible` are
  two class-level lists of condition names.
- **The "contains" condition kind.** It covers which columns the kind names, the
  aliases it answers to, and the `LIKE` fragment it compiles a value into.
- **The `Lower` value modifier.** It covers the names the modifier answers to and
  its return type.

Modules, one file each:

- `RubyValues` (`ruby_values.dfy`) models the little of Ruby the core inspects:
  - a value datatype;
  - hash lookup that defaults to nil;
  - truthiness;
  - ActiveSupport's `blank?`.
- `ActiveRecordBase` (`active_record_base.dfy`) models the merge and the
  protection lists.
  - The merge is an imperative method. Like the source, it fills a fresh map one
    key at a time: a loop over the five pass-through keys, then `:joins` built by
    repeated appends and collapsed, then four guarded copies.
  - Each step is a method proved equal to a stage of the specification function
    `ScopeOptions`. Each precedence rule is a lemma on that function.
  - The protection lists are the two fields of the class `SearchableModel`.
- `ContainsCondition` (`contains_condition.dfy`) models the contains condition.
- `LowerModifier` (`lower_modifier.dfy`) models the `Lower` modifier.

Two behaviours are modelled as the code is written, which may not be what a
reader expects:

- **`:limit` guard (line 159).** The guard tests the scope's `:per_page`, but the
  copied value is the scope's `:limit`.
  - A scope with `:per_page` and no `:limit` passes `:limit => nil` on
    (`LimitGuardReadsPerPage`).
  - A scope with only `:limit` passes nothing on (`LimitNeedsPerPage`).
  - This is not listed as a finding. `Search::Base` is not part of this model, and
    it may keep `:per_page` in the scopes it creates, so the intent cannot be
    settled from the merge alone.
- **Accessible list (lines 118-120).** `conditions_accessible` stores the given
  names together with the current protected set, not with the previous
  accessible set. So every name protected so far is also accessible, and a
  second call discards the first call's names. The documentation on line 117
  promises that the accessible conditions are the ones allowed; the model
  follows the code and records the difference under "## Findings".

## Model

| member | source | states |
|---|---|---|
| ActiveRecordBase.ScopeOrEmpty | lib/searchgasm/active_record/base.rb:148 | with no current find scope the merge reads an empty scope, otherwise the scope itself |
| ActiveRecordBase.PassThroughAgrees | lib/searchgasm/active_record/base.rb:150 | after the loop over any list of keys, a key is present exactly when it is in the list, absent from the options and present in the scope, and then holds the scope's value |
| ActiveRecordBase.CopyPassThrough | lib/searchgasm/active_record/base.rb:150 | the `each` loop over `:group, :include, :select, :readonly, :from` builds exactly the pass-through stage of the specification |
| ActiveRecordBase.MergeJoins | lib/searchgasm/active_record/base.rb:152-157 | building `:joins` in place (empty list, append each non-blank side as a list, collapse a single element) gives the joins stage: `:joins` set to the collapsed scope-then-options list when either side is truthy, all other keys unchanged |
| ActiveRecordBase.CopyScopeValues | lib/searchgasm/active_record/base.rb:159-162 | the four guarded assignments give the copy stage of the specification |
| ActiveRecordBase.ScopeOptions | lib/searchgasm/active_record/base.rb:146-164 | the reference merge the method is proved against: the pass-through, joins and copy stages in source order; its result never holds a key other than the ten written on lines 150-162 (the rule lemmas below pin it down key by key) |
| ActiveRecordBase.OptionsFromScope | lib/searchgasm/active_record/base.rb:146-164 | the merge method returns exactly `ScopeOptions` of the current scope (or `{}`) and the options |
| ActiveRecordBase.WithJoinsKeys | lib/searchgasm/active_record/base.rb:152-157 | the joins stage adds or replaces `:joins` only, and only when either side's joins is truthy |
| ActiveRecordBase.CopyIfKeys | lib/searchgasm/active_record/base.rb:159-162 | one guarded assignment adds its key with its value when the guard holds and leaves every other key as it was |
| ActiveRecordBase.WithCopiesHas | lib/searchgasm/active_record/base.rb:159-162 | the copy stage adds exactly the keys whose guard holds |
| ActiveRecordBase.WithCopiesValues | lib/searchgasm/active_record/base.rb:159-162 | the copy stage writes the scope's value under each key whose guard holds and keeps every other value |
| ActiveRecordBase.ScopeOptionsKeys | lib/searchgasm/active_record/base.rb:146-164 | key by key: a key is in the merge exactly when a pass-through rule, the joins rule or a copy guard puts it there, with the value that rule gives |
| ActiveRecordBase.ScopeOptionsEqual | lib/searchgasm/active_record/base.rb:146-164 | any map that agrees with those key-by-key rules is the merge (the rules determine the result completely) |
| ActiveRecordBase.PassThroughRule | lib/searchgasm/active_record/base.rb:150 | each of `:group`, `:include`, `:select`, `:readonly`, `:from` is present exactly when the options lack it and the scope has it, with the scope's value |
| ActiveRecordBase.JoinsRule | lib/searchgasm/active_record/base.rb:152-157 | `:joins` is present exactly when the scope's or the options' joins is truthy, and then holds the scope's joins followed by the options' joins, collapsed |
| ActiveRecordBase.BlankJoinsContributeNothing | lib/searchgasm/active_record/base.rb:153-155 | a blank side adds no join: the merged list is the other side's alone |
| ActiveRecordBase.CollapseRoundTrip | lib/searchgasm/active_record/base.rb:156 | a merged list of one element is stored as that element, any other length stays a list; reading back as a list restores it unless the single element is itself an array |
| ActiveRecordBase.JoinsExample | lib/searchgasm/active_record/base.rb:152-157 | a one-element array scope joins and a string options joins merge into a two-element list, scope first |
| ActiveRecordBase.BlankJoinsExample | lib/searchgasm/active_record/base.rb:152-157 | a truthy but blank joins (`" "`) still writes `:joins`, as an empty list |
| ActiveRecordBase.LimitRule | lib/searchgasm/active_record/base.rb:159 | `:limit` is present exactly when the options have neither `:per_page` nor `:limit` and the scope has `:per_page`, and then holds the scope's `:limit` (nil if absent) |
| ActiveRecordBase.LimitGuardReadsPerPage | lib/searchgasm/active_record/base.rb:159 | a scope holding only `:per_page` merges into `{:limit => nil}` |
| ActiveRecordBase.LimitNeedsPerPage | lib/searchgasm/active_record/base.rb:159 | a scope holding only `:limit` merges into `{}` |
| ActiveRecordBase.OffsetRule | lib/searchgasm/active_record/base.rb:160 | `:offset` is present exactly when the options have neither `:page` nor `:offset` and the scope has `:offset`, with the scope's value |
| ActiveRecordBase.OrderRule | lib/searchgasm/active_record/base.rb:161 | `:order` is present exactly when the options have neither `:order_by` nor `:order` and the scope has `:order`, with the scope's value |
| ActiveRecordBase.ConditionsRule | lib/searchgasm/active_record/base.rb:162 | `:conditions` is present exactly when the scope has it, whatever the options hold, with the scope's value |
| ActiveRecordBase.MergedKeysOnly | lib/searchgasm/active_record/base.rb:149-163 | no key outside the ten written on lines 150-162 ever appears, and with an empty scope only `:joins` can |
| ActiveRecordBase.Stringified | lib/searchgasm/active_record/base.rb:110 | `Set.new(conditions.map(&:to_s))` holds the `to_s` of every given name and nothing else |
| ActiveRecordBase.StringifiedOne | lib/searchgasm/active_record/base.rb:110 | one name stringifies to the one-element set of its `to_s` |
| ActiveRecordBase.SearchableModel.ProtectedConditions | lib/searchgasm/active_record/base.rb:113-115 | `protected_conditions` returns the protected attribute as last written: `None` until the first `conditions_protected` (constructor), then the set that call stored |
| ActiveRecordBase.SearchableModel.AccessibleConditions | lib/searchgasm/active_record/base.rb:122-124 | `accessible_conditions` returns the accessible attribute as last written: `None` until the first `conditions_accessible` (constructor), then the set that call stored |
| ActiveRecordBase.SearchableModel.ConditionsProtected | lib/searchgasm/active_record/base.rb:109-111 | the protected set becomes the given names' strings united with the previous protected set (nil read as empty), and is returned; the accessible set is untouched; the old protected set is kept |
| ActiveRecordBase.SearchableModel.ConditionsAccessible | lib/searchgasm/active_record/base.rb:118-120 | the accessible set becomes the given names' strings united with the current protected set, not the previous accessible set, and is returned; the protected set is untouched and every protected name is accessible |
| ActiveRecordBase.ProtectedOnlyGrows | lib/searchgasm/active_record/base.rb:110 | the new set holds the old protected set and every given name, and nothing else |
| ActiveRecordBase.ProtectIdempotent | lib/searchgasm/active_record/base.rb:110 | protecting the same names twice gives the set protecting them once gives |
| ActiveRecordBase.ProtectCommutes | lib/searchgasm/active_record/base.rb:110 | two protecting calls give the same set in either order |
| ActiveRecordBase.AccessibleSnapshotScenario | lib/searchgasm/active_record/base.rb:109-124 | protect `name_like`, make `email_contains` accessible, protect `id_gt`: accessible holds the two names seen at that call, protected holds `name_like` and `id_gt` |
| ActiveRecordBase.AccessibleForgetsEarlierCalls | lib/searchgasm/active_record/base.rb:118-120 | as written, `conditions_accessible(:name_like)` then `conditions_accessible(:email_contains)` leaves only `email_contains` accessible |
| ActiveRecordBase.SearchableModel.ConditionsAccessibleAccumulating | lib/searchgasm/active_record/base.rb:117-120 | the writer as documented: the accessible set becomes the names united with the previous accessible set, so it only grows; the protected set is untouched |
| ActiveRecordBase.AccessibleAccumulatesCalls | lib/searchgasm/active_record/base.rb:117-120 | with the accumulating writer, the same two calls leave both names accessible |
| ContainsCondition.NameForColumn | lib/searchgasm/search/condition_types/contains_condition.rb:7-10 | a name exists only for a string column, and for a string column it is the generic condition name |
| ContainsCondition.AliasesForColumn | lib/searchgasm/search/condition_types/contains_condition.rb:12-14 | exactly two aliases, `<column>_like` then `<column>_has`, with no column-type check |
| ContainsCondition.AliasesIdentifyColumn | lib/searchgasm/search/condition_types/contains_condition.rb:12-14 | the two aliases of a column differ, and two columns sharing an alias have the same name |
| ContainsCondition.ToConditions | lib/searchgasm/search/condition_types/contains_condition.rb:17-19 | the template is `<table>.<column> LIKE ?` and there is exactly one bind, the value verbatim between two `%` (stripping them gives the value back) |
| ContainsCondition.PlaceholdersMatchBinds | lib/searchgasm/search/condition_types/contains_condition.rb:18 | the template has one `?` more than the quoted names, so with names free of `?` the placeholder count equals the bind count |
| ContainsCondition.ValueOnlyInBinds | lib/searchgasm/search/condition_types/contains_condition.rb:18 | the template does not depend on the value, and two values give the same binds only when they are equal |
| ContainsCondition.SanitizeExamples | test/test_searchgasm_conditions.rb:119-129 | `name_contains = "Binary"` on accounts gives `"accounts"."name" LIKE ?` with `%Binary%`, and `first_name_like = "Ben"` (an alias of this kind) on users gives `"users"."first_name" LIKE ?` with `%Ben%` |
| LowerModifier.ModifierNames | lib/searchgasm/modifiers/lower.rb:5-7 | one name more than the generic list, the generic names first in order, `"downcase"` last |
| LowerModifier.ModifierNamesMembership | lib/searchgasm/modifiers/lower.rb:6 | a name is a modifier name exactly when it is a generic name or `"downcase"` |
| LowerModifier.ModifierNamesExtend | lib/searchgasm/modifiers/lower.rb:6 | each generic name keeps its position, and the names are the generic ones plus one `"downcase"` |
| LowerModifier.ReturnType | lib/searchgasm/modifiers/lower.rb:9-11 | the return type is the symbol `:string`, unconditionally |

## Left out

- The `alias_method_chain` hooks into `find`, `calculate` and `with_scope`, the extension of `ActiveRecord::Base`, the `new_conditions`/`new_conditions!`/`new_search`/`new_search!` aliases of the builders and the `valid_find_options` reader (lib/searchgasm/active_record/base.rb:7-44, 169-187). They intercept or rename ORM entry points and are not part of this model.
- `build_conditions`, `build_search`, their `!` forms, `sanitize_options_with_searchgasm`, `searchgasm_conditions` and `searchgasm_searcher`. They only hand work to `Conditions::Base` and `Search::Base`, which are not part of this model.
- ActiveRecordBase.OptionsFromScope: the merged options are a map, so the order in which the source inserts keys (line 150, then 152-157, then 159-162), which fixes the order of the setter calls on line 142, is not modelled.
- `scope(:find)`: ActiveRecord's current scope is a parameter of the merge, `None` when no scope is active.
- `write_inheritable_attribute` / `read_inheritable_attribute`: each attribute is one field of the model object. Copying to subclasses is Rails class machinery and is not modelled.
- ActiveRecordBase.Stringified: Ruby's `Set` iterates in insertion order, but the model's sets carry no order.
- ActiveRecordBase.ToS: the names are symbols or strings, as the callers pass them; the `to_s` of other objects is not modelled.
- ContainsCondition.NameForColumn: `string_column?` and the generic `Condition.name_for_column` reached by `super` are parameters, because their source is not part of this model.
- ContainsCondition.ToConditions: `quoted_table_name` and `quoted_column_name` come from the database adapter and are string fields of the condition. The value is taken as its `to_s`, already a string.
- LowerModifier.ModifierNames: the generic names from `Modifiers::Base.modifier_names` (`super`) are a parameter. The SQL that `Lower` wraps around a column is not in the modelled file.
- `Conditions.register_condition` (contains_condition.rb:23), the condition tree, the sanitizer that joins fragments with `AND`, and the registry order. None of their source is part of this model.
- RubyValues.Blank: symbols and numbers are never blank, as in ActiveSupport's `Object#blank?` of that era. Hash values are compared as lists of pairs; only their emptiness matters here.

## Findings

| source | as written | input that shows it | evidently intended | confidence | as-written member | corrected member |
|---|---|---|---|---|---|---|
| lib/searchgasm/active_record/base.rb:119 | `conditions_accessible` unites the names with `protected_conditions`, so each call replaces the names of the previous one | `conditions_accessible(:name_like)` then `conditions_accessible(:email_contains)` leaves `{"email_contains"}`, though line 117 says the listed conditions are the ones allowed | unite with `accessible_conditions`, as line 110 does with the protected set, so the accessible list accumulates | medium, not executed | ActiveRecordBase.AccessibleForgetsEarlierCalls | ActiveRecordBase.SearchableModel.ConditionsAccessibleAccumulating |
