/**
 * The class-level additions searchgasm makes to an ActiveRecord model
 * (lib/searchgasm/active_record/base.rb): the merge of the current find
 * scope into the options of a new searcher, and the lists of conditions
 * protected from, or accessible to, mass assignment.
 */
module ActiveRecordBase {
  import opened RubyValues

  // ---------------------------------------------------------------------------
  // Merging the find scope into a searcher's options
  // ---------------------------------------------------------------------------

  /** The symbols the merge reads, by name. */
  const KnownKeyNames: set<string> := {"group", "include", "select", "readonly", "from", "joins",
    "limit", "offset", "order", "conditions", "per_page", "page", "order_by"}

  type OtherKeyName = s: string | s !in KnownKeyNames witness ""

  /** A key of a find-options hash: one of the symbols the merge reads, or any other symbol. */
  datatype Key =
    | Group | Include | Select | Readonly | From | Joins
    | Limit | Offset | Order | Conditions | PerPage | Page | OrderBy
    | OtherKey(name: OtherKeyName)

  /** A find-options hash such as `{:joins => ..., :conditions => ...}`. */
  type Options = map<Key, Value>

  /** The options a scope passes on unchanged unless the caller sets them. */
  const PassThroughKeys: seq<Key> := [Group, Include, Select, Readonly, From]

  /** Every key the merged options can hold. */
  const MergedKeys: set<Key> :=
    {Group, Include, Select, Readonly, From, Joins, Limit, Offset, Order, Conditions}

  /** `scope(:find) || {}`: no current scope reads as an empty one. */
  function ScopeOrEmpty(findScope: Option<Options>): (scope: Options)
    ensures findScope.None? ==> scope == map[]
    ensures findScope.Some? ==> scope == findScope.value
  {
    if findScope.Some? then findScope.value else map[]
  }

  /** `v.is_a?(Array) ? v : [v]`: an array's elements, or a single value as a one-element list. */
  function AsList(v: Value): seq<Value> {
    if v.Arr? then v.items else [v]
  }

  /** What one side adds to the merged joins: nothing when it is blank. */
  function JoinsFrom(v: Value): seq<Value> {
    if Blank(v) then [] else AsList(v)
  }

  /** A merged joins list of exactly one element is stored as that element. */
  function Collapse(joins: seq<Value>): Value {
    if |joins| == 1 then joins[0] else Arr(joins)
  }

  predicate HasJoins(scope: Options, options: Options) {
    Truthy(Lookup(scope, Joins)) || Truthy(Lookup(options, Joins))
  }

  function MergedJoins(scope: Options, options: Options): seq<Value> {
    JoinsFrom(Lookup(scope, Joins)) + JoinsFrom(Lookup(options, Joins))
  }

  predicate CopiesLimit(scope: Options, options: Options) {
    PerPage !in options && Limit !in options && PerPage in scope
  }

  predicate CopiesOffset(scope: Options, options: Options) {
    Page !in options && Offset !in options && Offset in scope
  }

  predicate CopiesOrder(scope: Options, options: Options) {
    OrderBy !in options && Order !in options && Order in scope
  }

  /**
   * Line 150's loop over `keys`: each key the caller left out and the scope
   * has is copied from the scope.
   */
  function PassThrough(scope: Options, options: Options, keys: seq<Key>): Options
    decreases |keys|
  {
    if keys == [] then map[]
    else
      var m := PassThrough(scope, options, keys[..|keys| - 1]);
      var k := keys[|keys| - 1];
      if k !in options && k in scope then m[k := scope[k]] else m
  }

  /**
   * Lines 152-157: when either side's `:joins` is truthy, `:joins` becomes the
   * non-blank sides' joins, scope first, collapsed to its element when there
   * is exactly one.
   */
  function WithJoins(m: Options, scope: Options, options: Options): Options {
    if HasJoins(scope, options) then m[Joins := Collapse(MergedJoins(scope, options))] else m
  }

  /** `m[k] = v if copy`: one guarded assignment. */
  function CopyIf(m: Options, copy: bool, k: Key, v: Value): Options {
    if copy then m[k := v] else m
  }

  /** Lines 159-162: the guarded copies of `:limit`, `:offset`, `:order` and `:conditions`. */
  function WithCopies(m: Options, scope: Options, options: Options): Options {
    var m := CopyIf(m, CopiesLimit(scope, options), Limit, Lookup(scope, Limit));
    var m := CopyIf(m, CopiesOffset(scope, options), Offset, Lookup(scope, Offset));
    var m := CopyIf(m, CopiesOrder(scope, options), Order, Lookup(scope, Order));
    CopyIf(m, Conditions in scope, Conditions, Lookup(scope, Conditions))
  }

  /** The merged options: the scope's find options a new searcher inherits. */
  function ScopeOptions(scope: Options, options: Options): (merged: Options)
    ensures merged.Keys <= MergedKeys
  {
    var passed := PassThrough(scope, options, PassThroughKeys);
    PassThroughAgrees(scope, options, PassThroughKeys);
    WithJoinsKeys(passed, scope, options);
    WithCopiesHas(WithJoins(passed, scope, options), scope, options);
    WithCopies(WithJoins(passed, scope, options), scope, options)
  }

  /** After the loop over `keys`, a key is present exactly when it is one of `keys`, the caller left it out and the scope has it. */
  lemma {:induction false} PassThroughAgrees(scope: Options, options: Options, keys: seq<Key>)
    ensures forall k :: k in PassThrough(scope, options, keys) <==> k in keys && k !in options && k in scope
    ensures forall k :: k in PassThrough(scope, options, keys) ==> PassThrough(scope, options, keys)[k] == scope[k]
    decreases |keys|
  {
    if keys != [] {
      var init := keys[..|keys| - 1];
      PassThroughAgrees(scope, options, init);
      assert keys == init + [keys[|keys| - 1]];
    }
  }

  /** Line 150: copies each of `:group` ... `:from` that the caller left out and the scope has. */
  method CopyPassThrough(scope: Options, options: Options) returns (scopeOptions: Options)
    ensures scopeOptions == PassThrough(scope, options, PassThroughKeys)
  {
    scopeOptions := map[];
    var i := 0;
    while i < |PassThroughKeys|
      invariant 0 <= i <= |PassThroughKeys|
      invariant scopeOptions == PassThrough(scope, options, PassThroughKeys[..i])
    {
      var option := PassThroughKeys[i];
      if option !in options && option in scope {
        scopeOptions := scopeOptions[option := scope[option]];
      }
      assert PassThroughKeys[..i + 1][..i] == PassThroughKeys[..i];
      i := i + 1;
    }
    assert PassThroughKeys[..i] == PassThroughKeys;
  }

  /** Lines 152-157: builds `:joins` in place by appending each non-blank side, then collapses a single join. */
  method MergeJoins(scopeOptions: Options, scope: Options, options: Options) returns (merged: Options)
    ensures merged == WithJoins(scopeOptions, scope, options)
  {
    merged := scopeOptions;
    var scopeJoins, optionJoins := Lookup(scope, Joins), Lookup(options, Joins);
    if Truthy(scopeJoins) || Truthy(optionJoins) {
      merged := merged[Joins := Arr([])];
      if !Blank(scopeJoins) {
        merged := merged[Joins := Arr(merged[Joins].items + AsList(scopeJoins))];
      }
      if !Blank(optionJoins) {
        merged := merged[Joins := Arr(merged[Joins].items + AsList(optionJoins))];
      }
      assert merged[Joins].items == MergedJoins(scope, options);
      if |merged[Joins].items| == 1 {
        merged := merged[Joins := merged[Joins].items[0]];
      }
    }
  }

  /**
   * `options_from_scope_for_searchgasm`: fills a fresh hash from the current
   * find scope, one key at a time, as the source does.
   */
  method OptionsFromScope(findScope: Option<Options>, options: Options) returns (scopeOptions: Options)
    ensures scopeOptions == ScopeOptions(ScopeOrEmpty(findScope), options)
  {
    var scope := ScopeOrEmpty(findScope);
    scopeOptions := CopyPassThrough(scope, options);
    scopeOptions := MergeJoins(scopeOptions, scope, options);
    scopeOptions := CopyScopeValues(scopeOptions, scope, options);
  }

  /** Lines 159-162: copies `:limit`, `:offset`, `:order` and `:conditions` under their guards. */
  method CopyScopeValues(scopeOptions: Options, scope: Options, options: Options) returns (copied: Options)
    ensures copied == WithCopies(scopeOptions, scope, options)
  {
    copied := scopeOptions;
    if PerPage !in options && Limit !in options && PerPage in scope {
      copied := copied[Limit := Lookup(scope, Limit)];
    }
    if Page !in options && Offset !in options && Offset in scope {
      copied := copied[Offset := scope[Offset]];
    }
    if OrderBy !in options && Order !in options && Order in scope {
      copied := copied[Order := scope[Order]];
    }
    if Conditions in scope {
      copied := copied[Conditions := scope[Conditions]];
    }
  }

  /** The joins stage adds or replaces `:joins` and leaves every other key as it was. */
  lemma WithJoinsKeys(m: Options, scope: Options, options: Options)
    ensures forall k :: k in WithJoins(m, scope, options) <==> k in m || (k == Joins && HasJoins(scope, options))
    ensures forall k :: k in m && k != Joins ==> WithJoins(m, scope, options)[k] == m[k]
    ensures HasJoins(scope, options) ==> WithJoins(m, scope, options)[Joins] == Collapse(MergedJoins(scope, options))
  {
  }

  /** Whether the guarded copies write `k`. */
  predicate Copies(scope: Options, options: Options, k: Key) {
    (k == Limit && CopiesLimit(scope, options)) || (k == Offset && CopiesOffset(scope, options))
    || (k == Order && CopiesOrder(scope, options)) || (k == Conditions && Conditions in scope)
  }

  /** One guarded assignment adds `k` when its guard holds and leaves every other key as it was. */
  lemma CopyIfKeys(m: Options, copy: bool, k: Key, v: Value)
    ensures forall j :: j in CopyIf(m, copy, k, v) <==> j in m || (copy && j == k)
    ensures forall j :: j in m && !(copy && j == k) ==> CopyIf(m, copy, k, v)[j] == m[j]
    ensures copy ==> CopyIf(m, copy, k, v)[k] == v
  {
  }

  /** The copy stage adds exactly the keys whose guard holds. */
  lemma WithCopiesHas(m: Options, scope: Options, options: Options)
    ensures forall k :: k in WithCopies(m, scope, options) <==> k in m || Copies(scope, options, k)
  {
  }

  /** The copy stage writes the scope's value under each key whose guard holds and leaves every other key as it was. */
  lemma WithCopiesValues(m: Options, scope: Options, options: Options)
    ensures forall k :: k in m && !Copies(scope, options, k) ==> WithCopies(m, scope, options)[k] == m[k]
    ensures forall k :: Copies(scope, options, k) ==> WithCopies(m, scope, options)[k] == Lookup(scope, k)
  {
  }

  /** Key by key, the merged options as the three stages build them. */
  lemma ScopeOptionsKeys(scope: Options, options: Options)
    ensures forall k :: k in ScopeOptions(scope, options) <==>
      (k in PassThroughKeys && k !in options && k in scope) || (k == Joins && HasJoins(scope, options)) || Copies(scope, options, k)
    ensures forall k :: k in PassThroughKeys && k !in options && k in scope ==> ScopeOptions(scope, options)[k] == scope[k]
    ensures HasJoins(scope, options) ==> ScopeOptions(scope, options)[Joins] == Collapse(MergedJoins(scope, options))
    ensures forall k :: Copies(scope, options, k) ==> ScopeOptions(scope, options)[k] == Lookup(scope, k)
  {
    var p := PassThrough(scope, options, PassThroughKeys);
    PassThroughAgrees(scope, options, PassThroughKeys);
    WithJoinsKeys(p, scope, options);
    WithCopiesHas(WithJoins(p, scope, options), scope, options);
    WithCopiesValues(WithJoins(p, scope, options), scope, options);
  }

  /** `:group`, `:include`, `:select`, `:readonly` and `:from` come from the scope exactly when the caller left them out. */
  lemma PassThroughRule(scope: Options, options: Options, k: Key)
    requires k in PassThroughKeys
    ensures k in ScopeOptions(scope, options) <==> k !in options && k in scope
    ensures k in ScopeOptions(scope, options) ==> ScopeOptions(scope, options)[k] == scope[k]
  {
    ScopeOptionsKeys(scope, options);
  }

  /** `:joins` is present exactly when either side's joins is truthy, and then holds both sides' joins, scope first. */
  lemma JoinsRule(scope: Options, options: Options)
    ensures Joins in ScopeOptions(scope, options) <==> HasJoins(scope, options)
    ensures HasJoins(scope, options) ==>
      ScopeOptions(scope, options)[Joins] == Collapse(MergedJoins(scope, options))
  {
    ScopeOptionsKeys(scope, options);
  }

  /** A blank side adds no join: the merged list is the other side's alone. */
  lemma BlankJoinsContributeNothing(scope: Options, options: Options)
    ensures Blank(Lookup(scope, Joins)) ==> MergedJoins(scope, options) == JoinsFrom(Lookup(options, Joins))
    ensures Blank(Lookup(options, Joins)) ==> MergedJoins(scope, options) == JoinsFrom(Lookup(scope, Joins))
  {
  }

  /**
   * Collapsing is undone by reading the value back as a list, except when the
   * single join is itself an array: `[[a, b]]` and `[a, b]` merge alike.
   */
  lemma CollapseRoundTrip(joins: seq<Value>)
    ensures |joins| != 1 ==> Collapse(joins) == Arr(joins) && AsList(Collapse(joins)) == joins
    ensures |joins| == 1 ==> Collapse(joins) == joins[0]
    ensures |joins| == 1 && !joins[0].Arr? ==> AsList(Collapse(joins)) == joins
  {
  }

  /** The merged options are the map holding exactly the keys ScopeOptionsKeys names. */
  lemma ScopeOptionsEqual(scope: Options, options: Options, expected: Options)
    requires forall k :: k in expected <==>
      (k in PassThroughKeys && k !in options && k in scope) || (k == Joins && HasJoins(scope, options)) || Copies(scope, options, k)
    requires forall k :: k in PassThroughKeys && k !in options && k in scope ==> expected[k] == scope[k]
    requires HasJoins(scope, options) ==> expected[Joins] == Collapse(MergedJoins(scope, options))
    requires forall k :: Copies(scope, options, k) ==> expected[k] == Lookup(scope, k)
    ensures ScopeOptions(scope, options) == expected
  {
    ScopeOptionsKeys(scope, options);
  }

  /** A one-element array scope and a plain options value merge into a two-element list. */
  lemma JoinsExample()
    ensures ScopeOptions(map[Joins := Arr([Sym("users")])], map[Joins := Str("LEFT JOIN orders")])
      == map[Joins := Arr([Sym("users"), Str("LEFT JOIN orders")])]
  {
    var s: Options := map[Joins := Arr([Sym("users")])];
    var o: Options := map[Joins := Str("LEFT JOIN orders")];
    assert !IsSpace("LEFT JOIN orders"[0]);
    assert MergedJoins(s, o) == [Sym("users"), Str("LEFT JOIN orders")];
    ScopeOptionsEqual(s, o, map[Joins := Arr([Sym("users"), Str("LEFT JOIN orders")])]);
  }

  /** A truthy but blank scope joins still writes `:joins`, as an empty list. */
  lemma BlankJoinsExample()
    ensures ScopeOptions(map[Joins := Str(" ")], map[]) == map[Joins := Arr([])]
  {
    var s: Options := map[Joins := Str(" ")];
    assert Blank(Str(" ")) by { assert IsSpace(" "[0]); }
    assert MergedJoins(s, map[]) == [];
    ScopeOptionsEqual(s, map[], map[Joins := Arr([])]);
  }

  /** `:limit` is copied from the scope when the caller sets neither `:per_page` nor `:limit` and the scope has `:per_page`. */
  lemma LimitRule(scope: Options, options: Options)
    ensures Limit in ScopeOptions(scope, options) <==> CopiesLimit(scope, options)
    ensures CopiesLimit(scope, options) ==> ScopeOptions(scope, options)[Limit] == Lookup(scope, Limit)
  {
    ScopeOptionsKeys(scope, options);
  }

  /**
   * The guard on `:limit` reads the scope's `:per_page` while the copied value
   * is the scope's `:limit`: a scope with only `:per_page` yields `:limit => nil`.
   */
  lemma LimitGuardReadsPerPage()
    ensures ScopeOptions(map[PerPage := Int(10)], map[]) == map[Limit := Nil]
  {
    ScopeOptionsEqual(map[PerPage := Int(10)], map[], map[Limit := Nil]);
  }

  /** A scope with `:limit` but no `:per_page` passes no limit on. */
  lemma LimitNeedsPerPage()
    ensures ScopeOptions(map[Limit := Int(10)], map[]) == map[]
  {
    ScopeOptionsEqual(map[Limit := Int(10)], map[], map[]);
  }

  /** `:offset` is copied when the scope has it and the caller sets neither `:page` nor `:offset`. */
  lemma OffsetRule(scope: Options, options: Options)
    ensures Offset in ScopeOptions(scope, options) <==> CopiesOffset(scope, options)
    ensures CopiesOffset(scope, options) ==> ScopeOptions(scope, options)[Offset] == scope[Offset]
  {
    ScopeOptionsKeys(scope, options);
  }

  /** `:order` is copied when the scope has it and the caller sets neither `:order_by` nor `:order`. */
  lemma OrderRule(scope: Options, options: Options)
    ensures Order in ScopeOptions(scope, options) <==> CopiesOrder(scope, options)
    ensures CopiesOrder(scope, options) ==> ScopeOptions(scope, options)[Order] == scope[Order]
  {
    ScopeOptionsKeys(scope, options);
  }

  /** The scope's `:conditions` is always carried over, whatever the caller's options hold. */
  lemma ConditionsRule(scope: Options, options: Options)
    ensures Conditions in ScopeOptions(scope, options) <==> Conditions in scope
    ensures Conditions in scope ==> ScopeOptions(scope, options)[Conditions] == scope[Conditions]
  {
    ScopeOptionsKeys(scope, options);
  }

  /** No other key ever appears, and without a scope only the caller's joins can. */
  lemma MergedKeysOnly(scope: Options, options: Options)
    ensures ScopeOptions(scope, options).Keys <= MergedKeys
    ensures scope == map[] ==> ScopeOptions(scope, options).Keys <= {Joins}
  {
    ScopeOptionsKeys(scope, options);
  }

  // ---------------------------------------------------------------------------
  // Conditions protected from, or accessible to, mass assignment
  // ---------------------------------------------------------------------------

  /** An argument of `conditions_protected`/`conditions_accessible`: a symbol or a string. */
  datatype ConditionName = Symbol(name: string) | Text(text: string)

  /** `to_s`: a symbol and a string of the same letters name the same condition. */
  function ToS(n: ConditionName): string {
    match n
    case Symbol(name) => name
    case Text(text) => text
  }

  /** `Set.new(conditions.map(&:to_s))`. */
  function Stringified(names: seq<ConditionName>): (r: set<string>)
    ensures forall n :: n in names ==> ToS(n) in r
    ensures forall s :: s in r ==> exists n :: n in names && ToS(n) == s
  {
    set n | n in names :: ToS(n)
  }

  /** `attribute || []`: an attribute never written reads as no names. */
  function OrEmpty(attribute: Option<set<string>>): set<string> {
    if attribute.Some? then attribute.value else {}
  }

  /** `Set.new(names.map(&:to_s)) + (attribute || [])`: the given names added to an attribute's set. */
  function AddNames(names: seq<ConditionName>, attribute: Option<set<string>>): set<string> {
    Stringified(names) + OrEmpty(attribute)
  }

  /**
   * An ActiveRecord model class extended with searchgasm, reduced to the two
   * inheritable attributes that hold its condition lists (nil until written).
   */
  class SearchableModel {
    var conditionsProtected: Option<set<string>>
    var conditionsAccessible: Option<set<string>>

    constructor ()
      ensures ProtectedConditions() == None && AccessibleConditions() == None
    {
      conditionsProtected := None;
      conditionsAccessible := None;
    }

    /** `protected_conditions`: the attribute as last written. */
    function ProtectedConditions(): (p: Option<set<string>>)
      reads this
      ensures p == conditionsProtected
    {
      conditionsProtected
    }

    /** `accessible_conditions`: the attribute as last written. */
    function AccessibleConditions(): (a: Option<set<string>>)
      reads this
      ensures a == conditionsAccessible
    {
      conditionsAccessible
    }

    /** `conditions_protected(*conditions)`: adds the names to the protected set and returns the new set. */
    method ConditionsProtected(names: seq<ConditionName>) returns (written: set<string>)
      modifies this
      ensures written == Stringified(names) + OrEmpty(old(ProtectedConditions()))
      ensures ProtectedConditions() == Some(written)
      ensures AccessibleConditions() == old(AccessibleConditions())
      ensures OrEmpty(old(ProtectedConditions())) <= written
    {
      written := AddNames(names, conditionsProtected);
      conditionsProtected := Some(written);
    }

    /**
     * `conditions_accessible(*conditions)`: stores the names together with the
     * protected set (not the previous accessible set) and returns the new set.
     */
    method ConditionsAccessible(names: seq<ConditionName>) returns (written: set<string>)
      modifies this
      ensures written == Stringified(names) + OrEmpty(ProtectedConditions())
      ensures AccessibleConditions() == Some(written)
      ensures ProtectedConditions() == old(ProtectedConditions())
      ensures OrEmpty(ProtectedConditions()) <= written
    {
      written := AddNames(names, conditionsProtected);
      conditionsAccessible := Some(written);
    }

    /**
     * `conditions_accessible` as its documentation describes it, reading the
     * accessible attribute where line 119 reads the protected one: every
     * call's names stay accessible, and nothing else becomes accessible.
     */
    method ConditionsAccessibleAccumulating(names: seq<ConditionName>) returns (written: set<string>)
      modifies this
      ensures written == Stringified(names) + OrEmpty(old(AccessibleConditions()))
      ensures AccessibleConditions() == Some(written)
      ensures ProtectedConditions() == old(ProtectedConditions())
      ensures OrEmpty(old(AccessibleConditions())) <= written
    {
      written := AddNames(names, conditionsAccessible);
      conditionsAccessible := Some(written);
    }
  }

  /** Protecting only adds names: the previous set and every given name end up protected. */
  lemma ProtectedOnlyGrows(names: seq<ConditionName>, protectedNow: Option<set<string>>)
    ensures OrEmpty(protectedNow) <= AddNames(names, protectedNow)
    ensures forall n :: n in names ==> ToS(n) in AddNames(names, protectedNow)
    ensures forall s :: s in AddNames(names, protectedNow) ==>
      s in OrEmpty(protectedNow) || exists n :: n in names && ToS(n) == s
  {
  }

  /** Repeating `conditions_protected` with the same names changes nothing. */
  lemma ProtectIdempotent(names: seq<ConditionName>, protectedNow: Option<set<string>>)
    ensures AddNames(names, Some(AddNames(names, protectedNow))) == AddNames(names, protectedNow)
  {
  }

  /** Two `conditions_protected` calls protect the same names in either order. */
  lemma ProtectCommutes(a: seq<ConditionName>, b: seq<ConditionName>, protectedNow: Option<set<string>>)
    ensures AddNames(b, Some(AddNames(a, protectedNow)))
         == AddNames(a, Some(AddNames(b, protectedNow)))
  {
  }

  /** A single name stringifies to the one-element set of its `to_s`. */
  lemma StringifiedOne(n: ConditionName)
    ensures Stringified([n]) == {ToS(n)}
  {
  }

  /** A client: the accessible set is a snapshot of the protected set at the time of the call. */
  method AccessibleSnapshotScenario() returns (model: SearchableModel)
    ensures model.AccessibleConditions() == Some({"name_like", "email_contains"})
    ensures model.ProtectedConditions() == Some({"name_like", "id_gt"})
  {
    model := new SearchableModel();
    var p := model.ConditionsProtected([Symbol("name_like")]);
    StringifiedOne(Symbol("name_like"));
    assert p == {"name_like"};
    assert model.ProtectedConditions() == Some({"name_like"});
    var acc := model.ConditionsAccessible([Text("email_contains")]);
    StringifiedOne(Text("email_contains"));
    assert acc == {"name_like", "email_contains"};
    p := model.ConditionsProtected([Symbol("id_gt")]);
    StringifiedOne(Symbol("id_gt"));
    assert p == {"name_like", "id_gt"};
  }

  /**
   * As written, a second `conditions_accessible` call discards the names of
   * the first: only the latest call's names (and the protected ones) remain.
   */
  method AccessibleForgetsEarlierCalls() returns (model: SearchableModel)
    ensures model.AccessibleConditions() == Some({"email_contains"})
  {
    model := new SearchableModel();
    var acc := model.ConditionsAccessible([Symbol("name_like")]);
    acc := model.ConditionsAccessible([Symbol("email_contains")]);
    StringifiedOne(Symbol("email_contains"));
    assert acc == {"email_contains"};
  }

  /** The accumulating writer keeps both calls' names accessible. */
  method AccessibleAccumulatesCalls() returns (model: SearchableModel)
    ensures model.AccessibleConditions() == Some({"name_like", "email_contains"})
  {
    model := new SearchableModel();
    var acc := model.ConditionsAccessibleAccumulating([Symbol("name_like")]);
    StringifiedOne(Symbol("name_like"));
    assert acc == {"name_like"};
    acc := model.ConditionsAccessibleAccumulating([Symbol("email_contains")]);
    StringifiedOne(Symbol("email_contains"));
    assert acc == {"name_like", "email_contains"};
  }
}
