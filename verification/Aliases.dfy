/** The alias table, the rules that follow it and the owner's names
    (ayq-aliases.ts, ayq-rules.ts, ayq-names.ts). */
module Aliases {
  import opened Lists

  /** One imported name variant, and the counterparty a person says it is. */
  datatype Alias = Alias(id: string, variant: string, variantKey: string, counterpartyKey: string, counterpartyName: string)

  datatype Rule = Rule(id: string, counterpartyKey: string, categoryName: string)

  datatype OwnName = OwnName(counterpartyKey: string, displayName: string)

  datatype Book = Book(aliases: seq<Alias>, rules: seq<Rule>, names: map<string, OwnName>)

  datatype Input = Input(variantKey: string, variant: string, counterpartyKey: string, counterpartyName: string)

  // ------------------------------------------------------------- reading

  function FindAlias(aliases: seq<Alias>, key: string): (found: Option<Alias>)
    ensures found.Some? ==> found.value in aliases && found.value.variantKey == key
    ensures found.None? ==> forall alias :: alias in aliases ==> alias.variantKey != key
  {
    if aliases == [] then None
    else if aliases[0].variantKey == key then Some(aliases[0])
    else FindAlias(aliases[1..], key)
  }

  function FindRule(rules: seq<Rule>, key: string): (found: Option<Rule>)
    ensures found.Some? ==> found.value in rules && found.value.counterpartyKey == key
    ensures found.None? ==> forall rule :: rule in rules ==> rule.counterpartyKey != key
  {
    if rules == [] then None
    else if rules[0].counterpartyKey == key then Some(rules[0])
    else FindRule(rules[1..], key)
  }

  /** The counterparty a transaction belongs to. `refolded` is the recorded key
      read under the folding rule that stands today; folding is not modelled. */
  function CanonicalKey(aliases: seq<Alias>, resolvedKey: Option<string>, refolded: string): Option<string> {
    if resolvedKey.None? || resolvedKey.value == "" then None
    else
      var onRecorded := FindAlias(aliases, resolvedKey.value);
      if onRecorded.Some? then Some(onRecorded.value.counterpartyKey)
      else if refolded == resolvedKey.value then resolvedKey
      else
        var onRefolded := FindAlias(aliases, refolded);
        Some(if onRefolded.Some? then onRefolded.value.counterpartyKey else refolded)
  }

  /** One lookup: where a key ends up. */
  function Resolve(aliases: seq<Alias>, key: string): string {
    var found := FindAlias(aliases, key);
    if found.Some? then found.value.counterpartyKey else key
  }

  function Follow(aliases: seq<Alias>, key: string, steps: nat): string
    decreases steps
  {
    if steps == 0 then key else Follow(aliases, Resolve(aliases, key), steps - 1)
  }

  // ------------------------------------------------------------- writing

  function SettledOn(aliases: seq<Alias>, input: Input): Input {
    var settled := FindAlias(aliases, input.counterpartyKey);
    if settled.None? then input
    else input.(counterpartyKey := settled.value.counterpartyKey, counterpartyName := settled.value.counterpartyName)
  }

  predicate Refuses(aliases: seq<Alias>, input: Input) {
    input.variantKey == input.counterpartyKey || input.variantKey == SettledOn(aliases, input).counterpartyKey
  }

  function Repoint(alias: Alias, onto: Input): Alias {
    if alias.counterpartyKey != onto.variantKey then alias
    else alias.(counterpartyKey := onto.counterpartyKey, counterpartyName := onto.counterpartyName)
  }

  function Others(aliases: seq<Alias>, variantKey: string): seq<Alias> {
    Filter((alias: Alias) => alias.variantKey != variantKey, aliases)
  }

  function AliasesAfter(aliases: seq<Alias>, id: string, onto: Input): seq<Alias> {
    Map(alias => Repoint(alias, onto), Others(aliases, onto.variantKey))
    + [Alias(id, onto.variant, onto.variantKey, onto.counterpartyKey, onto.counterpartyName)]
  }

  function RulesAfter(rules: seq<Rule>, variantKey: string, counterpartyKey: string): seq<Rule> {
    var hasTargetRule := FindRule(rules, counterpartyKey).Some?;
    Filter((rule: Rule) => !(rule.counterpartyKey == variantKey && hasTargetRule),
           Map((rule: Rule) =>
                 if rule.counterpartyKey == variantKey && !hasTargetRule then rule.(counterpartyKey := counterpartyKey) else rule,
               rules))
  }

  function NamesAfter(names: map<string, OwnName>, variantKey: string, targetKey: string): map<string, OwnName> {
    if targetKey in names || variantKey !in names then names
    else names[targetKey := names[variantKey].(counterpartyKey := targetKey)]
  }

  function Remembered(book: Book, id: string, input: Input): Book {
    if Refuses(book.aliases, input) then book
    else
      var onto := SettledOn(book.aliases, input);
      Book(AliasesAfter(book.aliases, id, onto),
           RulesAfter(book.rules, onto.variantKey, onto.counterpartyKey),
           NamesAfter(book.names, onto.variantKey, onto.counterpartyKey))
  }

  function Without(aliases: seq<Alias>, id: string): seq<Alias> {
    Filter((alias: Alias) => alias.id != id, aliases)
  }

  function RuleSet(rules: seq<Rule>, id: string, key: string, categoryName: string): seq<Rule> {
    Filter((rule: Rule) => rule.counterpartyKey != key, rules) + [Rule(id, key, categoryName)]
  }

  function RuleGone(rules: seq<Rule>, id: string): seq<Rule> {
    Filter((rule: Rule) => rule.id != id, rules)
  }

  class AliasStore {
    var aliases: seq<Alias>
    var rules: seq<Rule>
    var names: map<string, OwnName>

    constructor ()
      ensures Contents() == Book([], [], map[])
    {
      aliases, rules, names := [], [], map[];
    }

    function Contents(): Book
      reads this
    {
      Book(aliases, rules, names)
    }

    method RememberAlias(id: string, input: Input) returns (refused: bool)
      modifies this
      ensures refused == Refuses(old(aliases), input)
      ensures Contents() == Remembered(old(Contents()), id, input)
    {
      if input.variantKey == input.counterpartyKey { return true; }
      var settled := FindAlias(aliases, input.counterpartyKey);
      var onto := input;
      if settled.Some? {
        onto := input.(counterpartyKey := settled.value.counterpartyKey, counterpartyName := settled.value.counterpartyName);
      }
      if onto.variantKey == onto.counterpartyKey { return true; }
      refused := false;

      aliases := Others(aliases, onto.variantKey);
      ghost var kept := aliases;
      for i := 0 to |aliases|
        invariant |aliases| == |kept| && rules == old(rules) && names == old(names)
        invariant forall j :: 0 <= j < |kept| ==> aliases[j] == if j < i then Repoint(kept[j], onto) else kept[j]
      {
        if aliases[i].counterpartyKey == onto.variantKey {
          aliases := aliases[i := aliases[i].(counterpartyKey := onto.counterpartyKey, counterpartyName := onto.counterpartyName)];
        }
      }
      assert aliases == Map(alias => Repoint(alias, onto), kept);
      CarryNameOnMerge(onto.variantKey, onto.counterpartyKey);
      aliases := aliases + [Alias(id, onto.variant, onto.variantKey, onto.counterpartyKey, onto.counterpartyName)];
      rules := RulesAfter(rules, onto.variantKey, onto.counterpartyKey);
    }

    method CarryNameOnMerge(variantKey: string, targetKey: string)
      modifies this`names
      ensures names == NamesAfter(old(names), variantKey, targetKey)
    {
      if targetKey in names { return; }
      if variantKey !in names { return; }
      names := names[targetKey := names[variantKey].(counterpartyKey := targetKey)];
    }

    method ForgetAlias(id: string) returns (removed: Option<Alias>)
      modifies this`aliases
      ensures aliases == Without(old(aliases), id)
      ensures removed.Some? ==> removed.value in old(aliases) && removed.value.id == id
      ensures removed.None? ==> aliases == old(aliases)
    {
      removed := None;
      for i := 0 to |aliases|
        invariant removed.None? ==> forall j :: 0 <= j < i ==> aliases[j].id != id
        invariant removed.Some? ==> removed.value in aliases && removed.value.id == id
      {
        if removed.None? && aliases[i].id == id {
          removed := Some(aliases[i]);
        }
      }
      if removed.None? {
        NothingGoes(aliases, id);
      }
      aliases := Without(aliases, id);
    }

    /** One rule for the counterparty from now on, and every other as it was. */
    method RememberRule(id: string, key: string, categoryName: string)
      modifies this`rules
      ensures rules == RuleSet(old(rules), id, key, categoryName)
      ensures forall rule :: rule in rules <==> rule == Rule(id, key, categoryName) || (rule in old(rules) && rule.counterpartyKey != key)
      ensures CategoryOf(rules, key) == Some(categoryName)
      ensures old(OneRuleEach(rules)) ==> OneRuleEach(rules) && forall other :: other != key ==> CategoryOf(rules, other) == CategoryOf(old(rules), other)
    {
      RuleSetIs(rules, id, key, categoryName);
      rules := Filter((rule: Rule) => rule.counterpartyKey != key, rules);
      rules := rules + [Rule(id, key, categoryName)];
    }

    /** That rule is gone, its counterparty files nowhere, and every other as it was. */
    method ForgetRule(id: string)
      modifies this`rules
      ensures rules == RuleGone(old(rules), id)
      ensures forall rule :: rule in rules <==> rule in old(rules) && rule.id != id
      ensures old(OneRuleEach(rules)) ==>
                && OneRuleEach(rules)
                && forall rule :: rule in old(rules) ==>
                     CategoryOf(rules, rule.counterpartyKey) == if rule.id == id then None else Some(rule.categoryName)
    {
      if OneRuleEach(rules) {
        RuleGoneIs(rules, id);
      }
      rules := Filter((rule: Rule) => rule.id != id, rules);
    }
  }

  lemma NothingGoes(aliases: seq<Alias>, id: string)
    requires forall alias :: alias in aliases ==> alias.id != id
    ensures Without(aliases, id) == aliases
  {
    AllStay((alias: Alias) => alias.id != id, aliases);
  }

  lemma {:induction false} AllStay<T(!new)>(p: T -> bool, s: seq<T>)
    requires forall x :: x in s ==> p(x)
    ensures Filter(p, s) == s
  {
    if s != [] {
      AllStay(p, s[1..]);
    }
  }

  // ----------------------------------------------------- what always holds

  function VariantKey(alias: Alias): string {
    alias.variantKey
  }

  function RuleKey(rule: Rule): string {
    rule.counterpartyKey
  }

  ghost predicate KeysApart<T>(key: T -> string, s: seq<T>) {
    forall i, j :: 0 <= i < j < |s| ==> key(s[i]) != key(s[j])
  }

  /** Variant keys are unique, and no target is itself a variant. */
  ghost predicate Flat(aliases: seq<Alias>) {
    && KeysApart(VariantKey, aliases)
    && (forall one, other :: one in aliases && other in aliases ==> one.counterpartyKey != other.variantKey)
  }

  ghost predicate OneRuleEach(rules: seq<Rule>) {
    KeysApart(RuleKey, rules)
  }

  lemma {:induction false} Found(aliases: seq<Alias>, alias: Alias)
    requires KeysApart(VariantKey, aliases) && alias in aliases
    ensures FindAlias(aliases, alias.variantKey) == Some(alias)
  {
    if aliases[0] != alias {
      assert alias in aliases[1..];
      Found(aliases[1..], alias);
      var i :| 0 <= i < |aliases| && aliases[i] == alias;
      assert VariantKey(aliases[0]) != VariantKey(aliases[i]);
    }
  }

  lemma {:induction false} RuleFound(rules: seq<Rule>, rule: Rule)
    requires OneRuleEach(rules) && rule in rules
    ensures FindRule(rules, rule.counterpartyKey) == Some(rule)
  {
    if rules[0] != rule {
      assert rule in rules[1..];
      RuleFound(rules[1..], rule);
      var i :| 0 <= i < |rules| && rules[i] == rule;
      assert RuleKey(rules[0]) != RuleKey(rules[i]);
    }
  }

  lemma {:induction false} FilterKeepsKeysApart<T(!new)>(key: T -> string, p: T -> bool, s: seq<T>)
    requires KeysApart(key, s)
    ensures KeysApart(key, Filter(p, s))
  {
    if s != [] {
      assert KeysApart(key, s[1..]) by {
        assert forall i :: 0 <= i < |s| - 1 ==> s[1..][i] == s[i + 1];
      }
      FilterKeepsKeysApart(key, p, s[1..]);
      var rest := Filter(p, s[1..]);
      forall j | 0 <= j < |rest| ensures key(s[0]) != key(rest[j]) {
        assert rest[j] in s[1..];
        var k :| 0 <= k < |s| - 1 && s[1..][k] == rest[j];
        assert s[k + 1] == rest[j];
      }
      assert Filter(p, s) == if p(s[0]) then [s[0]] + rest else rest;
    }
  }

  lemma OthersStayFlat(aliases: seq<Alias>, p: Alias -> bool)
    requires Flat(aliases)
    ensures Flat(Filter(p, aliases))
  {
    FilterKeepsKeysApart(VariantKey, p, aliases);
  }

  lemma SnocKeepsKeysApart<T(!new)>(key: T -> string, s: seq<T>, x: T)
    requires KeysApart(key, s) && forall y :: y in s ==> key(y) != key(x)
    ensures KeysApart(key, s + [x])
  {
    var after := s + [x];
    forall i, j | 0 <= i < j < |after| ensures key(after[i]) != key(after[j]) {
      assert after[i] == s[i] && s[i] in s;
      assert j < |s| ==> after[j] == s[j];
    }
  }

  function Added(id: string, onto: Input): Alias {
    Alias(id, onto.variant, onto.variantKey, onto.counterpartyKey, onto.counterpartyName)
  }

  /** What the table after remembering is made of. */
  lemma AfterComesFrom(aliases: seq<Alias>, id: string, onto: Input, alias: Alias)
    ensures alias in AliasesAfter(aliases, id, onto)
            <==> alias == Added(id, onto)
                 || exists was :: was in aliases && was.variantKey != onto.variantKey && alias == Repoint(was, onto)
  {
    var kept := Others(aliases, onto.variantKey);
    var after := AliasesAfter(aliases, id, onto);
    assert after[|kept|] == Added(id, onto);
    if alias in after {
      var i :| 0 <= i < |after| && after[i] == alias;
      assert i < |kept| ==> kept[i] in aliases && alias == Repoint(kept[i], onto);
    }
    forall was | was in aliases && was.variantKey != onto.variantKey ensures Repoint(was, onto) in after {
      assert was in kept;
      var i :| 0 <= i < |kept| && kept[i] == was;
      assert after[i] == Repoint(was, onto);
    }
  }

  lemma AfterKeepsKeysApart(aliases: seq<Alias>, id: string, onto: Input)
    requires KeysApart(VariantKey, aliases)
    ensures KeysApart(VariantKey, AliasesAfter(aliases, id, onto))
  {
    var kept := Others(aliases, onto.variantKey);
    FilterKeepsKeysApart(VariantKey, (alias: Alias) => alias.variantKey != onto.variantKey, aliases);
    var repointed := Map(alias => Repoint(alias, onto), kept);
    forall i | 0 <= i < |kept|
      ensures VariantKey(repointed[i]) == VariantKey(kept[i]) && VariantKey(kept[i]) != onto.variantKey
    {
      assert kept[i] in kept;
    }
    SnocKeepsKeysApart(VariantKey, repointed, Added(id, onto));
  }

  lemma RememberingStaysFlat(aliases: seq<Alias>, id: string, input: Input)
    requires Flat(aliases) && !Refuses(aliases, input)
    ensures Flat(AliasesAfter(aliases, id, SettledOn(aliases, input)))
  {
    var onto := SettledOn(aliases, input);
    var after := AliasesAfter(aliases, id, onto);
    AfterKeepsKeysApart(aliases, id, onto);
    forall one, other | one in after && other in after ensures one.counterpartyKey != other.variantKey {
      AfterComesFrom(aliases, id, onto, one);
      AfterComesFrom(aliases, id, onto, other);
    }
  }

  lemma RulesAfterHold(rules: seq<Rule>, variantKey: string, counterpartyKey: string)
    requires OneRuleEach(rules) && variantKey != counterpartyKey
    ensures OneRuleEach(RulesAfter(rules, variantKey, counterpartyKey))
  {
    var hasTargetRule := FindRule(rules, counterpartyKey).Some?;
    var moved := Map((rule: Rule) =>
                       if rule.counterpartyKey == variantKey && !hasTargetRule then rule.(counterpartyKey := counterpartyKey) else rule,
                     rules);
    forall i, j | 0 <= i < j < |moved| ensures RuleKey(moved[i]) != RuleKey(moved[j]) {
      assert RuleKey(rules[i]) != RuleKey(rules[j]);
      assert rules[i] in rules && rules[j] in rules;
    }
    FilterKeepsKeysApart(RuleKey, (rule: Rule) => !(rule.counterpartyKey == variantKey && hasTargetRule), moved);
  }

  // ------------------------------------------------------ whole histories

  datatype Operation =
    | Remember(id: string, input: Input)
    | Forget(id: string)
    | FileUnder(id: string, key: string, categoryName: string)
    | StopFiling(id: string)

  function Perform(book: Book, operation: Operation): Book {
    match operation
    case Remember(id, input) => Remembered(book, id, input)
    case Forget(id) => book.(aliases := Without(book.aliases, id))
    case FileUnder(id, key, categoryName) => book.(rules := RuleSet(book.rules, id, key, categoryName))
    case StopFiling(id) => book.(rules := RuleGone(book.rules, id))
  }

  function PerformAll(book: Book, operations: seq<Operation>): Book
    decreases |operations|
  {
    if operations == [] then book else PerformAll(Perform(book, operations[0]), operations[1..])
  }

  lemma PerformKeepsOrder(book: Book, operation: Operation)
    requires Flat(book.aliases) && OneRuleEach(book.rules)
    ensures Flat(Perform(book, operation).aliases) && OneRuleEach(Perform(book, operation).rules)
  {
    match operation
    case Remember(id, input) =>
      if !Refuses(book.aliases, input) {
        RememberingStaysFlat(book.aliases, id, input);
        RulesAfterHold(book.rules, input.variantKey, SettledOn(book.aliases, input).counterpartyKey);
      }
    case Forget(id) => OthersStayFlat(book.aliases, (alias: Alias) => alias.id != id);
    case FileUnder(id, key, categoryName) =>
      var others := Filter((rule: Rule) => rule.counterpartyKey != key, book.rules);
      FilterKeepsKeysApart(RuleKey, (rule: Rule) => rule.counterpartyKey != key, book.rules);
      SnocKeepsKeysApart(RuleKey, others, Rule(id, key, categoryName));
    case StopFiling(id) => FilterKeepsKeysApart(RuleKey, (rule: Rule) => rule.id != id, book.rules);
  }

  /** Over every sequence of remembering, forgetting and filing, the table is flat
      and no counterparty has two rules. */
  lemma {:induction false} EveryHistoryStaysFlat(book: Book, operations: seq<Operation>)
    requires Flat(book.aliases) && OneRuleEach(book.rules)
    ensures Flat(PerformAll(book, operations).aliases) && OneRuleEach(PerformAll(book, operations).rules)
    decreases |operations|
  {
    if operations != [] {
      PerformKeepsOrder(book, operations[0]);
      EveryHistoryStaysFlat(Perform(book, operations[0]), operations[1..]);
    }
  }

  /** The counterparty that input would make its variant belong to, and the name
      that goes with it: one settled already brings its own. */
  ghost predicate EndsUpAs(aliases: seq<Alias>, input: Input, key: string, name: string) {
    if exists alias :: alias in aliases && alias.variantKey == input.counterpartyKey
    then exists alias :: alias in aliases && alias.variantKey == input.counterpartyKey && alias.counterpartyKey == key && alias.counterpartyName == name
    else key == input.counterpartyKey && name == input.counterpartyName
  }

  /** Remembering is refused exactly when the variant would come to belong to
      itself, and then leaves the book. Otherwise the table is the new alias and
      the other variants', of which those that belonged to the variant now belong
      where it does, name and all. */
  lemma WhatRememberingLeaves(book: Book, id: string, input: Input, key: string, name: string)
    requires Flat(book.aliases) && EndsUpAs(book.aliases, input, key, name)
    ensures var after := Perform(book, Remember(id, input));
      if input.variantKey == input.counterpartyKey || input.variantKey == key then after == book
      else
        forall alias :: alias in after.aliases <==>
          || alias == Alias(id, input.variant, input.variantKey, key, name)
          || (alias in book.aliases && alias.variantKey != input.variantKey && alias.counterpartyKey != input.variantKey)
          || (alias.variantKey != input.variantKey && alias.counterpartyKey == key && alias.counterpartyName == name
              && exists was :: was in book.aliases && was.counterpartyKey == input.variantKey
                               && was.id == alias.id && was.variant == alias.variant && was.variantKey == alias.variantKey)
  {
    var found := FindAlias(book.aliases, input.counterpartyKey);
    forall alias | alias in book.aliases && alias.variantKey == input.counterpartyKey ensures found == Some(alias) {
      Found(book.aliases, alias);
    }
    var onto := SettledOn(book.aliases, input);
    assert onto == Input(input.variantKey, input.variant, key, name);
    if !Refuses(book.aliases, input) {
      forall alias
        ensures alias in AliasesAfter(book.aliases, id, onto) <==>
          || alias == Alias(id, input.variant, input.variantKey, key, name)
          || (alias in book.aliases && alias.variantKey != input.variantKey && alias.counterpartyKey != input.variantKey)
          || (alias.variantKey != input.variantKey && alias.counterpartyKey == key && alias.counterpartyName == name
              && exists was :: was in book.aliases && was.counterpartyKey == input.variantKey
                               && was.id == alias.id && was.variant == alias.variant && was.variantKey == alias.variantKey)
      {
        OneRemembered(book.aliases, id, onto, alias);
      }
    }
  }

  lemma OneRemembered(aliases: seq<Alias>, id: string, onto: Input, alias: Alias)
    ensures alias in AliasesAfter(aliases, id, onto) <==>
      || alias == Added(id, onto)
      || (alias in aliases && alias.variantKey != onto.variantKey && alias.counterpartyKey != onto.variantKey)
      || (alias.variantKey != onto.variantKey && alias.counterpartyKey == onto.counterpartyKey && alias.counterpartyName == onto.counterpartyName
          && exists was :: was in aliases && was.counterpartyKey == onto.variantKey
                           && was.id == alias.id && was.variant == alias.variant && was.variantKey == alias.variantKey)
  {
    AfterComesFrom(aliases, id, onto, alias);
    if was :| was in aliases && was.counterpartyKey == onto.variantKey
              && was.id == alias.id && was.variant == alias.variant && was.variantKey == alias.variantKey
    {
      assert alias.counterpartyKey == onto.counterpartyKey && alias.counterpartyName == onto.counterpartyName
             ==> alias == Repoint(was, onto);
    }
    if alias in aliases && alias.counterpartyKey != onto.variantKey {
      assert Repoint(alias, onto) == alias;
    }
  }

  /** Forgetting takes the aliases of that id and nothing else; filing and no
      longer filing touch the rules alone, and of those only the one rule. */
  lemma WhatTheOthersLeave(book: Book, operation: Operation)
    requires !operation.Remember?
    ensures var after := Perform(book, operation);
      && after.names == book.names
      && (forall alias :: alias in after.aliases <==> alias in book.aliases && !(operation.Forget? && alias.id == operation.id))
      && (!operation.Forget? ==> after.aliases == book.aliases)
      && (operation.Forget? ==> after.rules == book.rules)
      && (operation.StopFiling? ==> forall rule :: rule in after.rules <==> rule in book.rules && rule.id != operation.id)
      && (operation.FileUnder? ==>
            forall rule :: rule in after.rules <==>
              || rule == Rule(operation.id, operation.key, operation.categoryName)
              || (rule in book.rules && rule.counterpartyKey != operation.key))
  {
  }

  /** Neither replaces an alias, repoints it, nor forgets it. */
  predicate Spares(operation: Operation, alias: Alias) {
    match operation
    case Remember(_, input) => input.variantKey != alias.variantKey && input.variantKey != alias.counterpartyKey
    case Forget(id) => id != alias.id
    case _ => true
  }

  lemma SparedStays(book: Book, operation: Operation, alias: Alias)
    requires alias in book.aliases && Spares(operation, alias)
    ensures alias in Perform(book, operation).aliases
  {
    if operation.Remember? && !Refuses(book.aliases, operation.input) {
      var onto := SettledOn(book.aliases, operation.input);
      var others := Others(book.aliases, onto.variantKey);
      var i :| 0 <= i < |others| && others[i] == alias;
      assert AliasesAfter(book.aliases, operation.id, onto)[i] == Repoint(alias, onto);
    }
  }

  // ------------------------------------------------------ what it answers

  /** In a flat table one lookup is enough: following targets any further, round
      a cycle or down a chain, goes nowhere. */
  lemma {:induction false} OneLookupIsEnough(aliases: seq<Alias>, key: string, steps: nat)
    requires Flat(aliases) && steps > 0
    ensures Follow(aliases, key, steps) == Resolve(aliases, key)
    decreases steps
  {
    var once := Resolve(aliases, key);
    assert Resolve(aliases, once) == once;
    if steps > 1 {
      OneLookupIsEnough(aliases, once, steps - 1);
    }
  }

  /** What a transaction belongs to is never itself a variant of something. */
  lemma CanonicalIsSettled(aliases: seq<Alias>, resolvedKey: string, refolded: string)
    requires Flat(aliases) && resolvedKey != ""
    ensures var canonical := CanonicalKey(aliases, Some(resolvedKey), refolded);
      canonical.Some? && FindAlias(aliases, canonical.value).None?
  {
  }

  /** After remembering, only the variant has a new answer, and whatever pointed
      at it; targets are settled once and for all. */
  lemma ResolveAfter(aliases: seq<Alias>, id: string, onto: Input, key: string)
    requires Flat(aliases) && Flat(AliasesAfter(aliases, id, onto))
    requires onto.variantKey != onto.counterpartyKey
    ensures var after := AliasesAfter(aliases, id, onto);
      && (FindAlias(after, key).Some? <==> key == onto.variantKey || FindAlias(aliases, key).Some?)
      && Resolve(after, key)
         == if key == onto.variantKey || Resolve(aliases, key) == onto.variantKey then onto.counterpartyKey
            else Resolve(aliases, key)
  {
    var after := AliasesAfter(aliases, id, onto);
    AfterComesFrom(aliases, id, onto, Added(id, onto));
    Found(after, Added(id, onto));
    if key != onto.variantKey {
      var was := FindAlias(aliases, key);
      if was.Some? {
        AfterComesFrom(aliases, id, onto, Repoint(was.value, onto));
        Found(after, Repoint(was.value, onto));
      } else {
        forall alias | alias in after ensures alias.variantKey != key {
          AfterComesFrom(aliases, id, onto, alias);
        }
      }
    }
  }

  /** Remembering that v is c moves v, and whatever belonged to v, onto where c
      ends up, and leaves the answer for every other transaction alone. */
  lemma RememberingRedirects(book: Book, id: string, input: Input, resolvedKey: string, refolded: string)
    requires Flat(book.aliases) && !Refuses(book.aliases, input) && resolvedKey != ""
    ensures var before := CanonicalKey(book.aliases, Some(resolvedKey), refolded);
      CanonicalKey(Remembered(book, id, input).aliases, Some(resolvedKey), refolded)
      == if resolvedKey == input.variantKey
            || (FindAlias(book.aliases, resolvedKey).None? && refolded == input.variantKey)
            || before == Some(input.variantKey)
         then Some(Resolve(book.aliases, input.counterpartyKey)) else before
  {
    var onto := SettledOn(book.aliases, input);
    RememberingStaysFlat(book.aliases, id, input);
    ResolveAfter(book.aliases, id, onto, resolvedKey);
    ResolveAfter(book.aliases, id, onto, refolded);
  }

  function CategoryOf(rules: seq<Rule>, key: string): Option<string> {
    var rule := FindRule(rules, key);
    if rule.Some? then Some(rule.value.categoryName) else None
  }

  /** A rule remembered is the one its counterparty files by, and no other files
      otherwise than before. */
  lemma RuleSetIs(rules: seq<Rule>, id: string, key: string, categoryName: string)
    ensures var after := RuleSet(rules, id, key, categoryName);
      && (forall rule :: rule in after <==> rule == Rule(id, key, categoryName) || (rule in rules && rule.counterpartyKey != key))
      && CategoryOf(after, key) == Some(categoryName)
      && (OneRuleEach(rules) ==>
            OneRuleEach(after) && forall other :: other != key ==> CategoryOf(after, other) == CategoryOf(rules, other))
  {
    var after, added := RuleSet(rules, id, key, categoryName), Rule(id, key, categoryName);
    assert added in after;
    if OneRuleEach(rules) {
      FilterKeepsKeysApart(RuleKey, (rule: Rule) => rule.counterpartyKey != key, rules);
      SnocKeepsKeysApart(RuleKey, Filter((rule: Rule) => rule.counterpartyKey != key, rules), added);
      forall other | other != key ensures CategoryOf(after, other) == CategoryOf(rules, other) {
        var was := FindRule(rules, other);
        if was.Some? {
          RuleFound(after, was.value);
        }
      }
    }
  }

  /** A rule forgotten leaves its counterparty without one, and no other. */
  lemma RuleGoneIs(rules: seq<Rule>, id: string)
    requires OneRuleEach(rules)
    ensures var after := RuleGone(rules, id);
      && OneRuleEach(after)
      && forall rule :: rule in rules ==>
           CategoryOf(after, rule.counterpartyKey) == if rule.id == id then None else Some(rule.categoryName)
  {
    var after := RuleGone(rules, id);
    FilterKeepsKeysApart(RuleKey, (rule: Rule) => rule.id != id, rules);
    forall rule | rule in rules
      ensures CategoryOf(after, rule.counterpartyKey) == if rule.id == id then None else Some(rule.categoryName)
    {
      RuleFound(rules, rule);
      if rule.id != id {
        RuleFound(after, rule);
      } else {
        forall other | other in after ensures other.counterpartyKey != rule.counterpartyKey {
          RuleFound(rules, other);
        }
      }
    }
  }

  /** The rule a counterparty's rule after the merge comes from. */
  lemma RuleComesFrom(rules: seq<Rule>, variantKey: string, counterpartyKey: string, rule: Rule)
    requires variantKey != counterpartyKey
    ensures rule in RulesAfter(rules, variantKey, counterpartyKey)
            <==> rule.counterpartyKey != variantKey
                 && (rule in rules
                     || (rule.counterpartyKey == counterpartyKey && FindRule(rules, counterpartyKey).None?
                         && rule.(counterpartyKey := variantKey) in rules))
  {
    var hasTargetRule := FindRule(rules, counterpartyKey).Some?;
    var moved := Map((one: Rule) =>
                       if one.counterpartyKey == variantKey && !hasTargetRule then one.(counterpartyKey := counterpartyKey) else one,
                     rules);
    var from := rule.(counterpartyKey := variantKey);
    if rule in moved {
      var i :| 0 <= i < |moved| && moved[i] == rule;
      assert rules[i] in rules;
    }
    if rule in rules {
      var i :| 0 <= i < |rules| && rules[i] == rule;
      assert moved[i] in moved;
    }
    if from in rules {
      var i :| 0 <= i < |rules| && rules[i] == from;
      assert moved[i] in moved;
    }
  }

  /** The variant's rule becomes the target's where that had none and goes where
      it had, none is left on the variant, and every other counterparty files
      where it did. */
  lemma RulesFollow(rules: seq<Rule>, variantKey: string, counterpartyKey: string, key: string)
    requires OneRuleEach(rules) && variantKey != counterpartyKey
    ensures CategoryOf(RulesAfter(rules, variantKey, counterpartyKey), key)
            == if key == variantKey then None
               else if key == counterpartyKey && CategoryOf(rules, counterpartyKey).None? then CategoryOf(rules, variantKey)
               else CategoryOf(rules, key)
  {
    RulesAfterHold(rules, variantKey, counterpartyKey);
    var after := RulesAfter(rules, variantKey, counterpartyKey);
    var from := if key == counterpartyKey && FindRule(rules, key).None? then variantKey else key;
    var was := FindRule(rules, from);
    if was.Some? && key != variantKey {
      var moved := was.value.(counterpartyKey := key);
      assert moved.(counterpartyKey := from) == was.value;
      RuleComesFrom(rules, variantKey, counterpartyKey, moved);
      RuleFound(after, moved);
    } else {
      forall rule | rule in after ensures rule.counterpartyKey != key {
        RuleComesFrom(rules, variantKey, counterpartyKey, rule);
      }
    }
  }

  /** The target's own name wins; where it has none it takes the variant's. No
      name is dropped, the variant's included. */
  lemma NamesAreCarried(names: map<string, OwnName>, variantKey: string, targetKey: string, key: string)
    requires forall one :: one in names ==> names[one].counterpartyKey == one
    ensures var after := NamesAfter(names, variantKey, targetKey);
      && (forall one :: one in after ==> after[one].counterpartyKey == one)
      && (key in names ==> key in after && after[key] == names[key])
      && (key in after && key !in names ==>
            key == targetKey && variantKey in names && after[key].displayName == names[variantKey].displayName)
      && (variantKey in names ==> targetKey in after)
  {
  }

  // ------------------------------------------------------------ forgetting

  ghost predicate Mentions(alias: Alias, key: string) {
    alias.variantKey == key || alias.counterpartyKey == key
  }

  lemma ForgettingRestores(aliases: seq<Alias>, id: string, onto: Input)
    requires forall alias :: alias in aliases ==> alias.id != id && !Mentions(alias, onto.variantKey)
    ensures Without(AliasesAfter(aliases, id, onto), id) == aliases
  {
    AllStay((alias: Alias) => alias.variantKey != onto.variantKey, aliases);
    var after := AliasesAfter(aliases, id, onto);
    forall i | 0 <= i < |aliases| ensures after[i] == aliases[i] {
      assert aliases[i] in aliases && after[i] == Repoint(aliases[i], onto);
    }
    assert after == aliases + [Added(id, onto)];
    FilterConcat((alias: Alias) => alias.id != id, aliases, [Added(id, onto)]);
    NothingGoes(aliases, id);
    assert Without([Added(id, onto)], id) == [];
  }

  /** Forgetting what was just remembered gives every key its old answer back
      exactly when the variant was new to the table and nothing pointed at it. */
  lemma ForgettingUndoes(book: Book, id: string, input: Input)
    requires Flat(book.aliases) && !Refuses(book.aliases, input)
    requires forall alias :: alias in book.aliases ==> alias.id != id
    ensures (forall key :: Resolve(Without(Remembered(book, id, input).aliases, id), key) == Resolve(book.aliases, key))
            <==> !exists alias :: alias in book.aliases && Mentions(alias, input.variantKey)
  {
    var aliases, onto := book.aliases, SettledOn(book.aliases, input);
    if alias :| alias in aliases && Mentions(alias, onto.variantKey) {
      RememberingStaysFlat(aliases, id, input);
      Found(aliases, alias);
      ForgottenAnswer(aliases, id, onto, alias.variantKey);
      assert Resolve(Without(AliasesAfter(aliases, id, onto), id), alias.variantKey) != Resolve(aliases, alias.variantKey);
    } else {
      ForgettingRestores(aliases, id, onto);
    }
  }

  /** A rule that moved does not come back with the alias: forgetting leaves every
      counterparty filing where it did exactly when the variant had no rule. */
  lemma RulesDoNotComeBack(book: Book, id: string, input: Input)
    requires OneRuleEach(book.rules) && !Refuses(book.aliases, input)
    ensures var back := Perform(Remembered(book, id, input), Forget(id));
      (forall key :: CategoryOf(back.rules, key) == CategoryOf(book.rules, key)) <==> CategoryOf(book.rules, input.variantKey).None?
  {
    var counterpartyKey := SettledOn(book.aliases, input).counterpartyKey;
    RulesFollow(book.rules, input.variantKey, counterpartyKey, input.variantKey);
    if CategoryOf(book.rules, input.variantKey).None? {
      forall key ensures CategoryOf(RulesAfter(book.rules, input.variantKey, counterpartyKey), key) == CategoryOf(book.rules, key) {
        RulesFollow(book.rules, input.variantKey, counterpartyKey, key);
      }
    }
  }

  /** Nor does a name that was carried: forgetting leaves the owner's names as
      they were before exactly when the target had one or the variant had none. */
  lemma CarriedNamesStay(book: Book, id: string, input: Input)
    requires !Refuses(book.aliases, input)
    ensures var back := Perform(Remembered(book, id, input), Forget(id));
      var targetKey := Resolve(book.aliases, input.counterpartyKey);
      back.names == book.names <==> targetKey in book.names || input.variantKey !in book.names
  {
    var targetKey := SettledOn(book.aliases, input).counterpartyKey;
    assert targetKey in NamesAfter(book.names, input.variantKey, targetKey) || input.variantKey !in book.names;
  }

  lemma ForgottenAnswer(aliases: seq<Alias>, id: string, onto: Input, key: string)
    requires Flat(aliases) && Flat(AliasesAfter(aliases, id, onto))
    requires forall alias :: alias in aliases ==> alias.id != id
    requires onto.variantKey != onto.counterpartyKey
    ensures var back := Without(AliasesAfter(aliases, id, onto), id);
      && (key == onto.variantKey ==> Resolve(back, key) == key)
      && (key != onto.variantKey && Resolve(aliases, key) == onto.variantKey ==> Resolve(back, key) == onto.counterpartyKey)
  {
    var after := AliasesAfter(aliases, id, onto);
    var back := Without(after, id);
    OthersStayFlat(after, (alias: Alias) => alias.id != id);
    forall alias | alias in back ensures alias.variantKey != onto.variantKey {
      AfterComesFrom(aliases, id, onto, alias);
    }
    var was := FindAlias(aliases, key);
    if was.Some? && key != onto.variantKey {
      AfterComesFrom(aliases, id, onto, Repoint(was.value, onto));
      Found(back, Repoint(was.value, onto));
    }
  }
}
