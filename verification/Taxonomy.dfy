/** Classifying tool calls: custom taxonomies merged over the bundled one. */
module Taxonomy {
  import opened Wrappers
  import opened Lists

  datatype Mapping = Mapping(toolName: string, actionType: string, disclosureFields: Option<seq<string>>)

  datatype Pattern = Pattern(prefix: string, actionType: string)

  /** An entry of the SDK's action registry. */
  datatype Action = Action(actionType: string, riskLevel: string)

  datatype Classification = Classification(
    actionType: string,
    riskLevel: string,
    disclosureFields: Option<seq<string>>)

  // ----- Look-up -----

  function FindMapping(name: string, mappings: seq<Mapping>): Option<Mapping> {
    if mappings == [] then None
    else if mappings[0].toolName == name then Some(mappings[0])
    else FindMapping(name, mappings[1..])
  }

  predicate StartsWith(s: string, prefix: string) {
    prefix <= s
  }

  function FindPattern(name: string, patterns: seq<Pattern>): Option<Pattern> {
    if patterns == [] then None
    else if StartsWith(name, patterns[0].prefix) then Some(patterns[0])
    else FindPattern(name, patterns[1..])
  }

  /** The SDK's `classifyToolCall`, by assumption: the first mapping for the tool decides, and
      without one the action is the registry's "unknown". */
  function ClassifyToolCall(name: string, mappings: seq<Mapping>, resolve: string -> Action): Action {
    match FindMapping(name, mappings)
    case Some(m) => resolve(m.actionType)
    case None => resolve("unknown")
  }

  function Classify(name: string, mappings: seq<Mapping>, patterns: seq<Pattern>,
                    resolve: string -> Action): Classification
  {
    var exact := ClassifyToolCall(name, mappings, resolve);
    if exact.actionType != "unknown" then
      var matched := FindMapping(name, mappings);
      Classification(exact.actionType, exact.riskLevel, if matched.Some? then matched.value.disclosureFields else None)
    else
      match FindPattern(name, patterns)
      case Some(p) =>
        var entry := resolve(p.actionType);
        Classification(entry.actionType, entry.riskLevel, None)
      case None => Classification(exact.actionType, exact.riskLevel, None)
  }

  // ----- Merging -----

  function MergeMappings(custom: seq<Mapping>, defaults: seq<Mapping>): seq<Mapping> {
    var names := set m | m in custom :: m.toolName;
    custom + Filter(defaults, (m: Mapping) => m.toolName !in names)
  }

  function MergePatterns(custom: seq<Pattern>, defaults: seq<Pattern>): seq<Pattern> {
    var prefixes := set p | p in custom :: p.prefix;
    custom + Filter(defaults, (p: Pattern) => p.prefix !in prefixes)
  }

  function OrElse<T>(first: Option<T>, second: Option<T>): Option<T> {
    if first.Some? then first else second
  }

  lemma {:induction false} FindMappingConcat(name: string, a: seq<Mapping>, b: seq<Mapping>)
    ensures FindMapping(name, a + b)
            == OrElse(FindMapping(name, a), FindMapping(name, b))
  {
    if a == [] {
      assert a + b == b;
    } else {
      FindMappingConcat(name, a[1..], b);
      assert (a + b)[1..] == a[1..] + b;
    }
  }

  lemma {:induction false} FindPatternConcat(name: string, a: seq<Pattern>, b: seq<Pattern>)
    ensures FindPattern(name, a + b)
            == OrElse(FindPattern(name, a), FindPattern(name, b))
  {
    if a == [] {
      assert a + b == b;
    } else {
      FindPatternConcat(name, a[1..], b);
      assert (a + b)[1..] == a[1..] + b;
    }
  }

  lemma {:induction false} FindMappingNone(name: string, mappings: seq<Mapping>)
    ensures FindMapping(name, mappings).None? <==> forall m :: m in mappings ==> m.toolName != name
  {
    if mappings != [] {
      FindMappingNone(name, mappings[1..]);
      assert mappings == [mappings[0]] + mappings[1..];
    }
  }

  lemma {:induction false} FindPatternNone(name: string, patterns: seq<Pattern>)
    ensures FindPattern(name, patterns).None? <==> forall p :: p in patterns ==> !StartsWith(name, p.prefix)
  {
    if patterns != [] {
      FindPatternNone(name, patterns[1..]);
      assert patterns == [patterns[0]] + patterns[1..];
    }
  }

  /** Dropping entries that cannot match leaves the first match. */
  lemma {:induction false} FindMappingFilter(name: string, mappings: seq<Mapping>, keep: Mapping -> bool)
    requires forall m :: m in mappings && m.toolName == name ==> keep(m)
    ensures FindMapping(name, Filter(mappings, keep)) == FindMapping(name, mappings)
  {
    if mappings != [] {
      FindMappingFilter(name, mappings[1..], keep);
    }
  }

  lemma {:induction false} FindPatternFilter(name: string, patterns: seq<Pattern>, keep: Pattern -> bool)
    requires forall p :: p in patterns && StartsWith(name, p.prefix) ==> keep(p)
    ensures FindPattern(name, Filter(patterns, keep)) == FindPattern(name, patterns)
  {
    if patterns != [] {
      FindPatternFilter(name, patterns[1..], keep);
    }
  }

  /** The mapping found is the first of that name. */
  lemma {:induction false} FindMappingMeaning(name: string, mappings: seq<Mapping>) returns (k: nat)
    ensures FindMapping(name, mappings).Some? ==>
              && k < |mappings| && FindMapping(name, mappings) == Some(mappings[k])
              && mappings[k].toolName == name && forall j :: 0 <= j < k ==> mappings[j].toolName != name
    ensures FindMapping(name, mappings).None? ==> forall j :: 0 <= j < |mappings| ==> mappings[j].toolName != name
  {
    k := 0;
    if mappings != [] && mappings[0].toolName != name {
      var i := FindMappingMeaning(name, mappings[1..]);
      k := i + 1;
      assert forall j :: 0 < j < |mappings| ==> mappings[j] == mappings[1..][j - 1];
    }
  }

  predicate BeginsWith(name: string, prefix: string) {
    |prefix| <= |name| && name[..|prefix|] == prefix
  }

  lemma StartsWithMeaning(name: string, prefix: string)
    ensures StartsWith(name, prefix) <==> BeginsWith(name, prefix)
  {
  }

  /** The pattern found is the first whose prefix the name begins with. */
  lemma {:induction false} FindPatternMeaning(name: string, patterns: seq<Pattern>) returns (k: nat)
    ensures FindPattern(name, patterns).Some? ==>
              && k < |patterns| && FindPattern(name, patterns) == Some(patterns[k])
              && BeginsWith(name, patterns[k].prefix)
              && forall j :: 0 <= j < k ==> !BeginsWith(name, patterns[j].prefix)
    ensures FindPattern(name, patterns).None? ==>
              forall j :: 0 <= j < |patterns| ==> !BeginsWith(name, patterns[j].prefix)
  {
    k := 0;
    if patterns != [] {
      StartsWithMeaning(name, patterns[0].prefix);
      if !StartsWith(name, patterns[0].prefix) {
        var i := FindPatternMeaning(name, patterns[1..]);
        k := i + 1;
        assert forall j :: 0 < j < |patterns| ==> patterns[j] == patterns[1..][j - 1];
      }
    }
  }

  // ----- Main results -----

  predicate Overridden(m: Mapping, custom: seq<Mapping>) {
    exists c :: c in custom && c.toolName == m.toolName
  }

  predicate PatternOverridden(p: Pattern, custom: seq<Pattern>) {
    exists c :: c in custom && c.prefix == p.prefix
  }

  /** A merged taxonomy is the custom one followed by the default entries it does not override. */
  lemma MergeContents(custom: seq<Mapping>, defaults: seq<Mapping>,
                      customPatterns: seq<Pattern>, defaultPatterns: seq<Pattern>)
    ensures MergeMappings(custom, defaults) == custom + Filter(defaults, (m: Mapping) => !Overridden(m, custom))
    ensures MergePatterns(customPatterns, defaultPatterns)
            == customPatterns + Filter(defaultPatterns, (p: Pattern) => !PatternOverridden(p, customPatterns))
  {
    var names := set m | m in custom :: m.toolName;
    var prefixes := set p | p in customPatterns :: p.prefix;
    FilterSame(defaults, (m: Mapping) => m.toolName !in names, (m: Mapping) => !Overridden(m, custom));
    FilterSame(defaultPatterns, (p: Pattern) => p.prefix !in prefixes,
               (p: Pattern) => !PatternOverridden(p, customPatterns));
  }

  /** In a merged taxonomy the first match is the custom one, else the default one. */
  lemma MergedMapping(name: string, custom: seq<Mapping>, defaults: seq<Mapping>)
    ensures FindMapping(name, MergeMappings(custom, defaults))
            == OrElse(FindMapping(name, custom), FindMapping(name, defaults))
  {
    var names := set m | m in custom :: m.toolName;
    FindMappingConcat(name, custom, Filter(defaults, (m: Mapping) => m.toolName !in names));
    FindMappingNone(name, custom);
    if FindMapping(name, custom).None? {
      FindMappingFilter(name, defaults, (m: Mapping) => m.toolName !in names);
    }
  }

  lemma MergedPattern(name: string, custom: seq<Pattern>, defaults: seq<Pattern>)
    ensures FindPattern(name, MergePatterns(custom, defaults))
            == OrElse(FindPattern(name, custom), FindPattern(name, defaults))
  {
    var prefixes := set p | p in custom :: p.prefix;
    FindPatternConcat(name, custom, Filter(defaults, (p: Pattern) => p.prefix !in prefixes));
    FindPatternNone(name, custom);
    if FindPattern(name, custom).None? {
      FindPatternFilter(name, defaults, (p: Pattern) => p.prefix !in prefixes);
    }
  }

  /** Filtering out overridden defaults classifies every tool as plain concatenation would. */
  lemma MergeIsConcatenation(name: string, custom: seq<Mapping>, defaults: seq<Mapping>,
                             customPatterns: seq<Pattern>, defaultPatterns: seq<Pattern>, resolve: string -> Action)
    ensures Classify(name, MergeMappings(custom, defaults), MergePatterns(customPatterns, defaultPatterns), resolve)
            == Classify(name, custom + defaults, customPatterns + defaultPatterns, resolve)
  {
    MergedMapping(name, custom, defaults);
    MergedPattern(name, customPatterns, defaultPatterns);
    FindMappingConcat(name, custom, defaults);
    FindPatternConcat(name, customPatterns, defaultPatterns);
  }

  predicate Classified(c: Classification, action: Action) {
    c.actionType == action.actionType && c.riskLevel == action.riskLevel
  }

  /** The order of precedence: custom exact, default exact, custom prefix, default prefix. A
      custom mapping that resolves to "unknown" hides the default one and falls through to the
      patterns; a known default mapping beats every custom pattern. */
  lemma Precedence(name: string, custom: seq<Mapping>, defaults: seq<Mapping>,
                   customPatterns: seq<Pattern>, defaultPatterns: seq<Pattern>, resolve: string -> Action)
    requires resolve("unknown").actionType == "unknown"
    ensures var c := Classify(name, MergeMappings(custom, defaults),
                              MergePatterns(customPatterns, defaultPatterns), resolve);
            var exact := OrElse(FindMapping(name, custom), FindMapping(name, defaults));
            var prefixed := OrElse(FindPattern(name, customPatterns), FindPattern(name, defaultPatterns));
            if exact.Some? && resolve(exact.value.actionType).actionType != "unknown" then
              Classified(c, resolve(exact.value.actionType)) && c.disclosureFields == exact.value.disclosureFields
            else if prefixed.Some? then
              Classified(c, resolve(prefixed.value.actionType)) && c.disclosureFields.None?
            else
              && Classified(c, resolve(if exact.Some? then exact.value.actionType else "unknown"))
              && c.actionType == "unknown" && c.disclosureFields.None?
  {
    MergedMapping(name, custom, defaults);
    MergedPattern(name, customPatterns, defaultPatterns);
  }
}
