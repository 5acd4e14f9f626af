/** The condition evaluator of the automation engine, `app/automation/conditions.py`.

    The values compared are those of the host language; what that language does with them
    (equality, text, numbers, patterns, membership) is a parameter of the model. */
module Conditions {
  import opened Common

  /** The outcome of comparing two values as numbers. `Unordered` is a comparison with
      not-a-number, `NotNumbers` a failed conversion (caught by the source), `Overflows` one
      that raises an error the source does not catch. */
  datatype Comparison = Less | Equal | Greater | Unordered | NotNumbers | Overflows

  /** A pattern search that raises an error on a malformed pattern. */
  datatype Search = Found | NotFound | Malformed

  datatype Language<!V> = Language(
    equal: (V, V) -> bool,
    contains: (V, V) -> bool,       // does the text of the first contain that of the second
    startsWith: (V, V) -> bool,
    endsWith: (V, V) -> bool,
    search: (V, V) -> Search,       // does the text of the first match the pattern
    compare: (V, V) -> Comparison,
    member: (V, V) -> bool)         // is the first in the second, a single value counting as a list of one

  datatype Condition<V> = Condition(field: string, operator: string, value: V, logic: Option<string>)

  /** The answer of one evaluation; `Raised` stands for an error that leaves the function. */
  datatype Answer = Answer(value: bool) | Raised

  function FromComparison(c: Comparison, wanted: set<Comparison>): Answer {
    if c.Overflows? then Raised else Answer(c in wanted)
  }

  /** `evaluate_condition`: a field that is missing or null satisfies only `not_exists`. */
  function EvaluateCondition<V>(lang: Language<V>, cond: Condition<V>, context: map<string, V>): Answer {
    var present := cond.field in context;
    if cond.operator == "exists" then Answer(present)
    else if cond.operator == "not_exists" then Answer(!present)
    else if !present then Answer(false)
    else
      var actual, expected := context[cond.field], cond.value;
      match cond.operator
      case "eq" => Answer(lang.equal(actual, expected))
      case "neq" => Answer(!lang.equal(actual, expected))
      case "contains" => Answer(lang.contains(actual, expected))
      case "not_contains" => Answer(!lang.contains(actual, expected))
      case "startswith" => Answer(lang.startsWith(actual, expected))
      case "endswith" => Answer(lang.endsWith(actual, expected))
      case "regex" =>
        var found := lang.search(actual, expected);
        if found.Malformed? then Raised else Answer(found.Found?)
      case "gt" => FromComparison(lang.compare(actual, expected), {Greater})
      case "lt" => FromComparison(lang.compare(actual, expected), {Less})
      case "gte" => FromComparison(lang.compare(actual, expected), {Greater, Equal})
      case "lte" => FromComparison(lang.compare(actual, expected), {Less, Equal})
      case "in" => Answer(lang.member(actual, expected))
      case "not_in" => Answer(!lang.member(actual, expected))
      case _ => Answer(false)
  }

  /** The operators that come in pairs of opposites. */
  function Opposite(operator: string): Option<string> {
    match operator
    case "exists" => Some("not_exists")
    case "eq" => Some("neq")
    case "contains" => Some("not_contains")
    case "in" => Some("not_in")
    case "gt" => Some("lte")
    case "lt" => Some("gte")
    case _ => None
  }

  /** Exactly when a pair of opposite operators behaves like a pair of opposites: the field must
      be present (except for existence itself) and, for the numeric ones, the two values must
      be comparable. Otherwise both conditions are false, and neither `gt` nor `lte` holds. */
  lemma OppositeOperators<V>(lang: Language<V>, cond: Condition<V>, context: map<string, V>)
    requires Opposite(cond.operator).Some?
    ensures
      var opposite := EvaluateCondition(lang, cond.(operator := Opposite(cond.operator).value), context);
      var complementary := exists b :: EvaluateCondition(lang, cond, context) == Answer(b) && opposite == Answer(!b);
      complementary <==>
        || cond.operator == "exists"
        || (cond.field in context && (cond.operator in {"gt", "lt"} ==>
              lang.compare(context[cond.field], cond.value) in {Less, Equal, Greater}))
  {
    var first := EvaluateCondition(lang, cond, context);
    var opposite := EvaluateCondition(lang, cond.(operator := Opposite(cond.operator).value), context);
    assert first.Answer? && opposite.Answer? && first.value != opposite.value ==>
      first == Answer(first.value) && opposite == Answer(!first.value);
  }

  /** The numbers that values stand for, if any, and a comparison that follows their order. */
  ghost predicate ComparesNumbers<V(!new)>(lang: Language<V>, number: V -> Option<real>) {
    forall a, b ::
      (lang.compare)(a, b) ==
        match (number(a), number(b))
        case (Some(x), Some(y)) => if x < y then Less else if x > y then Greater else Equal
        case _ => NotNumbers
  }

  /** `gt`, `lt`, `gte` and `lte` are >, <, >= and <= on numbers, the field standing on the left, and
      false when one side is not a number or the field is missing. */
  lemma NumericOperators<V(!new)>(lang: Language<V>, number: V -> Option<real>, cond: Condition<V>,
                                  context: map<string, V>)
    requires ComparesNumbers(lang, number) && cond.operator in {"gt", "lt", "gte", "lte"}
    ensures EvaluateCondition(lang, cond, context) ==
              if cond.field !in context then Answer(false) else
              match (number(context[cond.field]), number(cond.value))
              case (Some(x), Some(y)) =>
                Answer(if cond.operator == "gt" then x > y
                       else if cond.operator == "lt" then x < y
                       else if cond.operator == "gte" then x >= y else x <= y)
              case _ => Answer(false)
  {
  }

  predicate StandsAt(part: string, s: string, i: int) {
    0 <= i <= |s| - |part| && s[i..i + |part|] == part
  }

  ghost predicate ContainsText(s: string, part: string) {
    exists i :: StandsAt(part, s, i)
  }

  predicate EndsWithText(s: string, part: string) {
    |part| <= |s| && s[|s| - |part|..] == part
  }

  /** The texts that values stand for, and searches that follow them. */
  ghost predicate SearchesText<V(!new)>(lang: Language<V>, text: V -> string) {
    forall a, b ::
      && ((lang.contains)(a, b) <==> ContainsText(text(a), text(b)))
      && ((lang.startsWith)(a, b) <==> text(b) <= text(a))
      && ((lang.endsWith)(a, b) <==> EndsWithText(text(a), text(b)))
  }

  /** The operators on texts, the field being searched for the value and not the other way round: a
      prefix, a suffix, a part or not a part. A text that starts or ends with another contains it. */
  lemma TextOperators<V(!new)>(lang: Language<V>, text: V -> string, cond: Condition<V>, context: map<string, V>)
    requires SearchesText(lang, text) && cond.field in context
    ensures var actual, expected := text(context[cond.field]), text(cond.value);
            && Holds(lang, cond.(operator := "startswith"), context) == (expected <= actual)
            && Holds(lang, cond.(operator := "endswith"), context) == EndsWithText(actual, expected)
            && Holds(lang, cond.(operator := "contains"), context) == ContainsText(actual, expected)
            && Holds(lang, cond.(operator := "not_contains"), context) == !ContainsText(actual, expected)
    ensures (Holds(lang, cond.(operator := "startswith"), context)
             || Holds(lang, cond.(operator := "endswith"), context)) ==>
              Holds(lang, cond.(operator := "contains"), context)
  {
    var actual, expected := text(context[cond.field]), text(cond.value);
    if expected <= actual {
      assert StandsAt(expected, actual, 0);
    }
    if EndsWithText(actual, expected) {
      assert StandsAt(expected, actual, |actual| - |expected|);
    }
  }

  /** The remaining operators: equality, membership, existence and patterns, of which only a malformed
      pattern raises; anything else is false, and so is everything but `not_exists` without the field. */
  lemma OtherOperators<V>(lang: Language<V>, cond: Condition<V>, context: map<string, V>)
    ensures cond.field !in context ==> EvaluateCondition(lang, cond, context) == Answer(cond.operator == "not_exists")
    ensures cond.field in context ==>
              var actual := context[cond.field];
              && (cond.operator == "exists" ==> Holds(lang, cond, context))
              && (cond.operator == "eq" ==> (Holds(lang, cond, context) <==> lang.equal(actual, cond.value)))
              && (cond.operator == "neq" ==> (Holds(lang, cond, context) <==> !lang.equal(actual, cond.value)))
              && (cond.operator == "in" ==> (Holds(lang, cond, context) <==> lang.member(actual, cond.value)))
              && (cond.operator == "not_in" ==> (Holds(lang, cond, context) <==> !lang.member(actual, cond.value)))
              && (cond.operator == "regex" ==> EvaluateCondition(lang, cond, context) ==
                                                 match lang.search(actual, cond.value)
                                                 case Found => Answer(true)
                                                 case NotFound => Answer(false)
                                                 case Malformed => Raised)
    ensures EvaluateCondition(lang, cond, context).Raised? ==> cond.operator in {"regex", "gt", "lt", "gte", "lte"}
    ensures Holds(lang, cond, context) ==>
              cond.operator in {"exists", "not_exists", "eq", "neq", "contains", "not_contains", "startswith",
                                "endswith", "regex", "gt", "lt", "gte", "lte", "in", "not_in"}
  {
  }

  /** The logic of a condition is OR in any spelling of upper and lower case, and AND otherwise. */
  lemma OrInAnyCase<V>(cond: Condition<V>)
    ensures IsOr(cond) <==> cond.logic in {Some("OR"), Some("Or"), Some("oR"), Some("or")}
  {
    if IsOr(cond) {
      assert cond.logic.value == [cond.logic.value[0], cond.logic.value[1]];
    }
  }

  /** `(cond.logic or "AND").upper() == "OR"` */
  predicate IsOr<V>(cond: Condition<V>) {
    match cond.logic
    case None => false
    case Some(logic) => |logic| == 2 && logic[0] in "oO" && logic[1] in "rR"
  }

  ghost predicate Holds<V>(lang: Language<V>, cond: Condition<V>, context: map<string, V>) {
    EvaluateCondition(lang, cond, context) == Answer(true)
  }

  /** The meaning of a list of conditions without a fold: some condition holds that starts the
      list or is joined by OR, and every AND condition after it holds as well. The logic of the
      first condition plays no part. */
  ghost predicate SomeGroupHolds<V>(lang: Language<V>, conditions: seq<Condition<V>>, context: map<string, V>) {
    exists j | 0 <= j < |conditions| ::
      && (j == 0 || IsOr(conditions[j]))
      && Holds(lang, conditions[j], context)
      && forall i | j < i < |conditions| :: !IsOr(conditions[i]) ==> Holds(lang, conditions[i], context)
  }

  /** `evaluate_all`. Every condition is evaluated, also after the result is settled, so an error
      in any of them is an error of the whole. */
  method EvaluateAll<V>(lang: Language<V>, conditions: seq<Condition<V>>, context: map<string, V>) returns (r: Answer)
    ensures r.Raised? <==> exists i | 0 <= i < |conditions| :: EvaluateCondition(lang, conditions[i], context).Raised?
    ensures r.Answer? ==> (r.value <==> conditions == [] || SomeGroupHolds(lang, conditions, context))
  {
    if conditions == [] {
      return Answer(true);
    }
    var result: Option<bool> := None;
    for k := 0 to |conditions|
      invariant result.None? <==> k == 0
      invariant forall i | 0 <= i < k :: !EvaluateCondition(lang, conditions[i], context).Raised?
      invariant result.Some? ==> (result.value <==> SomeGroupHolds(lang, conditions[..k], context))
    {
      ghost var seen := conditions[..k];
      var this' := EvaluateCondition(lang, conditions[k], context);
      if this'.Raised? {
        return Raised;
      }
      OneMoreCondition(lang, seen, conditions[k], context);
      assert conditions[..k + 1] == seen + [conditions[k]];
      if result.None? {
        result := Some(this'.value);
      } else if IsOr(conditions[k]) {
        result := Some(result.value || this'.value);
      } else {
        result := Some(result.value && this'.value);
      }
    }
    assert conditions[..|conditions|] == conditions;
    r := Answer(result.value);
  }

  /** One step of the fold, read on the meaning of the list. */
  lemma OneMoreCondition<V>(lang: Language<V>, conditions: seq<Condition<V>>, cond: Condition<V>,
                            context: map<string, V>)
    ensures SomeGroupHolds(lang, conditions + [cond], context) <==>
              if conditions == [] then Holds(lang, cond, context)
              else if IsOr(cond) then SomeGroupHolds(lang, conditions, context) || Holds(lang, cond, context)
              else SomeGroupHolds(lang, conditions, context) && Holds(lang, cond, context)
  {
    var all, n := conditions + [cond], |conditions|;
    assert all[n] == cond;
    forall i | 0 <= i < n ensures all[i] == conditions[i] {}
    if SomeGroupHolds(lang, conditions, context) && (IsOr(cond) || Holds(lang, cond, context)) {
      var j :| 0 <= j < n && (j == 0 || IsOr(conditions[j])) && Holds(lang, conditions[j], context)
        && forall i | j < i < n :: !IsOr(conditions[i]) ==> Holds(lang, conditions[i], context);
      assert Holds(lang, all[j], context) && (j == 0 || IsOr(all[j]));
      forall i | j < i < |all| ensures !IsOr(all[i]) ==> Holds(lang, all[i], context) {}
    }
    if SomeGroupHolds(lang, all, context) {
      var j :| 0 <= j < |all| && (j == 0 || IsOr(all[j])) && Holds(lang, all[j], context)
        && forall i | j < i < |all| :: !IsOr(all[i]) ==> Holds(lang, all[i], context);
      if j < n {
        assert Holds(lang, conditions[j], context) && (j == 0 || IsOr(conditions[j]));
        forall i | j < i < n ensures !IsOr(conditions[i]) ==> Holds(lang, conditions[i], context) {
          assert all[i] == conditions[i];
        }
      }
    }
  }

  /** A list joined by AND only, whatever the logic of its first condition, is a conjunction. */
  lemma AllAndIsConjunction<V>(lang: Language<V>, conditions: seq<Condition<V>>, context: map<string, V>)
    requires conditions != [] && forall i | 0 < i < |conditions| :: !IsOr(conditions[i])
    ensures SomeGroupHolds(lang, conditions, context) <==>
              forall i | 0 <= i < |conditions| :: Holds(lang, conditions[i], context)
  {
    if forall i | 0 <= i < |conditions| :: Holds(lang, conditions[i], context) {
      assert Holds(lang, conditions[0], context);
    }
  }

  // ----- The fold against groups -----

  /** Which conditions hold, and which are joined by OR. The three readings of a list depend on
      nothing else. */
  ghost function Outcomes<V>(lang: Language<V>, conditions: seq<Condition<V>>, context: map<string, V>)
    : (held: seq<bool>)
    ensures |held| == |conditions|
    ensures forall i | 0 <= i < |held| :: held[i] <==> Holds(lang, conditions[i], context)
  {
    seq(|conditions|, i requires 0 <= i < |conditions| => Holds(lang, conditions[i], context))
  }

  function Joins<V>(conditions: seq<Condition<V>>): (ors: seq<bool>)
    ensures |ors| == |conditions|
    ensures forall i | 0 <= i < |ors| :: ors[i] <==> IsOr(conditions[i])
  {
    seq(|conditions|, i requires 0 <= i < |conditions| => IsOr(conditions[i]))
  }

  /** The fold, as `SomeGroupHolds` says it. */
  predicate Folded(held: seq<bool>, ors: seq<bool>)
    requires |held| == |ors|
  {
    exists j | 0 <= j < |held| :: (j == 0 || ors[j]) && held[j] && forall i | j < i < |held| :: !ors[i] ==> held[i]
  }

  /** Clauses of ORs separated by ANDs, as the comment in the code announces: from each condition
      that starts a clause, ORs lead to one that holds. */
  predicate ClausesHold(held: seq<bool>, ors: seq<bool>)
    requires |held| == |ors|
  {
    forall i | 0 <= i < |held| && (i == 0 || !ors[i]) :: SomeInClause(held, ors, i)
  }

  predicate SomeInClause(held: seq<bool>, ors: seq<bool>, i: nat)
    requires |held| == |ors|
  {
    exists j | i <= j < |held| :: held[j] && forall k | i < k <= j :: ors[k]
  }

  /** Groups of ANDs separated by ORs, as AND binding closer than OR would have it. */
  predicate GroupsHold(held: seq<bool>, ors: seq<bool>)
    requires |held| == |ors|
  {
    exists i | 0 <= i < |held| :: (i == 0 || ors[i]) && AllInGroup(held, ors, i)
  }

  predicate AllInGroup(held: seq<bool>, ors: seq<bool>, i: nat)
    requires |held| == |ors|
  {
    forall j | i <= j < |held| && (forall k | i < k <= j :: !ors[k]) :: held[j]
  }

  predicate OrAfterAnd(ors: seq<bool>) {
    exists i, j | 0 < i < j < |ors| :: !ors[i] && ors[j]
  }

  predicate AndAfterOr(ors: seq<bool>) {
    exists i, j | 0 < i < j < |ors| :: ors[i] && !ors[j]
  }

  lemma FoldOfOutcomes<V>(lang: Language<V>, conditions: seq<Condition<V>>, context: map<string, V>)
    ensures SomeGroupHolds(lang, conditions, context) <==>
              Folded(Outcomes(lang, conditions, context), Joins(conditions))
  {
    var held, ors := Outcomes(lang, conditions, context), Joins(conditions);
    if SomeGroupHolds(lang, conditions, context) {
      var j :| 0 <= j < |conditions| && (j == 0 || IsOr(conditions[j])) && Holds(lang, conditions[j], context)
        && forall i | j < i < |conditions| :: !IsOr(conditions[i]) ==> Holds(lang, conditions[i], context);
      assert (j == 0 || ors[j]) && held[j];
    }
    if Folded(held, ors) {
      var j :| 0 <= j < |held| && (j == 0 || ors[j]) && held[j] && forall i | j < i < |held| :: !ors[i] ==> held[i];
      assert (j == 0 || IsOr(conditions[j])) && Holds(lang, conditions[j], context);
      forall i | j < i < |conditions| ensures !IsOr(conditions[i]) ==> Holds(lang, conditions[i], context) {
        assert !ors[i] ==> held[i];
      }
    }
  }

  /** Exactly when the fold is what the comment announces: for all outcomes if no OR stands after an
      AND, and otherwise not. */
  lemma FoldIsClausesIff(ors: seq<bool>)
    requires ors != []
    ensures (forall held: seq<bool> | |held| == |ors| :: Folded(held, ors) <==> ClausesHold(held, ors)) <==>
              !OrAfterAnd(ors)
  {
    if OrAfterAnd(ors) {
      var i := AndThenOr(ors);
      var held := seq(|ors|, k => k > i);
      assert held[i + 1] && ors[i + 1];
      assert Folded(held, ors);
      assert !SomeInClause(held, ors, 0);
      assert !ClausesHold(held, ors);
    } else {
      forall held: seq<bool> | |held| == |ors| ensures Folded(held, ors) <==> ClausesHold(held, ors) {
        OrsFirst(held, ors);
      }
    }
  }

  /** Somewhere in such a list an OR follows an AND at once. */
  lemma AndThenOr(ors: seq<bool>) returns (i: nat)
    requires OrAfterAnd(ors)
    ensures 0 < i < |ors| - 1 && !ors[i] && ors[i + 1]
  {
    var a, b :| 0 < a < b < |ors| && !ors[a] && ors[b];
    i := a;
    while !ors[i + 1]
      invariant 0 < i < b && !ors[i]
      decreases b - i
    {
      i := i + 1;
    }
  }

  lemma OrsFirst(held: seq<bool>, ors: seq<bool>)
    requires |held| == |ors| > 0 && !OrAfterAnd(ors)
    ensures Folded(held, ors) <==> ClausesHold(held, ors)
  {
    if Folded(held, ors) {
      FoldedGivesClauses(held, ors);
    }
    if ClausesHold(held, ors) {
      ClausesGiveFolded(held, ors);
    }
  }

  /** Behind an AND there are only ANDs. */
  lemma OnlyAndsBehind(ors: seq<bool>, i: nat, j: nat)
    requires !OrAfterAnd(ors) && 0 < i < j < |ors| && ors[j]
    ensures ors[i]
  {
  }

  lemma InClause(held: seq<bool>, ors: seq<bool>, i: nat, j: nat)
    requires |held| == |ors| && i <= j < |held| && held[j]
    requires forall k | i < k <= j :: ors[k]
    ensures SomeInClause(held, ors, i)
  {
  }

  lemma FoldedGivesClauses(held: seq<bool>, ors: seq<bool>)
    requires |held| == |ors| > 0 && !OrAfterAnd(ors) && Folded(held, ors)
    ensures ClausesHold(held, ors)
  {
    var j :| 0 <= j < |held| && (j == 0 || ors[j]) && held[j] && forall i | j < i < |held| :: !ors[i] ==> held[i];
    forall k | 0 < k <= j ensures ors[k] {
      if k < j {
        OnlyAndsBehind(ors, k, j);
      }
    }
    forall i | 0 <= i < |held| && (i == 0 || !ors[i]) ensures SomeInClause(held, ors, i) {
      InClause(held, ors, i, if i == 0 then j else i);
    }
  }

  lemma ClausesGiveFolded(held: seq<bool>, ors: seq<bool>)
    requires |held| == |ors| > 0 && !OrAfterAnd(ors) && ClausesHold(held, ors)
    ensures Folded(held, ors)
  {
    assert SomeInClause(held, ors, 0);
    var j :| 0 <= j < |held| && held[j] && forall k | 0 < k <= j :: ors[k];
    forall i | j < i < |held| && !ors[i] ensures held[i] {
      assert SomeInClause(held, ors, i);
      var m :| i <= m < |held| && held[m] && forall k | i < k <= m :: ors[k];
      if m > i {
        OnlyAndsBehind(ors, i, i + 1);
      }
    }
  }

  /** The same for the other precedence: no AND may stand after an OR. */
  lemma FoldIsGroupsIff(ors: seq<bool>)
    requires ors != []
    ensures (forall held: seq<bool> | |held| == |ors| :: Folded(held, ors) <==> GroupsHold(held, ors)) <==>
              !AndAfterOr(ors)
  {
    if AndAfterOr(ors) {
      var i := OrThenAnd(ors);
      var held := seq(|ors|, k => k <= i);
      assert !held[i + 1] && !ors[i + 1];
      assert !Folded(held, ors);
      assert ors[i];
      assert AllInGroup(held, ors, 0);
      assert GroupsHold(held, ors);
    } else {
      forall held: seq<bool> | |held| == |ors| ensures Folded(held, ors) <==> GroupsHold(held, ors) {
        AndsFirst(held, ors);
      }
    }
  }

  lemma OrThenAnd(ors: seq<bool>) returns (i: nat)
    requires AndAfterOr(ors)
    ensures 0 < i < |ors| - 1 && ors[i] && !ors[i + 1]
  {
    var a, b :| 0 < a < b < |ors| && ors[a] && !ors[b];
    i := a;
    while ors[i + 1]
      invariant 0 < i < b && ors[i]
      decreases b - i
    {
      i := i + 1;
    }
  }

  lemma AndsFirst(held: seq<bool>, ors: seq<bool>)
    requires |held| == |ors| > 0 && !AndAfterOr(ors)
    ensures Folded(held, ors) <==> GroupsHold(held, ors)
  {
    if Folded(held, ors) {
      var j :| 0 <= j < |held| && (j == 0 || ors[j]) && held[j] && forall i | j < i < |held| :: !ors[i] ==> held[i];
      assert AllInGroup(held, ors, j) by {
        forall m | j <= m < |held| && (forall k | j < k <= m :: !ors[k]) ensures held[m] {
          assert m > j ==> !ors[m];
        }
      }
    }
    if GroupsHold(held, ors) {
      var i :| 0 <= i < |held| && (i == 0 || ors[i]) && AllInGroup(held, ors, i);
      assert held[i];
      forall m | i < m < |held| && !ors[m] ensures held[m] {
        assert forall k | i < k <= m :: !ors[k];
      }
    }
  }

  /** The shortest list on which the fold is not what the comment announces: `a AND b OR c` means
      (a and b) or c, and the clauses a, b or c. They differ exactly when c holds and a does not. */
  lemma AndThenOrDiffers<V>(lang: Language<V>, a: Condition<V>, b: Condition<V>, c: Condition<V>,
                            context: map<string, V>)
    requires !IsOr(b) && IsOr(c)
    ensures var conditions := [a, b, c];
            var held, ors := Outcomes(lang, conditions, context), Joins(conditions);
            && (SomeGroupHolds(lang, conditions, context) <==> (held[0] && held[1]) || held[2])
            && (ClausesHold(held, ors) <==> held[0] && (held[1] || held[2]))
            && ((SomeGroupHolds(lang, conditions, context) <==> ClausesHold(held, ors)) <==> !(held[2] && !held[0]))
  {
    var conditions := [a, b, c];
    var held, ors := Outcomes(lang, conditions, context), Joins(conditions);
    FoldOfOutcomes(lang, conditions, context);
    assert !ors[1] && ors[2];
    ThreeFolded(held, ors);
    ThreeClauses(held, ors);
  }

  lemma ThreeFolded(held: seq<bool>, ors: seq<bool>)
    requires |held| == |ors| == 3 && !ors[1] && ors[2]
    ensures Folded(held, ors) <==> (held[0] && held[1]) || held[2]
  {
  }

  lemma ThreeClauses(held: seq<bool>, ors: seq<bool>)
    requires |held| == |ors| == 3 && !ors[1] && ors[2]
    ensures ClausesHold(held, ors) <==> held[0] && (held[1] || held[2])
  {
    assert SomeInClause(held, ors, 0) <==> held[0];
    assert SomeInClause(held, ors, 1) <==> held[1] || held[2];
  }

  /** With the two swapped, `a OR b AND c`, the fold is what the comment announces, and not what AND
      binding closer than OR would give: a false c makes the whole list false even when a holds. */
  lemma NoPrecedence<V>(lang: Language<V>, a: Condition<V>, b: Condition<V>, c: Condition<V>, context: map<string, V>)
    requires IsOr(b) && !IsOr(c)
    ensures var conditions := [a, b, c];
            var held, ors := Outcomes(lang, conditions, context), Joins(conditions);
            && (SomeGroupHolds(lang, conditions, context) <==> (held[0] || held[1]) && held[2])
            && (SomeGroupHolds(lang, conditions, context) <==> ClausesHold(held, ors))
            && ((SomeGroupHolds(lang, conditions, context) <==> GroupsHold(held, ors)) <==> !(held[0] && !held[2]))
  {
    var conditions := [a, b, c];
    var held, ors := Outcomes(lang, conditions, context), Joins(conditions);
    FoldOfOutcomes(lang, conditions, context);
    assert ors[1] && !ors[2];
    OrsFirst(held, ors);
    OrAndFolded(held, ors);
    OrAndGroups(held, ors);
  }

  lemma OrAndFolded(held: seq<bool>, ors: seq<bool>)
    requires |held| == |ors| == 3 && ors[1] && !ors[2]
    ensures Folded(held, ors) <==> (held[0] || held[1]) && held[2]
  {
  }

  lemma OrAndGroups(held: seq<bool>, ors: seq<bool>)
    requires |held| == |ors| == 3 && ors[1] && !ors[2]
    ensures GroupsHold(held, ors) <==> held[0] || (held[1] && held[2])
  {
    assert AllInGroup(held, ors, 0) <==> held[0];
    assert AllInGroup(held, ors, 1) <==> held[1] && held[2];
  }
}
