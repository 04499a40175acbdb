/** Trading rules as the strategy sees them: a boolean condition on a tick
    index and an optional trading record. A concrete rule (indicator
    crossings, thresholds, ...) is an uninterpreted predicate; the strategy
    combinators only ever build conjunctions and disjunctions of rules. */
module Rules {
  import opened Types

  datatype Rule =
    | Primitive(condition: (int32, Option<TradingRecord>) -> bool)
    | AndRule(left: Rule, right: Rule)
    | OrRule(left: Rule, right: Rule)
  {
    /** `Rule.isSatisfied(index, tradingRecord)`; `record` may be absent. */
    predicate IsSatisfied(index: int32, record: Option<TradingRecord>)
    {
      match this
      case Primitive(condition) => condition(index, record)
      case AndRule(l, r) => l.IsSatisfied(index, record) && r.IsSatisfied(index, record)
      case OrRule(l, r) => l.IsSatisfied(index, record) || r.IsSatisfied(index, record)
    }
  }

  /** The rule of `s[0].and(s[1]).and(s[2])...`: a left-nested chain of
      conjunctions, built in the order the combinator is applied. */
  function AllOf(rules: seq<Rule>): Rule
    requires |rules| > 0
  {
    if |rules| == 1 then rules[0]
    else AndRule(AllOf(rules[..|rules| - 1]), rules[|rules| - 1])
  }

  /** The rule of `s[0].or(s[1]).or(s[2])...`. */
  function AnyOf(rules: seq<Rule>): Rule
    requires |rules| > 0
  {
    if |rules| == 1 then rules[0]
    else OrRule(AnyOf(rules[..|rules| - 1]), rules[|rules| - 1])
  }

  /** However deep the chain, its conjunction holds exactly when every
      operand holds at the same index and record. */
  lemma {:induction false} AllOfSatisfied(rules: seq<Rule>, index: int32, record: Option<TradingRecord>)
    requires |rules| > 0
    ensures AllOf(rules).IsSatisfied(index, record)
        <==> forall k :: 0 <= k < |rules| ==> rules[k].IsSatisfied(index, record)
  {
    if |rules| > 1 {
      var init := rules[..|rules| - 1];
      AllOfSatisfied(init, index, record);
      assert forall k :: 0 <= k < |init| ==> init[k] == rules[k];
    }
  }

  /** However deep the chain, its disjunction holds exactly when some
      operand holds at the same index and record. */
  lemma {:induction false} AnyOfSatisfied(rules: seq<Rule>, index: int32, record: Option<TradingRecord>)
    requires |rules| > 0
    ensures AnyOf(rules).IsSatisfied(index, record)
        <==> exists k :: 0 <= k < |rules| && rules[k].IsSatisfied(index, record)
  {
    if |rules| > 1 {
      var init := rules[..|rules| - 1];
      AnyOfSatisfied(init, index, record);
      assert forall k :: 0 <= k < |init| ==> init[k] == rules[k];
    }
  }
}
