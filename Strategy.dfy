/** A trading strategy: a pair of complementary rules, one recommending to
    enter a position and one recommending to exit it, with a leading warm-up
    window (the unstable period) during which no recommendation is made. */
module Strategies {
  import opened Types
  import opened Rules

  class Strategy {
    const name: string
    const entryRule: Rule
    const exitRule: Rule
    /** The description of the strategy; the one field besides the unstable
        period that a strategy lets its callers change. */
    var hint: string
    /** Number of leading ticks stripped off: no recommendation before it. */
    var unstablePeriod: int32

    constructor (name: string, entryRule: Rule, exitRule: Rule, unstablePeriod: int32)
      ensures this.name == name && this.entryRule == entryRule && this.exitRule == exitRule
      ensures this.unstablePeriod == unstablePeriod && hint == ""
    {
      this.name := name;
      this.entryRule := entryRule;
      this.exitRule := exitRule;
      this.unstablePeriod := unstablePeriod;
      hint := "";
    }

    /** `isUnstableAt(index)`, abstract in the interface: the unstable
        period counts the ticks stripped off, so exactly the ticks before it
        are unstable. */
    function IsUnstableAt(index: int32): (b: bool)
      reads this
      ensures b <==> index < unstablePeriod
    {
      index < unstablePeriod
    }

    /** Recommends to enter: never while unstable, otherwise what the entry
        rule says. The exit rule is not consulted. */
    function ShouldEnter(index: int32, record: Option<TradingRecord>): (b: bool)
      reads this
      ensures IsUnstableAt(index) ==> !b
      ensures !IsUnstableAt(index) ==> (b <==> entryRule.IsSatisfied(index, record))
    {
      if IsUnstableAt(index) then false else entryRule.IsSatisfied(index, record)
    }

    /** Recommends to exit: never while unstable, otherwise what the exit rule
        says. The entry rule is not consulted. */
    function ShouldExit(index: int32, record: Option<TradingRecord>): (b: bool)
      reads this
      ensures IsUnstableAt(index) ==> !b
      ensures !IsUnstableAt(index) ==> (b <==> exitRule.IsSatisfied(index, record))
    {
      if IsUnstableAt(index) then false else exitRule.IsSatisfied(index, record)
    }

    /** `shouldEnter(index)`: the entry recommendation without a trading record. */
    function ShouldEnterAt(index: int32): (b: bool)
      reads this
      ensures b == ShouldEnter(index, None)
      ensures b <==> unstablePeriod <= index && entryRule.IsSatisfied(index, None)
    {
      ShouldEnter(index, None)
    }

    /** `shouldExit(index)`: the exit recommendation without a trading record. */
    function ShouldExitAt(index: int32): (b: bool)
      reads this
      ensures b == ShouldExit(index, None)
      ensures b <==> unstablePeriod <= index && exitRule.IsSatisfied(index, None)
    {
      ShouldExit(index, None)
    }

    /** Recommends an order: entering when the current trade is new, exiting
        when it is opened, nothing otherwise. The record is a Java reference
        that is dereferenced, so here it is present by its type. */
    function ShouldOperate(index: int32, record: TradingRecord): (b: bool)
      reads this
      ensures record.currentTrade.IsNew() ==> b == ShouldEnter(index, Some(record))
      ensures record.currentTrade.IsOpened() ==> b == ShouldExit(index, Some(record))
      ensures record.currentTrade.IsClosed() ==> !b
      ensures IsUnstableAt(index) ==> !b
      ensures b <==> unstablePeriod <= index &&
                     (   (record.currentTrade.IsNew() && entryRule.IsSatisfied(index, Some(record)))
                      || (record.currentTrade.IsOpened() && exitRule.IsSatisfied(index, Some(record))))
    {
      var trade := record.currentTrade;
      if trade.IsNew() then ShouldEnter(index, Some(record))
      else if trade.IsOpened() then ShouldExit(index, Some(record))
      else false
    }

    method GetHint() returns (h: string)
      ensures h == hint
    {
      h := hint;
    }

    /** Changes the description only: every recommendation stays the same. */
    method SetHint(h: string)
      modifies this`hint
      ensures hint == h && unstablePeriod == old(unstablePeriod)
      // each right-hand side is the decision before the call, in closed form
      ensures forall i, r :: ShouldEnter(i, r) == (old(unstablePeriod) <= i && entryRule.IsSatisfied(i, r))
      ensures forall i, r :: ShouldExit(i, r) == (old(unstablePeriod) <= i && exitRule.IsSatisfied(i, r))
      ensures forall i, rec :: (ShouldOperate(i, rec) ==
                                 (old(unstablePeriod) <= i &&
                                  (   (rec.currentTrade.IsNew() && entryRule.IsSatisfied(i, Some(rec)))
                                   || (rec.currentTrade.IsOpened() && exitRule.IsSatisfied(i, Some(rec))))))
    {
      hint := h;
    }

    method GetUnstablePeriod() returns (p: int32)
      ensures p == unstablePeriod
    {
      p := unstablePeriod;
    }

    /** Moves the end of the warm-up window to `p`; the rules are unchanged. */
    method SetUnstablePeriod(p: int32)
      modifies this`unstablePeriod
      ensures unstablePeriod == p && hint == old(hint)
      ensures forall i :: IsUnstableAt(i) <==> i < p
      ensures forall i, r :: ShouldEnter(i, r) <==> p <= i && entryRule.IsSatisfied(i, r)
      ensures forall i, r :: ShouldExit(i, r) <==> p <= i && exitRule.IsSatisfied(i, r)
    {
      unstablePeriod := p;
    }

    /** `and(name, strategy, unstablePeriod)`: a new strategy whose entry rule
        is the conjunction of both entry rules and whose exit rule is the
        conjunction of both exit rules. Neither operand changes. */
    method And(name: string, strategy: Strategy, unstablePeriod: int32) returns (s: Strategy)
      ensures fresh(s)
      ensures s.entryRule == AndRule(entryRule, strategy.entryRule)
      ensures s.exitRule == AndRule(exitRule, strategy.exitRule)
      ensures s.name == name && s.unstablePeriod == unstablePeriod
    {
      s := new Strategy(name, AndRule(entryRule, strategy.entryRule),
                        AndRule(exitRule, strategy.exitRule), unstablePeriod);
    }

    /** `or(name, strategy, unstablePeriod)`: as `And`, with disjunctions. */
    method Or(name: string, strategy: Strategy, unstablePeriod: int32) returns (s: Strategy)
      ensures fresh(s)
      ensures s.entryRule == OrRule(entryRule, strategy.entryRule)
      ensures s.exitRule == OrRule(exitRule, strategy.exitRule)
      ensures s.name == name && s.unstablePeriod == unstablePeriod
    {
      s := new Strategy(name, OrRule(entryRule, strategy.entryRule),
                        OrRule(exitRule, strategy.exitRule), unstablePeriod);
    }
  }

  /** The warm-up window is a prefix of the ticks: once stable, stable for good. */
  lemma UnstableIsLeading(s: Strategy, i: int32, j: int32)
    requires i <= j && s.IsUnstableAt(j)
    ensures s.IsUnstableAt(i)
  {
  }

  /** While unstable, no rule can make the strategy recommend anything,
      whatever the record and whatever the trade's state. */
  lemma MaskedWhileUnstable(s: Strategy, index: int32, record: TradingRecord)
    requires s.IsUnstableAt(index)
    ensures !s.ShouldEnter(index, Some(record)) && !s.ShouldEnter(index, None)
    ensures !s.ShouldExit(index, Some(record)) && !s.ShouldExit(index, None)
    ensures !s.ShouldOperate(index, record)
  {
  }

  /** Two strategies that share an exit rule and an unstable period give the
      same exit recommendations, whatever their entry rules; and dually. */
  lemma RulesAreIndependent(s: Strategy, t: Strategy, index: int32, record: Option<TradingRecord>)
    requires s.unstablePeriod == t.unstablePeriod
    ensures s.exitRule == t.exitRule ==> s.ShouldExit(index, record) == t.ShouldExit(index, record)
    ensures s.entryRule == t.entryRule ==> s.ShouldEnter(index, record) == t.ShouldEnter(index, record)
  {
  }

  /** A strategy built by `and` enters (exits) exactly when it is stable and
      both operands' entry (exit) rules hold, whatever unstable period it was
      given. When that period is the larger of the operands' periods, it
      recommends exactly when both operands recommend. */
  lemma AndCombination(a: Strategy, b: Strategy, s: Strategy, index: int32, record: Option<TradingRecord>)
    requires s.entryRule == AndRule(a.entryRule, b.entryRule)
    requires s.exitRule == AndRule(a.exitRule, b.exitRule)
    ensures s.ShouldEnter(index, record) <==>
      !s.IsUnstableAt(index) && a.entryRule.IsSatisfied(index, record) && b.entryRule.IsSatisfied(index, record)
    ensures s.ShouldExit(index, record) <==>
      !s.IsUnstableAt(index) && a.exitRule.IsSatisfied(index, record) && b.exitRule.IsSatisfied(index, record)
    ensures s.unstablePeriod == Max(a.unstablePeriod, b.unstablePeriod) ==>
      (s.ShouldEnter(index, record) <==> a.ShouldEnter(index, record) && b.ShouldEnter(index, record)) &&
      (s.ShouldExit(index, record) <==> a.ShouldExit(index, record) && b.ShouldExit(index, record))
  {
  }

  /** A strategy built by `or` enters (exits) exactly when it is stable and
      either operand's entry (exit) rule holds. With a period at least each
      operand's, it recommends only when some operand recommends, and once
      stable exactly when some operand does; the converse fails while the
      combination is still unstable. */
  lemma OrCombination(a: Strategy, b: Strategy, s: Strategy, index: int32, record: Option<TradingRecord>)
    requires s.entryRule == OrRule(a.entryRule, b.entryRule)
    requires s.exitRule == OrRule(a.exitRule, b.exitRule)
    ensures s.ShouldEnter(index, record) <==>
      !s.IsUnstableAt(index) && (a.entryRule.IsSatisfied(index, record) || b.entryRule.IsSatisfied(index, record))
    ensures s.ShouldExit(index, record) <==>
      !s.IsUnstableAt(index) && (a.exitRule.IsSatisfied(index, record) || b.exitRule.IsSatisfied(index, record))
    ensures a.unstablePeriod <= s.unstablePeriod && b.unstablePeriod <= s.unstablePeriod ==>
      (s.ShouldEnter(index, record) ==> a.ShouldEnter(index, record) || b.ShouldEnter(index, record)) &&
      (s.ShouldExit(index, record) ==> a.ShouldExit(index, record) || b.ShouldExit(index, record)) &&
      (!s.IsUnstableAt(index) ==>
        (s.ShouldEnter(index, record) <==> a.ShouldEnter(index, record) || b.ShouldEnter(index, record)) &&
        (s.ShouldExit(index, record) <==> a.ShouldExit(index, record) || b.ShouldExit(index, record)))
  {
  }

  function Max(x: int32, y: int32): int32 { if x < y then y else x }

  /** The entry rules of a list of strategies, in order. */
  function EntryRules(parts: seq<Strategy>): (rules: seq<Rule>)
    ensures |rules| == |parts|
    ensures forall k :: 0 <= k < |parts| ==> rules[k] == parts[k].entryRule
  {
    seq(|parts|, k requires 0 <= k < |parts| => parts[k].entryRule)
  }

  /** The exit rules of a list of strategies, in order. */
  function ExitRules(parts: seq<Strategy>): (rules: seq<Rule>)
    ensures |rules| == |parts|
    ensures forall k :: 0 <= k < |parts| ==> rules[k] == parts[k].exitRule
  {
    seq(|parts|, k requires 0 <= k < |parts| => parts[k].exitRule)
  }

  /** `parts[0].and(name, parts[1], p).and(name, parts[2], p)...`: applies
      the `and` combinator along the list, left to right. The result's rules
      are the left-nested conjunction chains of the operands' rules. */
  method ChainAnd(name: string, parts: seq<Strategy>, unstablePeriod: int32) returns (s: Strategy)
    requires |parts| >= 2
    ensures fresh(s)
    ensures s.entryRule == AllOf(EntryRules(parts)) && s.exitRule == AllOf(ExitRules(parts))
    ensures s.name == name && s.unstablePeriod == unstablePeriod
  {
    s := parts[0].And(name, parts[1], unstablePeriod);
    assert EntryRules(parts[..2])[..1] == EntryRules(parts[..1]);
    assert ExitRules(parts[..2])[..1] == ExitRules(parts[..1]);
    var i := 2;
    while i < |parts|
      invariant 2 <= i <= |parts|
      invariant fresh(s) && s.name == name && s.unstablePeriod == unstablePeriod
      invariant s.entryRule == AllOf(EntryRules(parts[..i])) && s.exitRule == AllOf(ExitRules(parts[..i]))
    {
      s := s.And(name, parts[i], unstablePeriod);
      assert EntryRules(parts[..i + 1])[..i] == EntryRules(parts[..i]);
      assert ExitRules(parts[..i + 1])[..i] == ExitRules(parts[..i]);
      i := i + 1;
    }
    assert parts[..i] == parts;
  }

  /** `parts[0].or(name, parts[1], p).or(name, parts[2], p)...`: as
      `ChainAnd`, with disjunction chains. */
  method ChainOr(name: string, parts: seq<Strategy>, unstablePeriod: int32) returns (s: Strategy)
    requires |parts| >= 2
    ensures fresh(s)
    ensures s.entryRule == AnyOf(EntryRules(parts)) && s.exitRule == AnyOf(ExitRules(parts))
    ensures s.name == name && s.unstablePeriod == unstablePeriod
  {
    s := parts[0].Or(name, parts[1], unstablePeriod);
    assert EntryRules(parts[..2])[..1] == EntryRules(parts[..1]);
    assert ExitRules(parts[..2])[..1] == ExitRules(parts[..1]);
    var i := 2;
    while i < |parts|
      invariant 2 <= i <= |parts|
      invariant fresh(s) && s.name == name && s.unstablePeriod == unstablePeriod
      invariant s.entryRule == AnyOf(EntryRules(parts[..i])) && s.exitRule == AnyOf(ExitRules(parts[..i]))
    {
      s := s.Or(name, parts[i], unstablePeriod);
      assert EntryRules(parts[..i + 1])[..i] == EntryRules(parts[..i]);
      assert ExitRules(parts[..i + 1])[..i] == ExitRules(parts[..i]);
      i := i + 1;
    }
    assert parts[..i] == parts;
  }

  /** Combinators are closed under composition: a strategy built by applying
      `and` along a whole list of strategies (`p0.and(p1).and(p2)...`, as
      `ChainAnd` does) enters and exits exactly when it is stable and every operand's rule
      holds. Its period being the largest operand period, it recommends
      exactly when every operand recommends. */
  lemma {:induction false} ChainedAnd(parts: seq<Strategy>, s: Strategy, index: int32, record: Option<TradingRecord>)
    requires |parts| > 0
    requires s.entryRule == AllOf(EntryRules(parts)) && s.exitRule == AllOf(ExitRules(parts))
    ensures s.ShouldEnter(index, record) <==>
      !s.IsUnstableAt(index) && forall k :: 0 <= k < |parts| ==> parts[k].entryRule.IsSatisfied(index, record)
    ensures s.ShouldExit(index, record) <==>
      !s.IsUnstableAt(index) && forall k :: 0 <= k < |parts| ==> parts[k].exitRule.IsSatisfied(index, record)
    ensures (forall k :: 0 <= k < |parts| ==> parts[k].unstablePeriod <= s.unstablePeriod) &&
            (exists k :: 0 <= k < |parts| && parts[k].unstablePeriod == s.unstablePeriod) ==>
      (s.ShouldEnter(index, record) <==> forall k :: 0 <= k < |parts| ==> parts[k].ShouldEnter(index, record)) &&
      (s.ShouldExit(index, record) <==> forall k :: 0 <= k < |parts| ==> parts[k].ShouldExit(index, record))
  {
    AllOfSatisfied(EntryRules(parts), index, record);
    AllOfSatisfied(ExitRules(parts), index, record);
  }

  /** The `or` counterpart of `ChainedAnd`: stable and some operand's rule
      holds. With a period at least every operand's, it recommends only when
      some operand recommends, and once stable exactly when some operand does. */
  lemma {:induction false} ChainedOr(parts: seq<Strategy>, s: Strategy, index: int32, record: Option<TradingRecord>)
    requires |parts| > 0
    requires s.entryRule == AnyOf(EntryRules(parts)) && s.exitRule == AnyOf(ExitRules(parts))
    ensures s.ShouldEnter(index, record) <==>
      !s.IsUnstableAt(index) && exists k :: 0 <= k < |parts| && parts[k].entryRule.IsSatisfied(index, record)
    ensures s.ShouldExit(index, record) <==>
      !s.IsUnstableAt(index) && exists k :: 0 <= k < |parts| && parts[k].exitRule.IsSatisfied(index, record)
    ensures (forall k :: 0 <= k < |parts| ==> parts[k].unstablePeriod <= s.unstablePeriod) ==>
      (s.ShouldEnter(index, record) ==> exists k :: 0 <= k < |parts| && parts[k].ShouldEnter(index, record)) &&
      (s.ShouldExit(index, record) ==> exists k :: 0 <= k < |parts| && parts[k].ShouldExit(index, record)) &&
      (!s.IsUnstableAt(index) ==>
        (s.ShouldEnter(index, record) <==> exists k :: 0 <= k < |parts| && parts[k].ShouldEnter(index, record)) &&
        (s.ShouldExit(index, record) <==> exists k :: 0 <= k < |parts| && parts[k].ShouldExit(index, record)))
  {
    AnyOfSatisfied(EntryRules(parts), index, record);
    AnyOfSatisfied(ExitRules(parts), index, record);
  }
}
