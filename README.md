# ta4j trading strategy: decision logic

A model of the `Strategy` interface of ta4j. A strategy pairs an entry
rule with an exit rule. It recommends entering or exiting a position at a
tick index, given an optional trading record. The model covers:

- **Warm-up masking.** A strategy makes no recommendation during its
  unstable period, the leading ticks it strips off. After that it answers
  exactly what the corresponding rule answers.
- **Dispatch on the current trade.** `shouldOperate` asks the entry side
  when the current trade is new and the exit side when it is opened. In any
  other state it says no.
- **The mutable state.** The hint and the unstable period are fields that
  setters change in place.
- **Combination.** `and` and `or` build a new strategy whose rules are the
  conjunctions or the disjunctions of the operands' rules. Chains of
  combinations are covered too.

Modules:

- `Types` (Types.dfy): Java's 32-bit `int` as `int32`, and an `Option` in
  which `None` is a Java `null`. It also holds the trade lifecycle
  `{New, Opened, Closed}` and a trading record seen only through its
  current trade.
- `Rules` (Rules.dfy): a rule is an uninterpreted predicate over
  `(index, record)` (`Primitive`), or the conjunction (`AndRule`) or
  disjunction (`OrRule`) of two rules. `AllOf`/`AnyOf` give the rule of a
  left-nested chain `s0.and(s1).and(s2)…`.
- `Strategies` (Strategy.dfy): the class `Strategy` and the lemmas about
  it. `name`, `entryRule` and `exitRule` are constant fields, which stand
  for `getName`, `getEntryRule` and `getExitRule`. `hint` and
  `unstablePeriod` are mutable fields. Java's overloads `shouldEnter(index)`
  and `shouldExit(index)` are `ShouldEnterAt` and `ShouldExitAt`.

`isUnstableAt` is abstract in the interface. The model defines it as
`index < unstablePeriod`, following the documentation of the unstable
period as the number of ticks stripped off. The interface does not
validate the unstable period, so the setter stores any `int32`, negative
values included. A negative period makes every non-negative tick stable.

## Model

| member | source | states |
|---|---|---|
| `Strategies.Strategy.IsUnstableAt` | ta4j-core/src/main/java/org/ta4j/core/Strategy.java:101-105 | modelling choice for the abstract method: an index is unstable iff it is below the unstable period, the number of ticks stripped off; with a negative period every non-negative tick is stable |
| `Strategies.Strategy.ShouldEnter` | ta4j-core/src/main/java/org/ta4j/core/Strategy.java:130-140 | false at an unstable index whatever the entry rule says; otherwise exactly the entry rule's verdict at that index and record |
| `Strategies.Strategy.ShouldExit` | ta4j-core/src/main/java/org/ta4j/core/Strategy.java:150-160 | false at an unstable index; otherwise exactly the exit rule's verdict |
| `Strategies.Strategy.ShouldEnterAt` | ta4j-core/src/main/java/org/ta4j/core/Strategy.java:122-128 | equals the two-argument entry decision with an absent (null) record: stable and the entry rule holds without a record |
| `Strategies.Strategy.ShouldExitAt` | ta4j-core/src/main/java/org/ta4j/core/Strategy.java:142-148 | equals the two-argument exit decision with an absent (null) record |
| `Strategies.Strategy.ShouldOperate` | ta4j-core/src/main/java/org/ta4j/core/Strategy.java:107-120 | a new trade gives the entry decision, an opened trade the exit decision, a closed trade false; false at every unstable index; as a whole, true iff stable and the rule matching the trade's state holds |
| `Strategies.Strategy.GetHint` | ta4j-core/src/main/java/org/ta4j/core/Strategy.java:38-41 | returns the stored hint |
| `Strategies.Strategy.SetHint` | ta4j-core/src/main/java/org/ta4j/core/Strategy.java:86-89 | stores the hint; the unstable period and every entry, exit and operate recommendation are unchanged |
| `Strategies.Strategy.GetUnstablePeriod` | ta4j-core/src/main/java/org/ta4j/core/Strategy.java:96-99 | returns the stored unstable period, so a get after `SetUnstablePeriod(p)` returns `p` |
| `Strategies.Strategy.SetUnstablePeriod` | ta4j-core/src/main/java/org/ta4j/core/Strategy.java:91-94 | stores `p`; the hint is unchanged; afterwards exactly the indices below `p` are unstable and both decisions are "index at least `p` and the rule holds" |
| `Strategies.Strategy.And` | ta4j-core/src/main/java/org/ta4j/core/Strategy.java:65-71 | a fresh strategy with the given name and period whose entry and exit rules are the conjunctions of the operands' rules |
| `Strategies.Strategy.Or` | ta4j-core/src/main/java/org/ta4j/core/Strategy.java:73-79 | a fresh strategy with the given name and period whose entry and exit rules are the disjunctions of the operands' rules |
| `Strategies.UnstableIsLeading` | ta4j-core/src/main/java/org/ta4j/core/Strategy.java:91-105 | the unstable ticks form a leading range: unstable at `j` implies unstable at every `i <= j` |
| `Strategies.MaskedWhileUnstable` | ta4j-core/src/main/java/org/ta4j/core/Strategy.java:112-160 | at an unstable index no entry, exit or operate recommendation is made, with or without a record and in every trade state |
| `Strategies.RulesAreIndependent` | ta4j-core/src/main/java/org/ta4j/core/Strategy.java:135-160 | the exit decision depends only on the exit rule and the period, never on the entry rule, and dually |
| `Strategies.AndCombination` | ta4j-core/src/main/java/org/ta4j/core/Strategy.java:53-57 | an AND-combined strategy enters (exits) iff it is stable and both operands' entry (exit) rules hold, for any period; with the larger operand period, iff both operands recommend |
| `Strategies.OrCombination` | ta4j-core/src/main/java/org/ta4j/core/Strategy.java:59-63 | an OR-combined strategy enters (exits) iff it is stable and either operand's rule holds; with a period at least each operand's it recommends (enters or exits) only if some operand does, and once stable exactly when some operand does |
| `Rules.AllOfSatisfied` | ta4j-core/src/main/java/org/ta4j/core/Strategy.java:53-57 | a chain of conjunctions holds iff every rule in it holds |
| `Rules.AnyOfSatisfied` | ta4j-core/src/main/java/org/ta4j/core/Strategy.java:59-63 | a chain of disjunctions holds iff some rule in it holds |
| `Strategies.ChainAnd` | ta4j-core/src/main/java/org/ta4j/core/Strategy.java:65-71 | applying `and` along a list of at least two strategies, left to right, gives a fresh strategy with the given name and period whose rules are the conjunction chains `AllOf` of the operands' entry and exit rules |
| `Strategies.ChainOr` | ta4j-core/src/main/java/org/ta4j/core/Strategy.java:73-79 | applying `or` along a list of at least two strategies gives a fresh strategy whose rules are the disjunction chains `AnyOf` of the operands' rules |
| `Strategies.ChainedAnd` | ta4j-core/src/main/java/org/ta4j/core/Strategy.java:53-57 | a strategy built by `and` along a list enters (exits) iff stable and every operand's rule holds; with the largest operand period, iff every operand recommends |
| `Strategies.ChainedOr` | ta4j-core/src/main/java/org/ta4j/core/Strategy.java:59-63 | a strategy built by `or` along a list enters (exits) iff stable and some operand's rule holds; with a period at least every operand's it recommends only if some operand does, and once stable exactly when some operand does |

## Left out

- Concrete rules, indicators and time-series data. A rule is an uninterpreted predicate that the model never inspects.
- Trading-record bookkeeping (recording orders, producing trades). Only the current trade and its state are modelled.
- `shouldOperate` with a null record: Java throws a null-pointer exception there. The model's record is non-null by its type.
- `and(strategy)` and `or(strategy)`, the one-argument overloads: the name and unstable period they give the result are chosen by an implementing class. That class is not part of this model. Their rule-level meaning is that of `And`/`Or`. The lemmas `AndCombination`, `OrCombination`, `ChainedAnd` and `ChainedOr` hold for any period, so they cover these overloads too.
- `opposite()`: the interface does not state what it does to the rules, so it is not modelled.
- Strategies.Strategy.And: promises nothing about the combined strategy's hint. The interface does not state it, and the model's body gives it the empty hint.
- Strategies.Strategy.Or: promises nothing about the combined strategy's hint, for the same reason.
- The constructor belongs to the implementing class. The model's constructor takes a name, the two rules and a period, and starts with an empty hint.
- Rejecting negative unstable periods: the interface shows no such check, so none is modelled.
- Thread safety of evaluation against concurrent setters. The model is sequential.
