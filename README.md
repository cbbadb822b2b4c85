# Gertie's C inside/prefix parser, in Dafny

This project models the incremental chart parser of `lib/Gertie/Inside/CParser/parser.c`
and proves what it computes. The parser works over a stochastic context-free grammar in binary normal form:

- productions `lhs -> rhs1 rhs2`, each with a probability;
- for each symbol, the probability `p_empty[sym]` that it derives the empty string.

The parser reads tokens one at a time. After each token it adds one chart cell for the new end position `j`. That cell holds two flattened tables:

- `p(i, j, sym)`: the inside probability that `sym` derives exactly tokens `i .. j-1`;
- `q(i, sym)`: the prefix probability that `sym` derives the tokens from `i` on, followed by something not yet read.

The entry for `(i, sym)` sits at offset `sym * (j + 1) + i`. A pop undoes the last push.

The modules follow the structure of the C file.

- `Index` (`index.dfy`): the `cell_get_p`/`cell_get_q` offset. It proves the offset is a bijection between the admissible `(i, sym)` pairs and the positions of a table of `symbols * (j + 1)` entries. So every access is in bounds and no two entries alias.
- `Capacity` (`capacity.dfy`): the doubling policy of the backing `cell`/`tokseq` arrays.
- `Recurrence` (`recurrence.dfy`): what the code computes, as functions on sequences.
  - `BaseP`/`BaseQ` are the tables that `cellNew` builds; `TokenCell` is what `cellNewTok` builds.
  - `PushCell` is the new rightmost cell after the triple loop of `parserPushTok`.
  - `Index.Offset` is the `cell_get_*` offset `sym * (j + 1) + i`.
  - `ReadP(hist, symbols, t, i, k, sym)` is `parser_get_p` during a push: for `k < j` it reads the frozen p table `hist[k]` of an earlier cell; for `k == j` it reads the cell `t` being filled.
  - `ReadQ` is `parser_get_q`. It always reads the cell being filled, because `parserPushTok` sets `len` to `j` at `parser.c:157`, before the loop.
  - The loop is written as a left fold in the source's exact order: start `i` from the old length down to 0, then the rules in array order, then split `k` from `i` up to `j`.
  - Every step reads the current half-filled cell, including entries written earlier in the same pass.
- `RecurrenceFacts` (`recurrence_facts.dfy`): properties of that fold for every history and every grammar, and a two-token conservation instance for one production of probability 1.
  - Monotonicity and nonnegativity.
  - The frame of the loop: which entries it can write.
- `CParser` (`parser.dfy`): the imperative model.
  - A `Cell` class with its two `array<real>` tables.
  - A `Parser` class with the source's fields: `symbols`, `rules`, `len`, `alloc`, and the arrays `rule`, `pEmpty`, `cell` and `tokseq`.
  - Ghost state: `Toks`, `PTab`, `QTab` and the footprint `Repr`, tied to the arrays by `Valid()`.
  - Every C function of the core is a method or function here. The push runs the same nested loops, adding in place into the new cell's arrays. It is proved equal to `PushCell` of the tables before the push.
- `SimpleTest` (`simple_test.dfy`): the scenario of the repository's test program `t/simple.t.c`.
  - It is evaluated step by step at the level of `Recurrence`.
  - `Simple` makes the same calls on a `Parser`; its postcondition proves `pf == 1` and `qf == 0`.

Probabilities are modelled as `real`, so arithmetic is exact. I/O and allocation failure are not modelled (see "Left out").

### Behaviour of the code worth knowing

- **Rule order matters.** Within one pass the push loop reads entries it has already written for the same cell. So the order of the rule array changes the result.
  - `SimpleTest.ScenarioPush` shows the test's rule order giving `p(0, 1, 4) == 1`.
  - `SimpleTest.ScenarioReordered` shows the same three rules in the opposite order giving 0.
- **No index is checked.** The C functions check no index; a bad one is undefined behaviour. The model therefore turns each such condition into a precondition:
  - a push before `parserFinalizeRules`;
  - a pop on an empty sequence;
  - an out-of-range rule index, symbol or query position.
- **Repeated calls.** A second call of `parserFinalizeRules` rebuilds cell 0 from the current empty probabilities. `parserSetRule` and `parserSetEmptyProb` overwrite their slot whenever they are called. The model does the same.

## Model

| member | source | states |
|---|---|---|
| Index.OffsetBounds | lib/Gertie/Inside/CParser/parser.c:36-37 | for `0 <= i <= j` and `0 <= sym < symbols` the offset `sym * (j + 1) + i` lies in `[0, symbols * (j + 1))` |
| Index.Slot | lib/Gertie/Inside/CParser/parser.c:36-43 | the index every `cell_get_*`/`parser_get_*` access uses is that offset, and it is in bounds |
| Index.OffsetDecode | lib/Gertie/Inside/CParser/parser.c:36-37 | division and remainder by `j + 1` recover `sym` and `i` from the offset |
| Index.OffsetOnto | lib/Gertie/Inside/CParser/parser.c:36-37 | every position of a table of `symbols * (j + 1)` reals is the offset of an admissible `(i, sym)` |
| Index.OffsetInjective | lib/Gertie/Inside/CParser/parser.c:36-37 | two admissible entries with the same offset are the same entry |
| Index.OffsetUnique | lib/Gertie/Inside/CParser/parser.c:36-37 | the quantified form: only `(i, sym)` itself sits at its offset |
| Capacity.Grow | lib/Gertie/Inside/CParser/parser.c:139-142 | the new `alloc` is doubled exactly when `old_len + 1 >= alloc`, otherwise unchanged; it stays a power of two above the new length |
| Capacity.CapacityAfter | lib/Gertie/Inside/CParser/parser.c:139-142 | from `alloc == 1`, after any number `n` of pushes the capacity is a power of two greater than `n`, and for `n >= 1` at most `2n` |
| Recurrence.BaseCellEntries | lib/Gertie/Inside/CParser/parser.c:45-56 | a fresh cell holds `p_empty[sym]` in p and `1 - p_empty[sym]` in q on the diagonal `i == j`, and 0 everywhere else |
| Recurrence.BaseP | lib/Gertie/Inside/CParser/parser.c:49-54 | the base p table has `symbols * (j + 1)` entries |
| Recurrence.BaseQ | lib/Gertie/Inside/CParser/parser.c:50-54 | the base q table has `symbols * (j + 1)` entries |
| Recurrence.TokenCell | lib/Gertie/Inside/CParser/parser.c:58-63 | the token cell has two tables of the size for end position `j` |
| Recurrence.TokenCellEntries | lib/Gertie/Inside/CParser/parser.c:58-63 | the token cell is the base cell with `p(j-1, j, tok)` set (not added) to 1; q is the base q |
| Recurrence.Add | lib/Gertie/Inside/CParser/parser.c:39-40 | `cell_inc_*` adds `x` to one entry and leaves every other entry and the length alone |
| Recurrence.SplitStep | lib/Gertie/Inside/CParser/parser.c:163-173 | one innermost step keeps the cell's shape |
| Recurrence.SplitLoop | lib/Gertie/Inside/CParser/parser.c:162-178 | the split loop keeps the cell's shape |
| Recurrence.RuleStep | lib/Gertie/Inside/CParser/parser.c:162-181 | one rule at one start keeps the cell's shape |
| Recurrence.RuleLoop | lib/Gertie/Inside/CParser/parser.c:161-186 | the rule loop keeps the cell's shape |
| Recurrence.StartLoop | lib/Gertie/Inside/CParser/parser.c:160-186 | the start loop keeps the cell's shape |
| Recurrence.PushCell | lib/Gertie/Inside/CParser/parser.c:154-186 | the cell a push computes has two tables of `symbols * (j + 1)` entries |
| RecurrenceFacts.SplitStepGrows | lib/Gertie/Inside/CParser/parser.c:163-173 | with nonnegative chart and rule probability, the two increments of a split point are nonnegative: no entry decreases and the cell stays nonnegative |
| RecurrenceFacts.SplitLoopGrows | lib/Gertie/Inside/CParser/parser.c:162-178 | the same for the whole split loop |
| RecurrenceFacts.RuleStepGrows | lib/Gertie/Inside/CParser/parser.c:162-181 | the same for a rule, including its trailing q increment |
| RecurrenceFacts.RuleLoopGrows | lib/Gertie/Inside/CParser/parser.c:161-186 | the same for all rules at one start |
| RecurrenceFacts.StartLoopGrows | lib/Gertie/Inside/CParser/parser.c:160-186 | the same for all starts |
| RecurrenceFacts.BaseCellNonNeg | lib/Gertie/Inside/CParser/parser.c:52-53 | with every `p_empty` in `[0, 1]` the base cell is nonnegative |
| RecurrenceFacts.PushCellNonNeg | lib/Gertie/Inside/CParser/parser.c:155-186 | with nonnegative rule probabilities, `p_empty` in `[0, 1]` and a nonnegative chart, every entry of the pushed cell is nonnegative and at least its token-cell value |
| RecurrenceFacts.PushKeepsNonNeg | lib/Gertie/Inside/CParser/parser.c:133-187 | under the same conditions, the chart after a push (old tables plus the new cell) is still nonnegative |
| RecurrenceFacts.SplitStepFrame | lib/Gertie/Inside/CParser/parser.c:163-173 | a split point writes only the entry `(i, lhs)` |
| RecurrenceFacts.SplitLoopFrame | lib/Gertie/Inside/CParser/parser.c:162-178 | the split loop writes only `(i, lhs)` |
| RecurrenceFacts.RuleStepFrame | lib/Gertie/Inside/CParser/parser.c:162-181 | a rule at start `i` writes only `(i, lhs)` |
| RecurrenceFacts.RuleLoopFrame | lib/Gertie/Inside/CParser/parser.c:161-186 | the rules from `n` on at start `i` leave every other start alone, and every symbol that is none of their left-hand sides |
| RecurrenceFacts.StartLoopFrame | lib/Gertie/Inside/CParser/parser.c:160-186 | the start loop from `i` down leaves every start above `i` alone, and every symbol that is no rule's left-hand side |
| RecurrenceFacts.PushCellFrame | lib/Gertie/Inside/CParser/parser.c:154-186 | after a push, the diagonal `i == j` still holds the empty-derivation values; for a symbol that is no rule's left-hand side, the p and q entries keep their token-cell values |
| RecurrenceFacts.TwoTokenConservation | lib/Gertie/Inside/CParser/parser.c:154-186 | with the single rule `l -> a b` of probability 1 (`l` neither `a` nor `b`), pushing `a` and then `b` after cell 0 gives `p(0, 2, l) == 1` for every empty-probability vector |
| CParser.Cell.constructor | lib/Gertie/Inside/CParser/parser.c:48-50 | a new cell has two distinct fresh zero-filled tables of the requested size |
| CParser.Parser.constructor | lib/Gertie/Inside/CParser/parser.c:71-85 | a new parser has `len == 0`, `alloc == 1`, no token array, no cell 0, an empty chart and zeroed empty probabilities |
| CParser.Parser.CellNew | lib/Gertie/Inside/CParser/parser.c:45-56 | the cell built in place holds exactly `BaseP`/`BaseQ` of the current empty probabilities |
| CParser.Parser.CellNewTok | lib/Gertie/Inside/CParser/parser.c:58-63 | the cell built in place is exactly `TokenCell` |
| CParser.Parser.SetRule | lib/Gertie/Inside/CParser/parser.c:113-120 | slot `index` of the rule array becomes the given production; every other slot and the chart are unchanged |
| CParser.Parser.SetEmptyProb | lib/Gertie/Inside/CParser/parser.c:122 | entry `sym` of the empty-probability array becomes `p`; nothing else changes |
| CParser.Parser.FinalizeRules | lib/Gertie/Inside/CParser/parser.c:124-126 | cell 0 is rebuilt from the current empty probabilities; every other cell, the tokens and the capacity are unchanged |
| CParser.Parser.SeqLen | lib/Gertie/Inside/CParser/parser.c:128 | the result is the number of tokens pushed |
| CParser.Parser.GetP | lib/Gertie/Inside/CParser/parser.c:130 | the result is entry `(i, sym)` of the p table of cell `j` |
| CParser.Parser.GetQ | lib/Gertie/Inside/CParser/parser.c:131 | the result is entry `(i, sym)` of the q table of the rightmost cell |
| CParser.Parser.CopyCells | lib/Gertie/Inside/CParser/parser.c:143-146 | the new cell-pointer array has the new size, holds the old pointers `0 .. old_len`, and is null after them |
| CParser.Parser.CopyToks | lib/Gertie/Inside/CParser/parser.c:144-148 | the new token array has the new size, holds the old tokens `0 .. old_len-1`, and is 0 after them; on the first growth there is no old array to read |
| CParser.Parser.GrowChart | lib/Gertie/Inside/CParser/parser.c:141-153 | `alloc` doubles; fresh `cell` and `tokseq` arrays keep every old cell and token, so the chart is unchanged |
| CParser.Parser.EnsureRoom | lib/Gertie/Inside/CParser/parser.c:139-153 | `alloc` becomes `Grow(alloc, len)`; the arrays are fresh exactly when it grew; the chart and tokens are unchanged |
| CParser.Parser.StartCell | lib/Gertie/Inside/CParser/parser.c:154-157 | records `tok` at `tokseq[old_len]`, stores the token cell at `cell[j]` and sets `len = j`; the earlier cells are left alone |
| CParser.Parser.Inc | lib/Gertie/Inside/CParser/parser.c:39-40 | the table of the cell being filled becomes `Add` of its old contents |
| CParser.Parser.Accumulate | lib/Gertie/Inside/CParser/parser.c:159-186 | the triple loop leaves the new cell equal to `StartLoop` of its token-cell contents over the frozen earlier p tables, and `Filling` (the chart invariant while the cell is being filled) still holds |
| CParser.Parser.ApplyRules | lib/Gertie/Inside/CParser/parser.c:161-186 | the rule loop for one start equals `RuleLoop` |
| CParser.Parser.ApplyRule | lib/Gertie/Inside/CParser/parser.c:162-181 | one rule at one start, split points then the trailing q term, equals `RuleStep` |
| CParser.Parser.ApplySplits | lib/Gertie/Inside/CParser/parser.c:162-178 | the split loop equals `SplitLoop` |
| CParser.Parser.SplitPass | lib/Gertie/Inside/CParser/parser.c:163-173 | the p increment then the q increment equal `SplitStep`; the q increment reads p after the p increment |
| CParser.Parser.Commit | lib/Gertie/Inside/CParser/parser.c:156-157 | the filled cell becomes the last entry of the abstract chart |
| CParser.Parser.Extend | lib/Gertie/Inside/CParser/parser.c:154-186 | with room for the new cell, the chart becomes the old chart plus `PushCell` of it; tokens gain `tok`; the old cells are untouched |
| CParser.Parser.PushTok | lib/Gertie/Inside/CParser/parser.c:133-187 | `len` grows by 1 and `alloc` becomes `Grow(alloc, old_len)`; the tokens gain `tok`; cells `0 .. old_len` are the same objects; the chart gains exactly `PushCell` of the old chart |
| CParser.Parser.PopTok | lib/Gertie/Inside/CParser/parser.c:189-198 | the result is the last token; `len`, the tokens and the chart drop their last element; the slot is nulled; `alloc` and the remaining cells are unchanged |
| SimpleTest.Cell0Value | lib/Gertie/Inside/CParser/t/simple.t.c:12-14 | after the test's setup, cell 0 holds `p(0, 0, 0) == 1` and 0 for symbols 2 and 3 |
| SimpleTest.TokenCellValue | lib/Gertie/Inside/CParser/t/simple.t.c:15 | the token cell for token 2 holds `p(0, 1, 2) == 1` and the diagonal of symbols 0 and 1, and zeros at the q entries that reach `p(0, 1, 4)` and `q(0, 4)` |
| SimpleTest.Rule0Split | lib/Gertie/Inside/CParser/t/simple.t.c:9 | a split point of `1 -> 0 0` changes none of the entries the scenario reads |
| SimpleTest.Rule1Split | lib/Gertie/Inside/CParser/t/simple.t.c:10 | split point 1 of `3 -> 2 0` adds 1 to `p(0, 1, 3)` |
| SimpleTest.Rule2Split | lib/Gertie/Inside/CParser/t/simple.t.c:11 | split point 1 of `4 -> 3 1` adds the current `p(0, 1, 3)` to `p(0, 1, 4)` |
| SimpleTest.RuleStepTwoSplits | lib/Gertie/Inside/CParser/parser.c:162-181 | with one earlier cell, a rule at start 0 is split points 0 and 1, then its open q term |
| SimpleTest.Rule0Step | lib/Gertie/Inside/CParser/t/simple.t.c:9 | the rule `1 -> 0 0` at start 0 changes nothing the scenario reads |
| SimpleTest.Rule1Step | lib/Gertie/Inside/CParser/t/simple.t.c:10 | the rule `3 -> 2 0` at start 0 adds 1 to `p(0, 1, 3)` |
| SimpleTest.Rule2Step | lib/Gertie/Inside/CParser/t/simple.t.c:11 | the rule `4 -> 3 1` at start 0 adds the current `p(0, 1, 3)` to `p(0, 1, 4)` |
| SimpleTest.ScenarioPush | lib/Gertie/Inside/CParser/t/simple.t.c:8-20 | pushing token 2 after the test's setup gives `p(0, 1, 4) == 1` and `q(0, 4) == 0` |
| SimpleTest.ScenarioReordered | lib/Gertie/Inside/CParser/parser.c:161-186 | with the same rules in reverse array order, `p(0, 1, 4) == 0`: the single pass depends on rule order |
| SimpleTest.Simple | lib/Gertie/Inside/CParser/t/simple.t.c:8-22 | the test program's calls on a `Parser` return `pf == 1` and `qf == 0` (the test's `EQUAL` checks, exactly) |
| SimpleTest.PushPop | lib/Gertie/Inside/CParser/parser.c:133-198 | a push followed by a pop returns the pushed token and restores `len`, the tokens and the whole chart |

## Left out

- `SafeMalloc`/`SafeCalloc` failure (`parser.c:6-30`): allocation always succeeds. The failure path only prints and exits.
- Debug output: `parserDebug`, `parserPrintMatrix`, the `debug` field and the `printf` calls inside the push loop. They produce output only and change no state.
- `cellDelete` and `parserDelete`: memory release is not modelled.
  - `parserPopTok` frees only the `Cell` struct, so its two tables leak. The model only drops the cell from the chart.
  - Growth frees the old arrays; the model just stops referencing them.
- Integer width: Dafny's `int` and `nat` are unbounded, while the C code computes in 32-bit signed `int`. Overflow is undefined behaviour in C and is not modelled in three places:
  - the doubling `parser->alloc *= 2` (`parser.c:142`);
  - the table size `parser->symbols * (j+1)` passed to `calloc` (`parser.c:49-50`);
  - the offset `sym * (j + 1) + i` (`parser.c:36-37`).
- Negative counts: `parserNew(int symbols, int rules)` accepts them; the constructor takes `nat`, so they are not modelled.
- Floating point: probabilities are `real`, so there is no rounding. The test's tolerance of `.00001` becomes exact equality.
- The oversized `calloc(alloc, sizeof(Cell) + 1)` for the cell-pointer array (`parser.c:143`): the model allocates exactly `alloc` pointers, which is all the code ever uses.
- The uninitialised contents of the `malloc`'d rule array (`parser.c:79`): the model fills it with the placeholder `Unset`.
- Unchecked indices become preconditions:
  - `SetRule` and `SetEmptyProb` require an index or symbol in range;
  - `PushTok` requires a finalized parser, a token in range and rules whose symbols are in range;
  - `GetP` and `GetQ` require `0 <= i <= j <= len`;
  - `PopTok` requires `len >= 1`.

  The C code reads or writes out of bounds in these cases, so no error result is modelled.
- PushTok: its contract does not restate nonnegativity. `RecurrenceFacts.PushKeepsNonNeg` states it about the same `PushCell` value the contract names.
- The push loop is split into one method per loop level: `Accumulate`, `ApplyRules`, `ApplyRule`, `ApplySplits`, `SplitPass`. The statements and their order are the source's.
- `lib/Gertie/Inside/Inline/parser.c` and `parser.h` are not part of this model. They are an earlier draft of the same algorithm that does not compile.
- The test program's `main`, its `printf` reporting and its final `parserDelete`: only the computation it checks is modelled.
