/**
  The values the parser computes, as functions on sequences.

  `BaseP`/`BaseQ` are what `cellNew` leaves in a fresh cell, `TokenCell` what
  `cellNewTok` leaves, and `PushCell` what `parserPushTok` leaves in the new
  rightmost cell after its triple loop. The loop is written as a left fold that
  visits `(i, rule, k)` in exactly the order of the source: `i` from the old
  length down to 0, the rules in array order, `k` from `i` up to `j`. Each step
  reads the current value of the cell being filled (entries written earlier in
  the same pass included) and the frozen p tables `hist` of the earlier cells.
*/
module Recurrence {
  import opened Index

  /** A binary production `lhs -> rhs1 rhs2` with probability `prob`. */
  datatype Rule = Rule(lhs: int, rhs1: int, rhs2: int, prob: real)

  /** The p and q tables of one cell, flattened as `Index.Offset` lays them out. */
  datatype Tables = Tables(p: seq<real>, q: seq<real>)

  predicate RuleInRange(r: Rule, symbols: nat)
  {
    0 <= r.lhs < symbols && 0 <= r.rhs1 < symbols && 0 <= r.rhs2 < symbols
  }

  predicate RulesInRange(rules: seq<Rule>, symbols: nat)
  {
    forall n :: 0 <= n < |rules| ==> RuleInRange(rules[n], symbols)
  }

  /** `hist[k]` is the p table of the cell for end position `k`. */
  predicate ShapedHistory(hist: seq<seq<real>>, symbols: nat)
  {
    forall k :: 0 <= k < |hist| ==> |hist[k]| == TableSize(symbols, k)
  }

  predicate ShapedCell(t: Tables, symbols: nat, j: nat)
  {
    |t.p| == TableSize(symbols, j) && |t.q| == TableSize(symbols, j)
  }

  /** `t` is the cell for end position `|hist|`, right after the cells of `hist`. */
  predicate Fits(hist: seq<seq<real>>, symbols: nat, t: Tables)
  {
    ShapedHistory(hist, symbols) && ShapedCell(t, symbols, |hist|)
  }

  // ---------------------------------------------------------------- cell construction

  /** The p table `cellNew` builds: `p_empty[sym]` on the diagonal `i == j`, 0 elsewhere. */
  function BaseP(pEmpty: seq<real>, j: nat): (r: seq<real>)
    ensures |r| == TableSize(|pEmpty|, j)
  {
    seq(TableSize(|pEmpty|, j), o requires 0 <= o < TableSize(|pEmpty|, j) =>
      OffsetOnto(|pEmpty|, j, o);
      if o % (j + 1) == j then pEmpty[o / (j + 1)] else 0.0)
  }

  /** The q table `cellNew` builds: `1 - p_empty[sym]` on the diagonal, 0 elsewhere. */
  function BaseQ(pEmpty: seq<real>, j: nat): (r: seq<real>)
    ensures |r| == TableSize(|pEmpty|, j)
  {
    seq(TableSize(|pEmpty|, j), o requires 0 <= o < TableSize(|pEmpty|, j) =>
      OffsetOnto(|pEmpty|, j, o);
      if o % (j + 1) == j then 1.0 - pEmpty[o / (j + 1)] else 0.0)
  }

  /** Entry by entry, a base cell holds the empty-derivation probabilities and nothing else. */
  lemma BaseCellEntries(pEmpty: seq<real>, j: nat, i: int, sym: int)
    requires InTable(|pEmpty|, i, j, sym)
    ensures 0 <= Offset(i, j, sym) < TableSize(|pEmpty|, j)
    ensures BaseP(pEmpty, j)[Offset(i, j, sym)] == if i == j then pEmpty[sym] else 0.0
    ensures BaseQ(pEmpty, j)[Offset(i, j, sym)] == if i == j then 1.0 - pEmpty[sym] else 0.0
  {
    OffsetBounds(|pEmpty|, i, j, sym);
    OffsetDecode(|pEmpty|, i, j, sym);
  }

  /** The cell `cellNewTok` builds for the token `tok` ending at position `j`. */
  function TokenCell(pEmpty: seq<real>, j: nat, tok: int): (t: Tables)
    requires 1 <= j && 0 <= tok < |pEmpty|
    ensures ShapedCell(t, |pEmpty|, j)
  {
    Tables(BaseP(pEmpty, j)[Slot(|pEmpty|, j - 1, j, tok) := 1.0], BaseQ(pEmpty, j))
  }

  /** A token cell is the base cell with `p(j-1, j, tok)` set to 1. */
  lemma TokenCellEntries(pEmpty: seq<real>, j: nat, tok: int, i: int, sym: int)
    requires 1 <= j && 0 <= tok < |pEmpty|
    requires InTable(|pEmpty|, i, j, sym)
    ensures 0 <= Offset(i, j, sym) < TableSize(|pEmpty|, j)
    ensures TokenCell(pEmpty, j, tok).p[Offset(i, j, sym)] ==
              if i == j - 1 && sym == tok then 1.0
              else if i == j then pEmpty[sym]
              else 0.0
    ensures TokenCell(pEmpty, j, tok).q[Offset(i, j, sym)] ==
              if i == j then 1.0 - pEmpty[sym] else 0.0
  {
    BaseCellEntries(pEmpty, j, i, sym);
    if Offset(i, j, sym) == Offset(j - 1, j, tok) {
      OffsetInjective(|pEmpty|, i, sym, j - 1, tok, j);
    }
  }

  // ---------------------------------------------------------------- the push recurrence

  /** `cell_inc_p`/`cell_inc_q`: add `x` to one entry. */
  function Add(s: seq<real>, o: int, x: real): (r: seq<real>)
    requires 0 <= o < |s|
    ensures |r| == |s| && r[o] == s[o] + x
    ensures forall o' :: 0 <= o' < |s| && o' != o ==> r[o'] == s[o']
  {
    s[o := s[o] + x]
  }

  /** The product of two doubles, as the source's `*` (exact on reals). */
  function Times(a: real, b: real): real
  {
    a * b
  }

  /** `parser_get_p(parser, i, k, sym)` while the cell `t` for `|hist|` is being filled. */
  function ReadP(hist: seq<seq<real>>, symbols: nat, t: Tables, i: int, k: int, sym: int): real
    requires Fits(hist, symbols, t) && 0 <= i <= k <= |hist| && 0 <= sym < symbols
  {
    if k < |hist| then hist[k][Slot(symbols, i, k, sym)] else t.p[Slot(symbols, i, k, sym)]
  }

  /** `parser_get_q(parser, k, sym)`: always the cell being filled, which is the rightmost. */
  function ReadQ(hist: seq<seq<real>>, symbols: nat, t: Tables, k: int, sym: int): real
    requires Fits(hist, symbols, t) && 0 <= k <= |hist| && 0 <= sym < symbols
  {
    t.q[Slot(symbols, k, |hist|, sym)]
  }

  /** One pass of the innermost loop body: the split point `k` of rule `r` for start `i`. */
  function SplitStep(hist: seq<seq<real>>, symbols: nat, t: Tables, r: Rule, i: int, k: int): (t': Tables)
    requires Fits(hist, symbols, t) && RuleInRange(r, symbols) && 0 <= i <= k <= |hist|
    ensures Fits(hist, symbols, t')
  {
    var j := |hist|;
    var o := Slot(symbols, i, j, r.lhs);
    var p' := Add(t.p, o, Times(Times(ReadP(hist, symbols, t, i, k, r.rhs1), ReadP(hist, symbols, t, k, j, r.rhs2)), r.prob));
    // the q increment reads p after the p increment above
    var t1 := Tables(p', t.q);
    Tables(p', Add(t.q, o, Times(Times(ReadP(hist, symbols, t1, i, k, r.rhs1), ReadQ(hist, symbols, t1, k, r.rhs2)), r.prob)))
  }

  /** The split-point loop of rule `r` for start `i`, from `k` up to `|hist|`. */
  function SplitLoop(hist: seq<seq<real>>, symbols: nat, t: Tables, r: Rule, i: int, k: int): (t': Tables)
    requires Fits(hist, symbols, t) && RuleInRange(r, symbols) && 0 <= i <= k <= |hist| + 1
    ensures Fits(hist, symbols, t')
    decreases |hist| + 1 - k
  {
    if k > |hist| then t
    else SplitLoop(hist, symbols, SplitStep(hist, symbols, t, r, i, k), r, i, k + 1)
  }

  /** Rule `r` at start `i`: all split points, then the still-open term `q(i, rhs1) * prob`. */
  function RuleStep(hist: seq<seq<real>>, symbols: nat, t: Tables, r: Rule, i: int): (t': Tables)
    requires Fits(hist, symbols, t) && RuleInRange(r, symbols) && 0 <= i <= |hist|
    ensures Fits(hist, symbols, t')
  {
    var s := SplitLoop(hist, symbols, t, r, i, i);
    Tables(s.p, Add(s.q, Slot(symbols, i, |hist|, r.lhs), Times(ReadQ(hist, symbols, s, i, r.rhs1), r.prob)))
  }

  /** The rule loop for start `i`, from rule index `n` to the end of the rule array. */
  function RuleLoop(hist: seq<seq<real>>, symbols: nat, t: Tables, rules: seq<Rule>, i: int, n: nat): (t': Tables)
    requires Fits(hist, symbols, t) && RulesInRange(rules, symbols) && 0 <= i <= |hist| && n <= |rules|
    ensures Fits(hist, symbols, t')
    decreases |rules| - n
  {
    if n == |rules| then t
    else RuleLoop(hist, symbols, RuleStep(hist, symbols, t, rules[n], i), rules, i, n + 1)
  }

  /** The start loop, from start `i` down to 0. */
  function StartLoop(hist: seq<seq<real>>, symbols: nat, t: Tables, rules: seq<Rule>, i: int): (t': Tables)
    requires Fits(hist, symbols, t) && RulesInRange(rules, symbols) && -1 <= i < |hist|
    ensures Fits(hist, symbols, t')
    decreases i + 1
  {
    if i < 0 then t
    else StartLoop(hist, symbols, RuleLoop(hist, symbols, t, rules, i, 0), rules, i - 1)
  }

  /**
    The cell a push of `tok` adds after the cells whose p tables are `hist`:
    the token cell for `j = |hist|`, then the triple loop from `i = j - 1`.
  */
  function PushCell(hist: seq<seq<real>>, rules: seq<Rule>, pEmpty: seq<real>, tok: int): (t: Tables)
    requires 1 <= |hist| && ShapedHistory(hist, |pEmpty|)
    requires RulesInRange(rules, |pEmpty|) && 0 <= tok < |pEmpty|
    ensures ShapedCell(t, |pEmpty|, |hist|)
  {
    StartLoop(hist, |pEmpty|, TokenCell(pEmpty, |hist|, tok), rules, |hist| - 1)
  }
}
