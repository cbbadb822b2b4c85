/**
  The scenario of the C parser's test program, `t/simple.t.c`.

  Five symbols; the rules `1 -> 0 0`, `3 -> 2 0` and `4 -> 3 1`, each with
  probability 1; symbols 0 and 1 derive the empty string with probability 1.
  After pushing token 2, symbol 4 derives the whole sequence with probability 1
  (`p(0, 1, 4) == 1`) and nothing is left open for it (`q(0, 4) == 0`).

  The fold is evaluated step by step at the level of `Recurrence`, and the
  scenario method then reaches the same numbers through the `Parser` class.
*/
module SimpleTest {
  import opened Index
  import opened Recurrence
  import opened CParser

  const PE: seq<real> := [1.0, 1.0, 0.0, 0.0, 0.0]
  const R0: Rule := Rule(1, 0, 0, 1.0)
  const R1: Rule := Rule(3, 2, 0, 1.0)
  const R2: Rule := Rule(4, 3, 1, 1.0)
  const Rules: seq<Rule> := [R0, R1, R2]

  /** The p table of cell 0 at the entries the push reads: `p(0, 0, sym)` sits at `sym`. */
  ghost predicate Cell0(h: seq<seq<real>>)
  {
    |h| == 1 && |h[0]| == 5 && h[0][0] == 1.0 && h[0][2] == 0.0 && h[0][3] == 0.0
  }

  /** The entries of the cell for end position 1 that the push reads or writes. */
  datatype Probe = Probe(p0: real, p1: real, p3: real, p4: real, p6: real, p8: real,
                         q0: real, q1: real, q3: real, q4: real, q6: real, q8: real)

  ghost function ProbeOf(t: Tables): Probe
    requires |t.p| == 10 && |t.q| == 10
  {
    Probe(t.p[0], t.p[1], t.p[3], t.p[4], t.p[6], t.p[8], t.q[0], t.q[1], t.q[3], t.q[4], t.q[6], t.q[8])
  }

  /**
    The cell for end position 1 at those entries (offset `2 * sym + i` holds
    the entries of `(i, sym)`): the token and the empty-derivation diagonal in
    p, zeros in q, and `p(0, 1, 3) == a`, `p(0, 1, 4) == b`.
  */
  ghost predicate Known(t: Tables, a: real, b: real)
  {
    |t.p| == 10 && |t.q| == 10 &&
    ProbeOf(t) == Probe(0.0, 1.0, 1.0, 1.0, a, b, 0.0, 0.0, 0.0, 0.0, 0.0, 0.0)
  }

  /** Cell 0 holds the empty-derivation probabilities on its diagonal. */
  lemma Cell0Value()
    ensures Cell0([BaseP(PE, 0)])
  {
    BaseCellEntries(PE, 0, 0, 0);
    BaseCellEntries(PE, 0, 0, 2);
    BaseCellEntries(PE, 0, 0, 3);
  }

  /** The token cell for token 2 at end position 1: `p(0, 1, 2) == 1` on top of the diagonal. */
  lemma TokenCellValue()
    ensures Known(TokenCell(PE, 1, 2), 0.0, 0.0)
  {
    var t := TokenCell(PE, 1, 2);
    assert t.p[0] == 0.0 && t.q[0] == 0.0 by { TokenCellEntries(PE, 1, 2, 0, 0); }
    assert t.p[1] == 1.0 && t.q[1] == 0.0 by { TokenCellEntries(PE, 1, 2, 1, 0); }
    assert t.p[3] == 1.0 && t.q[3] == 0.0 by { TokenCellEntries(PE, 1, 2, 1, 1); }
    assert t.p[4] == 1.0 && t.q[4] == 0.0 by { TokenCellEntries(PE, 1, 2, 0, 2); }
    assert t.p[6] == 0.0 && t.q[6] == 0.0 by { TokenCellEntries(PE, 1, 2, 0, 3); }
    assert t.p[8] == 0.0 && t.q[8] == 0.0 by { TokenCellEntries(PE, 1, 2, 0, 4); }
  }

  /** Split point `k` of the rule `1 -> 0 0` only writes `(0, 1)`, at offset 2, which the scenario never reads. */
  lemma Rule0Split(h: seq<seq<real>>, t: Tables, k: int, a: real, b: real)
    requires Cell0(h) && Known(t, a, b) && 0 <= k <= 1
    ensures Known(SplitStep(h, 5, t, R0, 0, k), a, b)
  {
  }

  /** Split point 1 of the rule `3 -> 2 0` adds `p(0, 1, 2) * p(1, 1, 0) == 1` to `p(0, 1, 3)`. */
  lemma Rule1Split(h: seq<seq<real>>, t: Tables, k: int, a: real, b: real)
    requires Cell0(h) && Known(t, a, b) && 0 <= k <= 1
    ensures Known(SplitStep(h, 5, t, R1, 0, k), if k == 1 then a + 1.0 else a, b)
  {
  }

  /** Split point 1 of the rule `4 -> 3 1` adds `p(0, 1, 3) * p(1, 1, 1)`, the current `p(0, 1, 3)`, to `p(0, 1, 4)`. */
  lemma Rule2Split(h: seq<seq<real>>, t: Tables, k: int, a: real, b: real)
    requires Cell0(h) && Known(t, a, b) && 0 <= k <= 1
    ensures Known(SplitStep(h, 5, t, R2, 0, k), a, if k == 1 then b + a else b)
  {
  }

  /** With one earlier cell, a rule at start 0 runs split points 0 and 1 and then its open term. */
  lemma RuleStepTwoSplits(h: seq<seq<real>>, t: Tables, r: Rule)
    requires |h| == 1 && Fits(h, 5, t) && RuleInRange(r, 5)
    ensures var s := SplitStep(h, 5, SplitStep(h, 5, t, r, 0, 0), r, 0, 1);
            RuleStep(h, 5, t, r, 0) == Tables(s.p, Add(s.q, Slot(5, 0, 1, r.lhs), Times(ReadQ(h, 5, s, 0, r.rhs1), r.prob)))
  {
    var s0 := SplitStep(h, 5, t, r, 0, 0);
    var s1 := SplitStep(h, 5, s0, r, 0, 1);
    assert SplitLoop(h, 5, s1, r, 0, 2) == s1;
    assert SplitLoop(h, 5, s0, r, 0, 1) == s1;
    assert SplitLoop(h, 5, t, r, 0, 0) == s1;
  }

  /** The rule `1 -> 0 0` at start 0 changes nothing the scenario reads. */
  lemma Rule0Step(h: seq<seq<real>>, t: Tables, a: real, b: real)
    requires Cell0(h) && Known(t, a, b)
    ensures Known(RuleStep(h, 5, t, R0, 0), a, b)
  {
    Rule0Split(h, t, 0, a, b);
    Rule0Split(h, SplitStep(h, 5, t, R0, 0, 0), 1, a, b);
    RuleStepTwoSplits(h, t, R0);
  }

  /** The rule `3 -> 2 0` at start 0 adds 1 to `p(0, 1, 3)`; its open term `q(0, 2)` is 0. */
  lemma Rule1Step(h: seq<seq<real>>, t: Tables, a: real, b: real)
    requires Cell0(h) && Known(t, a, b)
    ensures Known(RuleStep(h, 5, t, R1, 0), a + 1.0, b)
  {
    Rule1Split(h, t, 0, a, b);
    Rule1Split(h, SplitStep(h, 5, t, R1, 0, 0), 1, a, b);
    RuleStepTwoSplits(h, t, R1);
  }

  /** The rule `4 -> 3 1` at start 0 adds the current `p(0, 1, 3)` to `p(0, 1, 4)`; its open term `q(0, 3)` is 0. */
  lemma Rule2Step(h: seq<seq<real>>, t: Tables, a: real, b: real)
    requires Cell0(h) && Known(t, a, b)
    ensures Known(RuleStep(h, 5, t, R2, 0), a, b + a)
  {
    Rule2Split(h, t, 0, a, b);
    Rule2Split(h, SplitStep(h, 5, t, R2, 0, 0), 1, a, b);
    RuleStepTwoSplits(h, t, R2);
  }

  /**
    The push of token 2: the first rule adds nothing, the second sets
    `p(0, 1, 3)`, and the third, reading that fresh entry, sets `p(0, 1, 4)`.
    No q entry the scenario reads changes.
  */
  lemma {:induction false} ScenarioPush()
    ensures PushCell([BaseP(PE, 0)], Rules, PE, 2).p[Offset(0, 1, 4)] == 1.0
    ensures PushCell([BaseP(PE, 0)], Rules, PE, 2).q[Offset(0, 1, 4)] == 0.0
  {
    var h := [BaseP(PE, 0)];
    Cell0Value();
    var t0 := TokenCell(PE, 1, 2);
    TokenCellValue();
    var t1 := RuleStep(h, 5, t0, R0, 0);
    Rule0Step(h, t0, 0.0, 0.0);
    var t2 := RuleStep(h, 5, t1, R1, 0);
    Rule1Step(h, t1, 0.0, 0.0);
    var t3 := RuleStep(h, 5, t2, R2, 0);
    Rule2Step(h, t2, 1.0, 0.0);
    assert RuleLoop(h, 5, t2, Rules, 0, 2) == t3;
    assert RuleLoop(h, 5, t0, Rules, 0, 0) == t3;
  }

  /**
    With the same rules in the opposite order, the rule `4 -> 3 1` runs before
    `p(0, 1, 3)` is known, so `p(0, 1, 4)` stays 0: the single pass over the
    rule array depends on its order.
  */
  lemma {:induction false} ScenarioReordered()
    ensures PushCell([BaseP(PE, 0)], [R2, R1, R0], PE, 2).p[Offset(0, 1, 4)] == 0.0
  {
    var h := [BaseP(PE, 0)];
    Cell0Value();
    var t0 := TokenCell(PE, 1, 2);
    TokenCellValue();
    var t1 := RuleStep(h, 5, t0, R2, 0);
    Rule2Step(h, t0, 0.0, 0.0);
    var t2 := RuleStep(h, 5, t1, R1, 0);
    Rule1Step(h, t1, 0.0, 0.0);
    var t3 := RuleStep(h, 5, t2, R0, 0);
    Rule0Step(h, t2, 1.0, 0.0);
    assert RuleLoop(h, 5, t2, [R2, R1, R0], 0, 2) == t3;
    assert RuleLoop(h, 5, t0, [R2, R1, R0], 0, 0) == t3;
  }

  /** The test program: build the grammar, push token 2 and read `p(0, 1, 4)` and `q(0, 4)`. */
  method Simple() returns (pf: real, qf: real)
    ensures pf == 1.0 && qf == 0.0
  {
    var p := new Parser(5, 3);
    p.SetRule(0, 1, 0, 0, 1.0);
    p.SetRule(1, 3, 2, 0, 1.0);
    p.SetRule(2, 4, 3, 1, 1.0);
    p.SetEmptyProb(1, 1.0);
    p.SetEmptyProb(0, 1.0);
    p.FinalizeRules();
    assert p.rule[..] == Rules;
    assert p.pEmpty[..] == PE;
    p.PushTok(2);
    ScenarioPush();
    pf := p.GetP(0, 1, 4);
    qf := p.GetQ(0, 4);
  }

  /** Pushing a token and popping it again returns the token and restores the abstract state. */
  method PushPop(p: Parser, tok: int) returns (popped: int)
    requires p.Valid() && p.Finalized() && 0 <= tok < p.symbols && RulesInRange(p.rule[..], p.symbols)
    modifies p, p.cell, p.tokseq
    ensures p.Valid()
    ensures popped == tok
    ensures p.len == old(p.len) && p.Toks == old(p.Toks)
    ensures p.PTab == old(p.PTab) && p.QTab == old(p.QTab)
  {
    p.PushTok(tok);
    popped := p.PopTok();
  }
}
