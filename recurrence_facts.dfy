/**
  What the push recurrence guarantees, for every history and every grammar.

  - Monotonicity: with nonnegative rule probabilities and a nonnegative chart,
    every step only adds a nonnegative term, so each entry of the new cell ends
    at least at its initial value, and the cell stays nonnegative.
  - Frame: the loop writes only entries `(i, lhs)` with `i < j` and `lhs` the
    left-hand side of some rule; the diagonal `i == j` and every symbol that is
    no rule's left-hand side keep the values the token cell gave them.
*/
module RecurrenceFacts {
  import opened Index
  import opened Recurrence

  predicate NonNeg(s: seq<real>)
  {
    forall o :: 0 <= o < |s| ==> 0.0 <= s[o]
  }

  predicate HistoryNonNeg(hist: seq<seq<real>>)
  {
    forall k :: 0 <= k < |hist| ==> NonNeg(hist[k])
  }

  predicate TablesNonNeg(t: Tables)
  {
    NonNeg(t.p) && NonNeg(t.q)
  }

  predicate ProbsNonNeg(rules: seq<Rule>)
  {
    forall n :: 0 <= n < |rules| ==> 0.0 <= rules[n].prob
  }

  /** Every entry of `s` is at least the corresponding entry of `base`. */
  predicate AtLeast(s: seq<real>, base: seq<real>)
  {
    |s| == |base| && forall o :: 0 <= o < |s| ==> base[o] <= s[o]
  }

  predicate Grows(t': Tables, t: Tables)
  {
    AtLeast(t'.p, t.p) && AtLeast(t'.q, t.q)
  }

  lemma TimesNonNeg(a: real, b: real)
    requires 0.0 <= a && 0.0 <= b
    ensures 0.0 <= Times(a, b)
  {
  }

  lemma AddGrows(s: seq<real>, o: int, x: real)
    requires 0 <= o < |s| && NonNeg(s) && 0.0 <= x
    ensures AtLeast(Add(s, o, x), s) && NonNeg(Add(s, o, x))
  {
  }

  lemma ReadPNonNeg(hist: seq<seq<real>>, symbols: nat, t: Tables, i: int, k: int, sym: int)
    requires Fits(hist, symbols, t) && 0 <= i <= k <= |hist| && 0 <= sym < symbols
    requires HistoryNonNeg(hist) && NonNeg(t.p)
    ensures 0.0 <= ReadP(hist, symbols, t, i, k, sym)
  {
    OffsetBounds(symbols, i, k, sym);
    if k < |hist| {
      assert NonNeg(hist[k]);
    }
  }

  lemma ReadQNonNeg(hist: seq<seq<real>>, symbols: nat, t: Tables, k: int, sym: int)
    requires Fits(hist, symbols, t) && 0 <= k <= |hist| && 0 <= sym < symbols
    requires NonNeg(t.q)
    ensures 0.0 <= ReadQ(hist, symbols, t, k, sym)
  {
    OffsetBounds(symbols, k, |hist|, sym);
  }

  lemma {:induction false} SplitStepGrows(hist: seq<seq<real>>, symbols: nat, t: Tables, r: Rule, i: int, k: int)
    requires Fits(hist, symbols, t) && RuleInRange(r, symbols) && 0 <= i <= k <= |hist|
    requires HistoryNonNeg(hist) && TablesNonNeg(t) && 0.0 <= r.prob
    ensures Grows(SplitStep(hist, symbols, t, r, i, k), t)
    ensures TablesNonNeg(SplitStep(hist, symbols, t, r, i, k))
  {
    var j := |hist|;
    var o := Slot(symbols, i, j, r.lhs);
    var a, b := ReadP(hist, symbols, t, i, k, r.rhs1), ReadP(hist, symbols, t, k, j, r.rhs2);
    ReadPNonNeg(hist, symbols, t, i, k, r.rhs1);
    ReadPNonNeg(hist, symbols, t, k, j, r.rhs2);
    TimesNonNeg(a, b);
    TimesNonNeg(Times(a, b), r.prob);
    AddGrows(t.p, o, Times(Times(a, b), r.prob));
    var t1 := Tables(Add(t.p, o, Times(Times(a, b), r.prob)), t.q);
    var a', b' := ReadP(hist, symbols, t1, i, k, r.rhs1), ReadQ(hist, symbols, t1, k, r.rhs2);
    ReadPNonNeg(hist, symbols, t1, i, k, r.rhs1);
    ReadQNonNeg(hist, symbols, t1, k, r.rhs2);
    TimesNonNeg(a', b');
    TimesNonNeg(Times(a', b'), r.prob);
    AddGrows(t.q, o, Times(Times(a', b'), r.prob));
  }

  lemma {:induction false} SplitLoopGrows(hist: seq<seq<real>>, symbols: nat, t: Tables, r: Rule, i: int, k: int)
    requires Fits(hist, symbols, t) && RuleInRange(r, symbols) && 0 <= i <= k <= |hist| + 1
    requires HistoryNonNeg(hist) && TablesNonNeg(t) && 0.0 <= r.prob
    ensures Grows(SplitLoop(hist, symbols, t, r, i, k), t)
    ensures TablesNonNeg(SplitLoop(hist, symbols, t, r, i, k))
    decreases |hist| + 1 - k
  {
    if k <= |hist| {
      var t1 := SplitStep(hist, symbols, t, r, i, k);
      SplitStepGrows(hist, symbols, t, r, i, k);
      SplitLoopGrows(hist, symbols, t1, r, i, k + 1);
    }
  }

  lemma {:induction false} RuleStepGrows(hist: seq<seq<real>>, symbols: nat, t: Tables, r: Rule, i: int)
    requires Fits(hist, symbols, t) && RuleInRange(r, symbols) && 0 <= i <= |hist|
    requires HistoryNonNeg(hist) && TablesNonNeg(t) && 0.0 <= r.prob
    ensures Grows(RuleStep(hist, symbols, t, r, i), t)
    ensures TablesNonNeg(RuleStep(hist, symbols, t, r, i))
  {
    var s := SplitLoop(hist, symbols, t, r, i, i);
    SplitLoopGrows(hist, symbols, t, r, i, i);
    OffsetBounds(symbols, i, |hist|, r.rhs1);
    ReadQNonNeg(hist, symbols, s, i, r.rhs1);
    TimesNonNeg(ReadQ(hist, symbols, s, i, r.rhs1), r.prob);
    AddGrows(s.q, Slot(symbols, i, |hist|, r.lhs), Times(ReadQ(hist, symbols, s, i, r.rhs1), r.prob));
  }

  lemma {:induction false} RuleLoopGrows(hist: seq<seq<real>>, symbols: nat, t: Tables, rules: seq<Rule>, i: int, n: nat)
    requires Fits(hist, symbols, t) && RulesInRange(rules, symbols) && 0 <= i <= |hist| && n <= |rules|
    requires HistoryNonNeg(hist) && TablesNonNeg(t) && ProbsNonNeg(rules)
    ensures Grows(RuleLoop(hist, symbols, t, rules, i, n), t)
    ensures TablesNonNeg(RuleLoop(hist, symbols, t, rules, i, n))
    decreases |rules| - n
  {
    if n < |rules| {
      var t1 := RuleStep(hist, symbols, t, rules[n], i);
      RuleStepGrows(hist, symbols, t, rules[n], i);
      RuleLoopGrows(hist, symbols, t1, rules, i, n + 1);
    }
  }

  lemma {:induction false} StartLoopGrows(hist: seq<seq<real>>, symbols: nat, t: Tables, rules: seq<Rule>, i: int)
    requires Fits(hist, symbols, t) && RulesInRange(rules, symbols) && -1 <= i < |hist|
    requires HistoryNonNeg(hist) && TablesNonNeg(t) && ProbsNonNeg(rules)
    ensures Grows(StartLoop(hist, symbols, t, rules, i), t)
    ensures TablesNonNeg(StartLoop(hist, symbols, t, rules, i))
    decreases i + 1
  {
    if 0 <= i {
      var t1 := RuleLoop(hist, symbols, t, rules, i, 0);
      RuleLoopGrows(hist, symbols, t, rules, i, 0);
      StartLoopGrows(hist, symbols, t1, rules, i - 1);
    }
  }

  /** Empty-derivation probabilities are probabilities. */
  predicate ProbVector(pEmpty: seq<real>)
  {
    forall sym :: 0 <= sym < |pEmpty| ==> 0.0 <= pEmpty[sym] <= 1.0
  }

  lemma BaseCellNonNeg(pEmpty: seq<real>, j: nat)
    requires ProbVector(pEmpty)
    ensures NonNeg(BaseP(pEmpty, j)) && NonNeg(BaseQ(pEmpty, j))
  {
    forall o | 0 <= o < TableSize(|pEmpty|, j)
      ensures 0.0 <= BaseP(pEmpty, j)[o] && 0.0 <= BaseQ(pEmpty, j)[o]
    {
      OffsetOnto(|pEmpty|, j, o);
    }
  }

  /**
    A push keeps the chart nonnegative, and every entry of the new cell is at
    least the value the token cell gave it.
  */
  lemma PushCellNonNeg(hist: seq<seq<real>>, rules: seq<Rule>, pEmpty: seq<real>, tok: int)
    requires 1 <= |hist| && ShapedHistory(hist, |pEmpty|)
    requires RulesInRange(rules, |pEmpty|) && 0 <= tok < |pEmpty|
    requires HistoryNonNeg(hist) && ProbsNonNeg(rules) && ProbVector(pEmpty)
    ensures Grows(PushCell(hist, rules, pEmpty, tok), TokenCell(pEmpty, |hist|, tok))
    ensures TablesNonNeg(PushCell(hist, rules, pEmpty, tok))
  {
    var t0 := TokenCell(pEmpty, |hist|, tok);
    BaseCellNonNeg(pEmpty, |hist|);
    StartLoopGrows(hist, |pEmpty|, t0, rules, |hist| - 1);
  }

  /** A push keeps every probability of the chart nonnegative. */
  lemma PushKeepsNonNeg(hist: seq<seq<real>>, qs: seq<seq<real>>, rules: seq<Rule>, pEmpty: seq<real>, tok: int)
    requires 1 <= |hist| && ShapedHistory(hist, |pEmpty|)
    requires RulesInRange(rules, |pEmpty|) && 0 <= tok < |pEmpty|
    ensures HistoryNonNeg(hist) && HistoryNonNeg(qs) && ProbsNonNeg(rules) && ProbVector(pEmpty) ==>
              HistoryNonNeg(hist + [PushCell(hist, rules, pEmpty, tok).p]) &&
              HistoryNonNeg(qs + [PushCell(hist, rules, pEmpty, tok).q])
  {
    if HistoryNonNeg(hist) && HistoryNonNeg(qs) && ProbsNonNeg(rules) && ProbVector(pEmpty) {
      PushCellNonNeg(hist, rules, pEmpty, tok);
      var t := PushCell(hist, rules, pEmpty, tok);
      assert forall k :: 0 <= k < |hist| ==> (hist + [t.p])[k] == hist[k];
      assert forall k :: 0 <= k < |qs| ==> (qs + [t.q])[k] == qs[k];
    }
  }

  // ---------------------------------------------------------------- frame

  /** `a` and `b` hold the same p and q values at slot `o`. */
  predicate Agree(a: Tables, b: Tables, o: int)
  {
    0 <= o && o < |a.p| && o < |a.q| && o < |b.p| && o < |b.q| &&
    a.p[o] == b.p[o] && a.q[o] == b.q[o]
  }

  /** No rule from index `n` on has `sym` as its left-hand side. */
  predicate NotLhsFrom(rules: seq<Rule>, n: nat, sym: int)
  {
    forall m :: n <= m < |rules| ==> rules[m].lhs != sym
  }

  lemma SplitStepFrame(hist: seq<seq<real>>, symbols: nat, t: Tables, r: Rule, i: int, k: int)
    requires Fits(hist, symbols, t) && RuleInRange(r, symbols) && 0 <= i <= k <= |hist|
    ensures forall o :: 0 <= o < TableSize(symbols, |hist|) && o != Offset(i, |hist|, r.lhs) ==>
              Agree(SplitStep(hist, symbols, t, r, i, k), t, o)
  {
  }

  lemma {:induction false} SplitLoopFrame(hist: seq<seq<real>>, symbols: nat, t: Tables, r: Rule, i: int, k: int)
    requires Fits(hist, symbols, t) && RuleInRange(r, symbols) && 0 <= i <= k <= |hist| + 1
    ensures forall o :: 0 <= o < TableSize(symbols, |hist|) && o != Offset(i, |hist|, r.lhs) ==>
              Agree(SplitLoop(hist, symbols, t, r, i, k), t, o)
    decreases |hist| + 1 - k
  {
    if k <= |hist| {
      var t1 := SplitStep(hist, symbols, t, r, i, k);
      SplitStepFrame(hist, symbols, t, r, i, k);
      SplitLoopFrame(hist, symbols, t1, r, i, k + 1);
      var t2 := SplitLoop(hist, symbols, t1, r, i, k + 1);
      assert SplitLoop(hist, symbols, t, r, i, k) == t2;
      forall o | 0 <= o < TableSize(symbols, |hist|) && o != Offset(i, |hist|, r.lhs)
        ensures Agree(t2, t, o)
      {
        assert Agree(t2, t1, o) && Agree(t1, t, o);
      }
    }
  }

  /** Rule `r` at start `i` writes no entry other than `(i, r.lhs)`. */
  lemma RuleStepFrame(hist: seq<seq<real>>, symbols: nat, t: Tables, r: Rule, i: int)
    requires Fits(hist, symbols, t) && RuleInRange(r, symbols) && 0 <= i <= |hist|
    ensures forall i', sym :: InTable(symbols, i', |hist|, sym) && (i' != i || sym != r.lhs) ==>
              Agree(RuleStep(hist, symbols, t, r, i), t, Offset(i', |hist|, sym))
  {
    var s := SplitLoop(hist, symbols, t, r, i, i);
    SplitLoopFrame(hist, symbols, t, r, i, i);
    OffsetBounds(symbols, i, |hist|, r.lhs);
    var target := Offset(i, |hist|, r.lhs);
    var t' := RuleStep(hist, symbols, t, r, i);
    forall i', sym | InTable(symbols, i', |hist|, sym) && (i' != i || sym != r.lhs)
      ensures Agree(t', t, Offset(i', |hist|, sym))
    {
      var o := Offset(i', |hist|, sym);
      OffsetBounds(symbols, i', |hist|, sym);
      if o == target {
        OffsetInjective(symbols, i', sym, i, r.lhs, |hist|);
      }
      assert Agree(s, t, o);
      assert t'.q[o] == s.q[o];
    }
  }

  lemma {:induction false} RuleLoopFrame(hist: seq<seq<real>>, symbols: nat, t: Tables, rules: seq<Rule>, i: int, n: nat)
    requires Fits(hist, symbols, t) && RulesInRange(rules, symbols) && 0 <= i <= |hist| && n <= |rules|
    ensures forall i', sym :: InTable(symbols, i', |hist|, sym) && (i' != i || NotLhsFrom(rules, n, sym)) ==>
              Agree(RuleLoop(hist, symbols, t, rules, i, n), t, Offset(i', |hist|, sym))
    decreases |rules| - n
  {
    if n < |rules| {
      var t1 := RuleStep(hist, symbols, t, rules[n], i);
      RuleStepFrame(hist, symbols, t, rules[n], i);
      RuleLoopFrame(hist, symbols, t1, rules, i, n + 1);
    } else {
      forall i', sym | InTable(symbols, i', |hist|, sym)
        ensures Agree(t, t, Offset(i', |hist|, sym))
      {
        OffsetBounds(symbols, i', |hist|, sym);
      }
    }
  }

  lemma {:induction false} StartLoopFrame(hist: seq<seq<real>>, symbols: nat, t: Tables, rules: seq<Rule>, i: int)
    requires Fits(hist, symbols, t) && RulesInRange(rules, symbols) && -1 <= i < |hist|
    ensures forall i', sym :: InTable(symbols, i', |hist|, sym) && (i < i' || NotLhsFrom(rules, 0, sym)) ==>
              Agree(StartLoop(hist, symbols, t, rules, i), t, Offset(i', |hist|, sym))
    decreases i + 1
  {
    if 0 <= i {
      var t1 := RuleLoop(hist, symbols, t, rules, i, 0);
      RuleLoopFrame(hist, symbols, t, rules, i, 0);
      StartLoopFrame(hist, symbols, t1, rules, i - 1);
    } else {
      forall i', sym | InTable(symbols, i', |hist|, sym)
        ensures Agree(t, t, Offset(i', |hist|, sym))
      {
        OffsetBounds(symbols, i', |hist|, sym);
      }
    }
  }

  /**
    After a push the diagonal of the new cell still holds the empty-derivation
    probabilities, and a symbol that is no rule's left-hand side keeps exactly
    its token-cell entries: 1 at `(j - 1, tok)`, 0 at every other start.
  */
  lemma PushCellFrame(hist: seq<seq<real>>, rules: seq<Rule>, pEmpty: seq<real>, tok: int, i: int, sym: int)
    requires 1 <= |hist| && ShapedHistory(hist, |pEmpty|)
    requires RulesInRange(rules, |pEmpty|) && 0 <= tok < |pEmpty|
    requires InTable(|pEmpty|, i, |hist|, sym) && (i == |hist| || NotLhsFrom(rules, 0, sym))
    ensures 0 <= Offset(i, |hist|, sym) < TableSize(|pEmpty|, |hist|)
    ensures PushCell(hist, rules, pEmpty, tok).p[Offset(i, |hist|, sym)] ==
              if i == |hist| then pEmpty[sym]
              else if i == |hist| - 1 && sym == tok then 1.0
              else 0.0
    ensures PushCell(hist, rules, pEmpty, tok).q[Offset(i, |hist|, sym)] ==
              if i == |hist| then 1.0 - pEmpty[sym] else 0.0
  {
    var t0 := TokenCell(pEmpty, |hist|, tok);
    StartLoopFrame(hist, |pEmpty|, t0, rules, |hist| - 1);
    TokenCellEntries(pEmpty, |hist|, tok, i, sym);
  }

  // ---------------------------------------------------------------- two tokens

  /**
    Conservation for one production: with the single rule `l -> a b` of
    probability 1, where `l` is neither `a` nor `b`, pushing `a` and then `b`
    after cell 0 gives `p(0, 2, l) == 1`, whatever the empty-derivation
    probabilities. Only split point 1 of start 0 contributes,
    `p(0, 1, a) * p(1, 2, b) == 1 * 1`; the other split points multiply by an
    entry that is still 0.
  */
  lemma {:induction false} TwoTokenConservation(pEmpty: seq<real>, l: int, a: int, b: int)
    requires 0 <= l < |pEmpty| && 0 <= a < |pEmpty| && 0 <= b < |pEmpty| && l != a && l != b
    ensures var h0 := [BaseP(pEmpty, 0)];
            var h1 := h0 + [PushCell(h0, [Rule(l, a, b, 1.0)], pEmpty, a).p];
            ShapedHistory(h1, |pEmpty|) &&
            PushCell(h1, [Rule(l, a, b, 1.0)], pEmpty, b).p[Offset(0, 2, l)] == 1.0
  {
    var n := |pEmpty|;
    var r := Rule(l, a, b, 1.0);
    var rules := [r];
    assert RulesInRange(rules, n) && NotLhsFrom(rules, 0, a) && NotLhsFrom(rules, 0, b);
    var h0 := [BaseP(pEmpty, 0)];
    var h1 := h0 + [PushCell(h0, rules, pEmpty, a).p];
    assert h1[0] == h0[0] && h1[1] == PushCell(h0, rules, pEmpty, a).p;
    assert ShapedHistory(h1, n);

    // the first push leaves its token entry p(0, 1, a) == 1, as `a` is no left-hand side
    PushCellFrame(h0, rules, pEmpty, a, 0, a);

    // the entries of the token cell for `b` that the second push reads or writes
    var t := TokenCell(pEmpty, 2, b);
    var target, b0, b1, a0 := Offset(0, 2, l), Offset(0, 2, b), Offset(1, 2, b), Offset(0, 2, a);
    TokenCellEntries(pEmpty, 2, b, 0, l);
    TokenCellEntries(pEmpty, 2, b, 0, b);
    TokenCellEntries(pEmpty, 2, b, 1, b);
    TokenCellEntries(pEmpty, 2, b, 0, a);
    OffsetUnique(n, 0, 2, l);

    // start 1 writes only (1, l)
    var u := RuleStep(h1, n, t, r, 1);
    RuleStepFrame(h1, n, t, r, 1);
    assert u.p[target] == 0.0 && u.p[b0] == 0.0 && u.p[b1] == 1.0 && u.p[a0] == 0.0;
    assert RuleLoop(h1, n, t, rules, 1, 0) == u by {
      assert RuleLoop(h1, n, u, rules, 1, 1) == u;
    }

    // start 0: only split point 1 adds something
    StartZeroOfSecondPush(h1, n, u, r);
    var w := RuleStep(h1, n, u, r, 0);
    assert StartLoop(h1, n, t, rules, 1) == w by {
      assert RuleLoop(h1, n, w, rules, 0, 1) == w;
      assert RuleLoop(h1, n, u, rules, 0, 0) == w;
      assert StartLoop(h1, n, w, rules, -1) == w;
      assert StartLoop(h1, n, u, rules, 0) == w;
    }
  }

  /**
    Start 0 of the second push in `TwoTokenConservation`: split point 0
    multiplies by `p(0, 2, b) == 0`, split point 1 adds
    `p(0, 1, a) * p(1, 2, b) == 1`, and split point 2 multiplies by
    `p(0, 2, a) == 0`, which the earlier steps left alone since `a != l`.
  */
  lemma {:induction false} StartZeroOfSecondPush(h1: seq<seq<real>>, n: nat, u: Tables, r: Rule)
    requires |h1| == 2 && Fits(h1, n, u) && RuleInRange(r, n) && r.prob == 1.0 && r.lhs != r.rhs1
    requires h1[1][Offset(0, 1, r.rhs1)] == 1.0
    requires u.p[Offset(0, 2, r.lhs)] == 0.0 && u.p[Offset(0, 2, r.rhs2)] == 0.0
    requires u.p[Offset(1, 2, r.rhs2)] == 1.0 && u.p[Offset(0, 2, r.rhs1)] == 0.0
    ensures RuleStep(h1, n, u, r, 0).p[Offset(0, 2, r.lhs)] == 1.0
  {
    var target, a0 := Offset(0, 2, r.lhs), Offset(0, 2, r.rhs1);
    OffsetUnique(n, 0, 2, r.lhs);
    var s0 := SplitStep(h1, n, u, r, 0, 0);
    SplitStepFrame(h1, n, u, r, 0, 0);
    assert s0.p[target] == 0.0 && s0.p[a0] == 0.0;
    var s1 := SplitStep(h1, n, s0, r, 0, 1);
    SplitStepFrame(h1, n, s0, r, 0, 1);
    assert s1.p[target] == 1.0 && s1.p[a0] == 0.0;
    var s2 := SplitStep(h1, n, s1, r, 0, 2);
    assert s2.p[target] == 1.0;
    assert SplitLoop(h1, n, u, r, 0, 0) == s2 by {
      assert SplitLoop(h1, n, s2, r, 0, 3) == s2;
      assert SplitLoop(h1, n, s1, r, 0, 2) == s2;
      assert SplitLoop(h1, n, s0, r, 0, 1) == s2;
    }
  }
}
