/**
  The inside/prefix parser object of `parser.c`.

  A `Parser` holds a stochastic grammar in binary normal form (`rules` binary
  productions and, per symbol, the probability `pEmpty[sym]` that the symbol
  derives the empty string) and a chart with one `Cell` per prefix length of
  the token sequence read so far. The cell for end position `j` holds
  `p(i, j, sym)`, the probability that `sym` derives exactly the tokens
  `i .. j-1`, and `q(i, sym)`, the probability that `sym` derives the tokens
  from `i` on followed by something not yet read.

  The ghost fields `Toks`, `PTab` and `QTab` are the abstract state: the tokens
  pushed so far and the contents of every cell's two tables. `Valid()` ties
  them to the arrays, and every operation states its effect on them; the values
  a push computes are the functions of module `Recurrence`.
*/
module CParser {
  import opened Index
  import opened Capacity
  import opened Recurrence

  /** What a slot of the rule array holds before `SetRule` writes it. */
  const Unset: Rule := Rule(0, 0, 0, 0.0)

  /** One chart cell: the flattened p and q tables for one end position. */
  class Cell {
    const p: array<real>
    const q: array<real>

    /** A cell whose two tables hold `size` zeros each. */
    constructor (size: nat)
      ensures fresh(p) && fresh(q) && p != q
      ensures p.Length == size && q.Length == size
      ensures forall o :: 0 <= o < size ==> p[o] == 0.0 && q[o] == 0.0
    {
      p := new real[size](_ => 0.0);
      q := new real[size](_ => 0.0);
    }
  }

  class Parser {
    const symbols: nat
    const rules: nat
    /** Number of tokens pushed; the rightmost cell is `cell[len]`. */
    var len: nat
    /** Length of the `cell` and `tokseq` arrays. */
    var alloc: nat
    const rule: array<Rule>
    const pEmpty: array<real>
    var cell: array<Cell?>
    /** Absent until the first push allocates it. */
    var tokseq: array?<int>

    /** The tokens pushed so far. */
    ghost var Toks: seq<int>
    /** `PTab[k]`, `QTab[k]`: the tables of the cell for end position `k`; empty before finalization. */
    ghost var PTab: seq<seq<real>>
    ghost var QTab: seq<seq<real>>
    ghost var Repr: set<object>

    ghost predicate Valid()
      reads this, Repr
    {
      this in Repr && rule in Repr && pEmpty in Repr && cell in Repr &&
      rule.Length == rules && pEmpty.Length == symbols &&
      IsPowerOfTwo(alloc) && len < alloc && cell.Length == alloc &&
      (tokseq == null <==> alloc == 1) &&
      |Toks| == len &&
      (tokseq != null ==>
         tokseq in Repr && tokseq.Length == alloc &&
         forall k :: 0 <= k < len ==> tokseq[k] == Toks[k]) &&
      |PTab| == |QTab| &&
      (cell[0] == null ==> len == 0 && PTab == []) &&
      (cell[0] != null ==> |PTab| == len + 1) &&
      (forall k :: 0 <= k < |PTab| ==>
         cell[k] != null && cell[k] in Repr && cell[k].p in Repr && cell[k].q in Repr &&
         cell[k].p != pEmpty && cell[k].q != pEmpty &&
         |PTab[k]| == TableSize(symbols, k) && |QTab[k]| == TableSize(symbols, k) &&
         cell[k].p[..] == PTab[k] && cell[k].q[..] == QTab[k]) &&
      (forall k :: |PTab| <= k < alloc ==> cell[k] == null)
    }

    /** The rules have been finalized, so the chart holds cell 0. */
    ghost predicate Finalized()
      reads this
    {
      |PTab| > 0
    }

    /** `parserNew`: an empty chart with room for one cell and no cell 0 yet. */
    constructor (symbols: nat, rules: nat)
      ensures Valid() && fresh(Repr)
      ensures this.symbols == symbols && this.rules == rules
      ensures len == 0 && alloc == 1 && tokseq == null
      ensures Toks == [] && PTab == [] && QTab == []
      ensures rule[..] == seq(rules, _ => Unset)
      ensures pEmpty[..] == seq(symbols, _ => 0.0)
    {
      this.symbols := symbols;
      this.rules := rules;
      len := 0;
      alloc := 1;
      rule := new Rule[rules](_ => Unset);
      pEmpty := new real[symbols](_ => 0.0);
      cell := new Cell?[1](_ => null);
      tokseq := null;
      Toks, PTab, QTab := [], [], [];
      new;
      Repr := {this, rule, pEmpty, cell};
    }

    /** `cellNew`: the cell for end position `j`, holding the empty-derivation probabilities. */
    method CellNew(j: nat) returns (c: Cell)
      requires pEmpty.Length == symbols
      ensures fresh(c) && fresh(c.p) && fresh(c.q) && c.p != c.q
      ensures c.p[..] == BaseP(pEmpty[..], j) && c.q[..] == BaseQ(pEmpty[..], j)
    {
      c := new Cell(TableSize(symbols, j));
      for sym := 0 to symbols
        invariant forall i, s :: InTable(symbols, i, j, s) ==>
                    c.p[Slot(symbols, i, j, s)] == (if i == j && s < sym then pEmpty[s] else 0.0) &&
                    c.q[Slot(symbols, i, j, s)] == (if i == j && s < sym then 1.0 - pEmpty[s] else 0.0)
      {
        OffsetUnique(symbols, j, j, sym);
        c.p[Slot(symbols, j, j, sym)] := pEmpty[sym];
        c.q[Slot(symbols, j, j, sym)] := 1.0 - pEmpty[sym];
      }
      forall o | 0 <= o < TableSize(symbols, j)
        ensures c.p[o] == BaseP(pEmpty[..], j)[o] && c.q[o] == BaseQ(pEmpty[..], j)[o]
      {
        OffsetOnto(symbols, j, o);
        var i, s := o % (j + 1), o / (j + 1);
        assert Slot(symbols, i, j, s) == o;
        BaseCellEntries(pEmpty[..], j, i, s);
      }
      assert c.p[..] == BaseP(pEmpty[..], j);
      assert c.q[..] == BaseQ(pEmpty[..], j);
    }

    /** `cellNewTok`: the cell for end position `j`, whose last token is `tok`. */
    method CellNewTok(j: nat, tok: int) returns (c: Cell)
      requires pEmpty.Length == symbols && 1 <= j && 0 <= tok < symbols
      ensures fresh(c) && fresh(c.p) && fresh(c.q) && c.p != c.q
      ensures Tables(c.p[..], c.q[..]) == TokenCell(pEmpty[..], j, tok)
    {
      c := CellNew(j);
      c.p[Slot(symbols, j - 1, j, tok)] := 1.0;
    }

    /** `parserSetRule`: store the production `lhs -> rhs1 rhs2` with probability `prob` at `index`. */
    method SetRule(index: int, lhs: int, rhs1: int, rhs2: int, prob: real)
      requires Valid() && 0 <= index < rules
      modifies rule
      ensures Valid()
      ensures rule[..] == old(rule[..])[index := Rule(lhs, rhs1, rhs2, prob)]
    {
      rule[index] := Rule(lhs, rhs1, rhs2, prob);
    }

    /** `parserSetEmptyProb`: the probability that `sym` derives the empty string. */
    method SetEmptyProb(sym: int, p: real)
      requires Valid() && 0 <= sym < symbols
      modifies pEmpty
      ensures Valid()
      ensures pEmpty[..] == old(pEmpty[..])[sym := p]
    {
      pEmpty[sym] := p;
    }

    /**
      `parserFinalizeRules`: build cell 0 from the current empty-derivation
      probabilities, replacing any cell 0 an earlier call built.
    */
    method FinalizeRules()
      requires Valid()
      modifies this, cell
      ensures Valid() && fresh(Repr - old(Repr)) && Finalized()
      ensures len == old(len) && alloc == old(alloc) && cell == old(cell) && tokseq == old(tokseq)
      ensures Toks == old(Toks)
      ensures forall k :: 0 < k < alloc ==> cell[k] == old(cell[k])
      ensures PTab == if old(Finalized()) then old(PTab)[0 := BaseP(pEmpty[..], 0)] else [BaseP(pEmpty[..], 0)]
      ensures QTab == if old(Finalized()) then old(QTab)[0 := BaseQ(pEmpty[..], 0)] else [BaseQ(pEmpty[..], 0)]
    {
      var c := CellNew(0);
      cell[0] := c;
      Repr := Repr + {c, c.p, c.q};
      if |PTab| == 0 {
        PTab, QTab := [c.p[..]], [c.q[..]];
      } else {
        PTab, QTab := PTab[0 := c.p[..]], QTab[0 := c.q[..]];
      }
    }

    /** `parserSeqLen`: the number of tokens pushed. */
    function SeqLen(): (n: nat)
      reads this, Repr
      requires Valid()
      ensures n == |Toks|
    {
      len
    }

    /** `parserGetP`: `p(i, j, sym)`, read from the cell for end position `j`. */
    function GetP(i: int, j: int, sym: int): (r: real)
      reads this, Repr
      requires Valid() && Finalized() && 0 <= i <= j <= len && 0 <= sym < symbols
      ensures r == PTab[j][Slot(symbols, i, j, sym)]
    {
      cell[j].p[Slot(symbols, i, j, sym)]
    }

    /** `parserGetQ`: `q(i, sym)`, read from the rightmost cell. */
    function GetQ(i: int, sym: int): (r: real)
      reads this, Repr
      requires Valid() && Finalized() && 0 <= i <= len && 0 <= sym < symbols
      ensures r == QTab[len][Slot(symbols, i, len, sym)]
    {
      cell[len].q[Slot(symbols, i, len, sym)]
    }

    /** A fresh array of `size` cell pointers holding `src[0..n]` and null after. */
    static method CopyCells(src: array<Cell?>, n: nat, size: nat) returns (dst: array<Cell?>)
      requires n < src.Length <= size
      ensures fresh(dst) && dst.Length == size
      ensures forall k :: 0 <= k <= n ==> dst[k] == src[k]
      ensures forall k :: n < k < size ==> dst[k] == null
    {
      dst := new Cell?[size](_ => null);
      var i := 0;
      while i <= n
        invariant 0 <= i <= n + 1
        invariant forall k :: 0 <= k < i ==> dst[k] == src[k]
        invariant forall k :: i <= k < size ==> dst[k] == null
      {
        dst[i] := src[i];
        i := i + 1;
      }
    }

    /** A fresh zero-filled array of `size` tokens starting with `src[0..n-1]`. */
    static method CopyToks(src: array?<int>, n: nat, size: nat) returns (dst: array<int>)
      requires n <= size && (0 < n ==> src != null && n <= src.Length)
      ensures fresh(dst) && dst.Length == size
      ensures forall k :: 0 <= k < n ==> dst[k] == src[k]
      ensures forall k :: n <= k < size ==> dst[k] == 0
    {
      dst := new int[size](_ => 0);
      var i := 0;
      while i < n
        invariant 0 <= i <= n
        invariant forall k :: 0 <= k < i ==> dst[k] == src[k]
        invariant forall k :: n <= k < size ==> dst[k] == 0
      {
        dst[i] := src[i];
        i := i + 1;
      }
    }

    /**
      The growth step of `parserPushTok`: double `alloc` and move the cell
      pointers and the tokens into fresh zero-filled arrays of the new size.
    */
    method GrowChart()
      requires Valid()
      modifies this
      ensures Valid() && old(Repr) <= Repr && fresh(Repr - old(Repr))
      ensures alloc == 2 * old(alloc) && len == old(len)
      ensures fresh(cell) && tokseq != null && fresh(tokseq)
      ensures Toks == old(Toks) && PTab == old(PTab) && QTab == old(QTab)
      ensures forall k :: 0 <= k <= len ==> cell[k] == old(cell[k])
    {
      alloc := alloc * 2;
      var newCell := CopyCells(cell, len, alloc);
      var newTokseq := CopyToks(tokseq, len, alloc);
      cell := newCell;
      tokseq := newTokseq;
      Repr := Repr + {newCell, newTokseq};
    }

    /** Lines 140-153 of `parserPushTok`: grow the arrays when the next cell would not fit. */
    method EnsureRoom()
      requires Valid()
      modifies this
      ensures Valid() && old(Repr) <= Repr && fresh(Repr - old(Repr))
      ensures len == old(len) && alloc == Grow(old(alloc), old(len))
      ensures alloc != old(alloc) ==> fresh(cell) && fresh(tokseq)
      ensures alloc == old(alloc) ==> cell == old(cell) && tokseq == old(tokseq)
      ensures Toks == old(Toks) && PTab == old(PTab) && QTab == old(QTab)
      ensures forall k :: 0 <= k <= len ==> cell[k] == old(cell[k])
    {
      if len + 1 >= alloc {
        GrowChart();
      }
    }

    /**
      The state in the middle of a push: the new rightmost cell `jCell` is
      stored at `cell[len]` and its token is recorded, but the ghost tables
      still describe only the cells before it. `jCell`'s arrays lie outside
      `Repr`, so filling them keeps this predicate.
    */
    ghost predicate Filling(jCell: Cell)
      reads this, Repr
    {
      this in Repr && rule in Repr && pEmpty in Repr && cell in Repr &&
      rule.Length == rules && pEmpty.Length == symbols &&
      IsPowerOfTwo(alloc) && 1 <= len < alloc && cell.Length == alloc &&
      tokseq != null && tokseq in Repr && tokseq.Length == alloc &&
      |Toks| == len && (forall k :: 0 <= k < len ==> tokseq[k] == Toks[k]) &&
      |PTab| == len && |QTab| == len &&
      (forall k :: 0 <= k < len ==>
         cell[k] != null && cell[k] in Repr && cell[k].p in Repr && cell[k].q in Repr &&
         cell[k].p != pEmpty && cell[k].q != pEmpty &&
         |PTab[k]| == TableSize(symbols, k) && |QTab[k]| == TableSize(symbols, k) &&
         cell[k].p[..] == PTab[k] && cell[k].q[..] == QTab[k]) &&
      cell[len] == jCell && jCell.p !in Repr && jCell.q !in Repr && jCell.p != jCell.q &&
      jCell.p.Length == TableSize(symbols, len) && jCell.q.Length == TableSize(symbols, len) &&
      (forall k :: len < k < alloc ==> cell[k] == null)
    }

    /**
      The part of `Filling` that the triple loop of a push relies on: the
      frozen p tables of the earlier cells are `PTab`, and the rightmost cell
      `jCell`, which is being filled, shares no array with them. `Filling`
      implies it; the loop methods require only this smaller predicate.
    */
    ghost predicate Fill(jCell: Cell)
      reads this, Repr
    {
      cell in Repr && rule.Length == rules && 1 <= len < cell.Length && |PTab| == len &&
      (forall k :: 0 <= k < len ==>
         cell[k] != null && cell[k].p in Repr &&
         |PTab[k]| == TableSize(symbols, k) && cell[k].p[..] == PTab[k]) &&
      cell[len] == jCell && jCell.p !in Repr && jCell.q !in Repr && jCell.p != jCell.q &&
      jCell.p.Length == TableSize(symbols, len) && jCell.q.Length == TableSize(symbols, len)
    }

    /**
      `cell_inc_p`/`cell_inc_q` on the cell being filled: add `x` to the entry
      at `o` of one of its tables; the rest of the chart is untouched.
    */
    method Inc(jCell: Cell, a: array<real>, o: int, x: real)
      requires Fill(jCell) && (a == jCell.p || a == jCell.q) && 0 <= o < a.Length
      modifies a
      ensures a[..] == Add(old(a[..]), o, x)
    {
      a[o] := a[o] + x;
    }

    /**
      Lines 154-157 of `parserPushTok`: record `tok`, build the token cell and
      make it the rightmost cell. The earlier cells are left as they were.
    */
    method StartCell(tok: int) returns (jCell: Cell)
      requires Valid() && Finalized() && 0 <= tok < symbols && len + 1 < alloc
      modifies this, cell, tokseq
      ensures Filling(jCell) && fresh(jCell) && fresh(jCell.p) && fresh(jCell.q)
      ensures len == old(len) + 1 && alloc == old(alloc) && cell == old(cell) && tokseq == old(tokseq)
      ensures Toks == old(Toks) + [tok] && PTab == old(PTab) && QTab == old(QTab) && Repr == old(Repr)
      ensures forall k :: 0 <= k < alloc && k != len ==> cell[k] == old(cell[k])
      ensures Tables(jCell.p[..], jCell.q[..]) == TokenCell(pEmpty[..], len, tok)
    {
      tokseq[len] := tok;
      jCell := CellNewTok(len + 1, tok);
      cell[len + 1] := jCell;
      len := len + 1;
      Toks := Toks + [tok];
    }

    /**
      Lines 159-186 of `parserPushTok`: the triple loop that fills the new
      rightmost cell `jCell` in place. This is its outer loop, over the starts
      `i` from `len - 1` down to 0. The earlier cells, whose p tables are
      `PTab`, are only read.
    */
    method Accumulate(jCell: Cell)
      requires Filling(jCell) && RulesInRange(rule[..], symbols)
      modifies jCell.p, jCell.q
      ensures Filling(jCell)
      ensures Tables(jCell.p[..], jCell.q[..]) ==
                StartLoop(PTab, symbols, old(Tables(jCell.p[..], jCell.q[..])), rule[..], len - 1)
    {
      ghost var t0 := Tables(jCell.p[..], jCell.q[..]);
      ghost var rs := rule[..];
      var i: int := len - 1;
      while i >= 0
        invariant -1 <= i <= len - 1 && rs == rule[..]
        invariant StartLoop(PTab, symbols, Tables(jCell.p[..], jCell.q[..]), rs, i) ==
                  StartLoop(PTab, symbols, t0, rs, len - 1)
        modifies jCell.p, jCell.q
        decreases i + 1
      {
        ApplyRules(jCell, i);
        i := i - 1;
      }
    }

    /** The rule loop of `parserPushTok` for start `i`: every rule in array order. */
    method ApplyRules(jCell: Cell, i: int)
      requires Fill(jCell) && RulesInRange(rule[..], symbols) && 0 <= i < len
      modifies jCell.p, jCell.q
      ensures Tables(jCell.p[..], jCell.q[..]) ==
                RuleLoop(PTab, symbols, old(Tables(jCell.p[..], jCell.q[..])), rule[..], i, 0)
    {
      ghost var tI := Tables(jCell.p[..], jCell.q[..]);
      ghost var rs := rule[..];
      var n := 0;
      while n < rules
        invariant 0 <= n <= rules == |rs| && rs == rule[..]
        invariant Fill(jCell) && Fits(PTab, symbols, Tables(jCell.p[..], jCell.q[..]))
        invariant RuleLoop(PTab, symbols, Tables(jCell.p[..], jCell.q[..]), rs, i, n) ==
                  RuleLoop(PTab, symbols, tI, rs, i, 0)
        modifies jCell.p, jCell.q
      {
        var r := rule[n];
        assert r == rs[n];
        ApplyRule(jCell, r, i);
        n := n + 1;
      }
    }

    /** The body of the rule loop for rule `r` and start `i`: its split points, then its open term. */
    method ApplyRule(jCell: Cell, r: Rule, i: int)
      requires Fill(jCell) && RuleInRange(r, symbols) && 0 <= i < len
      modifies jCell.p, jCell.q
      ensures Tables(jCell.p[..], jCell.q[..]) ==
                RuleStep(PTab, symbols, old(Tables(jCell.p[..], jCell.q[..])), r, i)
    {
      var o := Slot(symbols, i, len, r.lhs);
      ApplySplits(jCell, r, i, o);
      ghost var s := Tables(jCell.p[..], jCell.q[..]);
      // the missing right-hand symbol may still derive what follows
      var open := cell[len].q[Slot(symbols, i, len, r.rhs1)];
      assert open == ReadQ(PTab, symbols, s, i, r.rhs1);
      Inc(jCell, jCell.q, o, Times(open, r.prob));
    }

    /** The split-point loop of `parserPushTok` for rule `r` and start `i`: `k` from `i` up to `len`. */
    method ApplySplits(jCell: Cell, r: Rule, i: int, o: int)
      requires Fill(jCell) && RuleInRange(r, symbols) && 0 <= i < len && o == Offset(i, len, r.lhs)
      modifies jCell.p, jCell.q
      ensures Tables(jCell.p[..], jCell.q[..]) ==
                SplitLoop(PTab, symbols, old(Tables(jCell.p[..], jCell.q[..])), r, i, i)
    {
      ghost var tR := Tables(jCell.p[..], jCell.q[..]);
      var k := i;
      while k <= len
        invariant i <= k <= len + 1
        invariant Fill(jCell) && Fits(PTab, symbols, Tables(jCell.p[..], jCell.q[..]))
        invariant SplitLoop(PTab, symbols, Tables(jCell.p[..], jCell.q[..]), r, i, k) ==
                  SplitLoop(PTab, symbols, tR, r, i, i)
        modifies jCell.p, jCell.q
      {
        SplitPass(jCell, r, i, k, o);
        k := k + 1;
      }
    }

    /**
      The body of the innermost loop for split point `k`: add
      `p(i, k, rhs1) * p(k, j, rhs2) * prob` to `p(i, j, lhs)` and then
      `p(i, k, rhs1) * q(k, rhs2) * prob` to `q(i, lhs)`, reading the chart
      through `parser_get_p`/`parser_get_q` as the source does.
    */
    method SplitPass(jCell: Cell, r: Rule, i: int, k: int, o: int)
      requires Fill(jCell) && RuleInRange(r, symbols)
      requires 0 <= i <= k <= len && o == Offset(i, len, r.lhs)
      modifies jCell.p, jCell.q
      ensures Tables(jCell.p[..], jCell.q[..]) ==
                SplitStep(PTab, symbols, old(Tables(jCell.p[..], jCell.q[..])), r, i, k)
    {
      var j := len;
      ghost var t := Tables(jCell.p[..], jCell.q[..]);
      OffsetBounds(symbols, i, j, r.lhs);
      var left := cell[k].p[Slot(symbols, i, k, r.rhs1)];
      var right := cell[j].p[Slot(symbols, k, j, r.rhs2)];
      assert left == ReadP(PTab, symbols, t, i, k, r.rhs1);
      assert right == ReadP(PTab, symbols, t, k, j, r.rhs2);
      Inc(jCell, jCell.p, o, Times(Times(left, right), r.prob));
      ghost var t1 := Tables(jCell.p[..], t.q);
      var left' := cell[k].p[Slot(symbols, i, k, r.rhs1)];
      var below := cell[len].q[Slot(symbols, k, len, r.rhs2)];
      assert left' == ReadP(PTab, symbols, t1, i, k, r.rhs1);
      assert below == ReadQ(PTab, symbols, t1, k, r.rhs2);
      Inc(jCell, jCell.q, o, Times(Times(left', below), r.prob));
    }

    /** Record the filled rightmost cell in the ghost tables. */
    ghost method Commit(jCell: Cell)
      requires Filling(jCell)
      modifies this
      ensures Valid()
      ensures len == old(len) && alloc == old(alloc) && cell == old(cell) && tokseq == old(tokseq)
      ensures Toks == old(Toks) && Repr == old(Repr) + {jCell, jCell.p, jCell.q}
      ensures PTab == old(PTab) + [jCell.p[..]] && QTab == old(QTab) + [jCell.q[..]]
    {
      PTab, QTab := PTab + [jCell.p[..]], QTab + [jCell.q[..]];
      Repr := Repr + {jCell, jCell.p, jCell.q};
    }

    /**
      Lines 154-186 of `parserPushTok`, once the arrays have room: record
      `tok`, build the new rightmost cell and fill it.
    */
    method Extend(tok: int)
      requires Valid() && Finalized() && 0 <= tok < symbols && RulesInRange(rule[..], symbols)
      requires len + 1 < alloc
      modifies this, cell, tokseq
      ensures Valid() && fresh(Repr - old(Repr))
      ensures len == old(len) + 1 && alloc == old(alloc) && cell == old(cell) && tokseq == old(tokseq)
      ensures Toks == old(Toks) + [tok]
      ensures forall k :: 0 <= k <= old(len) ==> cell[k] == old(cell[k])
      ensures PTab == old(PTab) + [PushCell(old(PTab), rule[..], pEmpty[..], tok).p]
      ensures QTab == old(QTab) + [PushCell(old(PTab), rule[..], pEmpty[..], tok).q]
    {
      var jCell := StartCell(tok);
      Accumulate(jCell);
      Commit(jCell);
    }

    /**
      `parserPushTok`: append `tok`, growing the arrays when the new cell
      would not fit, and fill the new rightmost cell.
    */
    method PushTok(tok: int)
      requires Valid() && Finalized() && 0 <= tok < symbols && RulesInRange(rule[..], symbols)
      modifies this, cell, tokseq
      ensures Valid() && fresh(Repr - old(Repr))
      ensures len == old(len) + 1 && alloc == Grow(old(alloc), old(len))
      ensures alloc != old(alloc) ==> fresh(cell) && fresh(tokseq)
      ensures alloc == old(alloc) ==> cell == old(cell) && tokseq == old(tokseq)
      ensures Toks == old(Toks) + [tok]
      ensures forall k :: 0 <= k <= old(len) ==> cell[k] == old(cell[k])
      ensures PTab == old(PTab) + [PushCell(old(PTab), rule[..], pEmpty[..], tok).p]
      ensures QTab == old(QTab) + [PushCell(old(PTab), rule[..], pEmpty[..], tok).q]
    {
      EnsureRoom();
      Extend(tok);
    }

    /** `parserPopTok`: drop the last token and the rightmost cell, returning the token. */
    method PopTok() returns (lastTok: int)
      requires Valid() && len >= 1
      modifies this, cell
      ensures Valid() && Repr == old(Repr)
      ensures lastTok == old(Toks)[old(len) - 1]
      ensures Toks == old(Toks)[..old(len) - 1]
      ensures PTab == old(PTab)[..old(len)] && QTab == old(QTab)[..old(len)]
      ensures len == old(len) - 1 && alloc == old(alloc) && cell == old(cell) && tokseq == old(tokseq)
      ensures cell[old(len)] == null
      ensures forall k :: 0 <= k < old(len) ==> cell[k] == old(cell[k])
    {
      lastTok := tokseq[len - 1];
      cell[len] := null;
      len := len - 1;
      Toks := Toks[..len];
      PTab, QTab := PTab[..len + 1], QTab[..len + 1];
    }
  }
}
