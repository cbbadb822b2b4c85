/**
  The flattened layout of a chart cell's tables.

  The cell for end position `j` stores `p(i, j, sym)` and `q(i, sym)` for every
  start `0 <= i <= j` and every symbol in two flat arrays of `symbols * (j + 1)`
  reals, symbol-major: the entry for `(i, sym)` lives at `sym * (j + 1) + i`.
  This module proves that this offset is a bijection between the admissible
  `(i, sym)` pairs and the array positions, so every table access of the parser
  is in bounds and no two distinct entries share a slot.
*/
module Index {

  /** The offset the parser's `cell_get_p`/`cell_get_q` macros compute. */
  function Offset(i: int, j: int, sym: int): int
  {
    sym * (j + 1) + i
  }

  /** Number of reals in each table of the cell for end position `j`. */
  function TableSize(symbols: nat, j: nat): nat
  {
    symbols * (j + 1)
  }

  /** `(i, sym)` names an entry of the cell for end position `j`. */
  predicate InTable(symbols: nat, i: int, j: int, sym: int)
  {
    0 <= i <= j && 0 <= sym < symbols
  }

  lemma MulLe(a: int, b: int, c: int)
    requires a <= b && 0 <= c
    ensures a * c <= b * c
  {
    assert b * c - a * c == (b - a) * c;
  }

  /** Every admissible entry lies inside the table. */
  lemma OffsetBounds(symbols: nat, i: int, j: int, sym: int)
    requires InTable(symbols, i, j, sym)
    ensures 0 <= Offset(i, j, sym) < TableSize(symbols, j)
  {
    MulLe(0, sym, j + 1);
    MulLe(sym + 1, symbols, j + 1);
    assert (sym + 1) * (j + 1) == sym * (j + 1) + j + 1;
  }

  /** `Offset` for an entry known to be admissible, with its bounds. */
  function Slot(symbols: nat, i: int, j: int, sym: int): (o: int)
    requires InTable(symbols, i, j, sym)
    ensures o == Offset(i, j, sym) && 0 <= o < TableSize(symbols, j)
  {
    OffsetBounds(symbols, i, j, sym);
    Offset(i, j, sym)
  }

  /** Euclidean division by `d` has a unique quotient and remainder. */
  lemma DivModUnique(x: int, d: int, s: int, r: int)
    requires 0 < d && 0 <= r < d && x == s * d + r
    ensures x / d == s && x % d == r
  {
    var s', r' := x / d, x % d;
    assert x == s' * d + r';
    if s' < s {
      MulLe(s' + 1, s, d);
    } else if s < s' {
      MulLe(s + 1, s', d);
    }
  }

  /** Decoding an offset recovers its symbol and its start position. */
  lemma {:induction false} OffsetDecode(symbols: nat, i: int, j: int, sym: int)
    requires InTable(symbols, i, j, sym)
    ensures Offset(i, j, sym) / (j + 1) == sym
    ensures Offset(i, j, sym) % (j + 1) == i
  {
    DivModUnique(Offset(i, j, sym), j + 1, sym, i);
  }

  /** Every table position is the offset of exactly the entry it decodes to. */
  lemma OffsetOnto(symbols: nat, j: nat, o: int)
    requires 0 <= o < TableSize(symbols, j)
    ensures InTable(symbols, o % (j + 1), j, o / (j + 1))
    ensures Offset(o % (j + 1), j, o / (j + 1)) == o
  {
    var s, r := o / (j + 1), o % (j + 1);
    assert o == s * (j + 1) + r;
    if s < 0 {
      MulLe(s, -1, j + 1);
    }
    if symbols <= s {
      MulLe(symbols, s, j + 1);
    }
  }

  /** Among the entries of one table, only `(i, sym)` itself sits at `Offset(i, j, sym)`. */
  lemma OffsetUnique(symbols: nat, i: int, j: int, sym: int)
    requires InTable(symbols, i, j, sym)
    ensures forall i', sym' :: InTable(symbols, i', j, sym') && Offset(i', j, sym') == Offset(i, j, sym) ==>
              i' == i && sym' == sym
  {
    forall i', sym' | InTable(symbols, i', j, sym') && Offset(i', j, sym') == Offset(i, j, sym)
      ensures i' == i && sym' == sym
    {
      OffsetInjective(symbols, i', sym', i, sym, j);
    }
  }

  /** Distinct entries never share a slot. */
  lemma OffsetInjective(symbols: nat, i1: int, sym1: int, i2: int, sym2: int, j: int)
    requires InTable(symbols, i1, j, sym1) && InTable(symbols, i2, j, sym2)
    requires Offset(i1, j, sym1) == Offset(i2, j, sym2)
    ensures i1 == i2 && sym1 == sym2
  {
    OffsetDecode(symbols, i1, j, sym1);
    OffsetDecode(symbols, i2, j, sym2);
  }
}
