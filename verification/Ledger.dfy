// Transaction items, the total kept by the sync trigger, and the item validation of a manual edit.

module Ledger {
  import opened Tables

  // ----- the items table, seen from one transaction

  function ItemsOf(items: seq<Item>, t: TxId): seq<Line> {
    if items == [] then []
    else
      var rest := ItemsOf(items[..|items| - 1], t);
      if items[|items| - 1].tx == t then rest + [items[|items| - 1].line] else rest
  }

  /** SELECT COALESCE(SUM(amount), 0) over a list of lines, without any width limit. */
  function Total(lines: seq<Line>): int {
    if lines == [] then 0 else Total(lines[..|lines| - 1]) + lines[|lines| - 1].amount as int
  }

  function Tagged(t: TxId, lines: seq<Line>): seq<Item> {
    seq(|lines|, k requires 0 <= k < |lines| => Item(t, lines[k]))
  }

  /** DELETE FROM transaction_items WHERE transaction_id = t. */
  function Without(items: seq<Item>, t: TxId): (r: seq<Item>)
    ensures forall it :: it in r <==> it in items && it.tx != t
  {
    if items == [] then []
    else
      var rest := Without(items[..|items| - 1], t);
      assert items == items[..|items| - 1] + [items[|items| - 1]];
      if items[|items| - 1].tx == t then rest else rest + [items[|items| - 1]]
  }

  /** The item checks of migration 00008: positive quantity, non-negative amount. */
  predicate RowAllowed(l: Line) {
    l.quantity > 0 && l.amount >= 0
  }

  predicate RowsAllowed(lines: seq<Line>) {
    forall k | 0 <= k < |lines| :: RowAllowed(lines[k])
  }

  lemma {:induction false} ItemsOfAppend(items: seq<Item>, more: seq<Item>, t: TxId)
    ensures ItemsOf(items + more, t) == ItemsOf(items, t) + ItemsOf(more, t)
  {
    if more == [] {
      assert items + more == items;
    } else {
      var front, last := more[..|more| - 1], more[|more| - 1];
      assert (items + more)[..|items + more| - 1] == items + front;
      ItemsOfAppend(items, front, t);
    }
  }

  lemma {:induction false} ItemsOfTagged(t: TxId, lines: seq<Line>, u: TxId)
    ensures ItemsOf(Tagged(t, lines), u) == if u == t then lines else []
  {
    if lines != [] {
      var n := |lines| - 1;
      assert Tagged(t, lines)[..n] == Tagged(t, lines[..n]);
      ItemsOfTagged(t, lines[..n], u);
      assert lines == lines[..n] + [lines[n]];
    }
  }

  /** Deleting one transaction's items empties it and leaves every other transaction as it was. */
  lemma {:induction false} ItemsOfWithout(items: seq<Item>, t: TxId, u: TxId)
    ensures ItemsOf(Without(items, t), u) == if u == t then [] else ItemsOf(items, u)
  {
    if items != [] {
      var front, last := items[..|items| - 1], items[|items| - 1];
      ItemsOfWithout(front, t, u);
      if last.tx != t {
        assert (Without(front, t) + [last])[..|Without(front, t)|] == Without(front, t);
      }
    }
  }

  /** What inserting lines for t does to every transaction's item list. */
  lemma ItemsOfInsert(items: seq<Item>, t: TxId, lines: seq<Line>, u: TxId)
    ensures ItemsOf(items + Tagged(t, lines), u) == ItemsOf(items, u) + (if u == t then lines else [])
  {
    ItemsOfAppend(items, Tagged(t, lines), u);
    ItemsOfTagged(t, lines, u);
  }

  lemma {:induction false} TotalAppend(a: seq<Line>, b: seq<Line>)
    ensures Total(a + b) == Total(a) + Total(b)
  {
    if b == [] {
      assert a + b == a;
    } else {
      assert (a + b)[..|a + b| - 1] == a + b[..|b| - 1];
      TotalAppend(a, b[..|b| - 1]);
    }
  }

  lemma {:induction false} TotalNonNegative(lines: seq<Line>)
    requires RowsAllowed(lines)
    ensures Total(lines) >= 0
  {
    if lines != [] {
      TotalNonNegative(lines[..|lines| - 1]);
    }
  }

  /** Amounts are never negative, so a prefix never sums to more than the whole. */
  lemma {:induction false} TotalPrefix(lines: seq<Line>, k: nat)
    requires k <= |lines| && RowsAllowed(lines)
    ensures 0 <= Total(lines[..k]) <= Total(lines)
    decreases |lines| - k
  {
    if k == |lines| {
      assert lines[..k] == lines;
      TotalNonNegative(lines);
    } else {
      TotalPrefix(lines, k + 1);
      assert lines[..k + 1][..k] == lines[..k];
      TotalNonNegative(lines[..k]);
    }
  }

  lemma {:induction false} ItemsOfAllowed(items: seq<Item>, t: TxId)
    requires forall it | it in items :: RowAllowed(it.line)
    ensures RowsAllowed(ItemsOf(items, t))
  {
    if items != [] {
      assert forall it | it in items[..|items| - 1] :: it in items;
      ItemsOfAllowed(items[..|items| - 1], t);
    }
  }

  // ----- validateItems

  predicate LineInvalid(l: Line) {
    l.description == "" || l.quantity <= 0 || l.amount < 0
  }

  /** The first line at which validation stops: malformed, or pushing the true sum past the int64 maximum. */
  ghost predicate FirstOffender(lines: seq<Line>, k: nat) {
    && k < |lines|
    && (LineInvalid(lines[k]) || Total(lines[..k + 1]) > MAX_INT64)
    && (forall j | 0 <= j < k :: !LineInvalid(lines[j]))
    && Total(lines[..k]) <= MAX_INT64
  }

  ghost predicate Acceptable(lines: seq<Line>) {
    && |lines| <= MAX_ITEMS
    && (forall k | 0 <= k < |lines| :: !LineInvalid(lines[k]))
    && Total(lines) <= MAX_INT64
  }

  /** What validateItems answers: nothing for acceptable lines, else the count, or what is wrong with the first
      offender. */
  ghost predicate Judged(lines: seq<Line>, err: Option<Error>) {
    && (err.None? <==> Acceptable(lines))
    && (err.Some? ==> err.value in {TooManyItems, ItemInvalid, InvalidAmount})
    && (err == Some(TooManyItems) <==> |lines| > MAX_ITEMS)
    && (err == Some(ItemInvalid) <==>
          |lines| <= MAX_ITEMS && exists k: nat :: FirstOffender(lines, k) && LineInvalid(lines[k]))
    && (err == Some(InvalidAmount) <==>
          |lines| <= MAX_ITEMS && exists k: nat :: FirstOffender(lines, k) && !LineInvalid(lines[k]))
  }

  /** validateItems runs in int64 throughout; its guard keeps the running total inside the type. */
  method ValidateItems(lines: seq<Line>) returns (err: Option<Error>)
    ensures Judged(lines, err)
    ensures err.None? <==>
              && |lines| <= 200
              && (forall k | 0 <= k < |lines| ::
                    lines[k].description != "" && lines[k].quantity > 0 && lines[k].amount >= 0)
              && Total(lines) <= 0x7FFF_FFFF_FFFF_FFFF
    ensures err == Some(TooManyItems) <==> |lines| > 200
  {
    if |lines| > MAX_ITEMS {
      return Some(TooManyItems);
    }
    var total: int64 := 0;
    var i := 0;
    while i < |lines|
      invariant 0 <= i <= |lines|
      invariant forall j | 0 <= j < i :: !LineInvalid(lines[j])
      invariant total as int == Total(lines[..i]) && total >= 0
      invariant forall k: nat | FirstOffender(lines, k) :: i <= k
    {
      var it := lines[i];
      assert lines[..i + 1][..i] == lines[..i];
      if it.description == "" || it.quantity <= 0 || it.amount < 0 {
        assert FirstOffender(lines, i);
        NoEarlierOffender(lines, i);
        return Some(ItemInvalid);
      }
      if it.amount > 0x7FFF_FFFF_FFFF_FFFF - total {
        assert FirstOffender(lines, i);
        NoEarlierOffender(lines, i);
        return Some(InvalidAmount);
      }
      total := total + it.amount;
      i := i + 1;
    }
    assert lines[..i] == lines;
    err := None;
  }

  /** There is one first offender, and a list that has one is not acceptable. */
  lemma NoEarlierOffender(lines: seq<Line>, i: nat)
    requires FirstOffender(lines, i)
    ensures forall k: nat | FirstOffender(lines, k) :: k == i
    ensures !Acceptable(lines)
  {
    forall k: nat | FirstOffender(lines, k) ensures k == i {
      if k < i { OffenderStops(lines, k, i); }
      if i < k { OffenderStops(lines, i, k); }
    }
    if Acceptable(lines) {
      assert RowsAllowed(lines);
      TotalPrefix(lines, i + 1);
    }
  }

  lemma OffenderStops(lines: seq<Line>, k: nat, i: nat)
    requires k < i && FirstOffender(lines, k)
    ensures !FirstOffender(lines, i)
  {
    if FirstOffender(lines, i) {
      var p := lines[..i];
      assert p[..k + 1] == lines[..k + 1];
      TotalPrefix(p, k + 1);
    }
  }
}
