/**
  TaxController: one tax rate is stored as six rows (tax included or not,
  times the three rounding modes); a rate can be added once, listed once,
  and deleted with all its rows. The tax repository is a sequence of rows
  held in a field, in the order findAll returns them.
*/
module Taxes {
  import opened JavaLang
  import opened Domain

  /** A row of the taxes table; id is None until the row is saved. */
  datatype Tax = Tax(id: Option<int>, tax: int, taxIncluded: bool, rounding: string)

  const TAX_INCLUDEDS: seq<bool> := [false, true]
  const ROUNDINGS: seq<string> := [FLOOR, ROUND, CEIL]

  /** The six unsaved rows of one rate: tax excluded first, each in floor, round, ceil order. */
  function Expansion(rate: int): (rows: seq<Tax>)
    ensures |rows| == 6
  {
    seq(6, k requires 0 <= k < 6 => Tax(None, rate, TAX_INCLUDEDS[k / 3], ROUNDINGS[k % 3]))
  }

  /**
    The expansion carries the rate in every row and holds each pair of
    (tax included, rounding mode) exactly once: excluded rows first, each
    half in floor, round, ceil order.
  */
  lemma ExpansionCoversEachPairOnce(rate: int)
    ensures forall k :: 0 <= k < 6 ==>
              Expansion(rate)[k] == Tax(None, rate, k >= 3, ROUNDINGS[k % 3])
    ensures forall j, k :: 0 <= j < 6 && 0 <= k < 6 && j != k ==>
              Expansion(rate)[j].taxIncluded != Expansion(rate)[k].taxIncluded
              || Expansion(rate)[j].rounding != Expansion(rate)[k].rounding
  {
    var e := Expansion(rate);
    assert FLOOR != ROUND && ROUND != CEIL && FLOOR != CEIL;
    forall j, k | 0 <= j < 6 && 0 <= k < 6 && j != k && e[j].taxIncluded == e[k].taxIncluded
      ensures e[j].rounding != e[k].rounding
    {
      assert (j >= 3) == (k >= 3);
      assert j % 3 != k % 3;
    }
  }

  /** The rows of a list saved with consecutive new ids. */
  function Saved(rows: seq<Tax>, firstId: int): (r: seq<Tax>)
    ensures |r| == |rows|
    ensures forall k :: 0 <= k < |rows| ==> r[k] == rows[k].(id := Some(firstId + k))
  {
    seq(|rows|, k requires 0 <= k < |rows| => rows[k].(id := Some(firstId + k)))
  }

  /** The rates that occur in rows. */
  function Rates(rows: seq<Tax>): set<int>
  {
    set t | t in rows :: t.tax
  }

  lemma RatesAppend(rows: seq<Tax>, t: Tax)
    ensures Rates(rows + [t]) == Rates(rows) + {t.tax}
  {
    forall x | x in Rates(rows + [t]) ensures x in Rates(rows) + {t.tax} {
      var u :| u in rows + [t] && u.tax == x;
    }
    forall x | x in Rates(rows) ensures x in Rates(rows + [t]) {
      var u :| u in rows && u.tax == x;
      assert u in rows + [t];
    }
    assert t in rows + [t];
  }

  /** existsByTax: a rate is stored exactly when index lists a row of it. */
  predicate HasRate(rows: seq<Tax>, rate: int)
    ensures HasRate(rows, rate) <==> exists t :: t in FirstPerRate(rows) && t.tax == rate
  {
    var listed := FirstPerRate(rows);
    assert Rates(listed) == Rates(rows);
    assert (exists t :: t in rows && t.tax == rate) <==> rate in Rates(rows);
    assert (exists t :: t in listed && t.tax == rate) <==> rate in Rates(listed);
    exists t :: t in rows && t.tax == rate
  }

  /** a is b with some rows left out, the rest in the same order. */
  predicate Subsequence(a: seq<Tax>, b: seq<Tax>)
  {
    || a == []
    || (&& b != []
        && (|| (a[|a| - 1] == b[|b| - 1] && Subsequence(a[..|a| - 1], b[..|b| - 1]))
            || Subsequence(a, b[..|b| - 1])))
  }

  /**
    index: the rows with one row per rate, the first row of each rate in
    findAll order (HashSet.add is false for a rate already seen).
  */
  function FirstPerRate(rows: seq<Tax>): (r: seq<Tax>)
    ensures Rates(r) == Rates(rows)
    ensures forall i, j :: 0 <= i < j < |r| ==> r[i].tax != r[j].tax
    ensures Subsequence(r, rows)
  {
    if rows == [] then []
    else
      var init, last := rows[..|rows| - 1], rows[|rows| - 1];
      var kept := FirstPerRate(init);
      RatesAppend(init, last);
      assert init + [last] == rows;
      if last.tax in Rates(init) then
        assert Subsequence(kept, rows);
        kept
      else
        RatesAppend(kept, last);
        assert (kept + [last])[..|kept|] == kept;
        kept + [last]
  }

  /** One more row is kept exactly when its rate is new. */
  lemma FirstPerRateStep(rows: seq<Tax>, t: Tax)
    ensures FirstPerRate(rows + [t]) == if t.tax in Rates(rows) then FirstPerRate(rows) else FirstPerRate(rows) + [t]
  {
    assert (rows + [t])[..|rows|] == rows;
  }

  /** t is the first row of its rate in rows. */
  predicate FirstOfRate(rows: seq<Tax>, t: Tax)
  {
    exists j :: 0 <= j < |rows| && rows[j] == t && t.tax !in Rates(rows[..j])
  }

  /** Each row kept by index is the first row of its rate. */
  lemma {:induction false} FirstPerRateKeepsOnlyFirsts(rows: seq<Tax>)
    ensures forall t :: t in FirstPerRate(rows) ==> FirstOfRate(rows, t)
  {
    if rows != [] {
      var n := |rows| - 1;
      FirstPerRateKeepsOnlyFirsts(rows[..n]);
      FirstsAfterAppend(rows[..n], rows[n]);
      assert rows[..n] + [rows[n]] == rows;
    }
  }

  lemma FirstsAfterAppend(init: seq<Tax>, x: Tax)
    requires forall t :: t in FirstPerRate(init) ==> FirstOfRate(init, t)
    ensures forall t :: t in FirstPerRate(init + [x]) ==> FirstOfRate(init + [x], t)
  {
    var rows := init + [x];
    FirstPerRateStep(init, x);
    forall t | t in FirstPerRate(rows) ensures FirstOfRate(rows, t) {
      if t in FirstPerRate(init) {
        FirstStaysFirst(init, x, t);
      } else {
        assert t == x && x.tax !in Rates(init);
        NewRateIsFirst(init, x);
      }
    }
  }

  lemma FirstStaysFirst(init: seq<Tax>, x: Tax, t: Tax)
    requires FirstOfRate(init, t)
    ensures FirstOfRate(init + [x], t)
  {
    var j :| 0 <= j < |init| && init[j] == t && t.tax !in Rates(init[..j]);
    assert (init + [x])[..j] == init[..j] && (init + [x])[j] == t;
  }

  lemma NewRateIsFirst(init: seq<Tax>, x: Tax)
    requires x.tax !in Rates(init)
    ensures FirstOfRate(init + [x], x)
  {
    assert (init + [x])[..|init|] == init && (init + [x])[|init|] == x;
  }

  /** Every first row of a rate is kept by index. */
  lemma {:induction false} FirstPerRateKeepsEveryFirst(rows: seq<Tax>)
    ensures forall j :: 0 <= j < |rows| && rows[j].tax !in Rates(rows[..j]) ==> rows[j] in FirstPerRate(rows)
  {
    if rows != [] {
      var n := |rows| - 1;
      var init := rows[..n];
      FirstPerRateKeepsEveryFirst(init);
      assert init + [rows[n]] == rows;
      forall j | 0 <= j < |rows| && rows[j].tax !in Rates(rows[..j]) ensures rows[j] in FirstPerRate(rows) {
        if j < n {
          assert rows[..j] == init[..j] && rows[j] == init[j];
          assert init[j] in FirstPerRate(init);
        } else {
          assert rows[..j] == init;
        }
      }
    }
  }

  /** The rows that are not the given row id (deleteById). */
  function WithoutId(rows: seq<Tax>, id: int): (r: seq<Tax>)
    ensures forall t :: t in r <==> t in rows && t.id != Some(id)
    ensures Subsequence(r, rows)
  {
    if rows == [] then []
    else
      var init, last := rows[..|rows| - 1], rows[|rows| - 1];
      assert init + [last] == rows;
      if last.id == Some(id) then WithoutId(init, id)
      else
        assert (WithoutId(init, id) + [last])[..|WithoutId(init, id)|] == WithoutId(init, id);
        WithoutId(init, id) + [last]
  }

  /** The rows of other rates (deleteByTax). */
  function WithoutRate(rows: seq<Tax>, rate: int): (r: seq<Tax>)
    ensures forall t :: t in r <==> t in rows && t.tax != rate
    ensures Subsequence(r, rows)
  {
    if rows == [] then []
    else
      var init, last := rows[..|rows| - 1], rows[|rows| - 1];
      assert init + [last] == rows;
      if last.tax == rate then WithoutRate(init, rate)
      else
        assert (WithoutRate(init, rate) + [last])[..|WithoutRate(init, rate)|] == WithoutRate(init, rate);
        WithoutRate(init, rate) + [last]
  }

  /** findById: the row with that id, if any. */
  function FindById(rows: seq<Tax>, id: int): (r: Option<Tax>)
    ensures r.Some? <==> exists t :: t in rows && t.id == Some(id)
    ensures r.Some? ==> r.value in rows && r.value.id == Some(id)
  {
    if rows == [] then None
    else if rows[0].id == Some(id) then Some(rows[0])
    else
      var r := FindById(rows[1..], id);
      assert forall t :: t in rows ==> t == rows[0] || t in rows[1..];
      r
  }

  /**
    Deleting the row by id and then its rate leaves exactly the rows of the
    other rates: removing the row by id first changes nothing in the end.
  */
  lemma {:induction false} DeleteByIdThenRate(rows: seq<Tax>, id: int, rate: int)
    requires forall t :: t in rows && t.id == Some(id) ==> t.tax == rate
    ensures WithoutRate(WithoutId(rows, id), rate) == WithoutRate(rows, rate)
  {
    if rows != [] {
      var init, last := rows[..|rows| - 1], rows[|rows| - 1];
      assert init + [last] == rows;
      DeleteByIdThenRate(init, id, rate);
      if last.id != Some(id) {
        assert (WithoutId(init, id) + [last])[..|WithoutId(init, id)|] == WithoutId(init, id);
      }
    }
  }

  class TaxController {
    /** The taxes table, in findAll order. */
    var taxes: seq<Tax>
    /** The next id the identity column hands out. */
    var nextId: int

    /** Every row is saved, with an id below nextId, and ids identify rows. */
    predicate Valid()
      reads this
    {
      && (forall t :: t in taxes ==> t.id.Some? && t.id.value < nextId)
      && (forall s, t :: s in taxes && t in taxes && s.id == t.id ==> s == t)
    }

    constructor ()
      ensures Valid() && taxes == []
    {
      taxes := [];
      nextId := 1;
    }

    /** createMultipleTaxEntities: the two-by-three nested loop builds the expansion. */
    method CreateMultipleTaxEntities(entity: Tax) returns (taxList: seq<Tax>)
      ensures taxList == Expansion(entity.tax)
    {
      var e := Expansion(entity.tax);
      taxList := [];
      var i := 0;
      while i < |TAX_INCLUDEDS|
        invariant 0 <= i <= 2
        invariant taxList == e[..3 * i]
      {
        var j := 0;
        while j < |ROUNDINGS|
          invariant 0 <= j <= 3
          invariant taxList == e[..3 * i + j]
        {
          assert (3 * i + j) / 3 == i && (3 * i + j) % 3 == j;
          taxList := taxList + [Tax(None, entity.tax, TAX_INCLUDEDS[i], ROUNDINGS[j])];
          assert e[..3 * i + j + 1] == e[..3 * i + j] + [e[3 * i + j]];
          j := j + 1;
        }
        i := i + 1;
      }
    }

    /**
      create: a rate already stored is refused and nothing changes;
      otherwise its six rows are saved with the next ids.
    */
    method Create(entity: Tax) returns (saved: bool)
      requires Valid()
      modifies this
      ensures Valid()
      ensures saved <==> !HasRate(old(taxes), entity.tax)
      ensures !saved ==> taxes == old(taxes) && nextId == old(nextId)
      ensures saved ==> taxes == old(taxes) + Saved(Expansion(entity.tax), old(nextId)) && nextId == old(nextId) + 6
    {
      if HasRate(taxes, entity.tax) {
        return false;
      }
      var taxList := CreateMultipleTaxEntities(entity);
      var added := Saved(taxList, nextId);
      SavedKeepsValid(taxes, nextId, taxList);
      taxes := taxes + added;
      nextId := nextId + |taxList|;
      saved := true;
    }

    /** index: one row per rate, the first of each in findAll order. */
    method Index() returns (unique: seq<Tax>)
      ensures unique == FirstPerRate(taxes)
    {
      var seen: set<int> := {};
      unique := [];
      var i := 0;
      while i < |taxes|
        invariant 0 <= i <= |taxes|
        invariant unique == FirstPerRate(taxes[..i]) && seen == Rates(taxes[..i])
      {
        var tax := taxes[i];
        assert taxes[..i + 1] == taxes[..i] + [tax];
        FirstPerRateStep(taxes[..i], tax);
        RatesAppend(taxes[..i], tax);
        if tax.tax !in seen {
          unique := unique + [tax];
        }
        seen := seen + {tax.tax};
        i := i + 1;
      }
      assert taxes[..i] == taxes;
    }

    /**
      delete: an unknown id changes nothing; a known row is deleted by id
      and then every row of its rate.
    */
    method Delete(id: int)
      requires Valid()
      modifies this
      ensures Valid() && nextId == old(nextId)
      ensures FindById(old(taxes), id).None? ==> taxes == old(taxes)
      ensures FindById(old(taxes), id).Some? ==>
                taxes == WithoutRate(WithoutId(old(taxes), id), FindById(old(taxes), id).value.tax)
    {
      var entity := FindById(taxes, id);
      if entity.Some? {
        taxes := WithoutId(taxes, id);
        taxes := WithoutRate(taxes, entity.value.tax);
      }
    }
  }

  /** Each saved row has an id from nextId on. */
  lemma SavedIds(rows: seq<Tax>, nextId: int)
    ensures forall t :: t in Saved(rows, nextId) ==>
              t.id.Some? && nextId <= t.id.value < nextId + |rows|
  {
    var added := Saved(rows, nextId);
    forall t | t in added
      ensures t.id.Some? && nextId <= t.id.value < nextId + |rows|
    {
      var k :| 0 <= k < |rows| && t == added[k];
      assert t.id == Some(nextId + k);
    }
  }

  /** Rows saved with ids from nextId on keep ids unique and below the new nextId. */
  lemma SavedKeepsValid(taxes: seq<Tax>, nextId: int, rows: seq<Tax>)
    requires forall t :: t in taxes ==> t.id.Some? && t.id.value < nextId
    requires forall s, t :: s in taxes && t in taxes && s.id == t.id ==> s == t
    ensures var all := taxes + Saved(rows, nextId);
            && (forall t :: t in all ==> t.id.Some? && t.id.value < nextId + |rows|)
            && (forall s, t :: s in all && t in all && s.id == t.id ==> s == t)
  {
    var added := Saved(rows, nextId);
    SavedIds(rows, nextId);
    var all := taxes + added;
    forall t | t in all ensures t.id.Some? && t.id.value < nextId + |rows| {
      assert t in taxes || t in added;
    }
    forall s, t | s in added && t in added && s.id == t.id ensures s == t {
      var i :| 0 <= i < |added| && added[i] == s;
      var j :| 0 <= j < |added| && added[j] == t;
      assert s.id == Some(nextId + i) && t.id == Some(nextId + j);
      assert i == j;
    }
    forall s, t | s in taxes && t in added ensures s.id != t.id && t.id != s.id {
    }
    forall s, t | s in all && t in all && s.id == t.id ensures s == t {
      assert s in taxes || s in added;
      assert t in taxes || t in added;
    }
  }

  /** After a create, the rate is stored once per (tax included, rounding) pair. */
  lemma CreateStoresEveryPair(taxes: seq<Tax>, nextId: int, rate: int)
    requires !HasRate(taxes, rate)
    ensures var after := taxes + Saved(Expansion(rate), nextId);
            && HasRate(after, rate)
            && (forall t :: t in after && t.tax == rate ==> t in Saved(Expansion(rate), nextId))
            && (forall k :: 0 <= k < 6 ==>
                  after[|taxes| + k].tax == rate && after[|taxes| + k].taxIncluded == (k >= 3)
                  && after[|taxes| + k].rounding == ROUNDINGS[k % 3])
  {
    ExpansionCoversEachPairOnce(rate);
    var added := Saved(Expansion(rate), nextId);
    var after := taxes + added;
    assert after[|taxes|] == added[0];
    forall k | 0 <= k < 6 ensures after[|taxes| + k] == added[k] { }
  }

  /** A deleted rate has no row left; every row of another rate stays, in order. */
  lemma DeleteRemovesRate(taxes: seq<Tax>, id: int)
    requires forall s, t :: s in taxes && t in taxes && s.id == t.id ==> s == t
    requires FindById(taxes, id).Some?
    ensures var rate := FindById(taxes, id).value.tax;
            var after := WithoutRate(WithoutId(taxes, id), rate);
            && !HasRate(after, rate)
            && (forall t :: t in taxes && t.tax != rate ==> t in after)
            && Subsequence(after, taxes)
  {
    var found := FindById(taxes, id).value;
    DeleteByIdThenRate(taxes, id, found.tax);
  }
}
