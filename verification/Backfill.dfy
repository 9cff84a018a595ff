/** The phase-4 migration: a database loop that gives every old user an account number. */
module Backfill {
  import opened Bank
  import opened Collections
  import opened Text

  const MAX_ATTEMPTS: nat := 100

  /** floor(random()*1e12) */
  type Number = n: nat | n < 1_000_000_000_000

  /** users.account_number, NULL for a user of version 1. */
  type Column = map<UserId, Option<string>>

  predicate Has(column: Column, number: string) {
    exists id :: id in column && column[id] == Some(number)
  }

  /** lpad(n::text, width, '0') for an n of at most `width` digits. */
  function Padded(n: nat, width: nat): (s: string)
    ensures |s| == width && forall i :: 0 <= i < width ==> IsDigit(s[i])
  {
    if width == 0 then "" else Padded(n / 10, width - 1) + [DigitOf(n % 10)]
  }

  function Power10(width: nat): nat {
    if width == 0 then 1 else 10 * Power10(width - 1)
  }

  /** No digit is lost: the padded text is read back as the number. */
  lemma {:induction false} PaddedReads(n: nat, width: nat)
    requires n < Power10(width)
    ensures ValueOf(Padded(n, width)) == n
  {
    if width > 0 {
      PaddedReads(n / 10, width - 1);
      DigitReads(n % 10);
      assert Padded(n, width)[..width - 1] == Padded(n / 10, width - 1);
    }
  }

  /** Different draws give different account numbers. */
  lemma PaddedDiffers(a: Number, b: Number)
    requires Padded(a, 12) == Padded(b, 12)
    ensures a == b
  {
    assert Power10(12) == 1_000_000_000_000;
    PaddedReads(a, 12);
    PaddedReads(b, 12);
  }

  /** No number is borne twice. */
  ghost predicate AllDistinct(column: Column) {
    forall a, b :: a in column && b in column && a != b && column[a].Some? ==> column[a] != column[b]
  }

  function Missing(column: Column): set<UserId> {
    set id | id in column && column[id].None?
  }

  /** `after` is `before` with some of the missing numbers filled in, each with twelve digits and borne by
      nobody else. */
  ghost predicate FillsIn(before: Column, after: Column) {
    && after.Keys == before.Keys
    && (forall id :: id in before && before[id].Some? ==> after[id] == before[id])
    && (forall id :: id in before && before[id].None? && after[id].Some? ==>
         && IsAccountNumber(after[id].value)
         && forall other :: other in after && other != id ==> after[other] != after[id])
  }

  /** A hundred numbers drawn in a row, from the k-th on, were all taken. */
  ghost predicate Clashes(column: Column, draw: nat -> Number, k: nat) {
    forall j :: k <= j < k + MAX_ATTEMPTS ==> Has(column, Padded(draw(j), 12))
  }

  /** The migration raised: that happened in the column as filled in so far. */
  ghost predicate GaveUp(column: Column, draw: nat -> Number) {
    exists k: nat, partial :: FillsIn(column, partial) && Clashes(partial, draw, k)
  }

  lemma FillOne(before: Column, after: Column, id: UserId, number: string)
    requires FillsIn(before, after) && id in after && after[id].None? && IsAccountNumber(number) && !Has(after, number)
    ensures FillsIn(before, after[id := Some(number)])
  {
  }

  /** The inner loop: draw until a number is free, at most a hundred times. `draw(k)` is the k-th random number. */
  method DrawFree(column: Column, draw: nat -> Number, k: nat) returns (number: Option<string>, next: nat)
    ensures number.Some? ==> IsAccountNumber(number.value) && !Has(column, number.value)
    ensures number.None? ==> Clashes(column, draw, k) && next == k + 100
    ensures number.Some? ==> k < next <= k + 100 && number.value == Padded(draw(next - 1), 12)
    ensures forall j :: k <= j < next - 1 ==> Has(column, Padded(draw(j), 12))
  {
    var attempts := 0;
    next := k;
    while true
      invariant attempts < MAX_ATTEMPTS && next == k + attempts
      invariant forall j :: k <= j < next ==> Has(column, Padded(draw(j), 12))
      decreases MAX_ATTEMPTS - attempts
    {
      var candidate := Padded(draw(next), 12);
      next := next + 1;
      if !Has(column, candidate) {
        return Some(candidate), next;
      }
      attempts := attempts + 1;
      if attempts >= MAX_ATTEMPTS {
        return None, next;
      }
    }
  }

  /** The outer loop. None stands for the exception, which undoes everything. */
  method Run(column: Column, draw: nat -> Number) returns (result: Option<Column>)
    ensures result.Some? ==> FillsIn(column, result.value) && Missing(result.value) == {}
    ensures result.Some? && AllDistinct(column) ==> AllDistinct(result.value)
    ensures result.None? ==> GaveUp(column, draw)
    ensures Missing(column) == {} ==> result == Some(column)
  {
    var filled := column;
    var todo := Missing(column);
    var k := 0;
    while todo != {}
      invariant FillsIn(column, filled) && todo == Missing(filled)
      invariant Missing(column) == {} ==> filled == column
      decreases todo
    {
      var id :| id in todo;
      var number;
      number, k := DrawFree(filled, draw, k);
      if number.None? {
        return None;
      }
      FillOne(column, filled, id, number.value);
      filled := filled[id := number];
      todo := todo - {id};
    }
    return Some(filled);
  }
}
