/**
 * The inline loan close-of-business executor's choice of where to start:
 * the oldest last-closed business date among the loans it is given, where a
 * loan that was never closed (a null date) takes no part. Dates are day
 * numbers (LocalDate.toEpochDay).
 */
module OldestBusinessDate {
  import opened Common

  datatype LoanIdAndLastClosedBusinessDate = LoanIdAndLastClosedBusinessDate(id: int, lastClosedBusinessDate: Option<int>)

  /** The loan has a last-closed business date. */
  predicate Closed(loan: LoanIdAndLastClosedBusinessDate) {
    loan.lastClosedBusinessDate.Some?
  }

  /** The earlier of two optional dates, where a missing date loses. */
  function Earlier(a: Option<int>, b: Option<int>): (r: Option<int>)
    ensures r.Some? <==> a.Some? || b.Some?
    ensures r == a || r == b
    ensures r.Some? && a.Some? ==> r.value <= a.value
    ensures r.Some? && b.Some? ==> r.value <= b.value
  {
    match (a, b)
    case (None, _) => b
    case (_, None) => a
    case (Some(x), Some(y)) => if y < x then b else a
  }

  /**
   * getOldestCOBBusinessDate: the earliest non-null last-closed business
   * date, or None when every loan's date is null.
   */
  function OldestCobBusinessDate(loans: seq<LoanIdAndLastClosedBusinessDate>): (r: Option<int>)
    ensures r.Some? <==> exists i :: 0 <= i < |loans| && Closed(loans[i])
    ensures r.Some? ==> exists i :: 0 <= i < |loans| && loans[i].lastClosedBusinessDate == r
    ensures r.Some? ==> forall i :: 0 <= i < |loans| && Closed(loans[i]) ==> r.value <= loans[i].lastClosedBusinessDate.value
  {
    if loans == [] then None
    else
      var rest := OldestCobBusinessDate(loans[1..]);
      assert forall i :: 1 <= i < |loans| ==> loans[i] == loans[1..][i - 1];
      assert rest.Some? ==> exists i :: 1 <= i < |loans| && loans[i].lastClosedBusinessDate == rest;
      Earlier(loans[0].lastClosedBusinessDate, rest)
  }

  /** The oldest date of two lists put together is the earlier of their oldest dates. */
  lemma {:induction false} OldestOfConcatenation(a: seq<LoanIdAndLastClosedBusinessDate>, b: seq<LoanIdAndLastClosedBusinessDate>)
    ensures OldestCobBusinessDate(a + b) == Earlier(OldestCobBusinessDate(a), OldestCobBusinessDate(b))
  {
    if a != [] {
      assert (a + b)[1..] == a[1..] + b;
      OldestOfConcatenation(a[1..], b);
      EarlierAssociative(a[0].lastClosedBusinessDate, OldestCobBusinessDate(a[1..]), OldestCobBusinessDate(b));
    } else {
      assert a + b == b;
    }
  }

  lemma EarlierAssociative(x: Option<int>, y: Option<int>, z: Option<int>)
    ensures Earlier(x, Earlier(y, z)) == Earlier(Earlier(x, y), z)
  {
  }

  /** The order the loans come in does not change the answer. */
  lemma OrderIrrelevant(a: seq<LoanIdAndLastClosedBusinessDate>, b: seq<LoanIdAndLastClosedBusinessDate>)
    ensures OldestCobBusinessDate(a + b) == OldestCobBusinessDate(b + a)
  {
    OldestOfConcatenation(a, b);
    OldestOfConcatenation(b, a);
  }

  /** A loan with a null date, wherever it is inserted, is ignored. */
  lemma NullDateIgnored(a: seq<LoanIdAndLastClosedBusinessDate>, id: int, b: seq<LoanIdAndLastClosedBusinessDate>)
    ensures OldestCobBusinessDate(a + [LoanIdAndLastClosedBusinessDate(id, None)] + b) == OldestCobBusinessDate(a + b)
  {
    var loan := [LoanIdAndLastClosedBusinessDate(id, None)];
    OldestOfConcatenation(a + loan, b);
    OldestOfConcatenation(a, loan);
    OldestOfConcatenation(a, b);
  }

  /** 2023-01-10 and 2023-01-11 as epoch days. */
  const January10th2023: int := 19367
  const January11th2023: int := 19368

  /** The asserted example: a null date, 2023-01-10 and 2023-01-11 give 2023-01-10. */
  lemma TestExample(id1: int, id2: int, id3: int)
    ensures OldestCobBusinessDate([
              LoanIdAndLastClosedBusinessDate(id1, None),
              LoanIdAndLastClosedBusinessDate(id2, Some(January10th2023)),
              LoanIdAndLastClosedBusinessDate(id3, Some(January11th2023))])
            == Some(January10th2023)
  {
  }
}
