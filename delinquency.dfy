/**
 * The overdue collection data of a loan whose schedule is one unpaid
 * installment and whose product grants no grace on arrears ageing: how many
 * days, and since which date, the loan is delinquent. Dates are day numbers;
 * the business date is a parameter.
 */
module Delinquency {
  import opened Common

  /** A repayment schedule installment, with the dates of the chargebacks mapped to it. */
  datatype Installment = Installment(installmentNumber: nat, fromDate: int, dueDate: int, obligationsMet: bool, chargebackDates: seq<int>)

  datatype CollectionData = CollectionData(delinquentDays: int, delinquentDate: Option<int>, pastDueDays: int)

  /**
   * getOverdueCollectionData for one unpaid installment: delinquent from its
   * due date on once that date is strictly past, with as many days as have
   * passed since; not delinquent otherwise. A chargeback mapped to an
   * installment that is not yet due does not make it delinquent.
   */
  function OverdueCollectionData(installment: Installment, businessDate: int): (c: CollectionData)
    requires !installment.obligationsMet
    requires installment.dueDate < businessDate ==> installment.chargebackDates == []
    ensures c.pastDueDays == c.delinquentDays
    ensures c.delinquentDays >= 0
    ensures c.delinquentDate.Some? <==> installment.dueDate < businessDate
    ensures c.delinquentDate.Some? <==> c.delinquentDays > 0
    ensures c.delinquentDate.Some? ==> c.delinquentDate.value == installment.dueDate
    ensures c.delinquentDate.Some? ==> c.delinquentDate.value + c.delinquentDays == businessDate
  {
    var overdueDays := businessDate - installment.dueDate;
    if overdueDays > 0 then CollectionData(overdueDays, Some(installment.dueDate), overdueDays)
    else CollectionData(0, None, 0)
  }

  /** An installment due on the business date is not yet delinquent. */
  lemma DueOnBusinessDate(installmentNumber: nat, fromDate: int, businessDate: int)
    ensures OverdueCollectionData(Installment(installmentNumber, fromDate, businessDate, false, []), businessDate)
            == CollectionData(0, None, 0)
  {
  }

  /** An installment due two days ago is two days delinquent, since its due date. */
  lemma DueTwoDaysAgo(installmentNumber: nat, fromDate: int, businessDate: int)
    ensures var dueDate := businessDate - 2;
            OverdueCollectionData(Installment(installmentNumber, fromDate, dueDate, false, []), businessDate)
            == CollectionData(2, Some(dueDate), 2)
  {
  }

  /** An installment due in two days stays non-delinquent although a chargeback two days ago is mapped to it. */
  lemma FutureInstallmentWithPastChargeback(installmentNumber: nat, fromDate: int, businessDate: int)
    ensures OverdueCollectionData(
              Installment(installmentNumber, fromDate, businessDate + 2, false, [businessDate - 2]), businessDate)
            == CollectionData(0, None, 0)
  {
  }

  /**
   * As the business date moves on by one day, an installment that is due by
   * then gains one day of delinquency and keeps its delinquent date.
   */
  lemma DelinquencyAgesByOneDayPerDay(installment: Installment, businessDate: int)
    requires !installment.obligationsMet && installment.chargebackDates == []
    requires installment.dueDate <= businessDate
    ensures var today := OverdueCollectionData(installment, businessDate);
            var tomorrow := OverdueCollectionData(installment, businessDate + 1);
            && tomorrow.delinquentDays == today.delinquentDays + 1
            && tomorrow.delinquentDate == Some(installment.dueDate)
  {
  }
}
