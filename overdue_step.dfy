/**
 * The close-of-business step that checks a loan's repayment schedule and
 * raises a "repayment overdue" business event for the first unpaid
 * installment whose due date lies exactly the configured number of days
 * before the business date. Dates are day numbers; the number of days and
 * the business date come from configuration and the thread's context and
 * are parameters here.
 */
module OverdueStep {
  import opened Common

  datatype Installment = Installment(installmentNumber: nat, dueDate: int, obligationsMet: bool)

  datatype Loan = Loan(id: int, installments: seq<Installment>)

  datatype BusinessEvent = LoanRepaymentOverdue(installment: Installment)

  /** The installment is unpaid and its due date plus the configured days is the business date. */
  predicate RaisesOverdue(installment: Installment, overdueDays: int, businessDate: int) {
    !installment.obligationsMet && installment.dueDate + overdueDays == businessDate
  }

  /** The position of the first installment, in schedule order, that raises the event. */
  function FirstOverdue(installments: seq<Installment>, overdueDays: int, businessDate: int): (r: Option<nat>)
    ensures r.Some? ==> r.value < |installments| && RaisesOverdue(installments[r.value], overdueDays, businessDate)
    ensures r.Some? ==> forall j :: 0 <= j < r.value ==> !RaisesOverdue(installments[j], overdueDays, businessDate)
    ensures r.None? ==> forall j :: 0 <= j < |installments| ==> !RaisesOverdue(installments[j], overdueDays, businessDate)
  {
    if installments == [] then None
    else if RaisesOverdue(installments[0], overdueDays, businessDate) then Some(0)
    else
      match FirstOverdue(installments[1..], overdueDays, businessDate)
      case None => None
      case Some(k) => Some(k + 1)
  }

  /** The events one run of the step posts: at most one, for the first qualifying installment. */
  function OverdueEvents(loan: Loan, overdueDays: int, businessDate: int): (events: seq<BusinessEvent>)
    ensures |events| <= 1
    ensures forall e :: e in events ==> e.installment in loan.installments
    ensures forall e :: e in events ==> RaisesOverdue(e.installment, overdueDays, businessDate)
    ensures events == [] <==> forall j :: 0 <= j < |loan.installments| ==> !RaisesOverdue(loan.installments[j], overdueDays, businessDate)
  {
    match FirstOverdue(loan.installments, overdueDays, businessDate)
    case None => []
    case Some(i) => [LoanRepaymentOverdue(loan.installments[i])]
  }

  /** The installments that raise the event, in schedule order. */
  function Qualifying(installments: seq<Installment>, overdueDays: int, businessDate: int): seq<Installment> {
    if installments == [] then []
    else
      (if RaisesOverdue(installments[0], overdueDays, businessDate) then [installments[0]] else [])
      + Qualifying(installments[1..], overdueDays, businessDate)
  }

  /** The event, when there is one, names the head of the qualifying installments. */
  lemma {:induction false} EventIsFirstQualifying(installments: seq<Installment>, overdueDays: int, businessDate: int)
    ensures var q := Qualifying(installments, overdueDays, businessDate);
            OverdueEvents(Loan(0, installments), overdueDays, businessDate)
            == (if q == [] then [] else [LoanRepaymentOverdue(q[0])])
  {
    if installments != [] && !RaisesOverdue(installments[0], overdueDays, businessDate) {
      EventIsFirstQualifying(installments[1..], overdueDays, businessDate);
    }
  }

  /** Installments after a qualifying prefix change nothing: the scan stops at the first hit. */
  lemma {:induction false} LaterInstallmentsIgnored(
    installments: seq<Installment>, later: seq<Installment>, overdueDays: int, businessDate: int)
    requires FirstOverdue(installments, overdueDays, businessDate).Some?
    ensures FirstOverdue(installments + later, overdueDays, businessDate)
         == FirstOverdue(installments, overdueDays, businessDate)
  {
    if !RaisesOverdue(installments[0], overdueDays, businessDate) {
      assert (installments + later)[1..] == installments[1..] + later;
      LaterInstallmentsIgnored(installments[1..], later, overdueDays, businessDate);
    }
  }

  /** Replacing an installment that does not qualify by another that does not qualify changes nothing. */
  lemma {:induction false} NonQualifyingInstallmentsIrrelevant(
    installments: seq<Installment>, k: nat, replacement: Installment, overdueDays: int, businessDate: int)
    requires k < |installments|
    requires !RaisesOverdue(installments[k], overdueDays, businessDate)
    requires !RaisesOverdue(replacement, overdueDays, businessDate)
    ensures FirstOverdue(installments[k := replacement], overdueDays, businessDate)
         == FirstOverdue(installments, overdueDays, businessDate)
  {
    if k > 0 && !RaisesOverdue(installments[0], overdueDays, businessDate) {
      assert installments[k := replacement][1..] == installments[1..][k - 1 := replacement];
      NonQualifyingInstallmentsIrrelevant(installments[1..], k - 1, replacement, overdueDays, businessDate);
    }
  }

  /** BusinessEventNotifierService: the events posted so far. */
  class BusinessEventNotifier {
    var posted: seq<BusinessEvent>

    constructor ()
      ensures posted == []
    {
      posted := [];
    }

    method NotifyPostBusinessEvent(event: BusinessEvent)
      modifies this
      ensures posted == old(posted) + [event]
    {
      posted := posted + [event];
    }
  }

  class CheckLoanRepaymentOverdueBusinessStep {
    const notifier: BusinessEventNotifier

    constructor (notifier: BusinessEventNotifier)
      ensures this.notifier == notifier
    {
      this.notifier := notifier;
    }

    /** Scans the schedule in order and posts one event for the first qualifying installment. */
    method Execute(loan: Loan, overdueDays: int, businessDate: int) returns (r: Loan)
      modifies notifier
      ensures r == loan
      ensures notifier.posted == old(notifier.posted) + OverdueEvents(loan, overdueDays, businessDate)
    {
      var installments := loan.installments;
      var i := 0;
      while i < |installments|
        invariant 0 <= i <= |installments|
        invariant forall j :: 0 <= j < i ==> !RaisesOverdue(installments[j], overdueDays, businessDate)
        invariant notifier.posted == old(notifier.posted)
      {
        var installment := installments[i];
        if !installment.obligationsMet {
          if installment.dueDate + overdueDays == businessDate {
            notifier.NotifyPostBusinessEvent(LoanRepaymentOverdue(installment));
            FirstOverdueAt(installments, i, overdueDays, businessDate);
            break;
          }
        }
        i := i + 1;
      }
      return loan;
    }

    /** The step's name in the business-step configuration, spelled as an enum constant. */
    function EnumStyledName(): (name: string)
      ensures EnumConstantSpelling(name)
      ensures name == "CHECK_LOAN_REPAYMENT_OVERDUE"
    {
      "CHECK_LOAN_REPAYMENT_OVERDUE"
    }

    /** The step's name for people: a capitalised phrase of lower-case words. */
    function HumanReadableName(): (name: string)
      ensures PhraseSpelling(name)
      ensures name == "Check loan repayment overdue"
    {
      "Check loan repayment overdue"
    }
  }

  /** A qualifying installment with none before it is the one FirstOverdue finds. */
  lemma {:induction false} FirstOverdueAt(installments: seq<Installment>, i: nat, overdueDays: int, businessDate: int)
    requires i < |installments| && RaisesOverdue(installments[i], overdueDays, businessDate)
    requires forall j :: 0 <= j < i ==> !RaisesOverdue(installments[j], overdueDays, businessDate)
    ensures FirstOverdue(installments, overdueDays, businessDate) == Some(i)
  {
    if i > 0 {
      FirstOverdueAt(installments[1..], i - 1, overdueDays, businessDate);
    }
  }

  /** Upper-case ASCII words joined by single underscores, as a Java enum constant is spelled. */
  predicate EnumConstantSpelling(name: string) {
    && |name| >= 1 && name[0] != '_' && name[|name| - 1] != '_'
    && (forall k :: 0 <= k < |name| ==> 'A' <= name[k] <= 'Z' || name[k] == '_')
    && (forall k :: 0 <= k < |name| - 1 ==> name[k] == '_' ==> name[k + 1] != '_')
  }

  /** A capital letter, then lower-case ASCII words joined by single spaces. */
  predicate PhraseSpelling(name: string) {
    && |name| >= 1 && 'A' <= name[0] <= 'Z' && name[|name| - 1] != ' '
    && (forall k :: 1 <= k < |name| ==> 'a' <= name[k] <= 'z' || name[k] == ' ')
    && (forall k :: 0 <= k < |name| - 1 ==> name[k] == ' ' ==> name[k + 1] != ' ')
  }
}
