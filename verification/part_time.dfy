/** The part-time employee: paid by the hour from construction on. */
module PartTime {
  import opened Common
  import opened Staff

  /** A new part-time employee: no hours, never paid, hourly, nothing earned. */
  function New(name: string): (e: Employee)
    ensures e.name == name && e.hoursWorked == 0 && !e.paidForPeriod
    ensures e.salaryType == Hourly && e.totalPay == 0
  {
    Fresh(name, Hourly)
  }

  /** Each hour entered for an hourly employee adds the hourly rate to what
      the next payout owes it. */
  lemma EnterHoursRaisesPayment(e: Employee, hours: nat)
    requires e.salaryType == Hourly
    ensures Payment(EnterHours(e, hours)) == Payment(e) + HourlyRateCents * hours
  {
    HourlyPaymentAdditive(e.hoursWorked, hours);
  }

  /** Receiving a payment does not reset an hourly employee's hours, so the
      same hours are paid for again at the next payout. */
  lemma ReceivePaymentDoesNotResetHours(e: Employee, amount: int)
    requires e.salaryType == Hourly
    ensures ReceivePayment(e, amount).hoursWorked == e.hoursWorked
    ensures Payment(ReceivePayment(e, amount)) == HourlyRateCents * e.hoursWorked
  {
  }

  /** A fresh part-time employee, after any run of events, stays hourly and is
      owed the hourly rate times every hour ever entered, payments received
      in between notwithstanding. */
  lemma OwedForAllHoursEntered(name: string, events: seq<Event>)
    ensures Run(New(name), events).salaryType == Hourly
    ensures Payment(Run(New(name), events)) == HourlyRateCents * HoursIn(events)
  {
    RunAccumulates(New(name), events);
  }
}
