/** The full-time employee: salaried from construction on. */
module FullTime {
  import opened Common
  import opened Staff

  /** A new full-time employee: no hours, never paid, salaried, nothing earned. */
  function New(name: string): (e: Employee)
    ensures e.name == name && e.hoursWorked == 0 && !e.paidForPeriod
    ensures e.salaryType == Salaried && e.totalPay == 0
  {
    Fresh(name, Salaried)
  }

  /** Entering hours never changes what a salaried employee is owed. */
  lemma EnterHoursLeavesPayment(e: Employee, hours: nat)
    requires e.salaryType == Salaried
    ensures Payment(EnterHours(e, hours)) == Payment(e) == SalaryCents
  {
  }

  /** Whatever happens to a full-time employee, it stays salaried and every
      payout owes it exactly the salary. */
  lemma AlwaysSalaried(name: string, events: seq<Event>)
    ensures Run(New(name), events).salaryType == Salaried
    ensures Payment(Run(New(name), events)) == SalaryCents
  {
    RunAccumulates(New(name), events);
  }

  /** After any run of events a new full-time employee's total is exactly the
      sum of the amounts received, its hours the sum of the hours entered, and
      it is marked paid exactly when some payment arrived. */
  lemma PaymentsAccumulate(name: string, events: seq<Event>)
    ensures Run(New(name), events).totalPay == PaidIn(events)
    ensures Run(New(name), events).hoursWorked == HoursIn(events)
    ensures Run(New(name), events).paidForPeriod <==> HasPayment(events)
  {
    RunAccumulates(New(name), events);
  }
}
