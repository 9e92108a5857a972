/**
 The employee record shared by the full-time and part-time variants
 (`full_time.rs` and `part_time.rs`).

 Both variants hold the same five fields and implement `enter_hours` and
 `receive_payment` identically; they differ only in the salary type fixed at
 construction. The model therefore uses one record whose `salaryType` field is
 the tag, and one definition of each operation.
 */
module Staff {
  import opened Common

  datatype Employee = Employee(
    name: string,
    hoursWorked: nat,
    paidForPeriod: bool,
    salaryType: SalaryType,
    totalPay: int)

  /** A freshly constructed employee of the given salary type. */
  function Fresh(name: string, salaryType: SalaryType): (e: Employee)
    ensures e.name == name && e.salaryType == salaryType
    ensures e.hoursWorked == 0 && e.totalPay == 0 && !e.paidForPeriod
  {
    Employee(name, 0, false, salaryType, 0)
  }

  /** What the next payout pays this employee. */
  function Payment(e: Employee): (cents: nat)
  {
    CalculatePayment(e.salaryType, e.hoursWorked)
  }

  /** Records `hours` more hours worked. */
  function EnterHours(e: Employee, hours: nat): (r: Employee)
    ensures r.hoursWorked == e.hoursWorked + hours
    ensures r.name == e.name && r.salaryType == e.salaryType
    ensures r.totalPay == e.totalPay && r.paidForPeriod == e.paidForPeriod
  {
    e.(hoursWorked := e.hoursWorked + hours)
  }

  /** Accepts a payment: the amount is added to the running total and the
      employee is marked paid. The amount is not checked against `Payment`. */
  function ReceivePayment(e: Employee, amount: int): (r: Employee)
    ensures r.totalPay == e.totalPay + amount && r.paidForPeriod
    ensures r.name == e.name && r.salaryType == e.salaryType
    ensures r.hoursWorked == e.hoursWorked
  {
    e.(totalPay := e.totalPay + amount, paidForPeriod := true)
  }

  /** The payment depends on the salary type and the hours only: neither the
      running total nor the paid flag influences it. */
  lemma PaymentDependsOnlyOnTypeAndHours(e1: Employee, e2: Employee)
    requires e1.salaryType == e2.salaryType && e1.hoursWorked == e2.hoursWorked
    ensures Payment(e1) == Payment(e2)
  {
  }

  /** Receiving a payment does not reset the hours, so the next payout owes
      the same amount again. */
  lemma ReceivePaymentKeepsPayment(e: Employee, amount: int)
    ensures Payment(ReceivePayment(e, amount)) == Payment(e)
  {
  }

  /** One step in an employee's life: hours entered or a payment received. */
  datatype Event = HoursEntered(hours: nat) | PaymentReceived(amount: int)

  function Apply(e: Employee, ev: Event): Employee
  {
    match ev
    case HoursEntered(h) => EnterHours(e, h)
    case PaymentReceived(a) => ReceivePayment(e, a)
  }

  /** The employee after the events, applied in order. */
  function Run(e: Employee, events: seq<Event>): Employee
    decreases |events|
  {
    if events == [] then e else Run(Apply(e, events[0]), events[1..])
  }

  /** Total hours entered by the events. */
  function HoursIn(events: seq<Event>): nat
  {
    if events == [] then 0
    else (if events[0].HoursEntered? then events[0].hours else 0) + HoursIn(events[1..])
  }

  /** Total amount paid by the events. */
  function PaidIn(events: seq<Event>): int
  {
    if events == [] then 0
    else (if events[0].PaymentReceived? then events[0].amount else 0) + PaidIn(events[1..])
  }

  predicate HasPayment(events: seq<Event>)
  {
    exists i | 0 <= i < |events| :: events[i].PaymentReceived?
  }

  /** Any run of events accumulates exactly: the hours grow by the sum of the
      hours entered, the total by the sum of the amounts received, the paid
      flag is set exactly when it was already set or some payment arrived,
      and name and salary type never change. */
  lemma {:induction false} RunAccumulates(e: Employee, events: seq<Event>)
    ensures Run(e, events).hoursWorked == e.hoursWorked + HoursIn(events)
    ensures Run(e, events).totalPay == e.totalPay + PaidIn(events)
    ensures Run(e, events).paidForPeriod <==> e.paidForPeriod || HasPayment(events)
    ensures Run(e, events).name == e.name
    ensures Run(e, events).salaryType == e.salaryType
    decreases |events|
  {
    if events != [] {
      var tail := events[1..];
      RunAccumulates(Apply(e, events[0]), tail);
      if HasPayment(tail) {
        var j :| 0 <= j < |tail| && tail[j].PaymentReceived?;
        assert events[j + 1] == tail[j];
      }
      if HasPayment(events) && !events[0].PaymentReceived? {
        var j :| 0 <= j < |events| && events[j].PaymentReceived?;
        assert j != 0 && tail[j - 1] == events[j];
      }
    }
  }

  /** Once paid, always paid: no operation clears the flag. */
  lemma PaidFlagIsSticky(e: Employee, events: seq<Event>)
    requires e.paidForPeriod
    ensures Run(e, events).paidForPeriod
  {
    RunAccumulates(e, events);
  }

  /** Hours never decrease, and with no negative payment neither does the total. */
  lemma RunIsMonotone(e: Employee, events: seq<Event>)
    requires forall i | 0 <= i < |events| :: events[i].PaymentReceived? ==> events[i].amount >= 0
    ensures Run(e, events).hoursWorked >= e.hoursWorked
    ensures Run(e, events).totalPay >= e.totalPay
  {
    RunAccumulates(e, events);
    PaidInNonNegative(events);
  }

  lemma {:induction false} PaidInNonNegative(events: seq<Event>)
    requires forall i | 0 <= i < |events| :: events[i].PaymentReceived? ==> events[i].amount >= 0
    ensures PaidIn(events) >= 0
    decreases |events|
  {
    if events != [] {
      var tail := events[1..];
      forall i | 0 <= i < |tail| && tail[i].PaymentReceived?
        ensures tail[i].amount >= 0
      {
        assert tail[i] == events[i + 1];
      }
      PaidInNonNegative(tail);
    }
  }
}
