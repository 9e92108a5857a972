/**
 The manager: owns the ordered list of employees, enters their hours and
 runs the payout. Insertion order is the order of hours entry and payment.
 The manager keeps its own name and hours but is never paid.
 */
module Managers {
  import opened Common
  import opened Staff
  import FullTime
  import PartTime

  datatype Manager = Manager(name: string, employees: seq<Employee>, hoursWorked: nat)

  /** Entering hours for a list whose length is not the number of employees
      is refused; the error records both lengths. */
  datatype HoursError = LengthMismatch(given: nat, employeeCount: nat)

  datatype HoursResult<T> = Ok(value: T) | Err(error: HoursError)

  /** A new manager with no employees and no hours. */
  function New(name: string): (m: Manager)
    ensures m.name == name && m.employees == [] && m.hoursWorked == 0
  {
    Manager(name, [], 0)
  }

  /** Appends an employee at the end; no duplicate check, no limit. */
  function AddEmployee(m: Manager, e: Employee): (r: Manager)
    ensures |r.employees| == |m.employees| + 1
    ensures r.employees[..|m.employees|] == m.employees
    ensures r.employees[|m.employees|] == e
    ensures r.name == m.name && r.hoursWorked == m.hoursWorked
  {
    m.(employees := m.employees + [e])
  }

  /** Adds the employees one after another. */
  function AddAll(m: Manager, es: seq<Employee>): Manager
    decreases |es|
  {
    if es == [] then m else AddAll(AddEmployee(m, es[0]), es[1..])
  }

  /** Adding employees one at a time keeps them in insertion order after the
      ones already there, and leaves the manager's own state alone. */
  lemma {:induction false} AddAllAppendsInOrder(m: Manager, es: seq<Employee>)
    ensures AddAll(m, es).employees == m.employees + es
    ensures AddAll(m, es).name == m.name && AddAll(m, es).hoursWorked == m.hoursWorked
    decreases |es|
  {
    if es != [] {
      AddAllAppendsInOrder(AddEmployee(m, es[0]), es[1..]);
      assert m.employees + [es[0]] + es[1..] == m.employees + es;
    }
  }

  function NumEmployees(m: Manager): nat
  {
    |m.employees|
  }

  /** The count starts at zero, grows by one with each added employee, and
      no other operation changes it. */
  lemma NumEmployeesTracksOperations(m: Manager, e: Employee, hours: seq<nat>, h: nat, name: string)
    ensures NumEmployees(New(name)) == 0
    ensures NumEmployees(AddEmployee(m, e)) == NumEmployees(m) + 1
    ensures EnterEmpHours(m, hours).Ok? ==>
              NumEmployees(EnterEmpHours(m, hours).value) == NumEmployees(m)
    ensures NumEmployees(PayOut(m)) == NumEmployees(m)
    ensures NumEmployees(EnterHours(m, h)) == NumEmployees(m)
  {
  }

  /** A new manager given employees one by one counts exactly those. */
  lemma CountTracksAdditions(name: string, es: seq<Employee>)
    ensures NumEmployees(AddAll(New(name), es)) == |es|
    ensures AddAll(New(name), es).employees == es
  {
    AddAllAppendsInOrder(New(name), es);
  }

  /** The employees after the i-th one is given hours[i] more hours. */
  function EnterAll(es: seq<Employee>, hours: seq<nat>): (r: seq<Employee>)
    requires |hours| == |es|
    ensures |r| == |es|
    ensures forall i | 0 <= i < |es| :: r[i].hoursWorked == es[i].hoursWorked + hours[i]
    ensures forall i | 0 <= i < |es| ::
              && r[i].name == es[i].name && r[i].salaryType == es[i].salaryType
              && r[i].totalPay == es[i].totalPay && r[i].paidForPeriod == es[i].paidForPeriod
  {
    seq(|es|, i requires 0 <= i < |es| => Staff.EnterHours(es[i], hours[i]))
  }

  /** Enters hours position by position. A list whose length differs from the
      number of employees is refused before anything is applied. */
  function EnterEmpHours(m: Manager, hours: seq<nat>): (r: HoursResult<Manager>)
    ensures r.Err? <==> |hours| != |m.employees|
    ensures r.Err? ==> r.error == LengthMismatch(|hours|, |m.employees|)
    ensures r.Ok? ==> && r.value.name == m.name && r.value.hoursWorked == m.hoursWorked
                      && r.value.employees == EnterAll(m.employees, hours)
  {
    if |hours| != |m.employees| then Err(LengthMismatch(|hours|, |m.employees|))
    else Ok(m.(employees := EnterAll(m.employees, hours)))
  }

  /** The in-order loop over (hours, employee) pairs computes the same result
      as entering every employee's hours at once. */
  method EnterEmpHoursLoop(m: Manager, hours: seq<nat>) returns (r: HoursResult<Manager>)
    ensures r == EnterEmpHours(m, hours)
  {
    if |hours| != |m.employees| {
      return Err(LengthMismatch(|hours|, |m.employees|));
    }
    var es := m.employees;
    var i := 0;
    while i < |es|
      invariant 0 <= i <= |es| == |m.employees|
      invariant forall j | 0 <= j < i :: es[j] == Staff.EnterHours(m.employees[j], hours[j])
      invariant forall j | i <= j < |es| :: es[j] == m.employees[j]
    {
      es := es[i := Staff.EnterHours(es[i], hours[i])];
      i := i + 1;
    }
    assert es == EnterAll(m.employees, hours);
    r := Ok(m.(employees := es));
  }

  /** An employee after being paid what it is owed. */
  function Paid(e: Employee): Employee
  {
    ReceivePayment(e, Payment(e))
  }

  /** Every employee paid once, each by its own payment. */
  function PayAll(es: seq<Employee>): (r: seq<Employee>)
    ensures |r| == |es|
    ensures forall i | 0 <= i < |es| ::
              && r[i].totalPay == es[i].totalPay + Payment(es[i]) && r[i].paidForPeriod
              && r[i].hoursWorked == es[i].hoursWorked
              && r[i].name == es[i].name && r[i].salaryType == es[i].salaryType
  {
    seq(|es|, i requires 0 <= i < |es| => Paid(es[i]))
  }

  /** Pays every employee what its state before the payout says it is owed,
      and marks it paid. Hours are not reset. */
  function PayOut(m: Manager): (r: Manager)
    ensures r.name == m.name && r.hoursWorked == m.hoursWorked
    ensures r.employees == PayAll(m.employees)
  {
    m.(employees := PayAll(m.employees))
  }

  /** The loop in `pay_out` computes each payment from the employee's current
      state just before paying it; since the loop touches each employee once,
      that is the same as paying everyone from the pre-payout state. */
  method PayOutLoop(m: Manager) returns (r: Manager)
    ensures r == PayOut(m)
  {
    var es := m.employees;
    var i := 0;
    while i < |es|
      invariant 0 <= i <= |es| == |m.employees|
      invariant forall j | 0 <= j < i :: es[j] == Paid(m.employees[j])
      invariant forall j | i <= j < |es| :: es[j] == m.employees[j]
    {
      var amount := Payment(es[i]);
      es := es[i := ReceivePayment(es[i], amount)];
      i := i + 1;
    }
    r := m.(employees := es);
  }

  /** The manager's own hours; they change nothing about the employees. */
  function EnterHours(m: Manager, hours: nat): (r: Manager)
    ensures r.hoursWorked == m.hoursWorked + hours
    ensures r.name == m.name && r.employees == m.employees
  {
    m.(hoursWorked := m.hoursWorked + hours)
  }

  /** The manager is never paid: its own hours have no effect on what a
      payout pays or on the result of entering employee hours. */
  lemma ManagerHoursNeverPaid(m: Manager, h: nat, hours: seq<nat>)
    ensures PayOut(EnterHours(m, h)).employees == PayOut(m).employees
    ensures PayrollCost(EnterHours(m, h).employees) == PayrollCost(m.employees)
    ensures EnterEmpHours(EnterHours(m, h), hours).Ok? <==> EnterEmpHours(m, hours).Ok?
    ensures EnterEmpHours(m, hours).Ok? ==>
              EnterEmpHours(EnterHours(m, h), hours).value.employees
              == EnterEmpHours(m, hours).value.employees
  {
  }

  /** Sum of everything paid so far to the employees. */
  function TotalPaid(es: seq<Employee>): int
  {
    if es == [] then 0 else es[0].totalPay + TotalPaid(es[1..])
  }

  /** What one payout costs: the sum of the employees' payments. */
  function PayrollCost(es: seq<Employee>): nat
  {
    if es == [] then 0 else Payment(es[0]) + PayrollCost(es[1..])
  }

  /** A payout raises the total paid by exactly the payroll cost. */
  lemma {:induction false} PayAllPaysPayroll(es: seq<Employee>)
    ensures TotalPaid(PayAll(es)) == TotalPaid(es) + PayrollCost(es)
    decreases |es|
  {
    if es != [] {
      assert PayAll(es)[1..] == PayAll(es[1..]);
      PayAllPaysPayroll(es[1..]);
    }
  }

  /** A payout leaves the payroll cost unchanged: the next payout owes the
      same amounts again. */
  lemma {:induction false} PayAllKeepsPayroll(es: seq<Employee>)
    ensures PayrollCost(PayAll(es)) == PayrollCost(es)
    decreases |es|
  {
    if es != [] {
      assert PayAll(es)[1..] == PayAll(es[1..]);
      PayAllKeepsPayroll(es[1..]);
    }
  }

  /** The payout in manager terms: the company pays out exactly its payroll
      cost, every employee is marked paid, and the count is unchanged. */
  lemma PayOutPaysPayroll(m: Manager)
    ensures TotalPaid(PayOut(m).employees) == TotalPaid(m.employees) + PayrollCost(m.employees)
    ensures NumEmployees(PayOut(m)) == NumEmployees(m)
    ensures forall i | 0 <= i < |m.employees| :: PayOut(m).employees[i].paidForPeriod
  {
    PayAllPaysPayroll(m.employees);
  }

  /** Two payouts in a row with no hours entered in between pay the same
      amounts twice: each employee's total grows by twice its payment. */
  lemma PayOutTwicePaysTwice(m: Manager)
    ensures var twice := PayOut(PayOut(m));
            && |twice.employees| == |m.employees|
            && (forall i | 0 <= i < |m.employees| ::
                  twice.employees[i].totalPay == m.employees[i].totalPay + 2 * Payment(m.employees[i]))
            && TotalPaid(twice.employees) == TotalPaid(m.employees) + 2 * PayrollCost(m.employees)
  {
    PayAllPaysPayroll(m.employees);
    PayAllKeepsPayroll(m.employees);
    PayAllPaysPayroll(PayAll(m.employees));
  }

  /** A manager starts with Bob (full-time) and Carol (part-time), enters 0 and
      15 hours, and pays out: Bob gets 80000.00 and Carol 300.00. */
  lemma PayrollScenario()
    ensures var bob := FullTime.New("Bob");
            var carol := PartTime.New("Carol");
            var m := AddEmployee(AddEmployee(New("Alice"), bob), carol);
            var entered := EnterEmpHours(m, [0, 15]);
            && m.employees == [bob, carol]
            && NumEmployees(m) == 2
            && entered.Ok?
            && var paid := PayOut(entered.value);
               && |paid.employees| == 2
               && paid.employees[0].totalPay == 8_000_000
               && paid.employees[1].totalPay == 30_000
               && paid.employees[0].paidForPeriod && paid.employees[1].paidForPeriod
  {
  }

  /** A salaried employee and an hourly one with 10 hours, whatever else
      their state: a payout pays the first 80000.00 and the second 200.00. */
  lemma SalariedAndHourlyPayout(m: Manager)
    requires |m.employees| == 2
    requires m.employees[0].salaryType == Salaried
    requires m.employees[1].salaryType == Hourly && m.employees[1].hoursWorked == 10
    ensures PayOut(m).employees[0].totalPay == m.employees[0].totalPay + 8_000_000
    ensures PayOut(m).employees[1].totalPay == m.employees[1].totalPay + 20_000
    ensures PayOut(m).employees[0].paidForPeriod && PayOut(m).employees[1].paidForPeriod
  {
  }

  /** Entering hours for the wrong number of employees is refused. */
  lemma MismatchedHoursRefused()
    ensures EnterEmpHours(AddEmployee(New("Alice"), FullTime.New("Bob")), [1, 2])
         == Err(LengthMismatch(2, 1))
  {
  }
}
