# Payroll domain model

A Dafny model of the domain core of a small Rust console payroll program. A
manager adds full-time and part-time employees, enters their hours, and runs
a payout. Each employee's payment is computed from its salary type and then
added to its running total.

- `Common` (`common.rs`): the two pay rates and the pay rule
  `CalculatePayment`. Salaried employees get a fixed 80000.00. Hourly
  employees get 20.00 per hour worked.
- `Staff` (`employee_record.dfy`): the employee record that `FullTime` and
  `PartTime` (`full_time.rs`, `part_time.rs`) share. It
  holds a name, hours worked, a paid-for-period flag, a salary type and a
  total pay. The module also defines `enter_hours` and `receive_payment`,
  which both Rust variants implement identically, and `Run`, which applies any
  sequence of those two operations in order. The Rust trait objects
  (`Box<dyn NonManager>`) become this single datatype, and `salaryType` is its
  tag.
- `FullTime` and `PartTime`: the two constructors, and lemmas about each
  variant over its whole lifetime.
- `Managers` (`manager.rs`): the manager holds its name, its own hours and an
  ordered sequence of employees. It supports adding an employee, counting
  employees, entering hours position by position, paying out, and entering
  its own hours. The two Rust `for` loops are modelled as the methods
  `EnterEmpHoursLoop` and `PayOutLoop`. Each is proved equal to the pointwise
  function it implements.

Money is kept in integer cents: the salary is 8 000 000 and the hourly rate is
2 000. Every amount the program computes is a whole number of dollars. `SALARY`
is 80000.0, `HOURLY * hours` is 20.0 times a `u32`, and their sums are integers
too. An `f64` holds every integer below 2^53 exactly, so these amounts and their
running totals are exact for any realistic payroll. Counting them in cents
therefore loses nothing. Hours are `nat`.

When `enter_emp_hours` is given a list of the wrong length, the Rust code
fails an `assert_eq!` and panics, which ends the process. The model returns
`Err(LengthMismatch(given, employeeCount))` instead. That result holds no
manager, so no hours are applied.

## Model

| member | source | states |
|---|---|---|
| Common.SalariedPaymentIsSalary | src/common.rs:21-23 | `CalculatePayment` for a salaried employee is exactly 80000.00 for every number of hours, zero included |
| Common.HourlyPaymentIsRateTimesHours | src/common.rs:24 | `CalculatePayment` for an hourly employee is 20.00 times the hours, and it is zero exactly when the hours are zero |
| Common.PaymentMonotoneInHours | src/common.rs:21-25 | more hours never lower a payment; for hourly employees, strictly more hours pay strictly more |
| Common.HourlyPaymentAdditive | src/common.rs:24 | the hourly payment for h1 + h2 hours is the sum of the payments for h1 and for h2 |
| Staff.EnterHours | src/full_time.rs:28-30 | hours grow by exactly the amount entered; name, salary type, total and paid flag are unchanged |
| Staff.ReceivePayment | src/full_time.rs:46-49 | the total grows by the amount and the paid flag is set; hours, name and salary type are unchanged |
| Staff.PaymentDependsOnlyOnTypeAndHours | src/common.rs:21-26 | two employees with the same salary type and hours are owed the same, whatever their totals and paid flags |
| Staff.ReceivePaymentKeepsPayment | src/full_time.rs:46-49 | being paid does not change what the next payout owes, because hours are not reset |
| Staff.RunAccumulates | src/full_time.rs:28-49 | after any sequence of hour entries and payments: hours equal the start plus all hours entered, the total equals the start plus all amounts received, the paid flag is set iff it was set before or some payment arrived, and name and salary type are unchanged |
| Staff.PaidFlagIsSticky | src/full_time.rs:46-49 | once the paid flag is set, no sequence of operations clears it |
| Staff.RunIsMonotone | src/part_time.rs:26-47 | hours never decrease, and when no payment is negative the total never decreases either |
| FullTime.New | src/full_time.rs:14-22 | a new full-time employee has the given name, zero hours, zero total, is not yet paid, and is salaried |
| FullTime.EnterHoursLeavesPayment | src/full_time.rs:28-30 | entering hours for a salaried employee leaves its payment at 80000.00 |
| FullTime.AlwaysSalaried | src/full_time.rs:42-44 | after any sequence of operations a full-time employee is still salaried and is owed exactly 80000.00 |
| FullTime.PaymentsAccumulate | src/full_time.rs:46-49 | after any sequence of operations, a new full-time employee's total is the sum of the amounts it received, its hours are the sum of the hours entered, and it is marked paid iff some payment arrived |
| PartTime.New | src/part_time.rs:13-21 | a new part-time employee has the given name, zero hours, zero total, is not yet paid, and is paid hourly |
| PartTime.EnterHoursRaisesPayment | src/part_time.rs:26-28 | entering h hours for an hourly employee raises its next payment by exactly 20.00 times h |
| PartTime.ReceivePaymentDoesNotResetHours | src/part_time.rs:44-47 | being paid leaves an hourly employee's hours unchanged, so it is still owed 20.00 per hour already paid for |
| PartTime.OwedForAllHoursEntered | src/part_time.rs:13-28 | after any sequence of operations a new part-time employee is still hourly and is owed 20.00 times the sum of all hours ever entered |
| Managers.New | src/manager.rs:45-51 | a new manager has the given name, no employees and zero hours |
| Managers.AddEmployee | src/manager.rs:11-13 | the employee is appended at the end; the count grows by one, earlier employees keep their positions and state, and the manager's own fields are unchanged |
| Managers.AddAllAppendsInOrder | src/manager.rs:11-13 | adding employees one at a time leaves exactly the old list followed by the new employees in insertion order |
| Managers.NumEmployeesTracksOperations | src/manager.rs:31-33 | `NumEmployees` is zero for a new manager, grows by one with each added employee, and is unchanged by entering hours, paying out, and the manager's own hours |
| Managers.CountTracksAdditions | src/manager.rs:11-33 | a new manager given k employees one by one counts k and holds exactly those employees in order |
| Managers.EnterAll | src/manager.rs:25-28 | employee i gains hours[i] hours; count, order, names, salary types, totals and paid flags are unchanged |
| Managers.EnterEmpHours | src/manager.rs:23-29 | fails iff the list length differs from the employee count, with an error that records both lengths; on success, entering applies position by position and the manager's own fields are unchanged |
| Managers.EnterEmpHoursLoop | src/manager.rs:24-28 | the in-order loop over (hours, employee) pairs gives the same result as the pointwise definition, including the refusal when the lengths differ |
| Managers.PayAll | src/manager.rs:35-41 | each employee's total grows by its payment computed from its state before the payout, and each is marked paid; hours, names, salary types and count are unchanged |
| Managers.PayOut | src/manager.rs:35-41 | a payout pays every employee as above and leaves the manager's name and hours unchanged |
| Managers.PayOutLoop | src/manager.rs:36-40 | the in-place loop, which computes each payment just before applying it, gives the same result as paying everyone from the state before the payout |
| Managers.EnterHours | src/manager.rs:57-59 | the manager's own hours grow by the amount entered; its name and every employee are unchanged |
| Managers.ManagerHoursNeverPaid | src/manager.rs:57-59 | the manager's own hours change neither what a payout pays nor the outcome of entering employee hours |
| Managers.PayAllPaysPayroll | src/manager.rs:35-41 | a payout raises the sum of all employees' totals by exactly the sum of their payments |
| Managers.PayAllKeepsPayroll | src/manager.rs:35-41 | after a payout, the sum of the payments owed is unchanged |
| Managers.PayOutPaysPayroll | src/manager.rs:35-41 | the company pays out exactly its payroll cost, every employee is marked paid, and the count is unchanged |
| Managers.PayOutTwicePaysTwice | src/manager.rs:35-41 | two payouts in a row with no hours entered in between pay each employee twice its payment, and pay twice the payroll cost in total |
| Managers.SalariedAndHourlyPayout | src/manager.rs:35-41 | for a salaried employee and an hourly one with 10 hours, a payout pays 80000.00 and 200.00 and marks both paid |
| Managers.PayrollScenario | src/manager.rs:23-41 | a full-time and a part-time employee given 0 and 15 hours are counted as 2, and are paid 80000.00 and 300.00 |
| Managers.MismatchedHoursRefused | src/manager.rs:24 | two hours for one employee is refused with `LengthMismatch(2, 1)` |

## Left out

- `src/main.rs`: stdin reading, prompts, menu dispatch and the retry loops are
  console I/O. This includes the `unwrap` of a parsed hour count.
- `display_employees` (`src/manager.rs:15-21`) and every `do_work` only print.
  They change no state.
- The `println!` inside `pay_out` only prints, so it is not modelled.
- The name getter and the `hours_worked` and `salary_type` getters are the
  datatype's field selectors.
- `src/employees.rs` is an unused duplicate of `src/common.rs` and is not
  compiled, so it is not part of this model.
- Floating-point rounding of `total_pay` is not modelled. The amounts
  `pay_out` passes are whole dollars, and `total_pay` stays exact in `f64`
  while it is below 2^53 dollars. A `receive_payment` amount that is not a
  whole dollar, such as 0.10, would round in `f64`. `Staff.ReceivePayment`
  and `Staff.RunAccumulates` instead add any number of cents exactly.
- Staff.EnterHours: does not model the `u32` overflow of
  `hours_worked += hours`. That overflow panics in debug builds and wraps in
  release builds. Hours are unbounded `nat`.
- Managers.EnterHours: does not model the `u32` overflow of the manager's own
  hours, for the same reason.
- Managers.EnterEmpHours: the `assert_eq!` panic is modelled as an `Err`
  result (the length mismatch is refused) rather than as a panic that ends
  the process.
