/**
 Pay rates and the pay rule shared by every non-manager employee.

 Money is counted in integer cents. The program's floating-point amounts
 (80000.00, and 20.00 times a whole number of hours) are whole numbers of
 dollars below 2^53, which `f64` represents exactly, so nothing is lost by
 working in cents.
 */
module Common {

  /** The fixed per-payout amount of a salaried employee: 80000.00. */
  const SalaryCents: nat := 8_000_000

  /** The hourly rate of an hourly employee: 20.00 per hour. */
  const HourlyRateCents: nat := 2_000

  /** How an employee is paid. */
  datatype SalaryType = Salaried | Hourly

  /** The amount one payout pays an employee with the given salary type and
      hours worked. It never fails, even with zero hours. */
  function CalculatePayment(salaryType: SalaryType, hoursWorked: nat): (cents: nat)
  {
    match salaryType
    case Salaried => SalaryCents
    case Hourly => HourlyRateCents * hoursWorked
  }

  /** A salaried payment is the salary, whatever the hours are (zero included). */
  lemma SalariedPaymentIsSalary(hoursWorked: nat)
    ensures CalculatePayment(Salaried, hoursWorked) == SalaryCents
    ensures CalculatePayment(Salaried, hoursWorked) == CalculatePayment(Salaried, 0)
  {
  }

  /** An hourly payment is the rate times the hours; zero hours pay nothing. */
  lemma HourlyPaymentIsRateTimesHours(hoursWorked: nat)
    ensures CalculatePayment(Hourly, hoursWorked) == HourlyRateCents * hoursWorked
    ensures CalculatePayment(Hourly, hoursWorked) == 0 <==> hoursWorked == 0
  {
  }

  /** More hours never lower a payment, for either salary type. */
  lemma PaymentMonotoneInHours(salaryType: SalaryType, h1: nat, h2: nat)
    requires h1 <= h2
    ensures CalculatePayment(salaryType, h1) <= CalculatePayment(salaryType, h2)
    ensures salaryType == Hourly && h1 < h2 ==>
              CalculatePayment(salaryType, h1) < CalculatePayment(salaryType, h2)
  {
  }

  /** Hourly pay is additive in hours: the payment for two batches of hours is
      the sum of the payments for each batch. */
  lemma HourlyPaymentAdditive(h1: nat, h2: nat)
    ensures CalculatePayment(Hourly, h1 + h2)
         == CalculatePayment(Hourly, h1) + CalculatePayment(Hourly, h2)
  {
  }
}
