/** The identifiers the billing tables share. Times are whole microseconds. */
module BillingTypes {
  type PlanCode = string
  type ProjectId = string
  type CheckoutId = nat
  type Time = int

  /** How the handling of an event can end. */
  datatype Verdict = Applied | Ignored | Refused | Failed
}
