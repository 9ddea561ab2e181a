/** Row identifiers; the database hands out fresh ones. */
module Ids {
  type CaseId = nat
  type BundleId = nat
  type EmployeeId = nat
}
