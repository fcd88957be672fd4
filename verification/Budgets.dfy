/** The steps that a succession of processes can take before each of them dies. */
module Budgets {

  function Sum(budgets: seq<nat>): nat {
    if budgets == [] then 0 else budgets[0] + Sum(budgets[1..])
  }
}
