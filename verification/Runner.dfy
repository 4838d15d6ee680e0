/** The code's own tables over a whole run. */
module Runner {
  import opened Deduction
  import opened Model
  import opened System
  import opened RecipeTables
  import opened SalesLifecycle
  import opened Runs
  import opened Guarantees
  import opened Backend

  /** Any sequence of calls on a new back office leaves its tables in the state `After` describes, so
      every property of `After` is a property of the tables. */
  method Run(factors: Factors, ops: seq<Op>) returns (office: BackOffice)
    requires FactorsPositive(factors)
    ensures fresh(office) && fresh(office.stock) && fresh(office.recipes)
    ensures office.Tables() == After(factors, ops)
  {
    office := new BackOffice(factors);
    for i := 0 to |ops|
      invariant fresh(office) && fresh(office.stock) && fresh(office.recipes)
      invariant office.Tables() == After(factors, ops[..i])
    {
      CallIsAlwaysPossible(factors, ops[..i]);
      AfterStep(factors, ops, i);
      var error := office.Call(ops[i]);
    }
    assert ops[..|ops|] == ops;
  }
}
