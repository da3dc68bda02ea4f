/**
 * How the retrofit rules of the backends relate: the tinyomo rules and the
 * pyomo hub-model rules build the same constraints on every instance, and
 * the two pyomo classes agree away from hubs except on a RetrofitTechnology
 * flag other than 0 and 1.
 */
module RetrofitBackends {
  import opened Basics
  import opened ModelData
  import opened Linear
  import RetrofitTinyomo
  import RetrofitPyomo

  /** The tinyomo retrofit rules and the pyomo hub-model ones agree on every instance. */
  lemma RetrofitRulesAgree(I: Instance, l: Loc, t: Tech, y: Year)
    requires y in I.sets.year
    ensures Agree(RetrofitTinyomo.R1(I, l, t, y), RetrofitPyomo.HubR1(I, l, t, y))
    ensures Agree(RetrofitTinyomo.R2(I, l, t, y), RetrofitPyomo.HubR2(I, l, t, y))
    ensures Agree(RetrofitTinyomo.R3(I, l, t, y), RetrofitPyomo.HubR3(I, l, t, y))
  {
  }

  /**
   * Away from hub locations the two pyomo classes build the same R1 and R2
   * rows, and the same R3 rows when the RetrofitTechnology flag is 0 or 1.
   */
  lemma OrdinaryLocationRetrofitAgrees(I: Instance, l: Loc, t: Tech, y: Year)
    requires y in I.sets.year && I.params.hubLocation.Get(l) != 1.0
    ensures RetrofitPyomo.HubR1(I, l, t, y) == RetrofitPyomo.R1(I, l, t, y)
    ensures RetrofitPyomo.HubR2(I, l, t, y) == RetrofitPyomo.R2(I, l, t, y)
    ensures IsFlag(I.params.retrofitTechnology.Get(t)) ==> RetrofitPyomo.HubR3(I, l, t, y) == RetrofitPyomo.R3(I, l, t, y)
  {
  }

  /**
   * A RetrofitTechnology flag other than 0 and 1 splits the classes: the
   * model without hubs skips R3, the hub model builds it, and after the first
   * year its removal of `t` raises.
   */
  lemma FractionalRetrofitFlagDiverges(I: Instance, l: Loc, t: Tech, y: Year)
    requires y in I.sets.year && I.params.hubLocation.Get(l) != 1.0
    requires !IsFlag(I.params.retrofitTechnology.Get(t))
    ensures RetrofitPyomo.R3(I, l, t, y).Skip?
    ensures !RetrofitPyomo.HubR3(I, l, t, y).Skip?
    ensures y != Min(I.sets.year) ==> RetrofitPyomo.HubR3(I, l, t, y) == Fail(NotInList)
  {
  }
}
