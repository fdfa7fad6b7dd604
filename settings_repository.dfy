/** `SettingsRepository`: the current daily budget, 0.0 until one is saved. */
module SettingsRepository {
  import opened Wrappers
  import opened Entities
  import Tables
  import SettingsDao

  class SettingsRepository {
    const dao: SettingsDao.SettingsDao

    constructor (dao: SettingsDao.SettingsDao)
      ensures this.dao == dao
    {
      this.dao := dao;
    }

    /** `getCurrentBudget()`: the latest row, or a zero budget. */
    function GetCurrentBudget(): (r: Budget)
      reads dao
      requires dao.Valid()
      ensures dao.rows == [] ==> r == Budget(0, 0.0)
      ensures dao.rows != [] ==> r in dao.rows && forall i :: 0 <= i < |dao.rows| ==> dao.rows[i].id <= r.id
    {
      dao.GetBudget().GetOr(Budget(0, 0.0))
    }

    /** `getDailyBudgetFlow()`: the amount of the current budget. */
    function GetDailyBudget(): (r: real)
      reads dao
      requires dao.Valid()
      ensures dao.rows == [] ==> r == 0.0
      ensures r == GetCurrentBudget().dailyBudget
    {
      GetCurrentBudget().dailyBudget
    }

    /** `saveBudget(budget)`: a new row under a fresh id; earlier rows stay. */
    method SaveBudget(budget: real)
      requires dao.Valid()
      modifies dao
      ensures dao.Valid()
      ensures dao.rows == old(dao.rows) + [Budget(old(dao.lastId) + 1, budget)]
      ensures GetCurrentBudget() == Budget(old(dao.lastId) + 1, budget)
      ensures GetDailyBudget() == budget
    {
      dao.Insert(Budget(0, budget));
      SettingsDao.StoredFresh(old(dao.State()), Budget(0, budget));
    }
  }
}
