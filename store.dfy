/** The analytical snapshot tables the dashboard queries (`income` and
    `user_expenses`, already joined with `users`, `expenses` and `household`
    so that each row carries the username and the category or household
    text). `month` and `year` are the denormalised parts of `date`. */
module AnalyticStore {
  import opened Basics
  import opened Models

  /** A row of `income`; `additional_income` may be NULL. */
  datatype IncomeRow = IncomeRow(
    username: string,
    date: Date,
    month: int,
    year: int,
    incomeAfterTax: int,
    additionalIncome: Option<int>,
    household: Option<string>)

  /** A row of `user_expenses`; `actual_amount` may be NULL until it is known. */
  datatype ExpenseRow = ExpenseRow(
    username: string,
    category: string,
    date: Date,
    month: int,
    year: int,
    budgetAmount: int,
    actualAmount: Option<int>)
}
