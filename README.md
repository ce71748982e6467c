# solomon — a verified model of the transaction core

solomon is a personal-finance API. Users register. They keep credit cards and record
transactions: expenses and revenues of five kinds (credit, debit, transfer, pix, cash),
each filed under a shared category. A credit purchase that is not fixed is split into
monthly installments of equal rounded amount. These are stored together with the
transaction, and any failure rolls the store back. Transactions can be read one at a
time or a page at a time. They can be filtered with `<field>__<operator>` keys, and
they can be exported as a six-column spreadsheet.

This Dafny project models that core and proves properties of it:

- `outcomes.dfy`: the raised exceptions (class and message) and the `Result`/`Option` wrappers.
- `dates.dfy`: calendar dates and the `relativedelta(months=1)` step. The day is clamped
  to the length of the new month, and stepping past year 9999 fails.
- `money.dfy`: amounts in whole cents, and `round(amount / n, 2)`, which rounds half to even.
- `domain.dfy`: the stored entities (transactions, installments, cards, categories).
- `requests.dfy`: the `TransactionCreate` validators and the response mappers.
- `stores.dfy`: the repositories, as classes over maps. Each keeps a log of the calls
  made on it.
- `handlers.dfy`: installment generation and `CreditCardTransactionHandler`.
- `filters.dfy`: `apply_filters` and its operator table.
- `transforms.dfy`: `transform_data`.
- `services.dfy`: the transaction, credit-card and category services, including the
  older category service that returns raw categories.
- `users.dfy`: `UserService.create_user`.

The stores are the repositories of the source. The database's own failures and the
identifiers the column defaults would draw are parameters of the calls that commit:
`fault`, `newId` and `freshOwner`. Password hashing and the spreadsheet writer are
parameters as functions. Each state-changing method is proved against a function of
the old state (`Created`, `Processed`, `Updated`, `Deleted`, `Registration` and
`Registered`). The two loops, `ApplyFilters` and `TransformData`, are proved equal to
the functions `Filtered` and `Transformed`. `ExportTransactions` states the export's
promises directly in its contract. The lemmas prove what the source promises about
these functions.

Some lemmas only serve other proofs and have no row of their own:
`Requests.FailingFromIs`, `Requests.PresentAt`, `Requests.PresentBound`,
`Requests.PresentComplete`, `Requests.PresentSound`, `Requests.PresentOrdered`,
`Requests.DistinctBound`, `Dates.BeforeTransitive`, `Money.Distribute`,
`Money.CloseMultiples`, `Money.MulMono`, `Filters.NoSepWithoutUnderscore`,
`Filters.SelectedExactly`, `Filters.SplitMany`, `Filters.SameConditions`,
`Stores.CountAppend` and `Services.DistinctCard`.

Where the code and its own docstrings disagree, the model follows the code:

- The docstring of `process_transaction` (app/solomon/transactions/application/handlers.py:24-29)
  promises installments on the same day of the month as the transaction. The code instead
  adds one month to the previous installment each time, so a clamped day stays clamped
  (`Dates.ClampedDayStaysClamped`).
- The docstring of `apply_filters` (app/solomon/infrastructure/database.py:58-71) lists a
  `neq` operator and says an invalid operator raises `ValueError`. The operator table
  (database.py:24-33) has no `neq`, and an unknown operator raises `KeyError` at the table
  lookup (database.py:76; `Filters.OperatorNamed`, `Filters.UnknownOperator`).

Other behaviour the model follows as the code is written:

- Python's `round(x, 2)` rounds half to even (`Money.Share`).
- `validate_credit_card` assigns `credit_card_id = None` to a local variable only. The
  card id of a non-credit request is kept, not cleared (`Requests.OtherKindsKeepCard`).
- A field validator runs only on a key the input carries. A fixed request that leaves
  out `recurring_day` is accepted, and so is a variable one that leaves out `date`
  (`Requests.OmittedKeysSkipChecks`). An undated credit purchase therefore gets through
  validation and fails later, in installment generation
  (`Services.UndatedCreditPurchaseFails`).
- Each installment date is one month after the previous *installment*, not after the
  start. A purchase on January 31 continues on February 29 and then March 29, not
  March 31.
- The plain create path passes `installments_number` to the `Transaction` constructor
  whenever the request carries it. That raises a `TypeError` (`Services.PlainCreate`).
- The installments are not reconciled with the total. Splitting 100.00 in three gives
  three installments of 33.33 (`Money.ShareDrift`).

The application copy and the older API copy of `CreditCardService` and of
`UserService.create_user` have the same logic, except for how the application copy calls
the card lookup (see Findings). One model covers both copies; its rows cite both.

## Model

| member | source | states |
|---|---|---|
| Dates.AddOneMonth | app/solomon/transactions/application/handlers.py:117 | one month later: the next month, or January of the next year; the same day, clamped to the new month's length; strictly later |
| Dates.Schedule | app/solomon/transactions/application/handlers.py:111-120 | the schedule starts on the start date, holds the requested number of dates (at least one), and every date is a calendar date |
| Dates.SchedulePrefix | app/solomon/transactions/application/handlers.py:114-120 | the first k dates of a longer installment schedule are the k-date schedule |
| Dates.ScheduleStep | app/solomon/transactions/application/handlers.py:116-118 | each installment date is one month after the one before it |
| Dates.ScheduleIncreasing | app/solomon/transactions/application/handlers.py:111-120 | the schedule's dates strictly increase, and the day of month never goes up |
| Dates.ScheduleYears | app/solomon/transactions/application/handlers.py:111-120 | years never decrease along the schedule and rise by at most one per step |
| Dates.ScheduleValid | app/solomon/transactions/application/handlers.py:111-120 | when the last date is within year 9999, every date is a valid calendar date |
| Dates.ClampedDayStaysClamped | app/solomon/transactions/application/handlers.py:116-118 | from 2024-01-31 the schedule is Jan 31, Feb 29, Mar 29: a clamped day stays clamped |
| Dates.YearRollover | app/solomon/transactions/application/handlers.py:116-118 | from 2023-12-20, three dates fall on 2023-12-20, 2024-01-20 and 2024-02-20 |
| Money.Share | app/solomon/transactions/application/handlers.py:91-93 | the share is within half a cent of amount/n, and is even on a tie |
| Money.ShareUnique | app/solomon/transactions/application/handlers.py:91-93 | no other cent count meets both rounding properties, so they define the result |
| Money.ShareOfOne | app/solomon/transactions/application/handlers.py:91-93 | a single installment carries the whole amount |
| Money.ShareExact | app/solomon/transactions/application/handlers.py:91-93 | an amount that divides evenly is split exactly |
| Money.ShareDrift | app/solomon/transactions/application/handlers.py:91-93 | n shares miss the total by at most n/2 cents; 100.00 over three gives 33.33 each, one cent short |
| Domain.NewTransaction | app/solomon/transactions/infrastructure/repositories.py:102-107 | the new row has the given id, owner and installments, and the supplied column values |
| Requests.Acceptable | app/solomon/transactions/presentation/models.py:127-162 | the plain statement of the rules holds exactly when none of the four checks fails |
| Requests.Validate | app/solomon/transactions/presentation/models.py:135-162 | accepted iff the card, date and recurring-day rules and the positivity constraints hold; an accepted request is returned unchanged; a rejection is a non-empty validation error, and each reported detail is the detail of a failing check; a missing card is reported alone |
| Requests.PresentIs | app/solomon/transactions/presentation/models.py:140-152 | the report holds every failed check's detail and nothing else, is empty iff every check passed, is no longer than the checks, and keeps the order of the checks |
| Requests.CreditWithoutCardRejected | app/solomon/transactions/presentation/models.py:154-159 | a credit request without a card fails with the card message alone, before any field check |
| Requests.FixedWithoutRecurringDayRejected | app/solomon/transactions/presentation/models.py:140-145 | a fixed request that sends a null recurring day is rejected on that field |
| Requests.VariableWithoutDateRejected | app/solomon/transactions/presentation/models.py:147-152 | a variable request that sends a null date is rejected on that field |
| Requests.OtherKindsKeepCard | app/solomon/transactions/presentation/models.py:156-162 | a non-credit request keeps its card id through validation |
| Requests.FixedWithDateAccepted | app/solomon/transactions/presentation/models.py:140-152 | a fixed request may also carry a date |
| Requests.OmittedKeysSkipChecks | app/solomon/transactions/presentation/models.py:127-152 | leaving out the date and recurring-day keys skips both validators |
| Requests.AcceptedIsWellTyped | app/solomon/transactions/presentation/models.py:128-138 | an accepted request has a positive recurring day and count whenever they are present |
| Requests.CreditCardMapper | app/solomon/transactions/presentation/models.py:39-48 | the view copies id, name, limit and invoice start day |
| Requests.CategoryMapper | app/solomon/transactions/presentation/models.py:69-79 | the view copies id and description |
| Requests.InstallmentMapper | app/solomon/transactions/presentation/models.py:98-115 | the view copies the installment's number, date and amount |
| Requests.TransactionMapper | app/solomon/transactions/presentation/models.py:165-177 | the view copies id, description, amount, flags, dates, kind, category, owner and card, and holds the mapped installments one for one, in order |
| Requests.CreditCardsResponse | app/solomon/transactions/presentation/models.py:59-66 | one card view per card, in order, without pagination meta |
| Requests.CategoriesResponse | app/solomon/transactions/presentation/models.py:90-95 | one category view per category, in order, without pagination meta |
| Requests.PaginatedTransactionResponse | app/solomon/transactions/presentation/models.py:188-198 | items are mapped in order, and the page, pages, size and total are copied into the meta |
| Requests.TransactionsResponse | app/solomon/transactions/application/services.py:308-310 | one export item per loaded transaction, in order |
| Requests.DumpExcludeNone | app/solomon/transactions/application/services.py:335-337 | the dump holds the request's columns, plus `installments_number` exactly when it is set |
| Stores.Insert | app/solomon/transactions/infrastructure/repositories.py:102-117 | a row is stored iff the database accepts it and the id is free; the row has the supplied fields, the owner (or the drawn one) and the installments |
| Stores.TransactionStore.GetById | app/solomon/transactions/infrastructure/repositories.py:94-100 | found iff the id exists and belongs to the owner |
| Stores.TransactionStore.Create | app/solomon/transactions/infrastructure/repositories.py:102-107 | an unknown keyword is a TypeError naming it; otherwise the row is inserted; the table changes only on success |
| Stores.TransactionStore.CreateWithInstallments | app/solomon/transactions/infrastructure/repositories.py:109-117 | the row and its installments are stored together or not at all |
| Stores.TransactionStore.Rollback | app/solomon/transactions/infrastructure/repositories.py:82-84 | a rollback leaves the committed table as it was and is logged |
| Stores.Patched | app/solomon/transactions/infrastructure/repositories.py:58-63 | each supplied attribute is set and every other one is kept |
| Stores.CreditCardStore.GetById | app/solomon/transactions/infrastructure/repositories.py:39-45 | found iff the id exists and belongs to the owner |
| Stores.CreditCardStore.GetAll | app/solomon/transactions/infrastructure/repositories.py:35-37 | exactly the owner's cards, each once |
| Stores.CreditCardStore.Create | app/solomon/transactions/infrastructure/repositories.py:51-56 | the card is stored iff the database accepts it and the id is free |
| Stores.CreditCardStore.Update | app/solomon/transactions/infrastructure/repositories.py:58-63 | the card is replaced by its patched version, or the failure is passed on and nothing changes |
| Stores.CreditCardStore.Delete | app/solomon/transactions/infrastructure/repositories.py:65-69 | the card is removed and returned, or the failure is passed on and nothing changes |
| Stores.CategoryStore.GetById | app/solomon/transactions/infrastructure/repositories.py:24-26 | found iff the id exists; in a valid table the category found carries that id |
| Stores.CategoryStore.GetAll | app/solomon/transactions/infrastructure/repositories.py:20-22 | every category, each once |
| Stores.UserStore.GetByEmail | app/solomon/users/infrastructure/repositories.py:14-16 | found iff some user has the email; returns a user with it |
| Stores.UserStore.GetByUsername | app/solomon/users/infrastructure/repositories.py:18-20 | found iff some user has the username; returns a user with it |
| Stores.UserStore.Create | app/solomon/users/infrastructure/repositories.py:26-31 | the user is appended, or the failure is passed on and nothing changes |
| Stores.FirstWith | app/solomon/users/infrastructure/repositories.py:14-20 | the first element meeting the condition, present iff one exists |
| Handlers.InstallmentDates | app/solomon/transactions/application/handlers.py:111-120 | the monthly schedule when every date stays within year 9999; otherwise the year-range ValueError |
| Handlers.GenerateInstallmentDates | app/solomon/transactions/application/handlers.py:111-120 | the loop builds the full monthly schedule, or fails with the year-range error exactly when its last date passes 9999; every date is valid |
| Handlers.OverflowPersists | app/solomon/transactions/application/handlers.py:116-118 | one month past year 9999 makes the whole schedule fail |
| Handlers.InstallmentCount | app/solomon/transactions/application/handlers.py:88-89 | a missing count means one installment; otherwise the count is kept |
| Handlers.InstallmentPlan | app/solomon/transactions/application/handlers.py:71-108 | without a date the plan fails; with one it exists iff the dates do, and then holds as many installments as the count, number i+1 on the i-th scheduled date with the rounded share; its only other failure is the year-range error |
| Handlers.GenerateInstallments | app/solomon/transactions/application/handlers.py:71-108 | the request gets the defaulted count, and the result is the installment plan |
| Handlers.PlanShape | app/solomon/transactions/application/handlers.py:91-106 | as many installments as the count, numbered from 1, each with the rounded share and a valid date, the first on the request's date |
| Handlers.PlanMonthly | app/solomon/transactions/application/handlers.py:95-106 | consecutive installments are one month apart |
| Handlers.PlanChronological | app/solomon/transactions/application/handlers.py:95-106 | installment dates strictly increase |
| Handlers.PlanTotal | app/solomon/transactions/application/handlers.py:91-106 | the installments miss the amount by at most half a cent each |
| Handlers.PlanOverflow | app/solomon/transactions/application/handlers.py:95-97 | the plan fails iff the last month passes year 9999, and then with the year-range error |
| Handlers.DefaultSingleInstallment | app/solomon/transactions/application/handlers.py:88-106 | without a count, one installment on the request's date carries the whole amount |
| Handlers.ThreeInstallmentsFromDecember | app/tests/solomon/transactions/application/test_transactions_handlers.py:84-111 | 300.00 in three from 2023-12-20 gives 100.00 on Dec 20, Jan 20 and Feb 20 |
| Handlers.Processed | app/solomon/transactions/application/handlers.py:22-54 | a failed plan is the result; with a plan the row is stored iff the database accepts it and the id is free, with the plan as its installments, the new id and the request's fields and owner |
| Handlers.CreditCardTransactionHandler.ProcessTransaction | app/solomon/transactions/application/handlers.py:22-54 | the plan is stored with the transaction; on a plan or store failure the store is rolled back once and the failure is re-raised; the table changes only on success |
| Filters.OperatorNamed | app/solomon/infrastructure/database.py:24-33 | the table holds exactly the eight operator names |
| Filters.OperatorTable | app/solomon/infrastructure/database.py:24-33 | each operator is found under its own name, which contains no separator |
| Filters.FindSep | app/solomon/infrastructure/database.py:74-75 | the first position of `__`, or none when the key has no separator |
| Filters.FindSepIs | app/solomon/infrastructure/database.py:74-75 | a separator with none before it is the one reported |
| Filters.Split | app/solomon/infrastructure/database.py:75 | the split has one part exactly when there is no separator |
| Filters.ParseKey | app/solomon/infrastructure/database.py:74-88 | a parsed key names a column of the model, splits into that column and its operator's name, and keeps the value, which fits the operator; a failure is a ValueError, KeyError, AttributeError or ArgumentError |
| Filters.KeyWithoutOperator | app/solomon/infrastructure/database.py:81-84 | a key without `__` fails with the no-operator error naming the key |
| Filters.FirstSepAfter | app/solomon/infrastructure/database.py:74-75 | in `a + "__" + b` the first separator directly follows `a` |
| Filters.SplitTwo | app/solomon/infrastructure/database.py:75 | `a + "__" + b` splits into exactly `a` and `b` |
| Filters.ParseKeyRoundTrip | app/solomon/infrastructure/database.py:74-88 | a key built from a column and an operator name parses back to that condition |
| Filters.ParseKeyInverse | app/solomon/infrastructure/database.py:74-88 | a key that parses is its column and operator name joined by `__` |
| Filters.TooManySeparators | app/solomon/infrastructure/database.py:75 | a key with a second separator fails to unpack into two parts |
| Filters.UnknownOperator | app/solomon/infrastructure/database.py:76 | an unknown operator fails at the table lookup, with the name as the missing key |
| Filters.Holds | app/solomon/infrastructure/database.py:24-33 | a condition holds only on a record with its column and a value of the operator's shape |
| Filters.Filtered | app/solomon/infrastructure/database.py:38-90 | succeeds iff every key parses, else fails with the first key's error; the records kept are exactly those meeting every condition, and no more than there were |
| Filters.Selected | app/solomon/infrastructure/database.py:86-88 | the selection is no longer than the records |
| Filters.Compile | app/solomon/infrastructure/database.py:73-88 | a compiled map has one condition per key |
| Filters.SelectedNarrow | app/solomon/infrastructure/database.py:88 | narrowing by one more condition equals selecting with that condition appended |
| Filters.SelectedConcat | app/solomon/infrastructure/database.py:86-88 | selection distributes over concatenation, so kept records keep their order |
| Filters.SelectedMembers | app/solomon/infrastructure/database.py:86-88 | a record is kept iff it is one of the records and meets every condition |
| Filters.SelectedNone | app/solomon/infrastructure/database.py:73-90 | with no conditions every record is kept, in order |
| Filters.SelectedOrderFree | app/solomon/infrastructure/database.py:73-90 | the selection depends only on the set of conditions |
| Filters.CompileOk | app/solomon/infrastructure/database.py:73-88 | each compiled condition is its own key's parse |
| Filters.CompileErr | app/solomon/infrastructure/database.py:73-88 | compilation fails iff some key fails to parse |
| Filters.CompileErrPersists | app/solomon/infrastructure/database.py:73-88 | once a prefix of the keys fails, the whole map fails with that error |
| Filters.FilterOrderFree | app/solomon/infrastructure/database.py:73-90 | reordering the keys of a valid filter map does not change the result |
| Filters.ApplyFilters | app/solomon/infrastructure/database.py:38-90 | the loop yields the conjunction of all parsed keys, or the first key's error |
| Filters.NoFilters | app/solomon/infrastructure/database.py:73-90 | an empty filter map returns every record |
| Filters.ConjunctionExample | app/solomon/infrastructure/database.py:24-33 | `amount >= 10` together with `kind in [1, 3]` keeps only the record meeting both |
| Outcomes.Enumerate | app/solomon/transactions/infrastructure/repositories.py:20-22 | a listing of a set holds each member exactly once |
| Outcomes.MapSeq | app/solomon/transactions/presentation/models.py:95 | the mapping keeps the length and maps each element in place |
| Transforms.RowOf | app/solomon/transactions/application/transforms.py:50-73 | cells copy description, date and amount; a zero or missing recurring day, category or card is an empty cell |
| Transforms.Transformed | app/solomon/transactions/application/transforms.py:25-83 | a table iff the data is a non-empty list, with the six columns and one row per transaction in order; every failure is a transformation error |
| Transforms.TransformData | app/solomon/transactions/application/transforms.py:25-83 | the loop builds the table the transformation defines, failing on missing data |
| Transforms.TransformedShape | app/solomon/transactions/application/transforms.py:42-79 | a table exists iff the data is a non-empty list: six fixed columns and one row per transaction, in order |
| Transforms.TransformedFailures | app/solomon/transactions/application/transforms.py:41-83 | every failure is a transformation error; an empty list fails with the no-data message |
| Transforms.TwoRowsExample | app/tests/solomon/transactions/application/test_transactions_transforms.py:19-58 | two transactions give two rows, with empty cells where values are missing |
| Services.ExcelExport | app/solomon/common/file_exporter.py:29-49 | a writer failure becomes an Excel generation error; a success is passed through |
| Services.Created | app/solomon/transactions/application/services.py:327-338 | a database failure fails the create; a stored row has the new id, a free one, and the request's owner or the drawn one; it has the plan's installments on the credit path and none otherwise |
| Services.Classify | app/solomon/transactions/application/services.py:318-325 | the result is one of the four export error classes; the three export errors are kept as they are and every other error becomes an unexpected error |
| Services.ExportFrame | app/solomon/transactions/application/services.py:309-314 | the exported table has the six columns and one row per transaction, in order |
| Services.Exported | app/solomon/transactions/application/services.py:297-325 | an empty result fails with no-transactions-found; a query failure is classified; every failure has one of four classes |
| Services.TransactionService.HandleTransaction | app/solomon/transactions/application/services.py:327-338 | a non-fixed credit request goes through the handler; any other request is one plain create |
| Services.TransactionService.CreateTransaction | app/solomon/transactions/application/services.py:184-208 | the stored transaction comes back as a response; failures pass through |
| Services.TransactionService.GetTransaction | app/solomon/transactions/application/services.py:210-235 | found iff the id exists and belongs to the user; otherwise not found |
| Services.TransactionService.GetTransactions | app/solomon/transactions/application/services.py:237-270 | the page's items are mapped in order, and its figures are copied |
| Services.TransactionService.ExportTransactions | app/solomon/transactions/application/services.py:272-325 | an empty result fails with no-transactions-found; a query failure surfaces as classified; a non-empty result yields the writer's bytes for a table with one row per transaction, in order, or the writer's failure as an Excel generation error; every failure has one of four classes |
| Services.FixedCreditIsPlain | app/solomon/transactions/application/services.py:327-338 | a fixed credit request is a single plain create, without installments |
| Services.HandlerIffCredit | app/solomon/transactions/application/services.py:330-332 | the store receives a create with installments only for non-fixed credit requests, and always does when their plan exists |
| Services.PlainCreate | app/solomon/transactions/application/services.py:334-338 | a plain create stores the request's fields without installments; a set count is refused with a TypeError |
| Services.CreditPurchase | app/solomon/transactions/application/handlers.py:41-54 | success stores the plan without a rollback; failure stores nothing, rolls back exactly once and re-raises the original error |
| Services.UndatedCreditPurchaseFails | app/solomon/transactions/application/handlers.py:95-106 | an accepted undated credit purchase fails while generating installments, and nothing is stored |
| Services.CreatedIsVisibleToOwner | app/solomon/transactions/application/services.py:210-235 | a created transaction can be read back by its owner, and older rows are untouched |
| Services.ExportEmpty | app/solomon/transactions/application/services.py:304-307 | an empty result fails with no-transactions-found, whatever the writer |
| Services.ClassifyRule | app/solomon/transactions/application/services.py:318-325 | the three export errors pass through; any other gets the unexpected-error prefix |
| Services.ExportOutcomes | app/solomon/transactions/application/services.py:295-325 | every failure has one of four classes; for a non-empty result the writer gets one row per transaction, in order |
| Services.ExportQueryFailure | app/solomon/transactions/application/services.py:298-325 | a failing query surfaces as an unexpected error naming it |
| Services.ListingAsWrittenFails | app/solomon/transactions/application/services.py:297-325 | as written, every export fails with an unexpected error naming the rejected `filters` keyword |
| Services.GetCreditCardAsWritten | app/solomon/transactions/application/services.py:64-66 | as written, the application's card lookup always raises a TypeError |
| Services.CardLookupAsWrittenFails | app/solomon/transactions/application/services.py:64-69 | the owner's own card, which the intended lookup returns, is not returned as written |
| Services.Lookup | app/solomon/transactions/application/services.py:48-71 | found iff the card exists and belongs to the user; otherwise not found |
| Services.CreditCardService.GetCreditCard | api/solomon/transactions/application/services.py:20-43 | the card lookup |
| Services.CreditCardService.GetCreditCards | app/solomon/transactions/application/services.py:73-87 | exactly the user's cards, each once |
| Services.CreditCardService.CreateCreditCard | api/solomon/transactions/application/services.py:61-75 | the card is stored iff the database accepts it and the id is free |
| Services.Updated | app/solomon/transactions/application/services.py:105-126 | succeeds iff the user owns the card and the database accepts the write; the result is the patched card; a missing card is not found; a database failure is passed on |
| Services.Deleted | app/solomon/transactions/application/services.py:128-147 | succeeds iff the user owns the card and the database accepts the delete; the result is the card as it was; a missing card is not found; a database failure is passed on |
| Services.CreditCardService.UpdateCreditCard | app/solomon/transactions/application/services.py:105-126 | a missing card fails before any write; otherwise the card is patched |
| Services.Remaining | app/solomon/transactions/application/services.py:128-147 | after a successful delete the card's id is gone and every other card is kept unchanged; after a failed one the table is as it was |
| Services.CreditCardService.DeleteCreditCard | app/solomon/transactions/application/services.py:128-147 | a missing card fails before any write; the result is the delete outcome and the new table is the remaining one |
| Services.MissingCardStopsWrites | api/solomon/transactions/application/services.py:77-115 | someone else's card, or no card, is not found by update or delete |
| Services.UpdateChangesOnlyPatch | api/solomon/transactions/application/services.py:77-96 | an update changes exactly the supplied fields of the owner's card |
| Services.DeleteRemovesLookedUp | api/solomon/transactions/application/services.py:98-115 | after a successful delete the card is no longer found by anyone, and every other card is found exactly as before |
| Services.CategoryService.GetCategories | app/solomon/transactions/application/services.py:156-166 | one view per category, and every category appears |
| Services.CategoryService.GetCategory | app/solomon/transactions/application/services.py:168-175 | found iff the id exists, mapped, and with that id in a valid table; otherwise not found |
| Services.LegacyCategoryService.GetCategories | api/solomon/transactions/application/services.py:124-133 | every category as stored, each once |
| Services.LegacyCategoryService.GetCategory | api/solomon/transactions/application/services.py:135-142 | the stored category iff it exists, with that id in a valid table; otherwise not found |
| Users.Registration | app/solomon/users/application/services.py:27-39 | success iff email and username are both new and the database accepts the row, answering with the username and email; a taken email or username is a user-already-exists error |
| Users.Registered | app/solomon/users/application/services.py:27-39 | the table keeps its rows and gains exactly one, the new user with the hashed password, iff the registration succeeded |
| Users.UserService.CreateUser | app/solomon/users/application/services.py:13-39 | the answer is the registration outcome and the new table is the registered one, so the email is checked before the username and nothing is stored on a refusal |
| Users.EmailCheckedFirst | api/solomon/users/application/services.py:28-29 | a taken email is reported before a taken username, and nothing is stored |
| Users.UsernameCheckedSecond | api/solomon/users/application/services.py:31-34 | with a new email, a taken username is reported and nothing is stored |
| Users.RegistrationSucceeds | app/solomon/users/application/services.py:27-39 | success iff email and username are new and the database accepts the row; the answer is username and email only; the row holds the hash |
| Users.RegistrationKeepsUnique | app/solomon/users/application/services.py:27-39 | registration keeps emails and usernames unique |
| Users.SecondRegistrationRefused | app/solomon/users/application/services.py:27-29 | registering the same request twice is refused on the email |

## Left out

- Floating point: amounts are whole cents. The result of `round(x, 2)` on a binary float can differ from exact half-even rounding of the quotient when a tie is not exactly representable.
- Integer widths: ids, days and amounts are unbounded integers. The model has no database column types.
- `LIKE` and `ILIKE`: the pattern tests are function parameters (`Filters.Dialect`), not interpreted.
- Filters.ParseKey: a value of the wrong shape for its operator (a list for `gt`, a number for `like`) fails with `ArgumentError` and a message the model chooses. The ORM's own failure for such a value is not modelled.
- Filters: the filtered records are maps from column to integer. String columns, NULLs and typed column comparisons are not modelled.
- Transaction listings: the page arithmetic and the ordering belong to the pagination library and are not modelled. `GetTransactions` and `ExportTransactions` take what the query returned as a parameter, which models the query the code evidently intends (see Findings).
- `TransactionsResponseMapper` and `TransactionFilters` are not part of this model. The export item is taken to carry the description, date, recurring day, amount, category and card that `transform_data` reads.
- The spreadsheet writer is a function parameter. The file format and the sheet layout are not modelled.
- Password hashing is a function parameter (`hash`), and its algorithm is not modelled.
- Database failures and generated identifiers are parameters (`fault`, `newId`, `freshOwner`). Ids of installment rows, the `created_at` columns and relationship loading are not modelled. A loaded transaction comes with its category and card already attached.
- Handlers.GenerateInstallments: the source overwrites `installments_number` on the caller's request object. The model returns the updated request instead. Aliasing of that object is not modelled.
- `Validate` models only the checks that depend on several fields, plus the positivity of `recurring_day` and `installments_number`. Type parsing of the other fields and pydantic's message prefixes (`Value error, …`) are not modelled. An `ErrorDetail` carries the field and the message only.
- Requests.WellTyped: stored requests are assumed to have passed the field type checks (a positive count, a real date). Only the cross-field rules are checked by `Validate`.
- IntegrityError: the message text is a fixed placeholder. Only the class is modelled.
- Authentication, routing, dependency wiring, logging and HTTP status mapping lie outside the core and are not modelled.
- Concurrency: each store is used by one caller at a time. Session isolation is not modelled.

## Findings

| source | as written | input that shows it | evidently intended | confidence | as-written member | corrected member |
|---|---|---|---|---|---|---|
| app/solomon/transactions/application/services.py:64-66 | the card id is passed to `get_by_id(id, user_id)` as `credit_card_id=`, which raises a TypeError, so get, update and delete of a credit card always fail | any call, even for a card the user owns | pass it as `id=`, as the API copy does at api/solomon/transactions/application/services.py:35-37 | high, not executed | Services.CardLookupAsWrittenFails | Services.CreditCardService.GetCreditCard |
| app/solomon/transactions/application/services.py:260-262 | the filters are passed to `get_all(user_id, params=None)` as `filters=`, which raises a TypeError; the export turns it into an unexpected error | any listing or export request | a query narrowed by the filters (`apply_filters`), whose result is paginated or exported | high, not executed | Services.ListingAsWrittenFails | Services.ExportOutcomes |
