# Fintrackr, modelled in Dafny

Fintrackr is a personal-finance application. It records credits and debits in named
categories. It keeps monthly or yearly budgets per category and compares them with what was
spent. It summarises income and expenses per month, and authenticates users by password or
Google sign-in.

This project models its core in Dafny and proves properties of the model:

- **Server:**
  - the four Mongoose schemas: Transaction, Budget, Category and User, with the User
    pre-save hook, `comparePassword` and `toJSON`;
  - the REST route handlers for transactions, budgets, categories and authentication,
    including the monthly-summary aggregation pipeline and the budget-versus-actual
    comparison.
- **Client:**
  - the two reducers: transactions and authentication;
  - `getCategoryTotals` and `memoize`;
  - the form logic of the transaction form, the budget, category and login forms;
  - the figures computed by the budget page, the reports page, the transaction list, the
    recent-transactions card and the category chart.

## How the model is built

- A MongoDB collection is a class (`TransactionStore`, `BudgetStore`, `CategoryStore`,
  `UserStore`) with these fields:
  - `docs` maps each id to its document;
  - `order` lists the ids in natural (insertion) order, which is what `findOne` scans;
  - `nextId` is the next id to hand out.

  Each route handler is a method. Its `ensures` gives the status code, the message and the
  new collection on every path. Each class keeps an invariant `Valid()`, which holds that:
  - every stored document satisfies its schema;
  - the unique indexes hold: budget (category, period, year, month), category name, user
    email, username and googleId.
- A reply is `Success(status, body)` or `Failure(status, message)`.
- A request body field that should be numeric is `Missing`, `Num(x)` or `Str(s)`. A blank
  string or 0 is falsy. Mongoose's cast is `ToNumber`, which applies `Number()` to a string.
- Money, percentages and budget years and months are `real`. Instants are calendar tuples
  (year, month, day, second of the day).
- bcrypt is symbolic: `Hashed(p)`. A JWT is symbolic: a session carries the user id it was
  signed for.
- The Google ID-token verification is a parameter: its payload, or `None` when it fails.
- The e-mail regular expression of the User schema is a parameter `emailOk` of the user
  store.
- The client reducers and the page computations are functions. Code that loops and mutates
  is written as methods with loops:
  - `getCategoryTotals`;
  - the category chart's `forEach`;
  - `memoize`, which has a cache.
- Form validation fills an error map `map<string, Option<string>>`. `Some(m)` is a shown
  message. `None` is a message cleared to `""`, which is what `handleChange` does.

## Model

| member | source | states |
|---|---|---|
| TransactionModel.ParseType | server/models/Transaction.js:4-8 | exactly "credit" and "debit" are transaction types, and a parsed type spells back to its input |
| TransactionModel.ParseTypeName | server/models/Transaction.js:4-8 | reading back the stored spelling of a type gives that type |
| BudgetModel.ParsePeriod | server/models/Budget.js:13-17 | exactly "monthly" and "yearly" are periods, and a parsed period spells back to its input |
| BudgetModel.SchemaPeriod | server/models/Budget.js:13-17 | an absent period defaults to monthly; a present one must be one of the enum values |
| BudgetModel.ParsePeriodName | server/models/Budget.js:13-17 | reading back the stored spelling of a period gives that period |
| BudgetModel.StoreKeepsUnique | server/models/Budget.js:37 | storing a budget whose (category, period, year, month) no other budget has keeps the compound unique index |
| CategoryModel.ParseCatType | server/models/Category.js:10-14 | exactly "expense", "income" and "both" are category types, each spelling back to itself |
| CategoryModel.StoreKeepsUnique | server/models/Category.js:4-9 | storing a category whose name no other category has keeps names unique |
| Text.Trim | server/models/Category.js:4-9 | the `trim` setter: the result has no leading or trailing white space, and only white space was cut from either end |
| Text.TrimIdempotent | server/models/User.js:5-12 | trimming a trimmed value changes nothing |
| Text.TrimEmptyIffBlank | server/models/User.js:40-51 | a value trims to the empty string exactly when it is all white space, which then fails `required` |
| UserModel.EmailKey | server/models/User.js:13-20 | the stored e-mail is trimmed and lower-cased, and lower-casing it again changes nothing |
| UserModel.ProblemsNameFields | server/models/User.js:5-55 | the validation errors name only schema paths, each of username, email, password, firstName and lastName exactly when one of its validators fails, with the message of the first that does (`required` first, then the length or pattern rules, lengths in UTF-16 code units) |
| Text.Utf16LengthBmp | server/routes/auth.js:294 | JavaScript's `length` counts one code unit per character of the Basic Multilingual Plane |
| Text.Utf16LengthAstral | server/models/User.js:10-11 | a character beyond the Basic Multilingual Plane counts as two code units, as `minlength` and `maxlength` count it |
| UserModel.ShortUsernameMessage | server/models/User.js:5-12 | a username of one or two UTF-16 code units with every other field valid yields exactly one message, the `minlength` sentence quoting that username |
| UserModel.ProblemsIffInvalid | server/models/User.js:5-55 | a user has no validation problem exactly when it meets every schema rule, the length rules counting UTF-16 code units; lastName fails exactly when its rule fails |
| UserModel.PreSave | server/models/User.js:69-81 | a modified non-empty plain password is replaced by its hash; in every other case (not modified, no password, an empty one, or one already hashed) the user is unchanged |
| UserModel.PreSaveStores | server/models/User.js:69-81 | a valid user with a non-empty password is storable after the hook: its password is hashed |
| UserModel.ComparePassword | server/models/User.js:86-93 | a candidate matches exactly when the stored password is the hash of that candidate |
| UserModel.SavedPasswordCompares | server/models/User.js:69-93 | after saving password p, p compares true and every other candidate compares false |
| UserModel.NoPasswordNeverCompares | server/models/User.js:86-93 | a user without a password (a Google-only account) matches no candidate |
| UserModel.ToJson | server/models/User.js:98-102 | the public view keeps every field but the password |
| UserModel.ToJsonHidesPassword | server/models/User.js:98-102 | two users have the same public view exactly when they differ at most in their password |
| Numbers.BlankReadsZero | server/routes/transactions.js:96-98 | `Number()` on a string: a blank string reads as 0 |
| Numbers.ToNumber | server/models/Budget.js:8-12 | the Mongoose cast of a numeric field: a number is itself and a missing field is nothing |
| Numbers.NatStringParses | server/routes/transactions.js:96-98 | the decimal spelling of a natural number reads back as that number |
| Numbers.Round | server/routes/budgets.js:66 | `Math.round`: the result is within half a unit of its argument, and a half rounds up |
| Numbers.Fixed2Parses | src/components/transactions/TransactionList.jsx:73 | `toFixed(2)` of a non-negative amount reads back as that amount rounded to hundredths |
| Numbers.CentsParse | src/components/transactions/TransactionList.jsx:73 | a whole number of cents spelt as units, a point and two digits reads back as that many hundredths |
| Dates.FullYear | server/routes/budgets.js:37-38 | a `Date` year of 0 to 99 means 1900 plus that year; any other year is itself |
| Dates.NormalizeMonth | server/routes/budgets.js:37-38 | a month outside 1 to 12 rolls over into the neighbouring years, and year*12+month is kept |
| Dates.MonthStart | server/routes/budgets.js:37 | the first second of the selected month is a valid instant |
| Dates.MonthEnd | server/routes/budgets.js:38 | the last second of the selected month's last day is a valid instant |
| Dates.InMonthWindowIff | server/routes/budgets.js:37-44 | an instant is in the comparison window exactly when its calendar month is the normalised selected month |
| Sorting.SortBySorted | server/routes/transactions.js:9 | sorting by a total preorder gives an ordered result; `SortBy` is a permutation of its input |
| Sorting.FilterIsSubsequence | src/components/transactions/TransactionList.jsx:7-19 | a filtered list sits in the original at strictly increasing positions, and every position of an element that passes is among them |
| Sorting.FilterCount | src/context/TransactionContext.jsx:59-69 | `filter` keeps every copy of an element that passes and no copy of one that fails |
| Store.FindOne | server/routes/auth.js:37-39 | `findOne` returns the first matching document in natural order, none before it matching, and returns nothing only when no document matches |
| Store.RemoveCoherent | server/routes/transactions.js:153-159 | removing a document leaves the id order listing every remaining document exactly once |
| Grouping.GroupSum | server/routes/transactions.js:19-40 | grouping with `$sum`: each key that occurs, exactly once, with the sum of its amounts |
| Grouping.GroupSumTotal | src/utils/helpers.js:27-40 | the grouped totals add up to the sum of all amounts |
| TransactionsRoute.CheckRequest | server/routes/transactions.js:85-99 | the missing-field, type and amount checks in that order; accepted exactly when all pass, with the request's type and a positive amount |
| TransactionsRoute.ZeroAmountIsMissing | server/routes/transactions.js:87-89 | an amount of 0, "" or none is reported as a missing field |
| TransactionsRoute.ZeroStringIsNotPositive | server/routes/transactions.js:96-98 | the string "0" is truthy, so it passes the first check and fails the amount check |
| TransactionsRoute.AcceptedIsValid | server/models/Transaction.js:3-25 | a request that passes the checks, stamped with a valid instant, meets the Transaction schema |
| TransactionsRoute.NewerIsPreorder | server/routes/transactions.js:9 | newest-first is a total preorder, so the sorted listing is ordered |
| TransactionsRoute.Updated | server/routes/transactions.js:136-140 | an update sets type, amount and category, keeps id and timestamp, and keeps the description when the body has none |
| TransactionsRoute.TransactionStore.constructor | server/models/Transaction.js:3-25 | an empty collection |
| TransactionsRoute.TransactionStore.List | server/routes/transactions.js:7-14 | every transaction, each once, newest first |
| TransactionsRoute.TransactionStore.Summary | server/routes/transactions.js:17-64 | the reply is the monthly summary of all transactions |
| TransactionsRoute.TransactionStore.Get | server/routes/transactions.js:67-79 | the stored transaction with that id, or 404 |
| TransactionsRoute.TransactionStore.Create | server/routes/transactions.js:82-114 | a rejected request answers 400 with its message and stores nothing; an accepted one is stored under a fresh id at the end and answered with 201 |
| TransactionsRoute.TransactionStore.Update | server/routes/transactions.js:117-150 | 400 for a rejected request, 404 for an unknown id, otherwise that transaction alone is replaced by its update |
| TransactionsRoute.TransactionStore.Delete | server/routes/transactions.js:153-165 | removes that transaction and no other, or answers 404 |
| MonthlySummary.SummaryIsEntries | server/routes/transactions.js:19-58 | the sorted summary is a permutation of the entries the second grouping stage builds |
| MonthlySummary.EntryShape | server/routes/transactions.js:41-53 | each entry is a month that occurs, with the per-type totals of that month |
| MonthlySummary.SummaryTotals | server/routes/transactions.js:19-40 | each listed type total is the sum of the amounts of that type recorded in that month |
| MonthlySummary.SummaryTypes | server/routes/transactions.js:19-53 | a type is listed for a month exactly when a transaction of that type was recorded then, and no type twice |
| MonthlySummary.SummaryPeriods | server/routes/transactions.js:41-53 | a month has an entry exactly when some transaction was recorded in it |
| MonthlySummary.PeriodInSummary | server/routes/transactions.js:41-53 | every month in which a transaction was recorded has an entry |
| MonthlySummary.SummaryDescending | server/routes/transactions.js:54-58 | entries are in strictly descending (year, month) order |
| MonthlySummary.SamePeriodSameEntry | server/routes/transactions.js:41-53 | no month has two entries |
| MonthlySummary.KeyedSum | server/routes/transactions.js:19-40 | the grouped sum under a (year, month, type) key is that month's total for that type |
| MonthlySummary.KeyedHasKey | server/routes/transactions.js:19-40 | a (year, month, type) key is grouped exactly when a transaction of that type was recorded that month |
| MonthlySummary.AbsentTotal | server/routes/transactions.js:19-40 | a type with no transaction in a month totals 0 for that month |
| BudgetsRoute.WindowDebits | server/routes/budgets.js:40-53 | the matched debits of the window as (category, amount) items, at most one per transaction |
| BudgetsRoute.WindowDebitsSum | server/routes/budgets.js:40-53 | the grouped amount under a category is the sum of that category's debits in the window |
| BudgetsRoute.ActualIsSpent | server/routes/budgets.js:57-58 | a budget's actual is what its category spent in the window, or 0 when nothing was spent |
| BudgetsRoute.RoundHundredths | server/routes/budgets.js:66 | the shown percentage is within half a hundredth of the exact one |
| BudgetsRoute.StatusOf | server/routes/budgets.js:67 | over above 100%, warning above 80% up to 100%, good otherwise, and exactly one of them |
| BudgetsRoute.PercentageAbove | server/routes/budgets.js:59 | for a positive budget the percentage exceeds a bound exactly when the actual exceeds that share of the budget |
| BudgetsRoute.RowMeaning | server/routes/budgets.js:56-69 | a row's remaining plus actual is the budget; its status compares the actual with the budget and with 80% of it; percentage and status are 0 and good for a budget of at most 0 |
| BudgetsRoute.RoundedToHundredButOver | server/routes/budgets.js:59-67 | the status uses the unrounded percentage: 100.004% shows as 100 and is already over |
| BudgetsRoute.Comparison | server/routes/budgets.js:24-75 | one row per selected budget, in stored order |
| BudgetsRoute.ComparisonRows | server/routes/budgets.js:56-69 | row i belongs to the i-th selected budget, and its actual is that category's spending in the window |
| BudgetsRoute.ComparedIff | server/routes/budgets.js:29-34 | a budget is compared exactly when it is of the selected year and monthly for the selected month, or yearly |
| BudgetsRoute.YearlyBudgetSeesOneMonth | server/routes/budgets.js:37-53 | a debit from another month of the same year does not change a yearly budget's actual: the window is one month for every budget |
| BudgetsRoute.NewBudget | server/routes/budgets.js:90-93 | the cast document: the request's values, the month only for a monthly budget, and none when a cast or validator fails |
| BudgetsRoute.ChangeOf | server/routes/budgets.js:117-120 | the cast update: the month is kept unless the budget is monthly and the body has one; "" sets it to null |
| BudgetPage.MonthlyChange | server/routes/budgets.js:117-120 | a monthly body with a month from 1 to 12 sets category, amount, period, year and that month |
| BudgetPage.YearlyChange | server/routes/budgets.js:117-120 | a yearly body sets category, amount, period and year and keeps the month |
| BudgetsRoute.Apply | server/routes/budgets.js:122-126 | the update sets the given fields, keeps id, creation time and, unless changed, the month, and keeps the field rules |
| BudgetsRoute.UpdateLeavesMonthlyWithoutMonth | server/routes/budgets.js:117-126 | turning a yearly budget into a monthly one with no month leaves a monthly budget without a month |
| BudgetsRoute.UpdateToYearlyKeepsMonth | server/routes/budgets.js:117-126 | turning a monthly budget into a yearly one keeps its old month |
| BudgetsRoute.CategoryFirstIsPreorder | server/routes/budgets.js:16 | sorting by category is by a total preorder |
| BudgetsRoute.BudgetStore.constructor | server/models/Budget.js:3-34 | an empty collection |
| BudgetsRoute.BudgetStore.List | server/routes/budgets.js:8-21 | the budgets matching the optional year and month, each once, sorted by category |
| BudgetsRoute.BudgetStore.Compare | server/routes/budgets.js:24-75 | the reply is the comparison of the stored budgets with the stored transactions |
| BudgetsRoute.BudgetStore.Create | server/routes/budgets.js:78-106 | 400 for a missing field or a monthly budget without month, 500 when the cast fails, 400 for a taken key, otherwise stored under a fresh id and 201 |
| BudgetsRoute.BudgetStore.Update | server/routes/budgets.js:109-136 | 400 for a missing field, 500 for a failed cast, 404 for an unknown id, 500 for a taken key, otherwise that budget alone becomes its update |
| BudgetsRoute.BudgetStore.Delete | server/routes/budgets.js:139-151 | removes that budget and no other, or answers 404 |
| CategoriesRoute.FieldsOf | server/routes/categories.js:25-30 | the trimmed name and the type, colour and icon with defaults for empty ones; none when the name is blank or the type not an enum value |
| CategoriesRoute.Updated | server/routes/categories.js:52-61 | an update sets name, type, colour and icon, and keeps id, default flag and creation time |
| CategoriesRoute.UpdateValid | server/routes/categories.js:52-61 | storing an update with a trimmed non-empty name no other category has keeps the collection valid and names unique |
| CategoriesRoute.UpdateResetsOmitted | server/routes/categories.js:52-61 | an update with only a name resets type, colour and icon to their defaults |
| CategoriesRoute.DefaultCategory | server/routes/categories.js:100-109 | the k-th default category, flagged as a default |
| CategoriesRoute.DefaultsValid | server/routes/categories.js:100-109 | each default category meets the Category schema |
| CategoriesRoute.DefaultNamesDistinct | server/routes/categories.js:100-109 | no two default categories share a name, so installing them keeps names unique |
| CategoriesRoute.InstallOrder | server/routes/categories.js:113-118 | the defaults take consecutive fresh ids in their listed order |
| CategoriesRoute.InstallDocs | server/routes/categories.js:113-118 | the installed documents are exactly those ids |
| CategoriesRoute.InstallValid | server/routes/categories.js:113-118 | the installed collection is coherent, schema-valid and has unique names |
| CategoriesRoute.NameFirstIsPreorder | server/routes/categories.js:9 | sorting by name is by a total preorder |
| CategoriesRoute.CategoryStore.constructor | server/models/Category.js:3-31 | an empty collection |
| CategoriesRoute.CategoryStore.List | server/routes/categories.js:7-14 | every category, each once, sorted by name |
| CategoriesRoute.CategoryStore.Create | server/routes/categories.js:17-41 | 400 for no name, 500 when the fields do not validate, 400 for a taken name, otherwise stored under a fresh id and 201 |
| CategoriesRoute.CategoryStore.Update | server/routes/categories.js:44-75 | 400 for no name, 500 for invalid fields, 404 for an unknown id, 400 for a name another category has, otherwise that category alone updated |
| CategoriesRoute.CategoryStore.Delete | server/routes/categories.js:78-95 | 404 for an unknown id, 400 for a default category, otherwise that category alone removed |
| CategoriesRoute.CategoryStore.Initialize | server/routes/categories.js:98-122 | a non-empty collection is left as it is; an empty one receives exactly the default categories |
| AuthRoute.DuplicateKeyMessage | server/routes/auth.js:76-80 | the duplicate-key message is the field name with its first letter upper-cased, followed by " already exists" |
| AuthRoute.DuplicateEmailMessage | server/routes/auth.js:76-80 | the e-mail index reports "Email already exists" |
| AuthRoute.DuplicateUsernameMessage | server/routes/auth.js:76-80 | the username index reports "Username already exists" |
| AuthRoute.ExistingMessage | server/routes/auth.js:43-47 | "email already registered" exactly when the found user has the request's e-mail as typed, "username taken" otherwise |
| AuthRoute.CapitalisedEmailReadsAsUsername | server/routes/auth.js:38-47 | an e-mail typed with capitals finds the stored user but is compared as typed and reported as a taken username |
| AuthRoute.NewUser | server/routes/auth.js:51-59 | the new user: trimmed names and username, stored e-mail key, plain password, no Google id, active, stamped now |
| AuthRoute.GoogleFirstName | server/routes/auth.js:187-196 | `given_name` when present, else the first word of `name` |
| AuthRoute.GoogleLastName | server/routes/auth.js:187-196 | `family_name` when present, else the rest of `name` |
| AuthRoute.NewGoogleUser | server/routes/auth.js:187-196 | a Google user needs both names; it has the Google id, the e-mail key and no password |
| AuthRoute.OneWordNameFailsValidation | server/routes/auth.js:187-196 | a one-word Google name with no family name leaves the last name empty, so saving fails |
| AuthRoute.Linked | server/routes/auth.js:176-184 | linking stores the Google id and fills only empty names from the payload |
| AuthRoute.LinkedKeepsNames | server/routes/auth.js:176-184 | a stored user's names are never replaced by linking, and a linked user stays valid |
| AuthRoute.ProfileUpdate | server/routes/auth.js:260-268 | the profile update sets each non-empty field (trimmed, or the e-mail key) and keeps the others |
| AuthRoute.RegistrationApart | server/routes/auth.js:38-59 | when no user has the e-mail or username, the new user shares no unique key with any stored user |
| AuthRoute.GoogleAccountApart | server/routes/auth.js:172-196 | a new Google account found by none of the lookups shares no unique key with a stored user |
| AuthRoute.LinkedApart | server/routes/auth.js:172-184 | linking a Google id that no user has keeps the unique keys distinct |
| AuthRoute.ProfileUpdateApart | server/routes/auth.js:253-268 | an e-mail not in use by another user keeps the unique keys distinct after the update |
| AuthRoute.RegistrationStored | server/routes/auth.js:38-59 | a registration that clashes with no account and passes validation is saved with its id, hashed, and shares no unique key with a stored account |
| AuthRoute.ProfileStored | server/routes/auth.js:253-268 | a profile update with a free e-mail that passes validation is saved under the same id, clashes with no other account, and gives the 200 answer |
| AuthRoute.UserStore.constructor | server/models/User.js:5-55 | an empty collection with the given e-mail rule |
| AuthRoute.UserStore.Put | server/routes/auth.js:126 | `save()` of a stored account replaces that document only, keeping the collection valid |
| AuthRoute.UserStore.Add | server/routes/auth.js:59 | `save()` of a new account files it under the next id, last in natural order, keeping the collection valid |
| AuthRoute.UserStore.Register | server/routes/auth.js:26-91 | 400 for a missing field, 400 naming the e-mail or the username when `findOne` finds a user, 400 with the messages of the failing validators joined by ", " when validation fails, otherwise the new user stored with a hashed password under a fresh id, and a session for it |
| AuthRoute.UserStore.Login | server/routes/auth.js:94-147 | 400 for missing credentials; 401 for no user by lower-cased e-mail or username, a deactivated one or a wrong password; otherwise that user's last login becomes now and a session for it |
| AuthRoute.UserStore.GoogleLogin | server/routes/auth.js:150-224 | 400 without a token, 500 when verification fails, otherwise Google sign-in |
| AuthRoute.UserStore.SignInWithGoogle | server/routes/auth.js:172-202 | found by Google id, or by e-mail and then linked, or created; the last login is updated |
| AuthRoute.UserStore.CreateForGoogle | server/routes/auth.js:187-196 | a new Google user is stored, or 500 when it fails validation |
| AuthRoute.UserStore.UpdateProfile | server/routes/auth.js:247-283 | 400 for an e-mail in use by another user, 400 when the update fails validation, otherwise that user alone updated |
| AuthRoute.UserStore.ChangePassword | server/routes/auth.js:286-320 | 400 for a missing password or a new one under six UTF-16 code units, 500 for an unknown account, 400 for a Google-only account, 401 for a wrong current password, otherwise the new password stored hashed and nothing else changed |
| TransactionContext.SumAmountsConcat | src/context/TransactionContext.jsx:75-79 | the sum over a concatenation is the sum of the two sums |
| TransactionContext.CalculateTotalAppend | src/context/TransactionContext.jsx:75-79 | adding a transaction raises its own type's total by its amount and no other total |
| TransactionContext.TotalsCoverAll | src/context/TransactionContext.jsx:75-79 | income plus expenses is the sum of all amounts |
| TransactionContext.CalculateTotalNonNegative | src/context/TransactionContext.jsx:75-79 | with non-negative amounts both totals are non-negative |
| TransactionContext.InitialConsistent | src/context/TransactionContext.jsx:8-17 | the initial state's totals match its (empty) list |
| TransactionContext.WithList | src/context/TransactionContext.jsx:23-31 | a new list comes with recomputed totals, and nothing else changes |
| TransactionContext.Replace | src/context/TransactionContext.jsx:48-58 | the transaction with the updated id is replaced, every other one is kept in place |
| TransactionContext.Reduce | src/context/TransactionContext.jsx:19-73 | each action's new state: loading and error flags, the new list (fetched, appended, replaced, or with every copy of the deleted id's transactions removed and every other one kept) with recomputed totals, or the state unchanged |
| TransactionContext.AddMovesBalance | src/context/TransactionContext.jsx:39-47 | adding a credit raises income and the balance by its amount; adding a debit raises expenses and lowers the balance; the other total is kept |
| TransactionContext.DeleteKeepsOrder | src/context/TransactionContext.jsx:59-69 | deleting keeps every transaction with another id, in its relative order, and nothing else |
| TransactionContext.DeleteAbsent | src/context/TransactionContext.jsx:59-69 | deleting an id the list does not have changes nothing |
| TransactionContext.RunKeepsConsistent | src/context/TransactionContext.jsx:19-79 | any run of actions from a consistent state keeps the totals equal to the sums over the list |
| AuthContext.Initial | src/context/AuthContext.jsx:9-15 | not authenticated, loading, no user, the stored token |
| AuthContext.Merge | src/context/AuthContext.jsx:52-56 | the updated user has the new fields' values and keeps the old user's other fields |
| AuthContext.Reduce | src/context/AuthContext.jsx:18-60 | each action's new state; a failure or a logout clears user, token and session |
| AuthContext.OnlySuccessAuthenticates | src/context/AuthContext.jsx:18-60 | an action that turns an unauthenticated state into an authenticated one is a success |
| AuthContext.NoSuccessNoSession | src/context/AuthContext.jsx:18-60 | a run of actions with no success never authenticates |
| AuthContext.RunKeepsSessionComplete | src/context/AuthContext.jsx:18-60 | after any run, an authenticated state has a user and a token |
| Helpers.GetCategoryTotals | src/utils/helpers.js:27-40 | the loop's accumulator is the grouped per-category totals of the transactions of one type |
| Helpers.CategoryTotalsMeaning | src/utils/helpers.js:27-40 | a category has a total exactly when a transaction of that type is in it, and the total is that category's sum |
| Helpers.TotalIsSumAmounts | src/utils/helpers.js:27-40 | the grouped amounts add up to the sum of the amounts |
| Helpers.CategoryTotalsSum | src/utils/helpers.js:27-40 | the per-category totals add up to the type's total in the reducer |
| Helpers.OtherTypeIgnored | src/utils/helpers.js:27-40 | a transaction of the other type does not change the totals |
| Helpers.EmptyHasNoCategories | src/utils/helpers.js:27-40 | no transactions, no categories |
| Helpers.Memo.constructor | src/utils/helpers.js:109-110 | an empty cache around the given function |
| Helpers.Memo.Call | src/utils/helpers.js:111-118 | a cached key answers from the cache, a new key computes and caches; with an injective key the answer is the function's value |
| Forms.ClearField | src/components/transactions/TransactionForm.jsx:26-34 | the field's shown error is cleared and every other error is kept |
| Forms.AmountError | src/components/transactions/TransactionForm.jsx:42-46 | no message exactly when the amount is a positive number; "required" for an empty one, "positive" otherwise |
| TransactionForm.FormFor | src/components/transactions/TransactionForm.jsx:15-24 | the form shows the transaction's values |
| TransactionForm.ValidateForm | src/components/transactions/TransactionForm.jsx:36-51 | an error for the amount exactly when it is not a positive number and for the category exactly when it is empty; valid exactly when there is none |
| TransactionForm.HandleSubmit | src/components/transactions/TransactionForm.jsx:53-62 | submits exactly a valid form, with its amount as a number; otherwise it shows the amount and category errors that validation gives |
| TransactionForm.ValidFormIsAccepted | src/components/transactions/TransactionForm.jsx:53-62 | what a valid form submits passes the server's checks |
| TransactionForm.HandleChange | src/components/transactions/TransactionForm.jsx:26-34 | sets the field and clears its error |
| TransactionForm.AvailableIff | src/components/transactions/TransactionForm.jsx:65-69 | a category is offered exactly when it is listed and its type fits the transaction's type or is both |
| BudgetModal.FormFor | src/components/budget/BudgetModal.jsx:14-24 | the initial form, or the budget's values |
| BudgetModal.ValidateForm | src/components/budget/BudgetModal.jsx:37-52 | an error for the category exactly when it is empty and for the amount exactly when it is not a positive number; valid exactly when there is none |
| BudgetModal.HandleSubmit | src/components/budget/BudgetModal.jsx:54-63 | submits exactly a valid form, with a positive amount; otherwise it shows the category and amount errors that validation gives |
| BudgetModal.HandleChange | src/components/budget/BudgetModal.jsx:28-35 | sets the field and clears its error |
| BudgetModal.ExpenseCategoriesIff | src/components/budget/BudgetModal.jsx:65 | a category is offered exactly when it is listed and not an income category |
| CategoryModal.InitialFormHasServerDefaults | src/components/categories/CategoryModal.jsx:5-10 | the empty form's type, colour and icon are the server's defaults |
| CategoryModal.FormFor | src/components/categories/CategoryModal.jsx:21-32 | the initial form, or the category's values |
| CategoryModal.ValidateForm | src/components/categories/CategoryModal.jsx:45-54 | an error exactly when the name is blank |
| CategoryModal.HandleSubmit | src/components/categories/CategoryModal.jsx:56-65 | submits exactly a form with a non-blank name, trimmed; otherwise it shows the name error |
| CategoryModal.SubmittedIsAccepted | src/components/categories/CategoryModal.jsx:56-65 | what the modal submits passes the server's field checks with the same name |
| CategoryModal.HandleChange | src/components/categories/CategoryModal.jsx:36-43 | sets the field and clears its error |
| LoginForm.ValidateForm | src/components/auth/LoginForm.jsx:32-45 | an error for a blank login and for an empty password; valid exactly when there is none |
| LoginForm.HandleSubmit | src/components/auth/LoginForm.jsx:47-60 | submits exactly a valid form; otherwise it shows the login and password errors that validation gives |
| LoginForm.SubmittedNotMissing | src/components/auth/LoginForm.jsx:47-60 | a submitted form passes the server's missing-credentials check |
| LoginForm.HandleChange | src/components/auth/LoginForm.jsx:17-30 | sets the field, clears its error, and clears a shown login error in the auth state |
| BudgetPage.TotalRemainingAddsUp | src/pages/Budget.jsx:77-81 | the total remaining is the sum of the rows' remaining amounts |
| BudgetPage.ComparisonRemainingAddsUp | src/pages/Budget.jsx:77-81 | over a comparison, total remaining is the sum of the rows' remaining amounts |
| BudgetPage.AlertCountIsNotGood | src/pages/Budget.jsx:166 | the alert count is the number of rows that are not good |
| BudgetPage.InitialSelection | src/pages/Budget.jsx:21-24 | the page opens on the current year and month |
| BudgetPage.RequestFor | src/pages/Budget.jsx:30-37 | the request carries the form's fields and the selected year and month |
| BudgetPage.AddCreates | src/pages/Budget.jsx:30-37 | a valid form for a selectable month creates a budget with those fields, with a month only when monthly |
| BudgetPage.UpdateChanges | src/pages/Budget.jsx:44-52 | a valid form's update casts; the month is set only for a monthly budget |
| BudgetPage.BudgetOfCategory | src/pages/Budget.jsx:184-185 | the first budget of that category, or none when there is none |
| ReportsPage.MonthLabel | src/pages/Reports.jsx:29-35 | the month name and the year; a month outside 1 to 12 has no name |
| ReportsPage.FindType | src/pages/Reports.jsx:39-51 | the first listed total of that type, no earlier line having it, or none when no total has it |
| ReportsPage.TypeTotalIsPeriodTotal | src/pages/Reports.jsx:39-51 | the figure shown for a type is the month's total of that type |
| ReportsPage.FiguresOfSummary | src/pages/Reports.jsx:121-124 | income, expenses and net of a row are the month's credits, debits and their difference |
| ReportsPage.ChartData | src/pages/Reports.jsx:34-58 | one label, one income and one expense figure per entry, in entry order |
| TransactionList.VisibleIff | src/components/transactions/TransactionList.jsx:7-19 | a transaction is shown exactly when it is listed and passes both filters |
| TransactionList.VisibleInOrder | src/components/transactions/TransactionList.jsx:7-19 | the shown transactions keep the list's order |
| TransactionList.NoFilterShowsAll | src/components/transactions/TransactionList.jsx:7-19 | without filters every transaction is shown |
| TransactionList.Sign | src/components/transactions/TransactionList.jsx:73 | one character: "+" exactly for a credit, "-" exactly for a debit |
| TransactionList.AmountLabelMeaning | src/components/transactions/TransactionList.jsx:73 | the label's sign tells the type, and its rest reads back as the amount rounded to hundredths |
| RecentTransactions.RecentMeaning | src/components/dashboard/RecentTransactions.jsx:7-9 | at most five, newest first, each newer than every one left out, and together with those the whole list |
| RecentTransactions.SortedSplit | src/components/dashboard/RecentTransactions.jsx:7-9 | the first n of a newest-first list are newest first and none of them is older than one left out |
| CategoryChart.ChartState.constructor | src/components/dashboard/CategoryChart.jsx:8-16 | empty labels, data and colours |
| CategoryChart.ChartState.Update | src/components/dashboard/CategoryChart.jsx:18-64 | no change for no transactions; otherwise the debit categories, the total of each, and the first colours of each palette, one per category up to the palette's six |
| CategoryChart.Values | src/components/dashboard/CategoryChart.jsx:34 | `Object.values`: one amount per category, each the total kept under it, in the order of the categories |
| CategoryChart.Tally | src/components/dashboard/CategoryChart.jsx:25-31 | the loop's keys and totals are the grouped sums of the expenses |
| CategoryChart.Count | src/components/dashboard/CategoryChart.jsx:26-30 | one expense added under its category, a new category going last |
| CategoryChart.ChartedIsSpent | src/components/dashboard/CategoryChart.jsx:22-34 | a category is charted exactly when a debit is in it, with the sum of its debits |

## Left out

- I/O is not modelled: Express routing, the MongoDB driver, axios requests, `localStorage`
  and the rendering of components. Each handler and reducer is modelled from the values it
  receives to the values it returns or stores.
- `parseInt` of the query string and the page's selects are left out. The selected year
  and month are `int` parameters.
- The clock is a parameter `now`. Time zones are left out, and instants have second
  precision. The source's comparison window ends at 23:59:59.000, which misses the final
  999 ms of the month; the model's window has no sub-second part.
- JavaScript numbers are modelled as exact reals. Floating-point rounding is left out.
- `Number()` is modelled for the decimal forms only: white space, a sign, digits and an
  optional fraction. Hexadecimal, exponents and `Infinity` read as NaN in the model.
- `null` and `undefined` are not told apart where the source treats both as falsy.
- The `error` detail that the 500 replies attach is left out. Only status and message are
  modelled.
- The reply body subsets are left out. Login and register reply with the user's public view
  and a session, but not the exact JSON layout.
- The register handler's E11000 branch is not modelled as reachable. The earlier `findOne`
  rules out a duplicate, which `AuthRoute.RegistrationApart` states.
- Concurrent requests are left out. They could race between the duplicate check and the
  save.
- The authentication middleware, per-user data scoping, GET `/profile` and logout on the
  server are not modelled. The transaction, budget and category routes modelled here do not
  scope by user.
- JavaScript orders integer-like object keys first. The model keeps plain
  insertion order for the keys of `getCategoryTotals` and of the category chart.
- Helpers.GetCategoryTotals and CategoryChart.Tally treat every category name as an ordinary
  key. On a plain JavaScript object, `acc[c]` for a name such as `constructor`, `toString`
  or `__proto__` reads an inherited property, so the source mishandles those names.
- Text.Lower: the case mapping is ASCII-only, A to Z. JavaScript's `toLowerCase` and
  Mongoose's `lowercase` setter use full Unicode case mapping, so, for example, a KELVIN SIGN
  (U+212A) becomes `k` in the source but stays as it is in the model.
- UserModel.EmailKey: the stored e-mail is lower-cased in ASCII only (see Text.Lower).
- AuthRoute.UserStore.Login: the login is lower-cased in ASCII only before the e-mail lookup. A login whose
  e-mail differs from the stored one only by non-ASCII case finds the account in the source
  but is answered 401 in the model.
- UserModel.ComparePassword and UserModel.SavedPasswordCompares: the hash is symbolic and
  keeps the whole password. bcryptjs hashes only the first 72 bytes of the UTF-8 encoding,
  so in the source two passwords that share those 72 bytes compare alike; the model does not
  capture this truncation, and its "every other candidate compares false" holds only for
  passwords that differ within their first 72 bytes.
- BudgetPage.AddCreates, BudgetPage.UpdateChanges, BudgetPage.TotalRemainingAddsUp and the
  other BudgetPage members: the budget page's inputs (`budgets`, `budgetComparison`, `addBudget`,
  `updateBudget`, `deleteBudget`, `fetchBudgetComparison`) are modelled as coming from the
  budget routes through a context that the source does not contain. Budget.jsx takes them
  from `useTransactionContext`, whose provider (TransactionContext.jsx:144-153) supplies none
  of them, so as wired the page fails on its first render at `budgetComparison.reduce`. The
  model states what the page computes once those inputs are supplied.
- TransactionForm.AvailableIff and BudgetModal.ExpenseCategoriesIff: the categories are
  modelled as Category documents with a `type`. The transaction context supplies
  `categories` as plain strings (TransactionContext.jsx:16), on which `cat.type` is
  undefined, so as wired both filtered lists are empty.
- The messages of a validation failure are listed in schema path order. Mongoose lists them
  in the order its validators finish, which the model does not track.
- The chart palettes' CSS strings `rgba(r, g, b, a)` are kept as their four components (`CategoryChart.Rgba`), not as text.
- The number-to-text conversion of an amount in the edit forms is a parameter
  `amountText`.
- `formatCurrency`, `formatDate`, `debounce` and `throttle` are left out as presentation or
  timing helpers.
- Pages and components that only lay out or route are not modelled: App, BackupApp,
  Header, Sidebar, Dashboard, Settings, Categories, Transactions, TransactionModal,
  TransactionFilter, BudgetCard, BudgetChart and BalanceCard.
- CategoriesRoute.CategoryStore.Initialize: `insertMany` is modelled as one step that stores
  all defaults, so a partial insert is left out.
- BudgetPage.BudgetOfCategory: editing or deleting from a budget card picks the first budget of the
  category, as `find` does, even when budgets of several periods share the category.
