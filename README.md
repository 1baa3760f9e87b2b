# Subscription dashboard: a Dafny model of its statistics and its record form

The application shows a list of recurring subscriptions (name, category,
billing cadence, price, renewal date, status) that it fetches from a REST API.
Two pages carry all of its logic, and this project models both of them.

- **Dashboard** (`src/pages/Dashboard.js`). From the list it derives several
  figures, all as pure functions of the list and of `today`:
  - the number of active and of expired subscriptions;
  - the "Monthly Spend" card, which is the sum of the active prices (billing is ignored);
  - the per-category spend that the bar chart draws;
  - the "Expiring Soon" panel, which lists the active subscriptions renewing
    in 0 to 7 days, ordered by days left, each with its message.

  Modules: `DashboardStats`, `RenewalAlerts`, `Dashboard`.
- **Subscriptions** (`src/pages/Subscriptions.js`). This page holds three
  pieces of state: the list, the form overlay's mode (closed, add, view, edit)
  and the form's fields. Its handlers change that state. It is modelled as the
  class `SubscriptionsPage.Page`, with fields `subs`, `mode` and `formData`.
  The API is an oracle: every handler receives the outcome of the requests it
  makes as a parameter (and the user's answer to the delete confirmation).
  A ghost field `sent` logs every request sent, in order.

Shared pieces:
- `Records.Sub` is the subscription record.
- `Numbers` holds the JavaScript conversions the pages use:
  - `${n}`, rendering a number as text (`IntText`);
  - `Number(text)`, parsing text to a number (`ParseNumber`);
  - `Math.ceil` of an integer quotient (`CeilDiv`).

Time is an integer count of milliseconds. `today` is a parameter, and turning
a renewal-date text into a timestamp is a function passed in as `parseDate`,
where `None` stands for an Invalid Date. The source computes `NaN` days for
such a date, and `NaN` fails both window comparisons, so the record is silently
dropped. The model drops it the same way.

Three facts about the code that shape the model:
- `Dashboard.js` computes no average spend and no percentage share per
  category, so neither is modelled.
- A create sends the whole form (`src/pages/Subscriptions.js:78-81`). That
  includes the empty `id` of the empty form (`src/pages/Subscriptions.js:8-16`),
  and the model sends it too.
- `submitForm` in view or closed mode sends nothing, closes the form and
  fetches again. No submit button is offered in those modes
  (`src/pages/Subscriptions.js:246-250`). `SubmitForm` models the handler as
  written, and `SubmitLabel` models the missing button.

## Model

| member | source | states |
|---|---|---|
| `Numbers.NatText` | src/pages/Dashboard.js:117 | the decimal text of a non-negative number has at least one character, only digits, no leading zero, and one character exactly below 10 |
| `Numbers.IntText` | src/pages/Dashboard.js:117 | `${n}` for an integer starts with a minus sign exactly when n is negative, and is all digits otherwise |
| `Numbers.DigitsValueOfNatText` | src/pages/Subscriptions.js:80 | reading the digits of a number's text back gives the number |
| `Numbers.ParseNumberOfIntText` | src/pages/Subscriptions.js:80 | Number(`${i}`) == i for every integer: parsing inverts rendering |
| `Numbers.ParseNegativeText` | src/pages/Subscriptions.js:80 | Number("-" + digits of n) == -n for positive n |
| `Numbers.IntTextInjective` | src/pages/Dashboard.js:117 | distinct integers render as distinct texts |
| `Numbers.CeilDiv` | src/pages/Dashboard.js:30-32 | Math.ceil(a / b) for integer a and positive b: the q with (q - 1) * b < a <= q * b |
| `Numbers.CeilDivUnique` | src/pages/Dashboard.js:32 | that q is the only integer with the property |
| `DashboardStats.WithStatus` | src/pages/Dashboard.js:19-20 | the filter keeps exactly the records with the given status (both directions) and is no longer than the list |
| `DashboardStats.WithStatusCounts` | src/pages/Dashboard.js:19-20 | the filter keeps every matching record exactly as many times as the list holds it, and no other record |
| `DashboardStats.WithStatusLength` | src/pages/Dashboard.js:19-20 | the filter's length is the number of positions whose status matches |
| `DashboardStats.ActiveCount` | src/pages/Dashboard.js:19 | the active count is the number of positions holding a record with status "Active" |
| `DashboardStats.ExpiredCount` | src/pages/Dashboard.js:20 | the expired count is the number of positions holding a record with status "Expired" |
| `DashboardStats.FilteredSum` | src/pages/Dashboard.js:22-24 | filtering by a status and then reducing the prices gives the sum of the prices of exactly the records with that status |
| `DashboardStats.Spend` | src/pages/Dashboard.js:22-24 | the spend (`SumPrices`, the reduce from 0 adding each price in list order, over the "Active" filter) is the sum of the prices of the "Active" records, every other record contributing nothing, whatever the billing |
| `DashboardStats.SumPricesAppend` | src/pages/Dashboard.js:24 | one reduce step adds exactly the next record's price to the running sum |
| `DashboardStats.StatusCountsBound` | src/pages/Dashboard.js:19-20 | active + expired <= the number of records, with equality iff every status is "Active" or "Expired" |
| `DashboardStats.SpendNonNegative` | src/pages/Dashboard.js:22-24 | the spend is >= 0 when every price is >= 0 |
| `DashboardStats.SumPricesNonNegative` | src/pages/Dashboard.js:24 | the reduce over non-negative prices is >= 0 |
| `DashboardStats.SpendWithoutActive` | src/pages/Dashboard.js:19-24 | with no active record (in particular an empty list) the spend and the active count are 0 |
| `DashboardStats.AddSpend` | src/pages/Dashboard.js:44-45 | one update sets the category to its old amount (0 when absent) plus the price, leaves every other key and amount as it was, and keeps the key list distinct and equal to the object's keys |
| `DashboardStats.Categorize` | src/pages/Dashboard.js:41-47 | the category object the forEach produces is well formed (keys listed once, exactly the object's keys) |
| `DashboardStats.BuildCategoryMap` | src/pages/Dashboard.js:41-47 | the forEach loop yields exactly `Categorize(subs)`: the keys in insertion order and the amounts |
| `DashboardStats.CategorizeKeys` | src/pages/Dashboard.js:41-47 | a category is a key of the object iff some active record has it |
| `DashboardStats.TotalAfterAdd` | src/pages/Dashboard.js:44-45 | adding a price to the object raises the sum of its values by exactly that price, for a new or an existing key |
| `DashboardStats.CategoryTotalIsSpend` | src/pages/Dashboard.js:41-47 | the object's values add up to the spend of the active records |
| `DashboardStats.CategorizeAmount` | src/pages/Dashboard.js:41-47 | the amount under each category (0 when absent) is the sum of the prices of the active records of that category |
| `RenewalAlerts.DaysLeft` | src/pages/Dashboard.js:30-32 | daysLeft is the ceiling of (renewal - today) / 86400000 ms |
| `RenewalAlerts.DaysUntilRenewal` | src/pages/Dashboard.js:30-32 | no day count exactly when the renewal date does not parse; otherwise the ceiling of the parsed date's distance from today in days |
| `RenewalAlerts.DueNow` | src/pages/Dashboard.js:30-32 | a renewal at today's instant has 0 days left |
| `RenewalAlerts.DueWithinOneDay` | src/pages/Dashboard.js:30-32 | a renewal strictly ahead but at most one day ahead has 1 day left |
| `RenewalAlerts.SoonWindow` | src/pages/Dashboard.js:34 | 0 <= daysLeft <= 7 iff the renewal is less than a day in the past and at most 7 days ahead |
| `RenewalAlerts.Candidates` | src/pages/Dashboard.js:27-34 | the filtered, mapped, filtered list holds exactly the active records with a parseable date and daysLeft in [0, 7], paired with their daysLeft, and is no longer than the active count |
| `RenewalAlerts.CandidatesCounts` | src/pages/Dashboard.js:27-34 | each qualifying alert (an active record with a parseable date and daysLeft in [0, 7], paired with that daysLeft) occurs as many times as its record occurs in the list, and no other alert occurs |
| `RenewalAlerts.WithDaysMember` | src/pages/Dashboard.js:35 | the entries with a given daysLeft are exactly those of the list with that daysLeft |
| `RenewalAlerts.InsertPermutes` | src/pages/Dashboard.js:35 | one insertion step adds exactly the inserted entry to the multiset |
| `RenewalAlerts.InsertSorted` | src/pages/Dashboard.js:35 | one insertion step keeps a list sorted by daysLeft |
| `RenewalAlerts.SortByDays` | src/pages/Dashboard.js:35 | the sort's result is sorted non-decreasing by daysLeft and is a permutation of its input |
| `RenewalAlerts.InsertStable` | src/pages/Dashboard.js:35 | an insertion step keeps the relative order of the entries of every daysLeft |
| `RenewalAlerts.SortByDaysStable` | src/pages/Dashboard.js:35 | the sort is stable: for every daysLeft, the entries with it keep their list order |
| `RenewalAlerts.SortedDeterminedByDays` | src/pages/Dashboard.js:35 | two lists sorted by daysLeft that agree on the order within every daysLeft are equal |
| `RenewalAlerts.ExpiringSoon` | src/pages/Dashboard.js:27-35 | expiringSoon is sorted by daysLeft, is a permutation of the candidates (so, with `CandidatesCounts`, holds each qualifying alert as often as its record occurs), holds exactly the qualifying active records (both directions), and is no longer than the active count |
| `RenewalAlerts.ExpiringSoonIsTheStableSort` | src/pages/Dashboard.js:35 | expiringSoon keeps list order among equal daysLeft, and any stable sort of the candidates by daysLeft yields exactly it |
| `RenewalAlerts.AlertMessage` | src/pages/Dashboard.js:115-117 | "Expires today" iff daysLeft == 0, otherwise "Expires in N days" where N parses back to daysLeft |
| `RenewalAlerts.AlertMessageInjective` | src/pages/Dashboard.js:115-117 | different daysLeft values never show the same message |
| `Dashboard.Derive` | src/pages/Dashboard.js:90-93 | the card figures satisfy active + expired <= records and upcoming <= active; with no active record the spend and upcoming count are 0 |
| `SubscriptionsPage.EmptyForm` | src/pages/Subscriptions.js:8-16 | the empty form has every field, billing "Monthly", status "Active", all other fields empty text, and is not yet a record (its price is text) |
| `SubscriptionsPage.FormOf` | src/pages/Subscriptions.js:41-49 | a record put into the form fills every field, and reading the form back as a record gives that record |
| `Numbers.ParseNumber` | src/pages/Subscriptions.js:80 | Number(text) is a number exactly for the empty text, digits, or a minus sign followed by digits; it is negative only for a minus-signed text and never for unsigned digits |
| `SubscriptionsPage.Coerce` | src/pages/Subscriptions.js:80 | Number(v) never yields text, leaves numbers as they are, yields NaN for text exactly when the text does not parse, and turns the text of any integer into that integer |
| `SubscriptionsPage.Interpolate` | src/pages/Subscriptions.js:85 | `${id}` in the request path is the text itself, or a text that parses back to the number |
| `SubscriptionsPage.Payload` | src/pages/Subscriptions.js:78-81 | the request body has the form's keys, the form's values except the price, and as price Number() of the form's price |
| `SubscriptionsPage.SubmitLabel` | src/pages/Subscriptions.js:246-250 | a submit button is offered exactly in add and edit mode |
| `SubscriptionsPage.SaveRequest` | src/pages/Subscriptions.js:76-89 | a request is made exactly when a submit button is offered: a create in add mode, an update of `${formData.id}` in edit mode, each with the price coerced |
| `SubscriptionsPage.UntouchedEditSendsRecord` | src/pages/Subscriptions.js:84-88 | opening a record for editing and submitting it untouched sends an update of that record's id with the record unchanged |
| `SubscriptionsPage.Page.constructor` | src/pages/Subscriptions.js:5-33 | the page mounts with an empty list, the form closed and empty, then fetches once |
| `SubscriptionsPage.Page.FetchSubs` | src/pages/Subscriptions.js:21-28 | one GET is sent; the list is replaced on success and kept on failure; mode and form are untouched |
| `SubscriptionsPage.Page.OpenAdd` | src/pages/Subscriptions.js:36-39 | mode add with the empty form (billing Monthly, status Active, every other field empty); list and log untouched |
| `SubscriptionsPage.Page.OpenView` | src/pages/Subscriptions.js:41-44 | mode view with the record in the form; list and log untouched |
| `SubscriptionsPage.Page.OpenEdit` | src/pages/Subscriptions.js:46-49 | mode edit with the record in the form; list and log untouched |
| `SubscriptionsPage.Page.CloseForm` | src/pages/Subscriptions.js:51-54 | mode closed and the empty form, whatever the state before, so closing is idempotent; list and log untouched |
| `SubscriptionsPage.Page.HandleChange` | src/pages/Subscriptions.js:68-71 | the named field holds the new text and every other field is unchanged |
| `SubscriptionsPage.Page.SubmitForm` | src/pages/Subscriptions.js:73-97 | exactly one create (add) or update (edit) is sent; on success, or when nothing is sent, the form closes and the list is fetched again; on failure mode, form and list are unchanged and nothing more is sent |
| `SubscriptionsPage.Page.DeleteSub` | src/pages/Subscriptions.js:56-66 | unconfirmed: nothing sent, nothing changed; confirmed: one delete, then a fetch only on success; on failure the list is unchanged |

## Left out

- The bar chart's construction and destruction with Chart.js (`src/pages/Dashboard.js:49-75`) is not modelled, and neither is any JSX rendering or layout: they are UI and a foreign library. The data the chart reads is modelled as `CategoryMap`.
- Navigation (`src/App.js`, `src/components/Sidebar.js`) and the axios instance (`src/api.js`) are not part of this model. They only switch pages and configure a library.
- The dashboard's own fetch on mount (`src/pages/Dashboard.js:10-14`) is not modelled. The dashboard functions take the list as their input.
- HTTP, `async`/`await` and React's effect scheduling are replaced by oracle parameters. So are `window.confirm`, `alert` and `console.error`. In the source, the refresh after a save or a delete is not awaited, and other handlers could run before it completes. The model applies the refresh immediately.
- Parsing dates with `new Date(...)` and reading the clock are parameters (`parseDate`, `today`).
- `DaysLeft` computes the exact integer ceiling. The source divides in floating point, which differs only for differences far beyond any real date range. `Math.ceil` of a negative fraction is `-0` in JavaScript; it compares like 0, and the model gives 0.
- `Numbers.IntText` writes every integer as plain decimal digits. JavaScript writes `${n}` in exponent form from 10^21 on ("1e+21") and holds integers exactly only up to 2^53. The pages render only days left between 0 and 7, far below that range.
- `Records.Sub` takes prices as integers. Fractional prices, and prices that are not numbers, are not modelled. In the source, a non-numeric price makes the spend `NaN`.
- `Numbers.ParseNumber` covers the empty text (0) and optionally signed decimal digits. Every other text becomes `NotANumber`. That includes whitespace, a leading `+`, decimals, exponents, hexadecimal and `Infinity`, for which JavaScript's `Number` gives a finite number or infinity.
- `DashboardStats.CategoryMap` keeps every key in insertion order. JavaScript lists integer-like keys first, in ascending order, and treats special keys such as `__proto__` differently. A category named like an inherited property (`constructor`, `toString`, `valueOf`, ...) makes `categoryMap[s.category] || 0` read that inherited function, so `+` joins text; the model starts such a key at 0 and adds the price.
- `SubscriptionsPage.Page.HandleChange` does not check the mode. In view mode the inputs are disabled (`src/pages/Subscriptions.js:203`, `216`, `230`), so the page itself never delivers the event.
- The browser's own form validation is not modelled: every text input is `required` (`src/pages/Subscriptions.js:204`) and the price input has `type="number"` (`src/pages/Subscriptions.js:192`). The model lets any text reach the handlers, so `NotANumber` arises from the page itself only for number texts the browser accepts in a form `ParseNumber` does not cover, such as "1e3" or "12.0".
- Record ids are modelled as text. Numeric ids reach the request path through the same interpolation as `Interpolate`.
