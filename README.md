# Subscription plans and the payment form, modelled in Dafny

This project models two parts of a small subscription web application.

**The subscription routes of the server** (`server/src/routes/subscriptions.js`):

- The fixed plan catalog `PLANS`, with four keys: free, pro, ultra and extreme.
- `POST /upgrade`, which moves the signed-in user to another plan.
- `GET /current`, which shows the user's plan and newest active subscription.
- `GET /history`, which lists the user's billing rows, newest first.

The three database tables (`users`, `subscriptions`, `billing_history`, with
the shapes of `server/src/db.js`) are fields of one `Store` object. They are a
map from user id to plan plus two sequences of rows. `ChangePlan` makes the
steps of the route, in the same order:

1. It refuses a request whose plan is missing or is not one of the catalog's
   own keys. This is the corrected form of the route's check, which also lets
   inherited property names through (see "## Findings").
2. It refuses an unknown user.
3. When the old plan is paid, it cancels the user's newest active subscription
   and logs a cancellation at the old plan's price.
4. When the new plan is paid, it opens a subscription at the catalog price and
   logs an upgrade. Otherwise it logs a free downgrade.
5. It sets the user's plan.

Its postcondition gives the whole new state in terms of specification
functions over the old tables (module `Ledger`). Lemmas about those functions
prove what the route promises:

- At most one row changes status. When the old plan is paid and the user has
  an active row, exactly one does: the newest-started active subscription of
  that user. Otherwise none does.
- No other subscription changes.
- There are one or two new history rows, every one `completed`, with the
  amounts, plans and subscription ids the route writes.
- The last history row and the user's plan are the requested plan.
- Fresh ids stay distinct.
- Foreign keys and timestamp order are kept.
- The invariant "a user on a paid plan has exactly one active subscription,
  on that plan; a user on free has none" is preserved, for the changed user
  and for everyone else.

**The payment page's form** (`client/src/pages/Payment.jsx`):

- The formatters that `handleInputChange` applies to the card number, expiry
  and CVV on every change.
- The ordered chain of checks in `validateForm`.

They are pure functions over strings. The ECMAScript behaviour they rely on
(module `JsText`) is written out:

- `\s` and `trim` share one whitespace set, given by code point.
- `\d` means ASCII digits.
- The global replacements are written as filters.

Proved about them:

- Card-number formatting only moves whitespace, is idempotent and never
  changes the card-number check's verdict.
- A 16-digit number is shown as four blocks of four, 19 characters in all.
- The expiry is at most five characters, all digits except a slash at index
  2, and its digits are a prefix of the typed digits. It passes `dd/dd`
  exactly when at least four digits were typed.
- The CVV is a prefix of the typed digits, at most four long. It passes
  exactly when at least three were typed.
- The form change keeps every formatted field at a fixed point of its
  formatter.
- `ValidateForm` reports nothing exactly when every check passes. Otherwise it
  reports the first failing check in the source's order.

Prices are integer cents: 0, 1999, 19999 and 49999. One counter hands out
every id, in place of uuidv4. `Store.clock` stands in for the database's
`CURRENT_TIMESTAMP`. Every row one request writes carries the same timestamp,
and the clock only moves with `Tick`. The next billing date is the symbolic
`OneMonthAfter(start)`.

## Model

| member | source | states |
|---|---|---|
| Catalog.Key | server/src/routes/subscriptions.js:8-13 | definition: the catalog key of each plan; its properties are in Catalog.AllPlans and Catalog.LookupKey |
| Catalog.Details | server/src/routes/subscriptions.js:8-13 | definition: each plan's name and price in cents; its properties are in Catalog.PaidIffPriced and Catalog.Listing |
| Catalog.Price | server/src/routes/subscriptions.js:8-13 | definition: the price field of a plan's details; its properties are in Catalog.PaidIffPriced |
| Catalog.Lookup | server/src/routes/subscriptions.js:8-13 | a key yields the plan whose catalog key it is, and no plan for any other string |
| Catalog.LookupKey | server/src/routes/subscriptions.js:8-13 | the catalog keys are recognised: looking up a plan's key gives that plan |
| Catalog.PaidIffPriced | server/src/routes/subscriptions.js:8-13 | a plan has a non-zero price exactly when it is not free |
| Catalog.AllPlans | server/src/routes/subscriptions.js:8-13 | the catalog has four entries with pairwise distinct keys |
| Catalog.AllPlansComplete | server/src/routes/subscriptions.js:8-13 | every plan appears among the four catalog entries |
| Catalog.Listing | server/src/routes/subscriptions.js:15-18 | `GET /plans` lists every plan's key and details in declaration order; each key looks up to its own plan |
| Catalog.InheritedMembers | server/src/routes/subscriptions.js:51 | definition: the names every plain object inherits from `Object.prototype`, for which `PLANS[name]` is truthy; its properties are in Catalog.InheritedKeyPassesGuard and Catalog.LookupIsIntendedGuard |
| Catalog.AcceptedAsWritten | server/src/routes/subscriptions.js:51 | definition of the guard as written for a string key; its properties are in Catalog.InheritedKeyPassesGuard and Catalog.LookupIsIntendedGuard |
| Catalog.InheritedKeyPassesGuard | server/src/routes/subscriptions.js:51 | the guard as written accepts "toString", which is not a catalog key |
| Catalog.LookupIsIntendedGuard | server/src/routes/subscriptions.js:51-53 | the own-key lookup accepts exactly the catalog keys, and agrees with the guard as written on every string that is not an inherited member name |
| Subscriptions.Message | server/src/routes/subscriptions.js:51-60 | definition: the error text of each handled failure; its properties are in Subscriptions.ErrorResponsesDistinct and Subscriptions.Store.ChangePlan |
| Subscriptions.HttpStatus | server/src/routes/subscriptions.js:51-60 | definition: the status code of each handled failure; its properties are in Subscriptions.ErrorResponsesDistinct and Subscriptions.Store.ChangePlan |
| Subscriptions.ErrorResponsesDistinct | server/src/routes/subscriptions.js:51-60 | both failures answer with a 4xx status, and two different failures differ in status and in text |
| Subscriptions.SuccessMessage | server/src/routes/subscriptions.js:114 | definition: "Successfully upgraded to " followed by the requested key; it is the message of Subscriptions.Store.ChangePlan's result |
| Subscriptions.RequestedPlan | server/src/routes/subscriptions.js:49-53 | the request is accepted exactly when the body has a plan and that plan is a catalog key; the plan found carries that key |
| Subscriptions.Store.ChangePlan | server/src/routes/subscriptions.js:47-123 | an unknown or missing plan gives "Invalid plan" (status 400), and otherwise an unknown user gives "User not found" (status 404), both with nothing changed; a success returns the message, plan, details and new subscription, sets the user's plan and leaves the tables exactly as LedgerAfter and ChangeEntries describe, with the same clock; it keeps the tables well formed and keeps the plan/subscription invariant for the user and for all users |
| Subscriptions.Store.Apply | server/src/routes/subscriptions.js:62-111 | the validated steps produce the new users map, subscription table, history and id counter given by LedgerAfter, ChangeEntries and IdsUsed; it preserves Valid and the plan/subscription invariant |
| Subscriptions.Store.CloseSuperseded | server/src/routes/subscriptions.js:62-81 | the subscription table becomes Closed of the old one; the history grows by exactly CancellationEntries; one id is used per cancellation |
| Subscriptions.Store.OpenPlan | server/src/routes/subscriptions.js:83-108 | a paid plan appends exactly one active subscription at the catalog price and returns it; free appends none and returns none; exactly one history row is appended; one or two ids are used |
| Subscriptions.Store.Current | server/src/routes/subscriptions.js:21-44 | unknown users give "User not found" with status 404; otherwise the user's plan and its details, and an active subscription of the user started no earlier than any other one, or none exactly when the user has no active subscription; under the invariant a subscription is shown exactly for paid plans, on that plan at its price |
| Subscriptions.Store.History | server/src/routes/subscriptions.js:126-139 | the rows are exactly the user's history rows: each row of the user occurs as often as in the table and no row of another user occurs; they are ordered by non-increasing creation time |
| Subscriptions.Store.Register | server/src/routes/auth.js:28-31 | a new user is added on the free plan with a fresh id, the current counter value, and the counter moves on by one; the other tables stay as they were, and the new user already satisfies the plan/subscription invariant |
| Subscriptions.Store.Tick | server/src/db.js:73 | the clock only moves forward and the tables stay well formed |
| Subscriptions.Store.constructor | server/src/db.js:54-93 | the store starts with empty tables, which are well formed and satisfy the invariant |
| Subscriptions.ChangeKeepsTablesValid | server/src/routes/subscriptions.js:62-111 | after a change the id counter is still fresh, every subscription and history row keeps its foreign keys and row shape, and ids stay distinct and timestamps ordered |
| Subscriptions.ChangeKeepsPlansMatch | server/src/routes/subscriptions.js:62-111 | if the user's plan matched their active subscriptions, it still does after the change, and every other user's match is untouched |
| Ledger.ActiveFor | server/src/routes/subscriptions.js:65 | definition: the `user_id = ? AND status = 'active'` condition on one row; its properties are in Ledger.ActiveCountZero, Ledger.NewestActive and Ledger.CancelCount |
| Ledger.ActiveCount | server/src/routes/subscriptions.js:64-67 | definition: the number of the user's active rows; its properties are in Ledger.ActiveCountZero, Ledger.CancelCount and Ledger.NewestActiveFound |
| Ledger.NewestActive | server/src/routes/subscriptions.js:64-67 | the index found is an active row of the user with no later active row of theirs; none is found exactly when the user has no active row |
| Ledger.NewestActiveStartedLast | server/src/routes/subscriptions.js:65 | with start times in table order, the row found started no earlier than any active row of the user (`ORDER BY started_at DESC LIMIT 1`) |
| Ledger.NewestActiveFound | server/src/routes/subscriptions.js:69 | a row is found exactly when the user has at least one active subscription |
| Ledger.ActiveCountZero | server/src/routes/subscriptions.js:63-81 | a user's active count is zero exactly when none of the user's rows is active |
| Ledger.SetStatus | server/src/routes/subscriptions.js:70-73 | `UPDATE subscriptions SET status` changes the status of the row with that id and nothing else |
| Ledger.SetStatusKeepsIds | server/src/routes/subscriptions.js:70-73 | the status update keeps the set of ids, their distinctness and the start-time order |
| Ledger.CancelCount | server/src/routes/subscriptions.js:70-73 | cancelling an active row lowers its owner's active count by one and nobody else's |
| Ledger.Superseded | server/src/routes/subscriptions.js:63-69 | a row is superseded only when the old plan is paid, and it is an active row of the user; a paid old plan with an active row always supersedes one |
| Ledger.Opened | server/src/routes/subscriptions.js:90-93 | definition: the row inserted for a paid plan; its properties are in Ledger.LedgerAfterEffect and Ledger.AppendValid |
| Ledger.NewSubId | server/src/routes/subscriptions.js:78-86 | definition: the id the new subscription draws, after the cancellation row's when there is one; its properties are in Ledger.UpgradeExample and Ledger.ChangeEntriesValid |
| Ledger.Closed | server/src/routes/subscriptions.js:63-81 | definition: the table with the superseded row cancelled; its properties are in Ledger.ClosedShape and Ledger.ClosedClearsUser |
| Ledger.ClosedShape | server/src/routes/subscriptions.js:63-81 | cancelling changes exactly the superseded row, to status cancelled, and keeps the table length |
| Ledger.LedgerAfter | server/src/routes/subscriptions.js:63-101 | definition: the subscription table after a change; its properties are in Ledger.LedgerAfterEffect, Ledger.LedgerAfterKeepsPlanMatch and Ledger.LedgerAfterValid |
| Ledger.LedgerAfterEffect | server/src/routes/subscriptions.js:63-101 | after a change only the superseded row is cancelled, every other row is unchanged, and a paid new plan adds one last row that is active, on the new plan, at its catalog price |
| Ledger.LedgerAfterIds | server/src/routes/subscriptions.js:86-92 | a fresh subscription id keeps ids distinct and adds only that id |
| Ledger.ClosedClearsUser | server/src/routes/subscriptions.js:63-81 | under the invariant, the user has no active subscription left once the superseded one is cancelled |
| Ledger.OpenedMatches | server/src/routes/subscriptions.js:83-108 | opening the new plan's subscription, or none for free, on a user without active rows makes the user's plan match their subscriptions |
| Ledger.LedgerAfterKeepsPlanMatch | server/src/routes/subscriptions.js:63-111 | if "paid plan ⇔ exactly one active subscription, on that plan" holds before a change, it holds for the new plan after it |
| Ledger.ClosedFramesOthers | server/src/routes/subscriptions.js:70-73 | cancelling the user's row changes no other user's active rows or plans |
| Ledger.LedgerAfterFramesOthers | server/src/routes/subscriptions.js:63-101 | a change leaves every other user's active count and plan match as they were |
| Ledger.CancellationEntries | server/src/routes/subscriptions.js:75-79 | definition: the cancellation row, present exactly when a subscription is cancelled; its properties are in Ledger.ChangeEntriesShape |
| Ledger.OpeningEntry | server/src/routes/subscriptions.js:95-107 | definition: the upgrade or downgrade row; its properties are in Ledger.ChangeEntriesShape |
| Ledger.ChangeEntries | server/src/routes/subscriptions.js:75-108 | definition: the history rows one change appends; its properties are in Ledger.ChangeEntriesShape and Ledger.ChangeEntriesValid |
| Ledger.IdsUsed | server/src/routes/subscriptions.js:78-106 | definition: how many ids one change draws; its properties are in Ledger.UpgradeExample and Ledger.ChangeEntriesValid |
| Ledger.ChangeEntriesShape | server/src/routes/subscriptions.js:75-108 | a change appends one or two rows, two exactly when a subscription was cancelled; all are completed, for the user, stamped now and priced at their plan; a free old plan writes no cancellation; the cancellation names the old plan, price and cancelled subscription; the last row is on the new plan, an upgrade referencing the new subscription at its price, or a downgrade of amount 0 with no subscription |
| Ledger.ReselectPaidChurns | server/src/routes/subscriptions.js:63-111 | re-selecting the current paid plan is not short-circuited: it writes a cancellation and an upgrade, both on that plan |
| Ledger.UpgradeExample | server/src/routes/subscriptions.js:62-111 | worked example: free to pro opens one pro subscription at 1999 cents and logs one upgrade referencing it; pro to ultra then cancels that subscription, logs its cancellation at 1999 and an upgrade at 19999 referencing the new ultra subscription |
| Ledger.OfUserAll | server/src/routes/subscriptions.js:129-132 | a history holding only the user's rows is listed whole |
| Ledger.OfUser | server/src/routes/subscriptions.js:129-132 | the filter keeps exactly the rows of the user |
| Ledger.OfUserAppend | server/src/routes/subscriptions.js:129-132 | selecting the user's rows works piecewise on a concatenation and keeps the order within each part |
| Ledger.OfUserCount | server/src/routes/subscriptions.js:129-132 | every row of the user is kept as often as it occurs in the table, and no row of another user is kept |
| Ledger.OfUserSorted | server/src/routes/subscriptions.js:129-132 | filtering keeps the creation-time order |
| Ledger.Reverse | server/src/routes/subscriptions.js:130 | reversal puts the row at index i at index n-1-i |
| Ledger.ReverseMultiset | server/src/routes/subscriptions.js:130 | reversal keeps every row and adds none |
| Ledger.SubRowOk | server/src/db.js:67-76 | definition: the shape of a `subscriptions` row (existing owner, paid plan at its catalog price, issued id, start no later than now, billing date one month on); its properties are in Ledger.AppendValid and Ledger.LedgerAfterValid |
| Ledger.EntryRowOk | server/src/db.js:81-92 | definition: the shape of a `billing_history` row (existing owner and subscription, completed, amount at the plan's price, a downgrade exactly for free and exactly without a subscription); its properties are in Ledger.ChangeEntriesValid |
| Ledger.ValidGrows | server/src/db.js:66-93 | well-formed tables stay well formed when users are added, the counter grows or the clock moves on |
| Ledger.ClosedValid | server/src/routes/subscriptions.js:70-73 | cancelling a row keeps the subscription table well formed and its ids |
| Ledger.AppendValid | server/src/routes/subscriptions.js:90-93 | inserting a well-formed row with a fresh id keeps the table well formed and adds that id |
| Ledger.LedgerAfterValid | server/src/routes/subscriptions.js:63-101 | the subscription table after a change is well formed under the advanced counter, with the new id added when a plan is paid |
| Ledger.ChangeEntriesValid | server/src/routes/subscriptions.js:75-108 | the history after a change is well formed: fresh distinct ids, owners that exist, subscription ids that exist, completed rows, amounts at catalog prices, downgrade exactly for free with no subscription, creation-time order |
| JsText.IsWhitespace | client/src/pages/Payment.jsx:49 | definition: the `\s` class, also the set `trim` strips, by code point; its properties are in JsText.RemoveWhitespaceShape and JsText.TrimEmptyIffBlank |
| JsText.RemoveWhitespace | client/src/pages/Payment.jsx:49 | definition: `replace(/\s/g, '')`; its properties are in JsText.RemoveWhitespaceShape, JsText.RemoveWhitespaceAppend and JsText.RemoveWhitespaceFixed |
| JsText.IsDigit | client/src/pages/Payment.jsx:54 | definition: the `\d` class, the ASCII digits; its properties are in JsText.KeepDigitsShape and JsText.KeepDigitsFixed |
| JsText.KeepDigits | client/src/pages/Payment.jsx:54 | definition: `replace(/\D/g, '')`; its properties are in JsText.KeepDigitsShape and JsText.KeepDigitsFixed |
| JsText.Trim | client/src/pages/Payment.jsx:72 | definition: `trim()` as leading then trailing whitespace removal; its properties are in JsText.TrimStartShape, JsText.TrimEndShape, JsText.RemoveWhitespaceTrim and JsText.TrimEmptyIffBlank |
| JsText.TrimStart | client/src/pages/Payment.jsx:72 | definition: leading whitespace removal, the first half of `trim()`; its properties are in JsText.TrimStartShape |
| JsText.TrimEnd | client/src/pages/Payment.jsx:72 | definition: trailing whitespace removal, the second half of `trim()`; its properties are in JsText.TrimEndShape and JsText.TrimEndSpace |
| JsText.NonBlank | client/src/pages/Payment.jsx:72 | definition: the negation of the `!x.trim()` test used for the name, address, city and ZIP; its properties are in JsText.TrimEmptyIffBlank and Payment.TypedFormAccepted |
| JsText.RemoveWhitespaceShape | client/src/pages/Payment.jsx:49 | `replace(/\s/g, '')` leaves no whitespace and never lengthens the string |
| JsText.RemoveWhitespaceAppend | client/src/pages/Payment.jsx:49 | removing whitespace works piecewise on a concatenation |
| JsText.RemoveWhitespaceFixed | client/src/pages/Payment.jsx:49 | a string without whitespace is left as it is |
| JsText.RemoveWhitespaceTrim | client/src/pages/Payment.jsx:49 | trimming removes only whitespace |
| JsText.KeepDigitsShape | client/src/pages/Payment.jsx:54 | `replace(/\D/g, '')` leaves only digits and never lengthens the string |
| JsText.KeepDigitsFixed | client/src/pages/Payment.jsx:54 | a digit string is left as it is |
| JsText.TrimStartShape | client/src/pages/Payment.jsx:72 | leading trimming leaves a suffix, empty or starting with a non-space, after nothing but whitespace |
| JsText.TrimEndShape | client/src/pages/Payment.jsx:72 | trailing trimming leaves a prefix, empty or ending with a non-space, before nothing but whitespace |
| JsText.TrimEmptyIffBlank | client/src/pages/Payment.jsx:72 | `s.trim()` is the empty (falsy) string exactly when `s` is all whitespace |
| Payment.GroupDigits | client/src/pages/Payment.jsx:49 | definition: the left-to-right scan of `replace(/(\d{4})/g, '$1 ')`; its properties are in Payment.GroupDigitsKeepsContent and Payment.GroupDigitsOfDigits |
| Payment.FormatCardNumber | client/src/pages/Payment.jsx:48-50 | definition: the card-number formatter; its properties are in Payment.FormatCardNumberKeepsContent, Payment.FormatCardNumberIdempotent, Payment.CardNumberLayout and Payment.CardNumberAccepted |
| Payment.CardNumberOk | client/src/pages/Payment.jsx:76 | definition: the card-number check; its properties are in Payment.CardNumberAccepted |
| Payment.GroupDigitsKeepsContent | client/src/pages/Payment.jsx:49 | `replace(/(\d{4})/g, '$1 ')` only inserts blanks |
| Payment.FormatCardNumberKeepsContent | client/src/pages/Payment.jsx:48-50 | stripping whitespace from the formatted card number gives back the whitespace-stripped input |
| Payment.FormatCardNumberIdempotent | client/src/pages/Payment.jsx:48-50 | re-formatting a formatted card number changes nothing |
| Payment.CardNumberAccepted | client/src/pages/Payment.jsx:76 | the card-number check accepts the formatted value exactly when it accepts the typed one; 16 typed digits always pass |
| Payment.GroupDigitsOfDigits | client/src/pages/Payment.jsx:49 | on digits, the regular-expression grouping is the reference layout, plus a blank after a final full group of four |
| Payment.CardNumberLayout | client/src/pages/Payment.jsx:48-50 | a digit string is shown as groups of four separated by single blanks, with nothing trailing |
| Payment.SixteenDigitLayout | client/src/pages/Payment.jsx:48-50 | 16 digits are shown as `dddd dddd dddd dddd`, 19 characters |
| Payment.FormatExpiry | client/src/pages/Payment.jsx:53-58 | definition: the expiry formatter; its properties are in Payment.ExpiryShape, Payment.ExpiryKeepsDigits and Payment.FormatExpiryIdempotent |
| Payment.ExpiryOk | client/src/pages/Payment.jsx:80 | definition: the expiry check `^\d{2}\/\d{2}$`; its properties are in Payment.ExpiryAccepted |
| Payment.ExpiryShape | client/src/pages/Payment.jsx:53-58 | the expiry has at most 5 characters, all digits except a slash at index 2 once two digits were typed, and is just the digits with fewer than two |
| Payment.ExpiryKeepsDigits | client/src/pages/Payment.jsx:53-58 | the expiry's digits are the first (at most four) typed digits |
| Payment.ExpiryAccepted | client/src/pages/Payment.jsx:80 | the formatted expiry matches `^\d{2}\/\d{2}$` exactly when at least four digits were typed |
| Payment.FormatExpiryIdempotent | client/src/pages/Payment.jsx:53-58 | re-formatting a formatted expiry changes nothing |
| Payment.FormatCvv | client/src/pages/Payment.jsx:61-63 | definition: the CVV formatter; its properties are in Payment.CvvShape and Payment.FormatCvvIdempotent |
| Payment.CvvOk | client/src/pages/Payment.jsx:84 | definition: the CVV check `^\d{3,4}$`; its properties are in Payment.CvvAccepted |
| Payment.CvvShape | client/src/pages/Payment.jsx:61-63 | the CVV is all digits, a prefix of the typed digits, of length min(4, digits typed) |
| Payment.CvvAccepted | client/src/pages/Payment.jsx:84 | the formatted CVV matches `^\d{3,4}$` exactly when at least three digits were typed |
| Payment.FormatCvvIdempotent | client/src/pages/Payment.jsx:61-63 | re-formatting a formatted CVV changes nothing |
| Payment.Formatted | client/src/pages/Payment.jsx:47-63 | definition: the per-field dispatch of `handleInputChange`, formatting the card number, expiry and CVV and keeping any other value; its properties are in Payment.HandleInputChange and Payment.HandleInputChangeKeepsWellFormatted |
| Payment.InitialForm | client/src/pages/Payment.jsx:15-24 | the form starts with every field empty but the e-mail, which is the user's if known |
| Payment.HandleInputChange | client/src/pages/Payment.jsx:43-69 | the changed field takes its formatted value and every other field keeps its value |
| Payment.InitialFormWellFormatted | client/src/pages/Payment.jsx:15-24 | the initial form's formatted fields are already in formatted shape |
| Payment.HandleInputChangeKeepsWellFormatted | client/src/pages/Payment.jsx:43-69 | change events keep the card number, expiry and CVV at fixed points of their formatters |
| Payment.Passes | client/src/pages/Payment.jsx:72-98 | definition: whether the form gets past each of the seven checks; its properties are in Payment.ValidateForm |
| Payment.Message | client/src/pages/Payment.jsx:73-97 | definition: the error text of each check; its properties are in Payment.MessagesDistinct |
| Payment.Rank | client/src/pages/Payment.jsx:72-98 | definition: the position of each check in the chain; it orders the checks in Payment.ValidateForm's contract |
| Payment.ValidateForm | client/src/pages/Payment.jsx:71-101 | no error exactly when every check passes; otherwise the reported check fails and every check before it passes |
| Payment.MessagesDistinct | client/src/pages/Payment.jsx:71-101 | each check shows its own message |
| Payment.TypedFormAccepted | client/src/pages/Payment.jsx:43-101 | after typing card number, expiry and CVV through the handler, the form is accepted exactly when the name, address, city and ZIP are not blank, the card number is 16 digits apart from whitespace, and at least four expiry and three CVV digits were typed |

## Left out

- The SQLite layer, the promise wrappers and the DDL of `server/src/db.js` are not modelled as code. They give only the row shapes and defaults.
- Atomicity and per-account serialisation are not modelled. The route runs no transaction and takes no lock, so a failing statement leaves the writes made before it in place. The model follows the route: each request is a total sequence of steps, and 500 responses are not modelled.
- Concurrency is left out: there is no per-user locking, and the model covers single sequential requests.
- Prices are integer cents instead of JavaScript floats. `toFixed(2)` display formatting is left out.
- `uuidv4()` ids are replaced by one counter shared by all tables. The model proves only the freshness and distinctness the routes rely on.
- `new Date()` and `setMonth` calendar arithmetic are left out. The next billing date is the symbolic `OneMonthAfter(start)`; database timestamps are the natural-number `clock`.
- Store.ChangePlan: the plan check is the corrected own-key lookup, so an inherited property name such as "toString" answers 400 "Invalid plan" with nothing changed. The route as written lets it through; for a user on a paid plan it then cancels the active subscription and writes the cancellation row before the subscription insert fails and the route answers 500. That as-written path is shown only at the guard (`Catalog.InheritedKeyPassesGuard`); its partial writes are not modelled.
- Store.ChangePlan: a request body field that is not a string (a number, an object) is not modelled. The request is a present or missing string, and a missing one stands for `undefined`, `null` and `""` alike.
- Ledger.NewestActive: when two active rows share a `started_at`, SQLite leaves the order open. The model takes the later-inserted row, and `GET /history` likewise shows later-inserted rows first among equal timestamps.
- `authMiddleware` and JWT handling are left out. The user id is a parameter.
- Signup's e-mail uniqueness, password hashing and token issuance in `server/src/routes/auth.js` are left out. Only its insert of a user on the free plan is modelled (`Store.Register`).
- The React rendering, the `maxLength` attributes and the timers of the payment flow (`client/src/pages/Payment.jsx:103-129`) are left out, and so are the other pages.
- The plan fetch on page load and the `setError`/`setFormData` setters are replaced by return values.
- Strings are sequences of Unicode code points, not UTF-16 code units. Surrogate pairs are not split.
- `billingEmail` is not validated by the source, and the model does not validate it either.
- `validateForm` checks the shape of the expiry and nothing more. No month range or date comparison is modelled because the source does none.

## Findings

| source | as written | input that shows it | evidently intended | confidence | as-written member | corrected member |
|---|---|---|---|---|---|---|
| server/src/routes/subscriptions.js:51 | `!PLANS[newPlan]` reads the property through the prototype chain, so names inherited from `Object.prototype` pass the plan check | `{"newPlan": "toString"}`: the guard passes. For a user on a paid plan, the active subscription is cancelled and a cancellation row written before the subscription insert fails on its NOT NULL price and the route answers 500. | only the four own keys of `PLANS` are valid plans, answering 400 "Invalid plan" otherwise | high (not executed) | Catalog.InheritedKeyPassesGuard | Catalog.LookupIsIntendedGuard |
