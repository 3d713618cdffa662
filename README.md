# Budget Balancer: a verified model of the expense service and the profile state

This project models the parts of Budget Balancer, a personal budgeting web application, that
transform data:

- **The expense service** (`backend/server.js`). It keeps two collections, accounts and expense
  records. The model covers the identifier resolution (username or e-mail), the login check, the
  duplicate handling of registration, and the eight `/api/expenses` routes:
  - the listing of all records, and the listing by category;
  - the category roll-up, with sum, count, latest date and latest entry per category;
  - adding a record;
  - updating one record and deleting one record;
  - deleting a whole category and renaming a category.
- **The profile page's state helpers** (`src/components/Profile.jsx`):
  - the achievement toggle;
  - the completeness check;
  - the membership badge;
  - which value the savings rate shows;
  - saving and loading the user record and the financial record through browser storage.
- **The dashboard's add-expense form** (`src/components/Dashboard.jsx`): the form's guard, the
  append and the reset, and the category list loaded when the page mounts.

Layout:

| file | module | contents |
|---|---|---|
| `options.dfy` | `Options` | `Option` |
| `sorting.dfy` | `Sorting` | ordering by a key, largest first; used for `sort({ date: -1 })` and `$sort` |
| `expense_table.dfy` | `ExpenseTable` | the collections as sequences, and the pure queries the routes run |
| `expense_server.dfy` | `ExpenseServer` | class `Server` owning the collections; one method per route |
| `number_text.dfy` | `NumberText` | `Number.prototype.toString()` for integers, and `parseInt` |
| `storage_map.dfy` | `StorageMap` | `localStorage` as a `map<string, string>`, and a batch of `setItem` calls |
| `profile.dfy` | `Profile` | the profile helpers, the save/load pairs, and class `LocalStorage` |
| `dashboard.dfy` | `Dashboard` | class `DashboardState` with the form handlers and the mount-time load |

**Responses.** Route handlers return a `Response` (`Ok`, `Created`, `BadRequest`,
`Unauthorized`, `NotFound`, `ServerError`) in place of the HTTP status and JSON body.
`ServerError` is a 500 answer from a route's catch block, with that block's error text.

**Request bodies.** The empty string stands for a missing text field; both are falsy in
JavaScript. The amount is a `BodyValue` (`Absent`, `Null`, `Text` or `Number`), because the add route tests
its truthiness and the update route tests `!== undefined`, which a JSON `null` passes.

**Library calls.** These are parameters of the methods:
- `parseFloat`, which yields `None` for NaN;
- `new Date(text)`, which yields `None` for an Invalid Date;
- the clock;
- `decodeURIComponent`, the percent-decoding of section 2.1 of RFC 3986. It is applied to path
  parameters only, never to `newCategory`. It yields `None` where `decodeURIComponent` throws on a
  malformed escape; the three routes that decode then answer `ServerError` (500).

The store's number and date fields refuse NaN and an Invalid Date. An add whose amount or date is
refused fails at `save()` and answers `ServerError` with `Failed to add expense`. An update whose
amount (a `null` amount included) or date is refused fails while the update is cast, before the
record is looked up, and answers `ServerError` with `Failed to update expense`.

**Browser storage.** It is a map from keys to text. `parseInt` is written out in full
(`NumberText.ParseInt`). The profile loads take the parser as a parameter, and their lemmas ask of
it only what `Profile.ParseIntReadsBack` and `Profile.ParseIntOfNull` prove of `ParseInt`.

## Model

| member | source | states |
|---|---|---|
| ExpenseTable.FirstMatch | backend/server.js:27-32 | the position found is the first account whose username or e-mail equals the identifier exactly; no earlier account matches |
| ExpenseTable.FindUser | backend/server.js:27-32 | `findOne` with `$or`: finds nothing exactly when no account has that username or e-mail; otherwise the found account is in the collection and matches |
| ExpenseTable.ResolveUsername | backend/server.js:26-34 | `getUsernameFromIdentifier`: null exactly when no account matches; otherwise the username of an account whose username or e-mail is the identifier |
| ExpenseTable.UsernameResolvesToItself | backend/server.js:26-34 | with unique usernames and no e-mail equal to an account's username, that username resolves to itself |
| ExpenseTable.CheckLogin | backend/server.js:61-69 | login succeeds exactly when the looked-up account exists and its password equals the given one; the username returned is that account's |
| ExpenseTable.OfUser | backend/server.js:94 | `find({ username })`: exactly the user's records, never more than the table |
| ExpenseTable.Select | backend/server.js:162-165 | `find({ username, category })`: exactly the records of that user and category |
| ExpenseTable.Reject | backend/server.js:274 | what `deleteMany` leaves: exactly the records not matching user and category |
| ExpenseTable.SelectRejectPartition | backend/server.js:274-278 | deleted and kept records partition the table, as multisets; the deleted count is the number of matching records |
| ExpenseTable.RejectKeepsIdsUnique | backend/server.js:274 | bulk deletion keeps ids unique |
| ExpenseTable.RejectKeepsOwners | backend/server.js:274 | bulk deletion keeps every remaining record's owner registered |
| ExpenseTable.Total | backend/server.js:117 | `$sum: '$amount'`; no contract of its own: `RollUpTotals` ties each entry to it and `RenameKeepsTotals` proves a rename keeps it |
| ExpenseTable.MaxDate | backend/server.js:119 | `$max: '$date'`: no record of the group is later, and some record carries it |
| ExpenseTable.InCategory | backend/server.js:116 | the records of a group: exactly those filed under the category |
| ExpenseTable.SelectIsInCategoryOfUser | backend/server.js:113-116 | matching the user and then grouping by category selects the same records as the two-field query |
| ExpenseTable.CategoriesOf | backend/server.js:116 | the group keys: exactly the categories that occur, each once |
| ExpenseTable.CategoryHasRecords | backend/server.js:115-120 | every group key has at least one record |
| ExpenseTable.GroupTotal | backend/server.js:115-120 | a group row's latest date is the date of a record of the group, and no record of the group is later |
| ExpenseTable.GroupTotals | backend/server.js:115-120 | one `$group` row per category, in the order of the group keys |
| ExpenseTable.GroupTotalsRows | backend/server.js:115-120 | every group row is the row of a category that occurs |
| ExpenseTable.AggregateByCategory | backend/server.js:112-123 | the aggregation pipeline; no contract of its own: `AggregateRows`, `AggregateCovers` and `AggregateNamesDistinct` state what its rows are |
| ExpenseTable.AggregateRows | backend/server.js:112-123 | every row of the sorted aggregate is the group row of a category that occurs |
| ExpenseTable.AggregateCovers | backend/server.js:112-123 | every category that occurs has a row |
| ExpenseTable.AggregateNamesDistinct | backend/server.js:112-123 | no two rows share a category |
| ExpenseTable.LatestExpense | backend/server.js:127-130 | `findOne(...).sort({ date: -1 })`: nothing only for an empty group; otherwise a record of the group with no later record in it |
| ExpenseTable.Annotate | backend/server.js:132-139 | a roll-up entry keeps the group row's name, sum, count and latest date |
| ExpenseTable.RollUpOf | backend/server.js:126-141 | one entry per aggregate row, in the same order |
| ExpenseTable.CategoryRollUp | backend/server.js:112-141 | the route's answer for a user; no contract of its own: the `RollUp` lemmas below and `RollUpAnswers` state what it promises |
| ExpenseTable.RollUpTotals | backend/server.js:112-123 | each roll-up entry's sum, count and latest date are those of exactly the user's records in its category, and that set is non-empty |
| ExpenseTable.RollUpNamesDistinct | backend/server.js:112-123 | one entry per category |
| ExpenseTable.RollUpCovers | backend/server.js:112-123 | every category the user has a record in appears in the roll-up |
| ExpenseTable.RollUpSorted | backend/server.js:122 | entries are ordered by latest date, newest first |
| ExpenseTable.AnnotateLatest | backend/server.js:127-138 | an entry's latest amount and id are those of a record of its group dated at the group's latest date |
| ExpenseTable.RollUpLatest | backend/server.js:126-138 | each roll-up entry's latest amount and id come from a record of that user and category whose date is the group's latest date |
| ExpenseTable.RollUpAnswers | backend/server.js:103-141 | the roll-up meets `IsRollUpOf`: covers every category of the user exactly once with its sum, count, latest date and a latest entry, newest first |
| ExpenseTable.RollUpIgnoresOthers | backend/server.js:113 | another user's record never changes a user's roll-up |
| ExpenseTable.OfUserIgnoresOthers | backend/server.js:94 | another user's record never changes a user's records |
| ExpenseTable.Rename | backend/server.js:304-307 | `updateMany` with `$set`: same length; each matching record gets the new name verbatim, and every other record and field is unchanged |
| ExpenseTable.SameKeysKeepInvariants | backend/server.js:220-224 | changing labels, amounts or dates keeps ids unique, ids below the next id and owners registered |
| ExpenseTable.RenameSameKeys | backend/server.js:304-307 | a rename changes no id and no owner |
| ExpenseTable.CountChanged | backend/server.js:309-310 | `modifiedCount`: the number of positions whose record changed; no contract of its own: `RenameCount` computes it for a rename |
| ExpenseTable.RenameCount | backend/server.js:304-310 | `modifiedCount` is the number of matching records, or 0 when the old and new names are equal |
| ExpenseTable.RenameKeepsTotals | backend/server.js:304-307 | every user's total amount is preserved |
| ExpenseTable.RenameEmptiesSource | backend/server.js:304-307 | after renaming to a different name, nothing of the user is left under the old one |
| ExpenseTable.RenameMovesRecords | backend/server.js:304-307 | renaming into an unused name moves exactly the old category's records, in order, relabelled |
| ExpenseTable.IndexOfId | backend/server.js:220-221 | `findById`: nothing exactly when no record has the id; otherwise the position of a record with it |
| ExpenseTable.ApplyUpdate | backend/server.js:215-218 | category changes only when a non-empty one is given, amount and date only when one is given; id and owner never change |
| ExpenseTable.ApplyUpdateIdempotent | backend/server.js:215-224 | sending the same update twice has the effect of sending it once |
| ExpenseTable.EmptyUpdateKeepsRecord | backend/server.js:215-218 | an update supplying no field leaves the record as it was |
| ExpenseTable.RemoveAtContents | backend/server.js:245 | deleting by id takes exactly one record out, as multisets |
| ExpenseTable.RemoveAtIds | backend/server.js:245 | after deleting by id no record has that id, and ids stay unique |
| ExpenseTable.RemoveAtKeepsOwners | backend/server.js:245 | after deleting by id the remaining owners stay registered and the ids stay below the next id |
| ExpenseTable.AppendKeepsInvariants | backend/server.js:192-198 | appending a record with the next id and a registered owner keeps ids unique and owners registered |
| ExpenseServer.Server.constructor | backend/server.js:21-22 | both collections start empty, with the invariant established |
| ExpenseServer.Server.Register | backend/server.js:37-53 | a missing field is refused; a username in use is refused naming `username`, then an e-mail in use naming `email`, each leaving the accounts unchanged; otherwise exactly that account is appended; the invariant is kept |
| ExpenseServer.Server.Login | backend/server.js:56-79 | `Ok` with the account's username exactly when the identifier names an account whose password matches; otherwise `Unauthorized` with the fixed message |
| ExpenseServer.AmountOf | backend/server.js:194 | `parseFloat(amount)`: a JSON number is kept as it is, and `null` is NaN |
| ExpenseServer.Server.ListExpenses | backend/server.js:85-95 | `NotFound` exactly when the identifier resolves to no user; otherwise a permutation of exactly the user's records, newest first |
| ExpenseServer.Server.ListCategories | backend/server.js:103-142 | `NotFound` exactly when unresolved; otherwise `IsRollUpOf`: one entry for every category the user has records in and for no other, each once, with the sum, count and latest date of exactly those records and the amount and id of one of them dated at that latest date, newest first |
| ExpenseServer.Server.ListByCategory | backend/server.js:150-174 | `NotFound` exactly when unresolved; then `ServerError` exactly when the category does not decode; otherwise a permutation of exactly the user's records in the decoded category, newest first |
| ExpenseServer.Server.AddExpense | backend/server.js:177-207 | a missing identifier or category, or a falsy amount, gives `BadRequest` before any lookup; an unresolved identifier gives `NotFound`; an amount that parses to NaN or a date that does not parse gives `ServerError` (`Failed to add expense`); all three leave the table and the id counter unchanged; otherwise exactly one record is appended with a fresh id, the resolved username, the parsed amount and the given date or `now`; the invariant is kept |
| ExpenseServer.Server.UpdateExpense | backend/server.js:210-238 | `ServerError` (`Failed to update expense`) exactly when a supplied amount is NaN (`null` included) or a supplied date does not parse; `NotFound` exactly when there is no such failure and no record has the id; both leave the table unchanged; otherwise only that record is replaced, by the update applied to it; the invariant is kept |
| ExpenseServer.Server.DeleteExpense | backend/server.js:241-254 | `NotFound` exactly when no record has the id, with the table unchanged; otherwise the record with that id is returned and removed, the rest kept as a multiset, and no record with that id remains; the invariant is kept |
| ExpenseServer.Server.DeleteCategory | backend/server.js:262-283 | `NotFound` exactly when unresolved; then `ServerError` exactly when the category does not decode; both with the table unchanged; otherwise the table is exactly what `deleteMany` leaves, and the reported count is both the number of matching records and the number removed (0 is a success) |
| ExpenseServer.Server.RenameCategory | backend/server.js:286-316 | a missing new name gives `BadRequest` before any lookup; an unresolved identifier gives `NotFound`; an old name that does not decode gives `ServerError`; all three leave the table unchanged; otherwise the table is renamed and the number of changed records is reported; the invariant is kept |
| Sorting.InsertDesc | backend/server.js:94 | insertion keeps the elements and adds exactly the new one |
| Sorting.InsertDescSorted | backend/server.js:94 | inserting into an ordered sequence keeps it ordered |
| Sorting.SortDesc | backend/server.js:94 | `sort({ date: -1 })`: ordered newest first, and a permutation of the input |
| Sorting.SortDescFirst | backend/server.js:127-130 | the first of the sorted elements is one of them, and no element has a larger key |
| NumberText.IntToText | src/components/Profile.jsx:118 | `toString()` of an integer: a minus sign for negatives, then the digits; no contract of its own: `ParseIntRoundTrip` is its partner |
| NumberText.NatToText | src/components/Profile.jsx:118 | the text of a natural number is non-empty, starts with a digit, and starts with 0 only for 0 |
| NumberText.DigitsOfNat | src/components/Profile.jsx:118 | the text of `n` is all decimal digits, and their value is `n` |
| NumberText.ParseInt | src/components/Profile.jsx:85 | `parseInt` with no radix: white space, a sign, an optional `0x`, the longest digit run, NaN when it is empty; no contract of its own: `ParseIntRoundTrip`, `ParseIntReadsText` and `NoDigitsIsNaN` are about it |
| NumberText.ParseIntRoundTrip | src/components/Profile.jsx:85 | `parseInt(n.toString()) == n` for every integer |
| NumberText.ParseIntReadsText | src/components/Profile.jsx:85 | `parseInt` still reads `n` back when text that does not continue the number follows it |
| NumberText.NoDigitsIsNaN | src/components/Profile.jsx:85 | text without any decimal digit, such as a missing entry read as `null`, parses to NaN |
| NumberText.MagnitudeNeedsDigit | src/components/Profile.jsx:85 | without a leading decimal digit there is no hex prefix and no digit run, so `parseInt` gives NaN |
| StorageMap.WriteAll | src/components/Profile.jsx:116-122 | a batch of `setItem` calls, the later write of a key winning; no contract of its own: the three lemmas below state its effect |
| StorageMap.WriteAllKeys | src/components/Profile.jsx:116-122 | after a batch of `setItem` calls the store holds exactly its old keys and the keys written |
| StorageMap.WriteAllKeepsOthers | src/components/Profile.jsx:116-122 | a key the batch does not write keeps its value |
| StorageMap.WriteAllStores | src/components/Profile.jsx:116-122 | when no key is written twice, each written key holds the value written for it |
| Profile.ToggleAchievement | src/components/Profile.jsx:164-170 | same length and order; id, title, description and icon unchanged; `earned` flips exactly on the achievements whose id matches |
| Profile.ToggleTwice | src/components/Profile.jsx:165-169 | toggling the same id twice gives back the list |
| Profile.ToggleAbsent | src/components/Profile.jsx:165-169 | toggling an id that no achievement carries changes nothing |
| Profile.IsProfileIncomplete | src/components/Profile.jsx:200-202 | `isProfileIncomplete`: name, e-mail or phone empty, or income 0; no contract of its own: `CompletenessSurvivesReload` and `EmptyStoreProfile` are about it |
| Profile.MembershipBadge | src/components/Profile.jsx:172-178 | text `Premium` for Premium, `Gold` for Gold, and `Basic` exactly for every other level |
| Profile.UserKeyFormula | src/components/Profile.jsx:120 | each field's key is `user` followed by the field name with its first letter upper-cased |
| Profile.UserKeyInjective | src/components/Profile.jsx:120 | different fields are stored under different keys |
| Profile.UserEntries | src/components/Profile.jsx:116-122 | `saveUserData` makes one `setItem` per field in field order, the income as its `toString()` text |
| Profile.UserEntriesDistinct | src/components/Profile.jsx:116-122 | no key is written twice, and the keys written are the user keys |
| Profile.SaveUserDataWrites | src/components/Profile.jsx:115-123 | after saving, every field is stored under its key with its text, no other key is added, and every other key keeps its value |
| Profile.LocalStorage.SaveUserData | src/components/Profile.jsx:115-123 | the loop leaves the store as the batch of `setItem` calls `UserEntries` lists |
| Profile.ParseIntReadsBack | src/components/Profile.jsx:85 | `parseInt` reads back every integer's text |
| Profile.ParseIntOfNull | src/components/Profile.jsx:85 | `parseInt(null)` is NaN |
| Profile.IntOrZeroReadsText | src/components/Profile.jsx:85 | `parseInt(getItem(key)) \|\| 0` gives back an integer stored with `toString()` |
| Profile.LoadUserData | src/components/Profile.jsx:76-93 | `loadUserData` as written; no contract of its own: `UserRoundTrip`, `LoadUserDataDiffers`, `EmptyStoreProfile` and the two findings below are about it |
| Profile.LoadUserDataIntendedReads | src/components/Profile.jsx:76-93 | a store that holds every field's text under its save key loads as that record, when currency, join date and level are non-empty |
| Profile.IntendedUserRoundTrip | src/components/Profile.jsx:76-123 | with every field read from the key it is saved under, save-then-load gives back the record |
| Profile.LoadUserFromKeys | src/components/Profile.jsx:82-86 | the keys the profile image and the currency are read from decide those two fields and nothing else |
| Profile.LoadUserDataDiffers | src/components/Profile.jsx:82-86 | the load as written differs from the intended one only in the profile image and the currency |
| Profile.StaleKeysNotWritten | src/components/Profile.jsx:82-86 | neither `profileImage` nor `userCurrency` is a key `saveUserData` writes |
| Profile.SaveKeepsStaleKeys | src/components/Profile.jsx:82-86 | saving leaves whatever the store held under those two keys |
| Profile.UserRoundTrip | src/components/Profile.jsx:76-123 | as written, save-then-load gives back every field except the profile image and the currency, which come from the two stale keys |
| Profile.ProfileImageNotRestored | src/components/Profile.jsx:82 | a chosen profile image is lost on reload when the store held no `profileImage` |
| Profile.CurrencyNotRestored | src/components/Profile.jsx:86 | the currency comes back as USD when the store held no `userCurrency` |
| Profile.CompletenessSurvivesReload | src/components/Profile.jsx:200-202 | whether the profile is incomplete survives a save and a load |
| Profile.EmptyStoreProfile | src/components/Profile.jsx:76-93 | an empty store loads the initial record dated today; it is incomplete (name, e-mail, phone empty, income 0) and has the Basic badge |
| Profile.FinancialKeyInjective | src/components/Profile.jsx:127 | different financial fields are stored under different keys |
| Profile.FinancialEntries | src/components/Profile.jsx:126-128 | one `setItem` per financial field, under its own name, in field order |
| Profile.FinancialEntriesDistinct | src/components/Profile.jsx:126-128 | no key is written twice, and the keys written are the field names |
| Profile.SaveFinancialDataWrites | src/components/Profile.jsx:125-129 | after saving, every financial field is stored under its own name, and every other key is kept |
| Profile.LocalStorage.SaveFinancialData | src/components/Profile.jsx:125-129 | the loop leaves the store as the batch of `setItem` calls `FinancialEntries` lists |
| Profile.LoadFinancialData | src/components/Profile.jsx:95-106 | `loadFinancialData`: every field from the key of its own name, 0 when missing or not a number; no contract of its own: `EmptyStoreFinancial`, `LoadFinancialDataReads` and `FinancialRoundTrip` are about it |
| Profile.EmptyStoreFinancial | src/components/Profile.jsx:95-106 | an empty store loads all zeros |
| Profile.LoadFinancialDataReads | src/components/Profile.jsx:95-106 | a store holding every financial field's text under its name loads as that record |
| Profile.FinancialRoundTrip | src/components/Profile.jsx:95-129 | save-then-load gives back the financial record, given that `parseFloat` reads back the rate's text |
| Profile.CalculateSavingsRate | src/components/Profile.jsx:180-185 | computed exactly when income and spending are both positive, otherwise the stored rate; the computed percentage is the unspent share of the income, is below 100, and is non-negative exactly when spending does not exceed income |
| Dashboard.DashboardState.constructor | src/components/Dashboard.jsx:23-31 | the initial state: the three default categories, empty inputs, no expenses |
| Dashboard.DashboardState.LoadCategories | src/components/Dashboard.jsx:33-37 | after mount the categories are the stored list, or empty when nothing is stored; the defaults are discarded |
| Dashboard.DashboardState.ChangeCategory | src/components/Dashboard.jsx:39-41 | the selected category becomes the input's value |
| Dashboard.DashboardState.ChangeAmount | src/components/Dashboard.jsx:43-45 | the amount becomes the input's value |
| Dashboard.DashboardState.ChangeDate | src/components/Dashboard.jsx:47-49 | the date becomes the input's value |
| Dashboard.DashboardState.HandleAddExpense | src/components/Dashboard.jsx:51-64 | alerts exactly when a field is empty, and then changes nothing; otherwise appends exactly the three values as the last item, clears amount and date, keeps the category; only complete items are ever in the list |

## Left out

- HTTP plumbing is not modelled. This covers Express, CORS, body parsing, the database connection and `app.listen`. So are the 500 responses that a failing store call produces.
- The account and expense schemas are not part of this model. The model assumes what the routes rely on:
  - username and e-mail are each unique, and no username is empty;
  - records get fresh ids;
  - a record's owner is a registered account.
- ExpenseTable.FindUser: `findOne` without a sort may return any matching account. The model takes the first in collection order. The two differ only when one account's e-mail is another account's username.
- ExpenseServer.Server.Register: a missing field answers with the store's own validation message, whose text comes from the account schema, which is not part of this model. The model answers with the fallback text `Registration failed`.
- ExpenseServer.Server.Register: when both username and e-mail clash, the store names whichever unique index it checks first. The model names the username.
- ExpenseServer.Server.UpdateExpense and ExpenseServer.Server.DeleteExpense: an id that is not a valid store id answers 500. Ids are naturals here, so that case does not arise.
- ExpenseServer.Server.AddExpense and ExpenseServer.Server.UpdateExpense: NaN and an Invalid Date are the only values the model lets the store refuse. Any other cast or schema rule of the expense schema is not part of this model.
- Express already percent-decodes route parameters before the handlers decode them a second time. The model's `decode` receives the parameter as the handler sees it, so this double decoding is not captured: a category such as `100%` failing, or a literal `a%20b` arriving as `a b`.
- Binary floating point is not modelled. Amounts and the savings rate are reals. `parseFloat`, `new Date(text)`, the clock and `decodeURIComponent` are parameters. So is the text form of the savings rate (`showReal`, `parseReal`).
- Profile.CalculateSavingsRate: `toFixed(1)` rounding and the string it returns are not modelled. The contract is about the exact quotient.
- Ties in `sort({ date: -1 })` and `$sort` are not modelled. The store leaves their order unspecified, and every property here holds for any order of equal keys.
- The per-group lookups run concurrently under `Promise.all`. The model runs them one after the other against a fixed table.
- NumberText.IntToText: `toString()` uses exponent notation for magnitudes of 10^21 and more. The model always writes plain digits.
- Dashboard.DashboardState.LoadCategories: malformed stored JSON makes `JSON.parse` throw. The model takes the already parsed list.
- The achievements' own save and load (`saveAchievements`, `loadAchievements`) are not modelled. Neither are the input handlers of the profile form, the image upload, rendering, the charts and the navigation bar.
- The `useEffect` scheduling that triggers the saves and loads is not modelled. The saves and loads are modelled as operations, not their triggers.

## Findings

| source | as written | input that shows it | evidently intended | confidence | as-written member | corrected member |
|---|---|---|---|---|---|---|
| src/components/Profile.jsx:82 | the profile image is loaded from key `profileImage`, but `saveUserData` writes it under `userProfileImage` (line 120) | save a profile with image `"data:x"` into an empty store, then load: the image is `""` | load it from `userProfileImage` | high (not executed) | Profile.ProfileImageNotRestored | Profile.IntendedUserRoundTrip |
| src/components/Profile.jsx:86 | the currency is loaded from key `userCurrency`, but `saveUserData` writes it under `userPreferredCurrency` (line 120) | save a profile with currency `"EUR"` into an empty store, then load: the currency is `"USD"` | load it from `userPreferredCurrency` | high (not executed) | Profile.CurrencyNotRestored | Profile.IntendedUserRoundTrip |
