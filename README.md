# Car rental site: catalog, admin session and back-office rules in Dafny

This project models the logic of a car-rental web site: a public catalog and an admin back
office, written in React over mock data. These parts are modelled:

- **Catalog query.** The public catalog's "apply filters" pipeline runs over the static car
  list:
  - a case-folded search on name or description;
  - a category filter, where "all" means no filter;
  - an inclusive price range;
  - a stable sort by price, rating or year.

  "Reset" restores the defaults.
- **Route guard.** The guard in front of the admin pages decides between four outcomes: a
  loader, a redirect to login, a redirect to "unauthorized", or the page itself.
- **Authentication context.**
  - The boot check accepts a credential only before its expiry time, which is kept as text
    in browser storage.
  - Login knows two fixed credential pairs and writes a token valid for 24 hours.
  - Logout clears the credential.
- **User administration.**
  - The filtered table.
  - The edit merge, and creation with `max(id) + 1`.
  - Deletion, and the button guard that protects the last administrator.
  - The per-role counters.
- **Dashboard.** Car deletion after a confirmation prompt, the per-row availability toggle,
  and the availability counters.
- **Car form.** The feature list editor (add a trimmed, new, non-blank entry; remove every
  equal entry), its mirror into the form values, and the car schema.
- **Settings.**
  - The settings provider: defaults, load from storage, and the merge-and-store update.
  - The settings screen's single-field edits and whole-form save.
- **Password reset.** The four-step wizard, its code-length guard and the new-password rule.

Each source file is one Dafny module:
- Code that updates state becomes a class whose methods are specified against pure functions.
- Those functions carry the properties, as contracts and lemmas.

`Array.prototype.sort` is modelled as a stable insertion sort on an array (`Sorting.SortInPlace`). It is proved equal to the functional specification `Sorting.SortBy`, and that specification is proved sorted, a permutation and stable.

Environment inputs are parameters:
- the clock;
- the outcome of `window.confirm`;
- whether each storage write (the login's token and expiry, the settings) succeeds;
- the zod email and URL checks.

The expiry timestamp goes through `Number.prototype.toString` on login and `parseInt` on boot. Both conversions are modelled on strings (`Numbers.IntToString`, `Numbers.ParseInt`), and the round trip is proved.

Where the documentation and the code differ, the model follows the code:
- The boot check never removes an expired credential. It only reads storage, so the credential stays stored (`Session.ExpiredCredentialIgnored`).
- A successful boot always signs in the first fixture user, the administrator, whichever token was stored (`Session.BootIgnoresWhoLoggedIn`). It does not resolve the token to the user who logged in.

## Model

| member | source | states |
|---|---|---|
| `Text.Lower` | src/pages/Catalog.tsx:129-130 | `toLowerCase` keeps the length, leaves no Latin (A-Z) or Cyrillic (U+0400-U+042F) capital, and keeps every other character in place |
| `Text.LowerIdempotent` | src/pages/Catalog.tsx:129-130 | lowering an already lowered string changes nothing |
| `Text.ContainsEmpty` | src/components/admin/UserManagement.tsx:135-138 | `includes("")` holds of every string, so an empty query matches every name |
| `Text.TrimStart` | src/context/AuthContext.tsx:34 | the result is a suffix, everything dropped is white space, and it does not start with white space (the leading skip of `parseInt`) |
| `Text.TrimEnd` | src/components/admin/CarForm.tsx:84 | the result is a prefix, everything dropped is white space, and it does not end with white space |
| `Text.Trim` | src/components/admin/CarForm.tsx:84 | `trim()` returns the slice of the input that follows its leading white space; everything before and after that slice is white space, and the slice neither starts nor ends with white space |
| `Text.TrimStartSkipsSpace` | src/context/AuthContext.tsx:34 | in front of a non-space, trimming the start removes exactly the white space before it |
| `Text.TrimIdempotent` | src/components/admin/CarForm.tsx:84-85 | trimming a trimmed feature changes nothing |
| `Sorting.SortBySorted` | src/pages/Catalog.tsx:145-157 | the sort specification returns a list ordered by the comparator's key |
| `Sorting.SortByPermutes` | src/pages/Catalog.tsx:145-157 | the sort specification only reorders: its result is a permutation of its input |
| `Sorting.SortByStable` | src/pages/Catalog.tsx:145-157 | elements with equal keys keep their relative order (a stable sort, as ECMAScript 2019 requires) |
| `Sorting.SortBySortedIsIdentity` | src/pages/Catalog.tsx:145-157 | sorting an already ordered list returns it unchanged |
| `Sorting.InsertInPlace` | src/pages/Catalog.tsx:147 | one insertion step on the array: the prefix is kept and the rest equals the specification's insertion |
| `Sorting.SortInPlace` | src/pages/Catalog.tsx:147 | the in-place sort leaves the array equal to the sort specification of its old contents |
| `Numbers.NatToString` | src/context/AuthContext.tsx:62-64 | the decimal digits are non-empty and all digits |
| `Numbers.IntToString` | src/context/AuthContext.tsx:62-64 | `toString` of the expiry time is non-empty and all digits for non-negative values |
| `Numbers.DigitPrefixLength` | src/context/AuthContext.tsx:34 | `parseInt` reads exactly the longest run of leading digits |
| `Numbers.NatToStringValue` | src/context/AuthContext.tsx:62-64 | the digits written have the value of the number |
| `Numbers.DigitPrefixOfDigits` | src/context/AuthContext.tsx:34 | the digit run of a string of digits followed by a non-digit is exactly those digits |
| `Numbers.ParseIntPrefix` | src/context/AuthContext.tsx:34 | `parseInt` reads a written integer back whatever non-digit text follows it |
| `Numbers.ParseIntSurrounded` | src/context/AuthContext.tsx:34 | `parseInt` reads a written integer back through leading white space and trailing non-digit text |
| `Numbers.ParseIntToString` | src/context/AuthContext.tsx:31-34 | `parseInt` reads back exactly the integer `toString` wrote |
| `Catalog.Filtered` | src/pages/Catalog.tsx:124-142 | a car survives the three filter stages exactly when it is in the list and passes the search (unless empty), the category (unless "all") and the price range |
| `Catalog.ParseSort` | src/pages/Catalog.tsx:145-160 | exactly the four keys "price-asc", "price-desc", "rating" and "newest" select a sort, each its own: price up, price down, rating down, year down; any other key falls to the default branch |
| `Catalog.Compare` | src/pages/Catalog.tsx:147-156 | each of the four comparators is negative exactly when the first car ranks lower and zero exactly when the ranks tie, so sorting by the rank is sorting by the comparator |
| `Catalog.Query` | src/pages/Catalog.tsx:123-164 | the list "apply" shows holds exactly the cars of the list that pass all three filters, whatever the sort key |
| `Catalog.FilteredIsOneFilter` | src/pages/Catalog.tsx:124-142 | the three conditional filter stages equal one filter by their conjunction, so the input order is kept |
| `Catalog.QueryDrawsFromInput` | src/pages/Catalog.tsx:124-161 | every car shown comes from the list, at most as often as there |
| `Catalog.QueryRespectsFilters` | src/pages/Catalog.tsx:127-142 | every car shown lies in the price range (both ends included), has the category unless it is "all", and matches the search unless the term is empty |
| `Catalog.QueryComplete` | src/pages/Catalog.tsx:128-142 | every car passing the three filters is shown |
| `Catalog.QueryPermutes` | src/pages/Catalog.tsx:145-157 | the sorted result is a permutation of the filtered list |
| `Catalog.QuerySortedByRank` | src/pages/Catalog.tsx:145-157 | with a known sort key the result is ordered by that key's comparator |
| `Catalog.QueryOrdered` | src/pages/Catalog.tsx:145-157 | "price-asc" gives prices non-decreasing; "price-desc" prices, "rating" ratings and "newest" years non-increasing |
| `Catalog.QueryStable` | src/pages/Catalog.tsx:145-157 | cars that compare equal keep their filtered-list order |
| `Catalog.QueryUnknownKeyKeepsOrder` | src/pages/Catalog.tsx:158-160 | any other sort key shows the passing cars in list order |
| `Catalog.RecommendedKeepsOrder` | src/pages/Catalog.tsx:116-160 | the initial key "recommended" keeps the list order |
| `Catalog.QueryIdempotent` | src/pages/Catalog.tsx:123-164 | applying the same filters to their own result changes nothing |
| `Catalog.ResetShowsWholeCatalog` | src/pages/Catalog.tsx:167-173 | the reset values let the whole static list through, in order, so "reset" shows what "apply" would |
| `Catalog.CatalogPricesInSliderRange` | src/pages/Catalog.tsx:15-94 | every price of the static list lies on the slider's initial range |
| `Catalog.DefaultFiltersKeepSliderRange` | src/pages/Catalog.tsx:140-142 | with the default filters a list priced within 0..10000 is shown unchanged |
| `Catalog.RunQuery` | src/pages/Catalog.tsx:123-164 | filtering stage by stage on a copy, then sorting in place, gives the query's result |
| `Catalog.CatalogPage.constructor` | src/pages/Catalog.tsx:113-117 | the controls start at their defaults and the list shown is the static list |
| `Catalog.CatalogPage.SetSearchTerm` | src/pages/Catalog.tsx:204 | the search box sets the term only |
| `Catalog.CatalogPage.SetCategoryFilter` | src/pages/Catalog.tsx:222 | the selector sets the category only |
| `Catalog.CatalogPage.SetPriceRange` | src/pages/Catalog.tsx:254 | the slider sets the range only |
| `Catalog.CatalogPage.SetSortBy` | src/pages/Catalog.tsx:303 | the sort selector sets the key only; the list waits for "apply" |
| `Catalog.CatalogPage.ApplyFilters` | src/pages/Catalog.tsx:123-164 | the list shown becomes the query over the static list with the current controls |
| `Catalog.CatalogPage.ResetFilters` | src/pages/Catalog.tsx:167-173 | all four controls return to their defaults and the static list is shown |
| `RouteGuard.Guard` | src/components/admin/ProtectedRoute.tsx:11-39 | loading always shows the loader; otherwise an unauthenticated visitor is sent to login with the location; a role mismatch goes to "unauthorized"; the page renders exactly when not loading, authenticated, and the role is not required or matches |
| `RouteGuard.AdminRouteIgnoresRole` | src/App.tsx:30-34 | the `/admin` route names no role, so any signed-in user sees it and a visitor without a user is sent to login |
| `Session.MatchCredentials` | src/context/AuthContext.tsx:58-76 | a match names a listed user whose email was given; the administrator's token is granted exactly for the first user's email with "admin123"; the manager's token exactly when that fails and the second user's email comes with "manager123"; every other pair is refused |
| `Session.Persist` | src/context/AuthContext.tsx:62-64 | after a login both keys are stored, the token as given, the expiry read back by `parseInt` as now + 86400000, and every other key as before |
| `Session.BootAcceptsEarlier` | src/context/AuthContext.tsx:31-34 | a credential the boot check accepts now was accepted at every earlier time, so once expired it stays refused |
| `Session.BootIgnoresTokenValue` | src/context/AuthContext.tsx:31-37 | the boot check and the user it signs in are the same for every non-empty stored token |
| `Session.LoginThenBoot` | src/context/AuthContext.tsx:31-73 | after a login at time t, the boot check accepts exactly while now < t + 86400000 |
| `Session.BootIgnoresWhoLoggedIn` | src/context/AuthContext.tsx:34-37 | within the window, a boot after any successful login signs in the first fixture user |
| `Session.ExpiredCredentialIgnored` | src/context/AuthContext.tsx:31-38 | a credential whose expiry has passed signs nobody in and the user stays as it was |
| `Session.LogoutDefeatsBoot` | src/context/AuthContext.tsx:104-105 | after logout both keys are gone, every other key is kept, and no boot accepts |
| `Session.AuthContext.constructor` | src/context/AuthContext.tsx:18-19 | the provider starts with no user and loading |
| `Session.AuthContext.CheckAuth` | src/context/AuthContext.tsx:24-45 | the user becomes the first fixture user exactly when a token and an unexpired expiry are stored, otherwise stays; loading ends; storage is only read |
| `Session.AuthContext.Login` | src/context/AuthContext.tsx:51-95 | true exactly on a credential match whose two storage writes succeed, and then storage holds the matched token with expiry now + 24 h; on any match the user becomes the matched user; a failed token write leaves storage unchanged and a failed expiry write leaves only the token written, both returning false; no match changes neither user nor storage; loading ends either way |
| `Session.HalfWrittenLogin` | src/context/AuthContext.tsx:31-33 | a token written without its expiry is refused by the boot check when no expiry was stored, but an expiry left by an earlier login is still accepted with the new token |
| `Session.AuthContext.Logout` | src/context/AuthContext.tsx:98-112 | both keys removed, no user, not authenticated, navigation to the login page |
| `UserManagement.Visible` | src/components/admin/UserManagement.tsx:133-141 | a user is shown exactly when on the tab ("all" or the role) and the lowered name or email contains the lowered query or the non-empty phone contains it; each shown user appears exactly as often as in the list |
| `UserManagement.VisibleAllUnfiltered` | src/components/admin/UserManagement.tsx:133-141 | the "all" tab with an empty query shows every user in order |
| `UserManagement.CountRole` | src/components/admin/UserManagement.tsx:285 | a role's counter never exceeds the number of users |
| `UserManagement.RoleCountsSum` | src/components/admin/UserManagement.tsx:271-313 | the administrator, manager and customer counters add up to the total |
| `UserManagement.MaxId` | src/components/admin/UserManagement.tsx:193 | `Math.max` of the ids bounds every id and is one of them, or -Infinity for an empty list |
| `UserManagement.NextIdFresh` | src/components/admin/UserManagement.tsx:192-198 | once an integer id exists, the new id is an integer above every id and equal to none |
| `UserManagement.NextId` | src/components/admin/UserManagement.tsx:193 | the new id is an integer exactly when some listed id is an integer, and -Infinity otherwise |
| `UserManagement.NextIdOfEmptyList` | src/components/admin/UserManagement.tsx:193 | in an empty list the new id is -Infinity, and so is the next, so the two collide |
| `UserManagement.FormOf` | src/components/admin/UserManagement.tsx:157-164 | the edit dialog opens with the user's email, name, role and an empty password; the phone box holds the user's phone, or "" when the user has none |
| `UserManagement.EditFormRejectedAsWritten` | src/components/admin/UserManagement.tsx:45 | as written, the schema rejects the edit dialog as it opens, whatever the user |
| `UserManagement.CorrectionOnlyForEmptyEditPassword` | src/components/admin/UserManagement.tsx:45 | the corrected schema accepts everything the written one does and differs from it only on an empty password in the edit dialog |
| `UserManagement.EditFormAccepted` | src/components/admin/UserManagement.tsx:45 | the corrected schema accepts the opened edit dialog of a valid user and judges creation as before |
| `UserManagement.MergeForm` | src/components/admin/UserManagement.tsx:179 | the merged user takes the form's email, name, phone and role and keeps id, avatar, creation and last-login times |
| `UserManagement.Edit` | src/components/admin/UserManagement.tsx:178-180 | length, order and ids kept; users with the selected id get the form merged, all others unchanged |
| `UserManagement.EditIdempotent` | src/components/admin/UserManagement.tsx:178-180 | saving the same form twice equals saving it once |
| `UserManagement.EditKeepsUniqueIds` | src/components/admin/UserManagement.tsx:178-180 | an edit keeps ids unique |
| `UserManagement.NewUser` | src/components/admin/UserManagement.tsx:192-196 | the created record carries the given id and creation time, no avatar and no last login, and reopening it in the edit dialog shows the form as submitted, password box empty |
| `UserManagement.Create` | src/components/admin/UserManagement.tsx:192-198 | the old list is kept as a prefix and one new user with the next id follows it |
| `UserManagement.CreateKeepsUniqueIds` | src/components/admin/UserManagement.tsx:192-198 | creation keeps ids unique once an integer id exists |
| `UserManagement.Delete` | src/components/admin/UserManagement.tsx:225 | the users kept are exactly those with another id, each as often as in the list |
| `UserManagement.DeleteKeepsUniqueIds` | src/components/admin/UserManagement.tsx:225 | deletion keeps ids unique |
| `UserManagement.DeleteCount` | src/components/admin/UserManagement.tsx:225 | with unique ids, deleting a listed user lowers its role's counter by one and leaves the others |
| `UserManagement.DeleteEnabledExactly` | src/components/admin/UserManagement.tsx:425 | with unique ids, every non-administrator's delete button is enabled, and a listed administrator's exactly when another administrator with another id is listed |
| `UserManagement.LastAdminSurvives` | src/components/admin/UserManagement.tsx:425 | a deletion the row's button allows never removes the last administrator |
| `UserManagement.UserManagementPage.constructor` | src/components/admin/UserManagement.tsx:86-91 | the screen starts empty, loading, with the dialog closed, the "all" tab and no query |
| `UserManagement.UserManagementPage.FetchUsers` | src/components/admin/UserManagement.tsx:106-131 | the list becomes the fixture followed by the three additional users, and loading ends |
| `UserManagement.UserManagementPage.SetActiveTab` | src/components/admin/UserManagement.tsx:338 | the tab control sets the tab |
| `UserManagement.UserManagementPage.SetSearchQuery` | src/components/admin/UserManagement.tsx:328 | the search box sets the query |
| `UserManagement.UserManagementPage.SetForm` | src/components/admin/UserManagement.tsx:462-540 | typing sets the dialog's values |
| `UserManagement.UserManagementPage.HandleAddUser` | src/components/admin/UserManagement.tsx:144-154 | an empty form, no selected user, the dialog open |
| `UserManagement.UserManagementPage.HandleEditUser` | src/components/admin/UserManagement.tsx:157-167 | the form filled from the user, who becomes selected, the dialog open |
| `UserManagement.UserManagementPage.CloseDialog` | src/components/admin/UserManagement.tsx:548 | cancel closes the dialog |
| `UserManagement.UserManagementPage.OnSubmit` | src/components/admin/UserManagement.tsx:170-207 | the list becomes the edit of the selected user, or the creation of a new one; the dialog closes |
| `UserManagement.UserManagementPage.SubmitForm` | src/components/admin/UserManagement.tsx:461 | the form reaches `onSubmit` exactly when the (corrected) schema accepts it; otherwise nothing changes |
| `UserManagement.UserManagementPage.HandleDeleteUser` | src/components/admin/UserManagement.tsx:218-238 | after a confirmed prompt the list loses every user with the id; otherwise it is unchanged |
| `UserManagement.UserManagementPage.ClickDelete` | src/components/admin/UserManagement.tsx:419-426 | a click on an enabled, confirmed button deletes; with unique ids and an administrator present, one remains |
| `Dashboard.CountsAddUp` | src/pages/admin/Dashboard.tsx:137-165 | the available and unavailable counters add up to the total |
| `Dashboard.Delete` | src/pages/admin/Dashboard.tsx:57 | the cars kept are exactly those with another id, each as often as in the list |
| `Dashboard.DeleteAbsentId` | src/pages/admin/Dashboard.tsx:57 | deleting an unlisted id keeps the list as it is |
| `Dashboard.Toggle` | src/pages/admin/Dashboard.tsx:84-86 | length kept; cars with the id get availability `!currentStatus` with every other field unchanged; all other cars unchanged |
| `Dashboard.ClickToggle` | src/pages/admin/Dashboard.tsx:261 | the row's button flips the row's availability, a missing value counting as false and so becoming true |
| `Dashboard.ToggleTwiceRestores` | src/pages/admin/Dashboard.tsx:84-86 | two clicks on a row restore its availability (its exact record when it had a value) and never touch cars with other ids |
| `Dashboard.DashboardPage.constructor` | src/pages/admin/Dashboard.tsx:14-16 | the dashboard starts with no cars, loading, on the cars tab |
| `Dashboard.DashboardPage.FetchCars` | src/pages/admin/Dashboard.tsx:18-44 | the list becomes the mock cars and loading ends |
| `Dashboard.DashboardPage.HandleDeleteCar` | src/pages/admin/Dashboard.tsx:47-72 | a declined prompt changes nothing; a confirmed one deletes the id |
| `Dashboard.DashboardPage.HandleToggleAvailability` | src/pages/admin/Dashboard.tsx:75-100 | the list becomes the toggle of the id with the status given |
| `CarForm.CarFormBounds` | src/components/admin/CarForm.tsx:25-39 | the price and year minimums are inclusive (100 and 1990 accepted, 99 and 1989 refused), an empty feature list is refused, and availability never matters |
| `CarForm.NewCarDefaults` | src/components/admin/CarForm.tsx:60-74 | the new-car form cannot be sent as it opens |
| `CarForm.AddFeature` | src/components/admin/CarForm.tsx:83-88 | the list either stays or gains the trimmed input at the end, and it changes exactly when that input is non-blank and not listed |
| `CarForm.RemoveFeature` | src/components/admin/CarForm.tsx:91-93 | the entries kept are exactly those different from the argument, each as often as in the list |
| `CarForm.AddFeatureClean` | src/components/admin/CarForm.tsx:84-85 | adding keeps the list free of duplicates, and an added entry is trimmed and non-blank |
| `CarForm.RemoveFeatureDistinct` | src/components/admin/CarForm.tsx:92 | removing keeps the list free of duplicates |
| `CarForm.AddThenRemove` | src/components/admin/CarForm.tsx:85-92 | adding a new feature and then removing it restores the list |
| `CarForm.CarFormState.constructor` | src/components/admin/CarForm.tsx:51-80 | the list starts as the car's features or empty, the input empty, the form values mirroring the list |
| `CarForm.CarFormState.SetNewFeature` | src/components/admin/CarForm.tsx:392 | typing sets the feature input |
| `CarForm.CarFormState.SyncFeatures` | src/components/admin/CarForm.tsx:78-80 | the effect copies the list into the form values and nothing else |
| `CarForm.CarFormState.HandleAddFeature` | src/components/admin/CarForm.tsx:83-88 | the list becomes `AddFeature` of the input, the input is cleared exactly when something was added, and the form mirrors the list |
| `CarForm.CarFormState.HandleRemoveFeature` | src/components/admin/CarForm.tsx:91-93 | the list becomes `RemoveFeature` of the argument and the form mirrors it |
| `CarForm.CarFormState.Submit` | src/components/admin/CarForm.tsx:96-132 | the form is sent exactly when `carFormSchema` accepts it, and `isSubmitting` is false after a send |
| `Settings.AllKeysComplete` | src/context/SettingsContext.tsx:6-29 | the settings record has these fifteen fields |
| `Settings.DefaultSettings` | src/context/SettingsContext.tsx:32-55 | the defaults give every field a value |
| `Settings.Merge` | src/context/SettingsContext.tsx:100 | every key of the patch overwritten, every other key kept, no key lost |
| `Settings.MergeIdempotent` | src/context/SettingsContext.tsx:100 | applying a patch twice equals applying it once |
| `Settings.MergeEmpty` | src/context/SettingsContext.tsx:100 | an empty patch changes nothing |
| `Settings.MergeFull` | src/context/SettingsContext.tsx:100 | a patch holding every current key replaces the settings |
| `Settings.Loaded` | src/context/SettingsContext.tsx:81-85 | a stored object replaces the settings; nothing stored, or text that does not parse, keeps them |
| `Settings.SettingsProvider.constructor` | src/context/SettingsContext.tsx:69-70 | the provider starts with the defaults and loading |
| `Settings.SettingsProvider.LoadSettings` | src/context/SettingsContext.tsx:73-94 | the settings become the loaded ones and loading ends |
| `Settings.SettingsProvider.UpdateSettings` | src/context/SettingsContext.tsx:97-126 | on success the settings become the merge and storage holds exactly them, returning true; a failed write changes nothing and returns false |
| `SystemSettingsScreen.WithField` | src/components/admin/SystemSettings.tsx:23-31 | the key gets the value and every other key is unchanged |
| `SystemSettingsScreen.WithFieldIsMerge` | src/components/admin/SystemSettings.tsx:23-31 | a single-field change is a one-entry merge, so repeating it changes nothing |
| `SystemSettingsScreen.SaveReplacesSettings` | src/components/admin/SystemSettings.tsx:37 | saving a complete working copy makes the provider's settings equal to it |
| `SystemSettingsScreen.SystemSettingsPage.constructor` | src/components/admin/SystemSettings.tsx:18-20 | the working copy starts as the provider's settings, on the general tab, not saving |
| `SystemSettingsScreen.SystemSettingsPage.HandleChange` | src/components/admin/SystemSettings.tsx:23-31 | the working copy gets the one field changed |
| `SystemSettingsScreen.SystemSettingsPage.SaveSettings` | src/components/admin/SystemSettings.tsx:34-47 | the whole working copy is merged into the provider, the notice appears only on success, and `isSaving` is false afterwards |
| `PasswordReset.ResetPasswordRule` | src/pages/admin/PasswordReset.tsx:20-26 | the schema accepts exactly a password of at least 6 characters equal to its confirmation |
| `PasswordReset.Truncate` | src/pages/admin/PasswordReset.tsx:198-203 | the code box keeps the whole input when it has at most 6 characters and exactly its first 6 otherwise |
| `PasswordReset.CodeAcceptedExactly` | src/pages/admin/PasswordReset.tsx:85-92 | with the box's limit, the guard lets through exactly the codes of 6 characters |
| `PasswordReset.PasswordResetPage.constructor` | src/pages/admin/PasswordReset.tsx:33-36 | the wizard starts at the request step with empty email and code |
| `PasswordReset.PasswordResetPage.SetRequestEmail` | src/pages/admin/PasswordReset.tsx:150-162 | typing sets the request form's email |
| `PasswordReset.PasswordResetPage.SubmitRequest` | src/pages/admin/PasswordReset.tsx:56-81 | a valid email is recorded and the code step shown (also when sent again from the code step); an invalid one changes nothing |
| `PasswordReset.PasswordResetPage.SetCode` | src/pages/admin/PasswordReset.tsx:198-203 | the code becomes the input cut to 6 characters |
| `PasswordReset.PasswordResetPage.OnVerifyCode` | src/pages/admin/PasswordReset.tsx:84-113 | an empty or short code shows the error and stays on the code step; a full code moves to the reset step |
| `PasswordReset.PasswordResetPage.ChangeEmail` | src/pages/admin/PasswordReset.tsx:227-229 | "change email" returns to the request step |
| `PasswordReset.PasswordResetPage.SubmitNewPassword` | src/pages/admin/PasswordReset.tsx:116-136 | the success step is reached exactly when the schema accepts; the page is never left submitting, and past the code step the code has 6 characters |

## Findings

| source | as written | input that shows it | evidently intended | confidence | as-written member | corrected member |
|---|---|---|---|---|---|---|
| src/components/admin/UserManagement.tsx:45 | `password: z.string().min(6).optional()` rejects the empty string, but the edit dialog fills the password with "" and labels it "leave empty to keep the password" (lines 163, 532-533) | open the edit dialog on any user and submit without typing a password: validation fails with "at least 6 characters" | an empty password is accepted when editing and the stored password is left alone | high, not executed | `UserManagement.EditFormRejectedAsWritten` | `UserManagement.EditFormAccepted` |

The screen model submits through the corrected schema (`UserManagement.UserManagementPage.SubmitForm`).

## Left out

- JavaScript numbers are modelled as unbounded integers. This covers prices, years, ids and millisecond timestamps. There is no floating point and no 2^53 precision limit. Ratings are kept in tenths, since they are only compared.
- Text.Lower maps only the Latin and Cyrillic capitals (U+0041–U+005A, U+0400–U+042F). The site's data uses only these. Other Unicode case mappings are not modelled.
- Text.Lower: the contract says that no capital remains and that every other character is kept. Which lower-case letter each capital becomes (+32 for A-Z and U+0410-U+042F, +80 for U+0400-U+040F) is stated only by `LowerChar`.
- Numbers.ParseInt reads an optional sign and decimal digits after leading white space. The "0x" prefix that makes `parseInt` read hexadecimal is not modelled. `toString` of non-integers and exponent forms is not modelled either.
- The zod validators:
  - The email and URL checks are parameters.
  - Lengths are counted in characters, not UTF-16 code units.
  - `z.coerce.number` is taken to produce an integer; non-numeric and fractional input is not modelled.
- Notifications (toasts), `console.error` and the mock request delays (`fetchMockApi`, `setTimeout`) are not modelled. Every mock request succeeds at once, as the mock always does.
- The `catch` branches guarding mock requests that cannot fail are not modelled. So is storage that throws on read.
- Modelled as parameters:
  - The clock.
  - `window.confirm`.
  - Whether a storage write succeeds: the login's token and expiry writes, and the settings write.
- Settings.Loaded: stored text that parses as JSON but is not a settings object is not modelled.
- React rendering, hook timing and the stale closure in `updateSettings` are not modelled. The model applies each handler to the state it sees at once.
- UserManagement.MergeForm: the form's `password` field, which the merge and the creation also copy into the user record, is not modelled. The user record in this model has no password.
- Catalog.Car holds only the fields the filters and the sort read. The image, feature list, gearbox and fuel of each static car are only rendered, so they are not modelled.
- Dashboard.Car holds only the fields the dashboard reads. The other optional fields of the API's car type (engine, drive, dates, …) are carried unchanged by both operations.
- CarForm.CarFormValues leaves out the optional `drive` and `consumption` fields and the default of `isAvailable`. They do not affect acceptance.
- UserManagement.Visible: the contract states which elements are kept and exactly how often, not their order. The definition is an order-preserving filter, and the order is used only through lemmas that unfold it.
- UserManagement.Delete: the contract states which elements are kept and exactly how often, not their order. The definition is an order-preserving filter, and the order is used only through lemmas that unfold it.
- Dashboard.Delete: the contract states which elements are kept and exactly how often, not their order. The definition is an order-preserving filter, and the order is used only through lemmas that unfold it.
- CarForm.RemoveFeature: the contract states which elements are kept and exactly how often, not their order. The definition is an order-preserving filter, and the order is used only through lemmas that unfold it.
- The user fixture `mockUsersData` is not part of this model. The session and the user screen take the user list as a parameter:
  - The first entry plays the administrator and the second the manager.
  - A list too short for a login reads as a failed login.
- Not part of this model:
  - src/components/admin/Analytics.tsx (random data, charts, number formatting);
  - src/pages/CarDetail.tsx, src/pages/Index.tsx, src/components/CarCard.tsx and src/components/MainLayout.tsx (static markup);
  - src/pages/admin/Login.tsx (depends on a `mockLogin` the API module does not define);
  - src/pages/admin/Unauthorized.tsx and src/components/admin/CarEditModal.tsx (navigation and dialog callbacks);
  - the route table of src/App.tsx, except that `/admin` names no role;
  - the fetch wrapper and endpoint helpers of src/lib/api.ts (network I/O).
