# FideliCard admin: a Dafny model

FideliCard (zapocard) is the administration web app of a loyalty-card service. A super
administrator manages client companies and plans. A company administrator manages its
own company. This project models the parts of the app that decide things:

- the input validators and text formatters;
- the route guard and the permission flags;
- the session state kept by the auth provider;
- the login and password pages;
- the admin sidebar;
- the company list page, the company form;
- the company and plan operations over the hosted backend.

Each is stated as pure functions over immutable values, with contracts and lemmas that
say what the code promises.

Modules follow the source files:

| module | source |
|---|---|
| `Validation` | `src/utils/validation.ts` |
| `Formatting` | `src/utils/formatting.ts` |
| `ProtectedRoute` | `src/components/ProtectedRoute.tsx`, with the section table of `src/App.tsx` |
| `AuthProvider` | `src/hooks/useAuth.tsx` |
| `LoginForm` | `src/components/auth/LoginForm.tsx` |
| `PasswordChangeForm` | `src/components/auth/PasswordChangeForm.tsx` |
| `AdminLayout` | `src/components/layouts/AdminLayout.tsx` |
| `CompaniesPage` | `src/pages/superadmin/Companies.tsx` |
| `CompanyForm` | `src/components/forms/CompanyForm.tsx` |
| `UseCompanies`, `UsePlans` | `src/hooks/useCompanies.tsx`, `src/hooks/usePlans.tsx` |
| `Backend` | the tables and calls those hooks use |
| `Domain` | the row shapes of `src/lib/supabase.ts` |

Shared helpers:

- `Wrappers`: `Option` and the outcome of a fetch.
- `Chars`: JavaScript's character classes, `\D` stripping, `includes`, `split`, `join` and decimal text.
- `Lists`: filtering, and sorting by a total preorder.

JavaScript semantics the model keeps:

- A `replace` without the `g` flag rewrites only the first match. A mask is therefore
  written as a template of digit groups and literal text, filled from index 0 when there
  are enough digits. Fewer digits come back bare. Extra digits stay behind the mask.
- `\d` is ASCII 0-9.
- `\s` and `trim` use the ECMAScript WhiteSpace and LineTerminator set.
- `.` in a regular expression stops at a line terminator.
- The empty string is falsy.
- `substring` clamps negative bounds to 0.
- `split(' ')` splits on the space character only.

The backend is abstract. Each operation receives, for every call it may issue, whether
that call reports an error, and the id or timestamp the backend would assign. It returns
three things:

- its result;
- the store afterwards;
- the list of calls it issued, as a trace.

A call that reports an error changes nothing. Deleting an auth user also removes that
user's profile and companies. `deleteCompany` relies on this foreign-key cascade.

Behaviour of the code worth knowing:

- The route guard gives `Permit` to a company administrator whose company record is
  missing. Only a company record that is present and inactive leads to the inactive
  screen.
- A failed profile load leaves the auth state as it was. The user stays signed in.
- Every auth event that carries a user reloads the profile, token refreshes included.
- `signOut` clears the profile and company only when the provider reports no error. It
  never touches the user or session itself. These are cleared by the auth event that
  follows.
- Every page under `/superadmin` and `/admin`, the two dashboards included, is commented
  out in `src/App.tsx`. A dashboard path therefore has no route of its own. The catch-all
  route sends it to `/`, which no guard protects (`ProtectedRoute.HomeIsUnrouted`). The
  section guards only ever run on the two section paths themselves.
- Routes match whole segments, without regard to case and with trailing slashes allowed.
  So `/administrator` lies in no section, and the catch-all sends it to `/` as well.

Behaviour the lemmas bring out:

- An initial-session read with no user does not clear a profile loaded by an earlier
  event. `AuthProvider.ProfileHasUserAfterStart` therefore proves "a profile implies a user"
  only when the initial session is read first.
- A super administrator's profile load keeps whatever company was held before.
- `updateCompany` spreads the form's values, a new password included, into the update of
  the `companies` table. That table has no `password` column (src/lib/supabase.ts:67-78),
  so an edit that types a new password names a missing column and the update is refused
  (`UseCompanies.UpdateCompany`).
- Every length limit on a form counts UTF-16 code units, as JavaScript's `length` does
  (`Chars.JsLength`). A character outside the Basic Multilingual Plane counts twice.
- `handleSignOut` navigates to the login page even when the provider reports an error,
  because `signOut` returns the error instead of throwing it.
- On the new-password page, a digit after a line break ticks the checklist, but the
  schema's look-ahead cannot see it (`PasswordChangeForm.ChecklistAfterBreak`).

## Model

| member | source | states |
|---|---|---|
| Validation.ValidWhatsAppIffFullMask | src/utils/validation.ts:2-22 | a number is valid exactly when its mask is filled completely, with no digit missing or left over |
| Validation.ValidatorsCountDigitsOnly | src/utils/validation.ts:2-8 | the WhatsApp, CEP and CNPJ validators depend only on how many ASCII digits the input holds |
| Validation.FormatWhatsApp | src/utils/validation.ts:10-22 | fewer than 10 digits come back bare; exactly 10 fill "(dd) dddd-dddd"; exactly 11 fill "(dd) ddddd-dddd"; more than 11 fill the 11-digit mask and keep the surplus digits behind it |
| Validation.ApplyMaskFacts | src/utils/validation.ts:14-21 | a non-global mask keeps the digit sequence, is completely filled iff the digit count equals the groups' width, returns short input unchanged and leaves a long input's surplus after the mask |
| Validation.FormatWhatsAppKeepsDigits | src/utils/validation.ts:10-26 | cleaning a formatted number gives the cleaned input: masking never adds, drops or reorders digits |
| Validation.FormatWhatsAppIdempotent | src/utils/validation.ts:10-22 | formatting an already formatted number changes nothing |
| Validation.CleanWhatsApp | src/utils/validation.ts:24-26 | the result holds only digits and is no longer than the input; every digit of the input is kept as often as it occurs and nothing else is; an input of digits only comes back unchanged |
| Validation.CleanWhatsAppIdempotent | src/utils/validation.ts:24-26 | cleaning twice is cleaning once |
| Validation.CleanWhatsAppAppend | src/utils/validation.ts:24-26 | cleaning a concatenation cleans each part and concatenates the results |
| Validation.ValidateEmailAccepts | src/utils/validation.ts:29-32 | any three non-empty runs without spaces or "@" joined as local@domain.suffix are accepted |
| Validation.ValidateEmailSound | src/utils/validation.ts:29-32 | an accepted address has no white space and exactly one "@" |
| Validation.ValidatePassword | src/utils/validation.ts:35-65 | valid iff no errors iff 6 ≤ length ≤ 50, counted in UTF-16 code units, with a lower-case letter, an upper-case letter and a digit; each error is reported exactly when its check fails, in check order, at most four |
| Validation.ValidatePasswordCountsCodeUnits | src/utils/validation.ts:38-44 | a five-character password holding two emoji is six code units or more long, and with a lower-case letter, an upper-case letter and a digit it is valid |
| Validation.Push | src/utils/validation.ts:40-58 | pushing an error is membership-exact and keeps the list in check order when every earlier error ranks below it |
| Validation.FormatCEP | src/utils/validation.ts:68-76 | the digits are preserved; the input is valid iff the result is exactly "ddddd-ddd"; short input comes back bare, long input keeps its surplus after the mask |
| Validation.FormatCNPJ | src/utils/validation.ts:79-87 | the digits are preserved; the input is valid iff the result is exactly "dd.ddd.ddd/dddd-dd"; short input comes back bare, long input keeps its surplus |
| Validation.GenerateSlugValid | src/utils/validation.ts:90-99 | a generated slug is empty or accepted by validateSlug, and has no leading, trailing or doubled hyphen |
| Validation.GenerateSlugIdempotent | src/utils/validation.ts:90-99 | generating a slug from a slug gives it back |
| Validation.ValidateSlugShape | src/utils/validation.ts:101-104 | a slug is accepted iff it is non-empty, made of a-z, 0-9 and single inner hyphens |
| Validation.Squeeze | src/utils/validation.ts:95-96 | replacing runs never lengthens the text and leaves no two adjacent run characters |
| Validation.ValidateTimeIff | src/utils/validation.ts:117-120 | a time is accepted iff it reads as hour 0-23 (one or two digits) and minute 00-59 (two digits) |
| Validation.SplitReads | src/utils/validation.ts:117-120 | every string the pattern matches spells a clock time |
| Validation.ReadsSplits | src/utils/validation.ts:117-120 | every clock time, spelt H:MM or HH:MM, is matched |
| Validation.ValidateTimeRejects | src/utils/validation.ts:117-120 | "24:00" and "7:5" are rejected; "7:05" and "23:59" are accepted |
| Validation.ValidateImageFile | src/utils/validation.ts:137-159 | valid iff no error iff the type is JPEG, PNG or WebP and the size is at most 5 MiB; the type error takes precedence over the size error |
| Formatting.CapitalizeFirst | src/utils/formatting.ts:93-95 | the length is unchanged; the first character is upper-cased and the rest is the lower-cased remainder |
| Formatting.CapitalizeFirstIdempotent | src/utils/formatting.ts:93-95 | capitalising twice is capitalising once |
| Formatting.CapitalizeWordsSpec | src/utils/formatting.ts:97-103 | the length is unchanged; each character that starts a space-separated word is upper-cased and every other one is lower-cased |
| Formatting.TruncateText | src/utils/formatting.ts:105-108 | text that fits comes back unchanged; longer text becomes its prefix plus the suffix, exactly maxLength long when maxLength is at least the suffix length |
| Formatting.TruncateTextIdempotent | src/utils/formatting.ts:105-108 | truncating a truncated text to the same length again changes nothing, when the length leaves room for the suffix |
| Formatting.FormatWhatsAppNumber | src/utils/formatting.ts:111-121 | a valid number gets the validator's mask; any other digit count returns the original, uncleaned input |
| Formatting.FormatWhatsAppNumberIdempotent | src/utils/formatting.ts:111-121 | formatting a formatted number changes nothing |
| Formatting.LinkNumber | src/utils/formatting.ts:123-130 | the link number is all digits and starts with 55; it equals the digits iff they already start with 55 |
| Formatting.LinkNumberIdempotent | src/utils/formatting.ts:123-130 | prefixing a prefixed number changes nothing |
| Formatting.FormatWhatsAppLink | src/utils/formatting.ts:123-134 | the link is wa.me plus the link number; "?text=" and the encoded message follow only when a non-empty message is given |
| Formatting.FormatCEP | src/utils/formatting.ts:137-140 | agrees with the validator module's CEP mask on every input |
| Formatting.FormatCNPJ | src/utils/formatting.ts:143-146 | agrees with the validator module's CNPJ mask on every input |
| Formatting.FormatSlug | src/utils/formatting.ts:149-158 | computes the same slug as generateSlug, so the result is empty or a valid slug |
| Formatting.FormatStatus | src/utils/formatting.ts:161-179 | "Ativo" with the default variant exactly for active, "Inativo" with the secondary variant exactly for inactive |
| Formatting.FormatBusinessHours | src/utils/formatting.ts:250-254 | "Não informado" iff either time is empty, otherwise "open às close" |
| Formatting.GetInitials | src/utils/formatting.ts:257-264 | at most two characters |
| Formatting.GetInitialsSpec | src/utils/formatting.ts:257-264 | the initials are the upper-cased first characters of the space-separated words, the first two of them |
| Formatting.FormatList | src/utils/formatting.ts:267-275 | no items give the empty text, one item gives that item, and two or more start with the first item |
| Formatting.FormatListUniform | src/utils/formatting.ts:267-275 | for two or more items the result is the first items joined by ", ", then " e ", then the last item |
| Formatting.FormatListLength | src/utils/formatting.ts:267-275 | for two or more items the result is as long as the items plus two characters per comma and the conjunction with its spaces |
| Formatting.RelativeBucket | src/utils/formatting.ts:30-51 | each branch is taken exactly on its day range: 0 is today, 1 yesterday, below 0 or 2-6 days, 7-29 weeks, 30-364 months, 365 on years; the count is the whole weeks (1-4), months (1-12) or years in the difference |
| Formatting.RelativeBucketMonotone | src/utils/formatting.ts:30-51 | a larger non-negative difference never lands in an earlier branch, and within a branch the count never goes down |
| Formatting.RenderRelative | src/utils/formatting.ts:35-50 | "Hoje" for today, "Ontem" for yesterday, the count followed by " dias atrás", and for weeks, months and years the count followed by the singular word exactly when the count is 1 and the plural word otherwise |
| Formatting.FormatRelativeDate | src/utils/formatting.ts:30-51 | by whole days elapsed, rounded down: 0 gives "Hoje", 1 gives "Ontem", a negative count or 2 to 6 gives the count and " dias atrás", 7 to 13 gives "1 semana atrás", 14 to 29 the weeks and " semanas atrás", 30 to 59 "1 mês atrás", 60 to 364 the months and " meses atrás", 365 to 729 "1 ano atrás", and beyond that the years and " anos atrás" |
| Formatting.RelativeCountReadBack | src/utils/formatting.ts:30-51 | from two days on, the number the text begins with reads back as the bucket's count |
| Formatting.TimeAgo | src/utils/formatting.ts:229-247 | each branch is taken exactly on its range: under a minute, a minute to an hour, an hour to a day, a day to a week, and the date from seven whole days on; the counts are the whole minutes, hours and days elapsed |
| Formatting.TimeAgoAgreesWithRelative | src/utils/formatting.ts:229-247 | the short form's day count is the relative-date day difference |
| Formatting.FormatTimeAgo | src/utils/formatting.ts:229-247 | under a minute gives "Agora mesmo"; under an hour the whole minutes and " min atrás"; under a day the whole hours and "h atrás"; under a week the whole days and " dias atrás"; from seven days on the short date |
| ProtectedRoute.Guard | src/components/ProtectedRoute.tsx:12-75 | loading iff the session is loading; the login redirect carrying the location iff user or profile is missing; a role mismatch redirects to the home of the user's own role; the inactive screen iff active is required, the role is company admin and the company is present and inactive; the children are shown exactly when none of these applies |
| ProtectedRoute.MissingCompanyPermits | src/components/ProtectedRoute.tsx:48-74 | a company administrator with no company record is let through |
| ProtectedRoute.RequireActiveIgnoresSuperAdmin | src/components/ProtectedRoute.tsx:48 | requiring an active company never changes the decision for a super administrator |
| ProtectedRoute.RouteOf | src/App.tsx:40-95 | each static route is rendered exactly for the paths that match it, whole segments compared without case and trailing slashes allowed; the catch-all exactly for the paths no static route matches |
| ProtectedRoute.RoutesDisjoint | src/App.tsx:40-95 | no path matches two static routes |
| ProtectedRoute.SectionGuard | src/App.tsx:56-92 | a path lying in the superadmin section needs the super admin role; one lying in the admin section needs the company role and an active company; sections are told apart by whole first segments; a path in neither section gets no guard |
| ProtectedRoute.SectionGuardOfRoutes | src/App.tsx:56-92 | the two section routes carry their section's guard; the other static routes carry none |
| ProtectedRoute.HomeSection | src/components/ProtectedRoute.tsx:38-45 | a role's home path lies in that role's section |
| ProtectedRoute.HomeIsUnrouted | src/App.tsx:64-95 | a home path matches no static route, so the catch-all sends it to `/`, the public layout, which has no guard |
| ProtectedRoute.RedirectSettles | src/components/ProtectedRoute.tsx:38-45 | the guard of the section a mismatched role's home lies in admits that user or shows the inactive screen; that guard does not redirect again |
| ProtectedRoute.GetPermissions | src/components/ProtectedRoute.tsx:78-99 | super admin iff the profile's role is super admin; company admin iff the profile's role is company admin; active company iff a company is held and is active; never both super and company admin; all flags false without a profile; company-admin access iff company admin with an active company |
| ProtectedRoute.PermissionsImplyGuard | src/components/ProtectedRoute.tsx:48-99 | whoever the permission flags admit to the company area the active-company guard lets in |
| AuthProvider.LoadUserProfile | src/hooks/useAuth.tsx:89-122 | a profile error leaves the state unchanged; a loaded profile is set; the company is read and set only for a company administrator and only when that read succeeds |
| AuthProvider.Step | src/hooks/useAuth.tsx:55-183 | session events end loading; a session event with a user loads that user's profile; an auth-state change without a user clears profile and company, while an initial-session read without a user keeps them; sign-out clears them only without a provider error and never touches the user; a refresh loads the profile of the current user and does nothing without one |
| AuthProvider.LoadingEnds | src/hooks/useAuth.tsx:51-84 | after a run of events loading is still set iff it was set and no event read the session |
| AuthProvider.LoadingFromInit | src/hooks/useAuth.tsx:46-84 | from the initial state, loading stays true exactly until the first session read |
| AuthProvider.StepKeepsProfileHasUser | src/hooks/useAuth.tsx:70-183 | every transition except an initial-session read without a user, while a profile is held, keeps "a profile is held only with a user" |
| AuthProvider.InitialReadCanOrphanProfile | src/hooks/useAuth.tsx:55-65 | that excepted transition does break the invariant: the profile stays while the user is cleared |
| AuthProvider.ProfileHasUserAfterStart | src/hooks/useAuth.tsx:55-183 | starting with the initial session read, a profile is never held without a user |
| AuthProvider.RunKeepsProfileHasUser | src/hooks/useAuth.tsx:70-183 | the invariant survives any run of later events |
| AuthProvider.UseRequireAuth | src/hooks/useAuth.tsx:213-225 | authenticated iff user and profile are present; the role requirement holds when none is given, else iff the profile has that role |
| LoginForm.LoginSchema | src/components/auth/LoginForm.tsx:15-18 | no errors iff the email is an address and the password is at least 6 UTF-16 code units long; each error appears exactly when its check fails |
| LoginForm.RedirectTarget | src/components/auth/LoginForm.tsx:40-53 | a redirect happens iff not loading with user and profile present; it goes to the same home the route guard uses |
| LoginForm.Render | src/components/auth/LoginForm.tsx:57-66 | the form is replaced by the redirect notice exactly when the redirect fires; the submit button is disabled iff a submit or the session is loading |
| LoginForm.RedirectIsFinal | src/components/auth/LoginForm.tsx:45-47 | the guard of the section a signed-in user's home lies in admits that user or shows the inactive screen; that guard does not redirect again |
| LoginForm.OnSubmit | src/components/auth/LoginForm.tsx:68-83 | on each of the three exits the submit flag is raised first and lowered at the end; the failure is logged exactly when sign-in reports or throws an error |
| AdminLayout.IsActiveRouteSegment | src/components/layouts/AdminLayout.tsx:129-131 | a route is active iff the path equals the link or continues it after a "/" |
| AdminLayout.IsActiveRouteExample | src/components/layouts/AdminLayout.tsx:129-131 | "/admin/dashboardX" does not activate "/admin/dashboard" but "/admin/dashboard/x" does |
| AdminLayout.Navigation | src/components/layouts/AdminLayout.tsx:39-105 | the super-admin menu iff the role is super admin; every other case, a missing profile included, gets the company menu |
| AdminLayout.MenusWellFormed | src/components/layouts/AdminLayout.tsx:43-103 | super-admin links all start with "/superadmin/", company links with "/admin/", and no link in a menu continues another |
| AdminLayout.AtMostOneActive | src/components/layouts/AdminLayout.tsx:129-209 | in a well-formed menu the links are distinct keys and at most one item is highlighted |
| AdminLayout.CompanyPanelNotForSuperAdmin | src/components/layouts/AdminLayout.tsx:179 | the company panel shows only beside the company menu |
| AdminLayout.HandleSignOut | src/components/layouts/AdminLayout.tsx:107-127 | a click while logging out does nothing; otherwise sign-out is called; a throw resets the flag and stays, a return navigates to login |
| AdminLayout.SignOutReentrance | src/components/layouts/AdminLayout.tsx:107-127 | over any run of clicks, sign-out is called at most once per throw plus once |
| CompaniesPage.FilterCompanies | src/pages/superadmin/Companies.tsx:92-106 | every kept company matches, and each company is kept as often as it occurs iff it matches search and status |
| CompaniesPage.NoFilterKeepsAll | src/pages/superadmin/Companies.tsx:94-103 | an empty search with status "all" keeps every company in order |
| CompaniesPage.StatusFilter | src/pages/superadmin/Companies.tsx:101-103 | "active" keeps exactly the active companies, "inactive" the inactive ones, "all" every one |
| CompaniesPage.BeforeIsPreorder | src/pages/superadmin/Companies.tsx:108-126 | each field and direction orders companies totally and transitively |
| CompaniesPage.FilteredAndSorted | src/pages/superadmin/Companies.tsx:92-129 | the result is a permutation of the matching companies, ordered by the lower-cased name or email or by creation time, ascending or descending |
| CompaniesPage.ComputeMetrics | src/pages/superadmin/Companies.tsx:225-266 | active plus inactive equals total, the active count is the "active" filter's size, and the revenue is 30 per active company |
| CompaniesPage.SortRoundTrip | src/pages/superadmin/Companies.tsx:308-325 | splitting the selector value on "-" recovers the field and order for all six options |
| CompaniesPage.CreateFirstHintMeansNoCompanies | src/pages/superadmin/Companies.tsx:345-353 | the "create your first company" hint appears with an empty list only when there are no companies |
| CompanyForm.Mask | src/components/forms/CompanyForm.tsx:107-113 | the form's mask gives the validator module's result on every input |
| CompanyForm.PhonePatternIsMask | src/components/forms/CompanyForm.tsx:28 | the WhatsApp pattern accepts exactly the completely filled 10- and 11-digit masks |
| CompanyForm.MaskMatchesPattern | src/components/forms/CompanyForm.tsx:26-28 | masked input matches the pattern iff the number is valid; an 11-digit mask is 15 characters, the input's maxLength |
| CompanyForm.NameIssues | src/components/forms/CompanyForm.tsx:16-19 | the name passes iff it is 2 to 100 UTF-16 code units long; an empty name is reported first as required |
| CompanyForm.EmailIssues | src/components/forms/CompanyForm.tsx:21-24 | the email passes iff it is an address 1 to 100 UTF-16 code units long |
| CompanyForm.WhatsAppIssues | src/components/forms/CompanyForm.tsx:26-28 | the WhatsApp passes iff it matches the masked phone pattern |
| CompanyForm.AddressIssues | src/components/forms/CompanyForm.tsx:30-32 | a missing address passes; a given one passes iff it is at most 200 UTF-16 code units long |
| CompanyForm.PlanIssues | src/components/forms/CompanyForm.tsx:34-35 | the plan passes iff one is chosen |
| CompanyForm.PasswordIssues | src/components/forms/CompanyForm.tsx:37-40 | the password passes iff given and 6 to 50 UTF-16 code units long; an empty one is reported as required |
| CompanyForm.CommonIssuesEmpty | src/components/forms/CompanyForm.tsx:15-35 | the shared checks report nothing iff every field but the password passes, and none of their issues is about the password |
| CompanyForm.CreateIssues | src/components/forms/CompanyForm.tsx:15-43 | no issues iff, in UTF-16 code units, 2 ≤ name ≤ 100, the email is an address of at most 100, the address is at most 200 and 6 ≤ password ≤ 50, and the WhatsApp matches and a plan is chosen |
| CompanyForm.UpdateIssues | src/components/forms/CompanyForm.tsx:45-49 | no issues iff every field but the password passes, with the same code-unit limits as on creation; any password, or none, is accepted |
| CompanyForm.UpdateIsCreateWithoutPassword | src/components/forms/CompanyForm.tsx:45-49 | the edit schema reports exactly the create schema's issues not about the password |
| CompanyForm.Resolve | src/components/forms/CompanyForm.tsx:42 | values reach the handler only without issues, with active defaulting to true and nothing else changed |
| CompanyForm.Trim | src/components/forms/CompanyForm.tsx:125 | trimming gives the empty string iff every character is white space |
| CompanyForm.Submitted | src/components/forms/CompanyForm.tsx:120-131 | editing drops a missing, empty or blank password and forwards any other verbatim; creating forwards the data unchanged |
| CompanyForm.DefaultValues | src/components/forms/CompanyForm.tsx:76-94 | a new company starts blank and active; an edit starts from the stored row with no password |
| CompanyForm.EditKeepsPassword | src/components/forms/CompanyForm.tsx:76-131 | saving an edit without typing a password never forwards one |
| CompanyForm.BlankCreateRefused | src/components/forms/CompanyForm.tsx:15-43 | a blank new-company form is refused for the name and the password |
| PasswordChangeForm.SchemaIssues | src/components/auth/PasswordChangeForm.tsx:10-19 | accepted iff at least 8 UTF-16 code units, a lower-case letter, an upper-case letter and a digit before any line break, and the confirmation matches; a mismatch is reported on confirmPassword |
| PasswordChangeForm.NoMaximumLength | src/components/auth/PasswordChangeForm.tsx:10-14 | passwords of every length from 8 up are accepted |
| PasswordChangeForm.Checklist | src/components/auth/PasswordChangeForm.tsx:72-77 | four items, each ticked exactly when its test passes, the first when the password is at least 8 UTF-16 code units long; nothing typed ticks only what the empty string passes |
| PasswordChangeForm.ChecklistMatchesSchema | src/components/auth/PasswordChangeForm.tsx:13-14 | for a password without line breaks, all items ticked iff the schema's password checks pass |
| PasswordChangeForm.ChecklistClasses | src/components/auth/PasswordChangeForm.tsx:14-76 | for a password without line breaks, the lower-case, upper-case and digit items are all ticked iff the schema's class look-aheads all pass |
| PasswordChangeForm.ChecklistAfterBreak | src/components/auth/PasswordChangeForm.tsx:14-76 | with a line break the checklist can be all ticked while the schema refuses |
| PasswordChangeForm.LoginRedirect | src/components/auth/PasswordChangeForm.tsx:44-50 | the page goes to "/login" iff there is no recovery token and no user |
| PasswordChangeForm.Submit | src/components/auth/PasswordChangeForm.tsx:52-69 | loading is always reset; success is set, and the login redirect scheduled, only when the update reports no error |
| PasswordChangeForm.SuccessNeedsNoError | src/components/auth/PasswordChangeForm.tsx:52-69 | from a fresh form, success shows only after an update that reported no error |
| UseCompanies.CreateCompany | src/hooks/useCompanies.tsx:86-161 | success iff user, profile and company are all created; a failed user creation issues nothing more; a later failure issues deleteUser for the new user and a failed profile skips the company insert; the row is active unless the data says otherwise; on success the row carries the form's name, email, WhatsApp, address and plan, the new user's id and the current time, the store gains exactly that user, its company-admin profile and that row, and the trace is exactly createUser, the profile insert, the company insert and the re-read |
| UseCompanies.CreateFailureRestores | src/hooks/useCompanies.tsx:116-145 | a failed creation whose clean-up succeeds leaves the store as it was |
| UseCompanies.UpdateCompany | src/hooks/useCompanies.tsx:164-193 | the patch carries the form's values, the password included, and a fresh updated_at; the update succeeds iff the backend accepts it and the patch carries no password, since the companies table has no such column; on success only the companies table changes, by that patch on the rows with the id, and the list is re-read; on failure nothing changes |
| UseCompanies.ToggleCompanyStatus | src/hooks/useCompanies.tsx:234-262 | only active and updated_at of the rows with that id are written; every other column, row and table is unchanged |
| UseCompanies.DeleteCompany | src/hooks/useCompanies.tsx:196-231 | no delete is issued when the lookup fails; otherwise the owner of the company is deleted, and success leaves the store with that user, its profile and its companies removed, so no row with that id remains |
| UseCompanies.ResetCompanyPassword | src/hooks/useCompanies.tsx:265-286 | one recovery mail pointing at the new-password page; the store is unchanged |
| UseCompanies.GetCompanyById | src/hooks/useCompanies.tsx:289-306 | the row with that id when exactly one exists and the read succeeds, else null |
| Backend.RemoveUser | src/hooks/useCompanies.tsx:211-212 | deleting a user removes the user, its profile and exactly its companies |
| Backend.RemoveFreshUser | src/hooks/useCompanies.tsx:116-145 | deleting a user nothing else refers to undoes its creation with its profile and companies |
| UsePlans.FetchActivePlans | src/hooks/usePlans.tsx:57-74 | only active plans, each as often as stored, in ascending price; nothing on error |
| UsePlans.CreatePlan | src/hooks/usePlans.tsx:77-106 | success iff the insert succeeds; the new plan is appended, active unless the data says otherwise, and no other table changes |
| UsePlans.UpdatePlan | src/hooks/usePlans.tsx:109-135 | the result is whether the update succeeded; on success the store is the old one with the patch applied to the plans with that id, and nothing else changes |
| UsePlans.TogglePlanStatus | src/hooks/usePlans.tsx:182-207 | only the active column of the plan with that id changes; no other table changes |
| UsePlans.DeletePlan | src/hooks/usePlans.tsx:138-179 | no delete when the reference check fails or a company uses the plan; success iff the delete then succeeds |
| UsePlans.DeletePlanKeepsReferences | src/hooks/usePlans.tsx:143-165 | deleting a plan never leaves a company pointing at a plan that is gone |

## Left out

- Rendering, dialogs, toasts, icons and console output: presentational, no decision in them.
- `window.location.href`, `navigate` and `setTimeout`: side effects. Navigation targets are returned as values.
- The public and placeholder pages and the recovery form: thin wrappers with no logic.
- The Supabase client and its environment check: I/O configuration.
- `fetchCompanies` and `fetchPlans`: the re-read after a mutation is recorded as a call in
  the trace. The list it produces is not modelled.
- The real backend: each call's error report and assigned ids are inputs.
- SQL ordering: not modelled beyond `fetchActivePlans`' price order.
- Floating-point and locale formatting (`formatNumber`, `formatCurrency`, `formatPercentage`,
  `formatVariation`, `formatFileSize`, `parseCurrency`, the date formatters): floating
  point and `Intl` are outside the model.
- `validateURL`, zod's `.email()` and `encodeURIComponent`: library behaviour. They are
  parameters where a result depends on them.
- `debounce`: timers.
- Reading the clock: day, millisecond and timestamp differences are inputs.
- The race between the initial-session read and the auth subscription, and React's effect
  lifecycle: events are a sequential list.
- Unicode case mapping and `normalize('NFD')`: case mapping is ASCII only. NFD
  decomposition is not modelled, but the removal of combining marks is. A precomposed
  accented letter therefore survives the ASCII-only lower-casing and is then removed as a
  special character. So `GenerateSlug` and `FormatSlug` turn "São Paulo" into "so-paulo",
  where the app, which decomposes "ã" to "a" and a combining tilde, gives "sao-paulo". An
  input already in decomposed form slugs as in the app.
- Validation.ValidateEmail: the regular expression is modelled in full. Only the two
  lemmas about it are proved, not a complete characterisation of the addresses it accepts.
- CompaniesPage.FilteredAndSorted: the order among companies with equal keys is left open.
  The comparator never returns 0, so ECMAScript leaves that order implementation-defined.
- UsePlans.FetchActivePlans: the order among plans of equal price is left open. It belongs
  to the backend.
- Formatting.TruncateText: `substring` counts UTF-16 code units. The model counts
  characters, which agrees on text without characters above U+FFFF.
- Formatting.GetInitials: `charAt(0)` and `substring(0, 2)` count UTF-16 code units, so a
  word starting with a character above U+FFFF contributes half of it. The model takes the
  whole character, which agrees on text without such characters.
- CompaniesPage.LexLe: JavaScript compares strings by UTF-16 code units. The model
  compares whole characters. The two orders differ only between a character above U+FFFF
  and one from U+E000 to U+FFFF.
- Domain.Plan: a plan price is a JavaScript `number`. The model keeps it as an integer
  number of cents, because only its order and equality are used.
- Formatting.TimeAgo: `Math.floor` on negative differences (dates in the future) is
  modelled. Every such difference shows "Agora mesmo".
- Formatting.RelativeBucket: a negative day difference takes the days branch with the
  negative count, as the code does. No ordering property is claimed for it.
- ProtectedRoute.RouteOf: only static paths are modelled. React Router's percent-decoding
  of the path and its ranking are left out, since the routes of the app are static and
  pairwise disjoint.
