# Timeshare booking: a Dafny model of the venue service and the page logic

The application lets users register and log in, browse timeshare venues and request date slots.
Administrators manage venues and approve or deny slot applications. This project models:

- the `TimeshareService`, an in-memory repository with two ordered lists (venues and slot
  applications). It is a class with two `seq` fields. Its administrative methods are guarded by
  the admin role check. `getVenues`, `applyForSlot` and `getPendingApplications` have no check.
  Every method carries frame conditions that say exactly what the new state is;
- the records of `types.ts`, as datatypes, with subset types for `AdminUser`, `ViewerUser` and the
  admin's `'approved' | 'denied'` decision;
- the decision logic of three pages, over plain values instead of storage:
  - registration: the email-uniqueness check, then the append of a new admin user;
  - login: seeding the mock administrator, then looking up a user by email;
  - availability: the booking pre-check, which covers the login check, the venue lookup,
    `split('T')[0]` and the date-membership test.

Files: `common.dfy` holds Option, Outcome and Result. `seqs.dfy` holds `find`/`filter` and their
lemmas. `ids.dfy` holds the `venue-N`, `app-N` and `user-N` ids, with a parse round trip that
proves the decimal rendering injective. `types.dfy`, `timeshare_service.dfy`, `register_page.dfy`,
`login_page.dfy` and `availability_page.dfy` follow the source files.

A thrown `Error` is modelled as `Fail`/`Failure` with the same message. A failing operation leaves
both lists unchanged. Each service call is one atomic step. The invariant `Valid()` says that
application `i` has id `app-(i+1)`. It holds because the application list only grows and
`updateApplicationStatus` changes only a status. From it follows that application ids are
distinct (`SequentialIdsDistinct`). That is why "the first application with that id" and "every
application with that id" coincide.

The service has no booking validation, conflict errors, cancellation, not-found errors,
multi-date applications or reloading from storage. A missing venue or application is a silent
no-op, and `applyForSlot` creates one application for one date.

Two client methods show the model used end to end. `ApprovalScenario`: an admin adds a venue, a
viewer applies, a viewer's attempt to approve fails, the admin approves, and nothing is left
pending. `VenueIdReuseScenario`: after the seeded `venue1` is deleted, the next `addVenue` returns
`venue-2` again, so two stored venues share one id.

## Model

| member | source | states |
|---|---|---|
| `Types.RoleIsAdminXorViewer` | src/app/models/types.ts:8 | a user's role is exactly one of admin and viewer |
| `Types.AdminAndViewerDisjoint` | src/app/models/types.ts:11-17 | an AdminUser has role admin, a ViewerUser has role viewer, so no user is both |
| `Types.FoundIffHasEmail` | src/app/register/register.page.ts:77 | a `find` by email is truthy exactly when some user in the list has that email (the `HasEmail` predicate); this restates the last clause of `FindUserByEmail` and serves as the row for `HasEmail` |
| `Types.FindUserByEmail` | src/app/login/login.page.ts:47 | the result is the index of the first user whose email equals the input exactly; it is absent iff no user has that email |
| `Types.FindVenue` | src/app/services/timeshare.service.ts:41 | the result is the index of the first venue with that id; it is absent iff no venue has the id |
| `Seqs.FindIndex` | src/app/services/timeshare.service.ts:73 | `find` gives the first index whose element satisfies the predicate, and gives none iff no element does |
| `Seqs.Filter` | src/app/services/timeshare.service.ts:80 | `filter` keeps exactly the elements satisfying the predicate, and keeps the whole list when all of them do |
| `Seqs.FilterAppend` | src/app/services/timeshare.service.ts:36 | filtering distributes over concatenation, so the kept elements keep their relative order |
| `Seqs.FilterIdempotent` | src/app/services/timeshare.service.ts:36 | filtering twice by one predicate equals filtering once |
| `Ids.NatToString` | src/app/services/timeshare.service.ts:27 | the rendering of a number in an id is a non-empty string of decimal digits, one digit exactly for numbers below ten, "0" only for zero and otherwise without a leading zero |
| `Ids.ParseNatToString` | src/app/services/timeshare.service.ts:61 | reading the decimal rendering back gives the number (round trip) |
| `Ids.NatToStringInjective` | src/app/services/timeshare.service.ts:61 | distinct numbers render as distinct strings |
| `Ids.VenueId` | src/app/services/timeshare.service.ts:27 | a venue id is `venue-` followed by a suffix that `ParseDigits` reads back as the given number; that the suffix is decimal digits without a leading zero is `IdSuffixesAreDecimal` |
| `Ids.AppId` | src/app/services/timeshare.service.ts:61 | an application id is `app-` followed by a suffix that `ParseDigits` reads back as the given number; that the suffix is decimal digits without a leading zero is `IdSuffixesAreDecimal` |
| `Ids.UserId` | src/app/register/register.page.ts:84 | a user id is `user-` followed by a suffix that `ParseDigits` reads back as the given timestamp; that the suffix is decimal digits without a leading zero is `IdSuffixesAreDecimal` |
| `Ids.IdSuffixesAreDecimal` | src/app/services/timeshare.service.ts:27 | after the `venue-`, `app-` or `user-` prefix, every character of an id is a decimal digit, and the first is not '0' for a positive number, as `${n}` renders it |
| `Ids.AppIdInjective` | src/app/services/timeshare.service.ts:61 | `app-${a}` equals `app-${b}` iff a equals b |
| `TimeshareServices.RestrictToAdmin` | src/app/services/timeshare.service.ts:18-22 | the check passes iff the role is admin; otherwise it fails with 'Only admins can perform this action' |
| `TimeshareServices.RestrictToAdminByType` | src/app/services/timeshare.service.ts:18 | every AdminUser passes the check and every ViewerUser fails it |
| `TimeshareServices.RemoveVenue` | src/app/services/timeshare.service.ts:36 | the kept venues are exactly those whose id differs; when the id is absent the list is unchanged |
| `TimeshareServices.RemoveVenueIdempotent` | src/app/services/timeshare.service.ts:34-37 | deleting an id twice leaves the same list as deleting it once |
| `TimeshareServices.RemoveVenueKeepsOrder` | src/app/services/timeshare.service.ts:36 | deletion distributes over concatenation, so the remaining venues keep their original order |
| `TimeshareServices.PendingOf` | src/app/services/timeshare.service.ts:80 | the result holds exactly the applications whose status is pending |
| `TimeshareServices.PendingOfAppend` | src/app/services/timeshare.service.ts:67 | appending a pending application appends it to the pending list, after the earlier ones |
| `TimeshareServices.SequentialIdsDistinct` | src/app/services/timeshare.service.ts:61 | when application i has id app-(i+1), all application ids are pairwise distinct |
| `TimeshareServices.SetStatusKeepsIds` | src/app/services/timeshare.service.ts:75 | setting a status changes no id, so application i keeps the id app-(i+1) |
| `TimeshareServices.SetStatusById` | src/app/services/timeshare.service.ts:73-75 | setting the status of the found application sets it on every application with that id and on no other, and leaves no pending application with that id |
| `TimeshareServices.DecidedNotPending` | src/app/services/timeshare.service.ts:71-81 | after an application is set to approved or denied, no pending application carries its id |
| `TimeshareServices.TimeshareService.constructor` | src/app/services/timeshare.service.ts:12-16 | the service starts with the one seed venue `venue1`, "Beach House" in "Cape Town", with dates 2025-08-10 and 2025-08-11 (`SeedVenue`), no applications and the id invariant |
| `TimeshareServices.TimeshareService.AddVenue` | src/app/services/timeshare.service.ts:24-32 | a non-admin fails and changes nothing; an admin gets venue-(old length+1) with the given fields, appended at the end, with earlier venues untouched |
| `TimeshareServices.TimeshareService.DeleteVenue` | src/app/services/timeshare.service.ts:34-37 | a non-admin fails and changes nothing; for an admin the venues become the old list without the given id |
| `TimeshareServices.TimeshareService.AddAvailableDates` | src/app/services/timeshare.service.ts:39-45 | a non-admin fails and changes nothing; for an admin the first matching venue's dates become its old dates followed by the new ones; with no match, nothing changes |
| `TimeshareServices.TimeshareService.UpdateAvailableDates` | src/app/services/timeshare.service.ts:47-53 | a non-admin fails and changes nothing; for an admin only the first matching venue's dates are replaced; with no match, nothing changes |
| `TimeshareServices.TimeshareService.GetVenues` | src/app/services/timeshare.service.ts:55-57 | returns the current venue list |
| `TimeshareServices.TimeshareService.ApplyForSlot` | src/app/services/timeshare.service.ts:59-69 | with no role check, appends one pending application app-(old length+1) for the user, venue and date, returns it, and keeps the id invariant |
| `TimeshareServices.TimeshareService.UpdateApplicationStatus` | src/app/services/timeshare.service.ts:71-77 | a non-admin fails and changes nothing; for an admin only the matching application's status changes, whatever it was before; the length never changes; an absent id is a no-op; afterwards no pending application has that id |
| `TimeshareServices.TimeshareService.GetPendingApplications` | src/app/services/timeshare.service.ts:79-81 | returns the pending applications in list order |
| `RegisterPage.Register` | src/app/register/register.page.ts:72-99 | an invalid form or a known email leaves the list unchanged; otherwise one admin user carrying the form's name, surname and email is appended; distinct emails stay distinct |
| `LoginPage.SeedMockUser` | src/app/login/login.page.ts:27-31 | the mock user (`MockUser`: id admin1, John Doe, John.Doe@example.com, admin) is appended only when no user has its email; afterwards some user has that email |
| `LoginPage.SeedTwice` | src/app/login/login.page.ts:27-31 | seeding twice gives the same list as seeding once |
| `LoginPage.Login` | src/app/login/login.page.ts:43-61 | with a valid form, the current user becomes the first user with exactly that email; an unknown email or an invalid form leaves the current user unchanged |
| `LoginPage.CaseSensitiveLogin` | src/app/login/login.page.ts:47 | the lower-cased mock email does not log the seeded user in: there is no case folding |
| `TimeshareServices.VenueIdReuseScenario` | src/app/services/timeshare.service.ts:27 | adding a venue, deleting the seed venue and adding another leaves two different venues that share the id venue-2 |
| `AvailabilityPage.DatePart` | src/app/availability/availability.page.ts:106 | the result is the prefix of the input before its first 'T'; an input with no 'T' is unchanged |
| `AvailabilityPage.BookSelectedDate` | src/app/availability/availability.page.ts:88-120 | with no current user the outcome is a redirect to login; an invalid form, an unknown venue or a date not listed for the first matching venue never proceeds; when it proceeds, it carries exactly the venue id and the normalised date |

## Left out

- Storage is not modelled. The Capacitor `Preferences` get/set calls and the JSON
  (de)serialisation are I/O, so the stored user list and the current user are plain values passed
  in and out.
- The Angular router, the toasts and the form controls are UI. Form validity, including the
  `required` and `email` validators, is a boolean input. Navigation is an outcome value. Form
  resets are not modelled.
- `Date.now()` is I/O. The registration timestamp is a parameter, and user ids are not claimed to
  be unique.
- async/await is not modelled. Each operation is one atomic step, so interleavings of calls are
  out of scope.
- Object aliasing is not modelled. `getVenues` and `addVenue` hand out the service's own venue
  array and records. `applyForSlot` returns the stored application record, and
  `getPendingApplications` returns a new array of the stored application records. `find` results
  are mutated in place. In the source, a caller holding one of these records could change a
  venue, change an application's status without the admin check, or change an application's id.
  That last change would break the `app-(i+1)` invariant. Here every record is a value, so a
  caller cannot change the service's state through a returned record. `Valid()` and the distinct
  application ids are proved only for state changed through the service's own methods.
- TimeshareServices.TimeshareService.AddVenue takes a draft with no id field. In the source, a
  caller object that carried an `id` anyway would overwrite the generated id through the spread.
  No caller passes one.
- TimeshareServices.TimeshareService.AddAvailableDates does not model the `|| []` fallback for
  a missing date list. The declared venue type always has one.
- Dates are strings throughout. The source declares `Date` parameters for `addAvailableDates`,
  `updateAvailableDates` and `applyForSlot`. Only `updateAvailableDates` has a caller, and that
  caller passes `Date` objects. The service's seed venue also holds `Date` objects, and
  `includes` would never match those against a date string, so the seed venue's dates are not
  bookable there. Here they are the strings "2025-08-10" and "2025-08-11". In the source, no venue
  ever holds a string date. The only `addVenue` caller passes an empty list, the only
  `updateAvailableDates` caller passes `Date` objects, and `addAvailableDates` has no caller. So
  the `includes` test of the booking pre-check never matches there. `BookSelectedDate`'s
  `GoToBookings` outcome is reachable only because the model uses string dates.
- TimeshareServices.TimeshareService.ApplyForSlot accepts any user. The parameter is declared
  `ViewerUser` in the source, but nothing checks it at run time.
- Venue-id uniqueness does not hold, so it is not claimed. `VenueIdReuseScenario` shows two
  venues sharing one id.
- The availability page's loading of the current user and the venue list is storage and service
  I/O. Both are inputs to `BookSelectedDate`.
- The manage-venues, home, approvals and bookings pages and the route table are not part of this
  model. They are UI glue or empty components.
