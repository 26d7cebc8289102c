# Squash academy booking: a Dafny model

This project models the decision logic of a squash academy's booking web
application. Players book coaching sessions. Coaches see their month on a
calendar. The server actions sign users up and in and reset passwords, and a
dashboard page sends each user to the dashboard of their role.

Every database, auth-service and clock call is an input to the model: an
answer per call (an oracle per round for the retry loop), a `now` in
milliseconds, and the token text the random generator would produce. The
model then says what the code does with those answers.

Modules, one concern each:

- `Wrappers`, `Text`, `Seqs`, `Ordering`: the JavaScript string and array
  behaviour the application relies on.
  - `Text`: `split`, `String(n)`, `padStart`, `parseInt`, `Number`,
    `toLowerCase`, `includes`.
  - `Seqs`: `filter`.
  - `Ordering`: `[...new Set(xs)].sort()`.
- `Accounts`: the signed-in user and the `users` row.
- `TimeDisplay`: `formatTime`. The booking view and the coach calendar
  define it identically.
- `Booking`: the player's booking view.
  - The filter effect as a method, `FilterTimeSlots`, proved against a
    specification function, `FilteredSlots`.
  - The date and time pickers.
  - `bookSession`, as a function `BookingStep` and as the view's
    state-changing method `BookingView.BookSession` over a `Database` object.
- `Provisioner`: the `createUserProfile` retry loop with exponential back-off.
  It is a method proved against the recursive function `Provision`.
- `AuthRules`: the branches of `signUpAction`, `signInAction`,
  `forgotPasswordAction` and `resetPasswordAction`, including the `^[^\s@]+@[^\s@]+\.[^\s@]+$` e-mail
  test. Three actions call `redirect` inside a `try` whose `catch` takes it.
  Each of them comes twice: as written (`...AsWritten`), and as evidently
  intended. The lemmas relate the two (see Findings).
- `Calendar`: the coach calendar.
  - JavaScript `Date` arithmetic, with day numbers as ECMAScript defines them.
  - `YYYY-MM-DD` keys.
  - The month grid, built by a loop.
  - A `ScheduleCalendar` class whose methods move between months and select a day.
- `Dashboard`: the `/dashboard` page's redirects.

## Model

| member | source | states |
|---|---|---|
| Booking.FilterTimeSlots | src/components/player/book-session.tsx:145-196 | The effect throws iff a search is active and some slot passing the other criteria has a listed coach with no specialization and a name without the query. Otherwise, narrowing criterion by criterion (coach, branch, date, time, then the lower-cased search) yields exactly the slots that pass every active criterion, in their original order. |
| Booking.NarrowByTime | src/components/player/book-session.tsx:160-182 | The time stage keeps exactly the slots whose start time matches the selection: a morning, afternoon or evening bucket by start hour, otherwise an identical start time. |
| Booking.SearchStage | src/components/player/book-session.tsx:184-194 | The search stage tests the slots in order and stops at the first one whose test throws. So it throws iff some slot it is given makes the search test throw. Otherwise it keeps exactly the slots that hit, in order. |
| Seqs.SelectAppend | src/components/player/book-session.tsx:185-193 | Filtering a list with one more element at the end appends that element iff it passes the test. The search loop uses this to extend its result slot by slot. |
| Booking.SearchHit | src/components/player/book-session.tsx:186-193 | A slot whose branch name contains the query always matches, and a match needs the branch name or a listed coach with the slot's coach id. |
| Booking.CrashNeedsSearchAndMissingSpecialization | src/components/player/book-session.tsx:184-193 | Without a search, or when every listed coach has a specialization, the filter effect never throws. |
| Booking.NullSpecializationCrashes | src/components/player/book-session.tsx:187-190 | A slot that passes the other criteria, whose listed coach has no specialization and a name without the query, makes the effect throw. A coach whose name matches never makes it throw. |
| Booking.FilteredIsMatchingSubsequence | src/components/player/book-session.tsx:145-196 | The filtered list is an order-preserving subsequence of all slots, and a slot is in it iff it is a slot and passes every active criterion. |
| Booking.NoCriteriaKeepsAll | src/components/player/book-session.tsx:146-196 | With no selection and an empty search every slot is shown, in order. |
| Booking.TimeBuckets | src/components/player/book-session.tsx:163-177 | Morning is hours [6,12), afternoon [12,17), evening [17,22). The buckets do not overlap, and hours 22 to 5 fall in none. |
| Booking.ExactTimeSelection | src/components/player/book-session.tsx:178-181 | A selection that is not a bucket name keeps a slot iff its start time is exactly that text. |
| Booking.HourOfTime | src/components/player/book-session.tsx:165-166 | The hour read from "HH:MM" or "HH:MM:SS" is the number HH. |
| Booking.BucketBoundaries | src/components/player/book-session.tsx:163-172 | 06:xx and 11:xx are morning; 12:xx is afternoon and not morning. |
| Booking.SearchIgnoresCase | src/components/player/book-session.tsx:184-195 | Two queries with the same lower-case form keep the same slots. |
| Booking.UnlistedCoachSearchesBranchOnly | src/components/player/book-session.tsx:186-193 | When no listed coach has the slot's coach id, only the branch name can match the search. |
| Booking.FindCoach | src/components/player/book-session.tsx:187 | The result is nothing iff no coach has the id; otherwise it is the first coach with that id. |
| Booking.GetUniqueDates | src/components/player/book-session.tsx:227-230 | The dates offered are strictly sorted, and a date is offered iff some slot has it. |
| Booking.GetUniqueTimes | src/components/player/book-session.tsx:233-236 | The times offered are strictly sorted, and a time is offered iff some slot starts at it. |
| Booking.AvailableSlots | src/components/player/book-session.tsx:314-336 | The refetched list is the rows with status "available", each turned into a view slot; so every slot in it is available. The rows are taken in the order the table holds them (see Left out). |
| Booking.ToTimeSlot | src/components/player/book-session.tsx:325-335 | Every field of the row is kept, and the branch name is the joined name, or "Unknown Branch" when there is none; it is never empty. |
| Booking.MarkBooked | src/components/player/book-session.tsx:293-299 | Every row with the slot's id becomes booked for the player, and every other row is unchanged. |
| Booking.PlayerName | src/components/player/book-session.tsx:275-278 | The name is the metadata full name when set; otherwise the e-mail's part before "@" when that is non-empty; otherwise "Player". It is never empty. |
| Booking.PlayerNameFromEmail | src/components/player/book-session.tsx:276-277 | Without a metadata name, the address "local@domain" gives the name "local". |
| Booking.NoUserWritesNothing | src/components/player/book-session.tsx:249-252 | With nobody signed in the booking reports the login error. It writes nothing, refreshes nothing, and neither shows success nor resets the filters. |
| Booking.SuccessfulBooking | src/components/player/book-session.tsx:254-343 | A fault-free booking marks every row with the slot's id booked for the user and leaves all other rows unchanged. It creates the user's row if it was missing, resets the filters, and the refreshed list no longer offers that slot. |
| Booking.FailedUserInsertBooksNothing | src/components/player/book-session.tsx:270-289 | A failed insert of the missing user row reports its error and leaves both tables unchanged. |
| Booking.BookingStep | src/components/player/book-session.tsx:239-354 | The session table keeps its length, and is the booked table exactly when success is shown, otherwise unchanged. The filters are reset iff no error is reported, and then the list is refreshed. Every existing user row is kept. |
| Booking.WriteBooking | src/components/player/book-session.tsx:292-343 | The user table is untouched. The sessions are marked booked iff the update succeeds, and then success is shown. No error means the refetch ran, and the refreshed list is the available slots of the new table. |
| Booking.BookingView.RefreshFiltered | src/components/player/book-session.tsx:145-205 | The effect throws exactly when the filter does, and then the shown list is left as it was. Otherwise the shown list is the filtered list for the current slots, selections and coaches. |
| Booking.BookingView.BookSession | src/components/player/book-session.tsx:239-354 | The message, both tables, the slot list, the success flag and the filters end as the booking step dictates, and loading is off on every path. |
| Booking.BookingView.SaveBooking | src/components/player/book-session.tsx:292-343 | The update and refetch change the session table, the slot list, the success flag, the error and the filters as the booking step's write stage dictates. |
| TimeDisplay.FormatTimeOfDay | src/components/player/book-session.tsx:208-214 | For "HH:MM[:SS]" with HH below 24, the display is the 12-hour clock hour, the minutes text unchanged, and AM before noon or PM from noon on. |
| TimeDisplay.FormatTime | src/components/coach/schedule-calendar.tsx:185-191 | Every display, whatever the input, ends in " AM" or " PM". |
| TimeDisplay.ClockHourRoundTrip | src/components/coach/schedule-calendar.tsx:188-189 | The clock hour and the meridiem together give back the hour of the day. |
| TimeDisplay.ClockHourIsRemainder | src/components/player/book-session.tsx:212 | `hour % 12 \|\| 12` is the clock-face hour for every hour of the day. |
| TimeDisplay.MidnightShowsTwelveAm | src/components/player/book-session.tsx:208-214 | Midnight displays as "12:MM AM". |
| TimeDisplay.NoonShowsTwelvePm | src/components/player/book-session.tsx:208-214 | Noon displays as "12:MM PM", and a seconds field is dropped. |
| Provisioner.CreateUserProfile | src/app/actions.ts:9-110 | The loop returns the success flag and error of the recursive round-by-round definition. It also returns the upserts sent and the waits made, which are the back-off schedule for the rounds it ran. |
| Provisioner.AttemptRound | src/app/actions.ts:23-103 | One round's code does what one round of the definition says. |
| Provisioner.Round | src/app/actions.ts:23-103 | A round ends the loop iff the row exists, or the check did not throw and the upsert succeeded. A round that fails leaves that round's error. An upsert is counted unless the row was found or the check threw. |
| Provisioner.Run | src/app/actions.ts:22-106 | At most seven rounds are run, and at least one more from any round below seven. |
| Provisioner.BackoffSchedule | src/app/actions.ts:24-27 | No wait before the first round, and `2^k * 500` ms before round k. |
| Provisioner.DelayDoubles | src/app/actions.ts:26 | Each wait is twice the previous one. |
| Provisioner.FirstRetryWaitsOneSecond | src/app/actions.ts:24-27 | The first retry waits 1000 ms. |
| Provisioner.ScheduleOfSevenRounds | src/app/actions.ts:17-27 | Seven rounds wait 1, 2, 4, 8, 16 and 32 s between them. |
| Provisioner.TotalWait | src/app/actions.ts:24-27 | The waits before round n total 500 * (2^n - 2) ms. |
| Provisioner.RoundsBounded | src/app/actions.ts:17-22 | One to seven rounds are made, with at most one upsert per round. |
| Provisioner.WritesPerRound | src/app/actions.ts:61-75 | From any round on, each round sends at most one upsert. |
| Provisioner.StopsAtFirstSuccess | src/app/actions.ts:22-105 | The call succeeds iff some of the seven rounds succeeds. It then stops at the first such round, and every earlier round failed. |
| Provisioner.FailureReportsLastError | src/app/actions.ts:77-108 | A failed call reports the error of the seventh round. |
| Provisioner.SuccessfulWriteClearsError | src/app/actions.ts:89-94 | A success that still reports an error ended on a found row, never on a write. |
| Provisioner.ExistingRowWritesNothing | src/app/actions.ts:34-48 | A row found at the first check means success in one round, with no upsert, no wait and no error. |
| Provisioner.CheckErrorStillWrites | src/app/actions.ts:40-42 | A failed existence check is only logged, and the upsert is still sent. |
| Provisioner.FoundRowKeepsEarlierError | src/app/actions.ts:43-47 | A failed upsert followed by a found row yields success together with the earlier error. |
| Provisioner.ExceptionMessage | src/app/actions.ts:100-102 | An exception's error text is "Exception during user creation: " followed by the message, or by "Unknown error" when the message is empty. |
| AuthRules.EmailShapedIsPattern | src/app/actions.ts:131-132 | The scanning e-mail test accepts exactly the strings the regular expression matches. |
| AuthRules.EmailShaped | src/app/actions.ts:131-140 | An accepted address has at least five characters and neither starts nor ends with "@". |
| AuthRules.SignUpValidationOrder | src/app/actions.ts:122-164 | In the corrected flow, missing fields are reported first, then a malformed e-mail, then an address already in the users table. The auth service is called iff none of these applies, and otherwise nothing is written. As written, the auth service is called iff the fields are present and the e-mail is well formed. |
| AuthRules.SignUp | src/app/actions.ts:112-246 | Corrected `signUpAction`: a profile is requested only after the auth call. The identity is deleted only when a profile was requested and the answer is the profile-failure notice. |
| AuthRules.SignUpAsWritten | src/app/actions.ts:112-246 | `signUpAction` as written: a profile is requested only after the auth call. The identity is deleted only when a profile was requested and the answer is the profile-failure notice. |
| AuthRules.SignUpLookupBlock | src/app/actions.ts:143-164 | The lookup block completes iff the address is free or the lookup failed, and throws the redirect iff the address is taken. |
| AuthRules.SignUpAfterLookup | src/app/actions.ts:166-245 | After the lookup the auth service is always called, and the identity is deleted iff a profile was requested and the profile-failure notice is returned. |
| AuthRules.TakenAddressStillSignsUp | src/app/actions.ts:153-164 | As written, a taken address signs up exactly as a free one and calls the auth service; the corrected flow stops with the "already registered" notice. |
| AuthRules.SignUpProvisioning | src/app/actions.ts:203-246 | Once the auth service returns a user, the profile is requested with the sent role ("player" by default), approved iff the role is "player". Success redirects to /profiles; failure deletes the new identity and reports the error. The corrected flow agrees whenever the address is not taken. |
| AuthRules.LookupFailureIsIgnored | src/app/actions.ts:150-163 | A failed or throwing e-mail lookup makes the sign-up, as written and corrected, behave as if the address were free. |
| AuthRules.RoleOrDefault | src/app/actions.ts:116 | A sent, non-empty role is kept; otherwise the role is "player". |
| AuthRules.SignInApprovalGate | src/app/actions.ts:279-300 | In the corrected flow, a coach or admin whose row is not approved gets the pending-approval warning, and only they do. Everyone else goes to /profiles. |
| AuthRules.SignIn | src/app/actions.ts:248-301 | Corrected `signInAction`: a plain redirect goes to /create-profile or /profiles, and a notice goes to /sign-in. |
| AuthRules.SignInAsWritten | src/app/actions.ts:248-301 | `signInAction` as written: a plain redirect goes to /create-profile or /profiles, and a notice is an error on /sign-in. |
| AuthRules.SignInProfileBlock | src/app/actions.ts:268-286 | The profile block completes iff a row is returned that is not awaiting approval, and throws the redirect iff the row is awaiting approval. |
| AuthRules.SignInCatch | src/app/actions.ts:287-298 | The catch sends the user to /create-profile iff it receives the query error with code PGRST116, and otherwise reports the lookup failure. |
| AuthRules.PendingApprovalReportedAsLookupFailure | src/app/actions.ts:279-298 | As written, a coach or admin awaiting approval is told the profile could not be retrieved, where the corrected flow gives the warning. The warning is never shown as written, and every other sign-in ends the same in both. |
| AuthRules.SignInMissingProfile | src/app/actions.ts:287-298 | A profile error goes to /create-profile iff its code is PGRST116, as written and corrected alike. |
| AuthRules.PlayersNeverWait | src/app/actions.ts:279-300 | A player is never held for approval, as written or corrected. |
| AuthRules.ForgotPasswordToken | src/app/actions.ts:304-375 | A token is stored iff an address is given, the address is registered, and the token write succeeds. The stored token belongs to that address and expires 24 hours after it was made. An unregistered address gets the neutral "If your email is registered" notice and nothing is stored. A registered address whose reset e-mail request succeeds is redirected to the callback URL, or else to /forgot-password/reset-confirmation. |
| AuthRules.ForgotPassword | src/app/actions.ts:304-375 | The reset e-mail is requested from the auth service iff a token was stored, whether or not that request then fails. A plain redirect happens only after the request, and without an address nothing is stored. |
| AuthRules.ResetNeedsMatchingPasswords | src/app/actions.ts:384-398 | The password is updated only when both fields are filled and equal. Otherwise the matching error is reported, and the corrected flow agrees. |
| AuthRules.ResetWithFoundToken | src/app/actions.ts:400-431 | In the corrected flow, an expired found token is refused with nothing changed. A live one is deleted, and the update runs. |
| AuthRules.ResetPassword | src/app/actions.ts:377-467 | Corrected `resetPasswordAction`: the answer is always a notice, and it is a success iff the update was attempted and raised no error. |
| AuthRules.ResetPasswordAsWritten | src/app/actions.ts:377-467 | `resetPasswordAction` as written: the answer is always a notice, and it is a success iff the update was attempted and raised no error. |
| AuthRules.ResetTokenBlock | src/app/actions.ts:401-436 | The token is deleted iff the block completes, iff the token was found unexpired. The block throws a redirect iff the lookup did not throw and the token was not deleted. |
| AuthRules.ResetAfterToken | src/app/actions.ts:439-466 | The update is attempted iff a user is signed in or a token was sent. The deletion is passed through unchanged, and a success notice means the update was attempted without error. |
| AuthRules.RejectedTokenStillUpdates | src/app/actions.ts:409-436 | As written, an unknown or expired token is not deleted, but the password update runs anyway. The corrected flow refuses it with a notice on /forgot-password and updates nothing. |
| AuthRules.ResetWithoutSessionOrToken | src/app/actions.ts:439-448 | With no signed-in user and no token the reset is refused before any update, as written and corrected. |
| AuthRules.DeletedTokenMeansUpdate | src/app/actions.ts:400-461 | A token is consumed only by a reset that found it unexpired and goes on to update the password, as written and corrected. |
| AuthRules.TokenLifetime | src/app/actions.ts:330-425 | In the corrected flow, a token stored by a request at time t lets a reset at time now update the password iff now is at most 24 hours after t. |
| AuthRules.TokenLifetimeAsWritten | src/app/actions.ts:330-453 | As written, the 24-hour lifetime decides only whether the token is deleted; the update is attempted either way. |
| Calendar.GetDaysInMonth | src/components/coach/schedule-calendar.tsx:84-86 | The date of day 0 of the next month is the Gregorian length of this month. |
| Calendar.DayZeroIsLastDay | src/components/coach/schedule-calendar.tsx:85 | Day 0 of the following month is the last day of this one. |
| Calendar.MonthLengths | src/components/coach/schedule-calendar.tsx:84-86 | 31 days for January, March, May, July, August, October and December. 30 days for April, June, September and November. February has 29 days in leap years and 28 otherwise. |
| Calendar.GetFirstDayOfMonth | src/components/coach/schedule-calendar.tsx:89-91 | The weekday of day 1 lies in 0 (Sunday) to 6. |
| Calendar.FirstDayStep | src/components/coach/schedule-calendar.tsx:89-91 | Each month starts as many weekdays after the previous month's start as that month has days, modulo 7. |
| Calendar.KnownFirstDays | src/components/coach/schedule-calendar.tsx:89-91 | January 1970 starts on a Thursday, and July 2025 on a Tuesday. |
| Calendar.MakeDate | src/components/coach/schedule-calendar.tsx:109-113 | `new Date(y, m, d)` is a valid date d - 1 days after the first of the normalised month. |
| Calendar.MakeDateInRange | src/components/coach/schedule-calendar.tsx:132 | For a day of an in-range month, `new Date(y, m, d)` is that very date. |
| Calendar.NormalizeMonth | src/components/coach/schedule-calendar.tsx:169-181 | A month outside 0..11 carries into the year, keeping the total month count. |
| Calendar.FormatDate | src/components/coach/schedule-calendar.tsx:94-99 | The key is the year's numeral, then "-", a two-digit 1-based month, "-" and a two-digit day, each reading back as its value. |
| Calendar.KeyOfParts | src/components/coach/schedule-calendar.tsx:95-98 | Joining the year numeral and the two padded fields with "-" puts each field where it reads back as the year, the 1-based month and the day. |
| Calendar.FormatDateInjective | src/components/coach/schedule-calendar.tsx:94-99 | Different dates get different keys. |
| Calendar.FormatDateExample | src/components/coach/schedule-calendar.tsx:94-99 | 5 July 2025 (month index 6) is keyed "2025-07-05". |
| Calendar.SessionsForDate | src/components/coach/schedule-calendar.tsx:102-105 | The sessions listed for a date keep their list order, and a session is listed iff its key is that date's key. |
| Calendar.SessionsForDateExactly | src/components/coach/schedule-calendar.tsx:102-105 | A session is listed for a day iff it is a session and its key is that day's key, and no session is listed for two different days. |
| Calendar.BuildDayCell | src/components/coach/schedule-calendar.tsx:132-142 | A day's cell holds its number, the count of its sessions, and whether it is the selected day. |
| Calendar.GenerateCalendarDays | src/components/coach/schedule-calendar.tsx:118-166 | The grid is one blank per weekday before the first of the month, then each day of the month in order with its session count and selection. |
| Calendar.AppendDays | src/components/coach/schedule-calendar.tsx:130-163 | After the blanks, one cell per day of the month, in order, with that day's session count and selection. |
| Calendar.SessionLabel | src/components/coach/schedule-calendar.tsx:155-156 | The label starts with the count's numeral and ends in the plural "s" iff the count is not 1. |
| Calendar.PrevMonthStart | src/components/coach/schedule-calendar.tsx:169-175 | The result is the valid first day of the month before. |
| Calendar.NextMonthStart | src/components/coach/schedule-calendar.tsx:177-183 | The result is the valid first day of the month after. |
| Calendar.PrevMonthWraps | src/components/coach/schedule-calendar.tsx:169-175 | Back from January is December of the previous year, otherwise the previous month. Either way the month count drops by one. |
| Calendar.NextMonthWraps | src/components/coach/schedule-calendar.tsx:177-183 | On from December is January of the next year, otherwise the next month. Either way the month count rises by one. |
| Calendar.NavigationRoundTrip | src/components/coach/schedule-calendar.tsx:169-183 | Back then forth, or forth then back, returns to the first of the same month. |
| Calendar.ClickSelectsOneDay | src/components/coach/schedule-calendar.tsx:108-116 | After a click on a day of the month on show, that day's cell and no other is highlighted. |
| Calendar.ScheduleCalendar.PrevMonth | src/components/coach/schedule-calendar.tsx:169-175 | Shows the first of the previous month and clears the selection. |
| Calendar.ScheduleCalendar.NextMonth | src/components/coach/schedule-calendar.tsx:177-183 | Shows the first of the next month and clears the selection. |
| Calendar.ScheduleCalendar.HandleDateClick | src/components/coach/schedule-calendar.tsx:108-116 | Selects that day of the month on show, which stays unchanged. |
| Calendar.ScheduleCalendar.Days | src/components/coach/schedule-calendar.tsx:118-166 | The grid of the month on show, with the current selection. |
| Dashboard.LoadUserData | src/app/dashboard/page.tsx:19-39 | There is user data iff the query returned a row or the metadata holds a role. Data taken from the metadata has no name. |
| Dashboard.EffectiveRole | src/app/dashboard/page.tsx:19-41 | A returned row decides the role, even a role-less one. Otherwise the metadata role counts when set, and there is no role when it is not. |
| Dashboard.RoleRoute | src/app/dashboard/page.tsx:42-50 | There is a route iff the role is admin, coach or player, and it is "/dashboard/" followed by the role. |
| Dashboard.DashboardPage | src/app/dashboard/page.tsx:14-60 | The page redirects to /sign-in iff nobody is signed in. Any other redirect goes to one of the three role dashboards. |
| Dashboard.RedirectIffKnownRole | src/app/dashboard/page.tsx:41-50 | A signed-in user is redirected iff the effective role is admin, coach or player, and then to that role's dashboard. |
| Dashboard.RowRoleWins | src/app/dashboard/page.tsx:27-39 | A row decides the role and the page, whatever the metadata holds. |
| Dashboard.MetadataRoleWithoutRow | src/app/dashboard/page.tsx:20-39 | Without a row (none, a query error or an exception alike) the metadata role decides, and the greeting is the e-mail. |
| Dashboard.RowWithoutRoleShowsGenericPage | src/app/dashboard/page.tsx:34-52 | A row without a role is not completed from the metadata, so the generic page is shown. |
| Dashboard.GreetingFallsBackToEmail | src/app/dashboard/page.tsx:60 | The generic page greets by the row's non-empty name, otherwise by the e-mail. |
| Text.IntToStringRoundTrip | src/components/coach/schedule-calendar.tsx:95 | `String(year)` reads back as the year. |
| Text.TwoDigitRoundTrip | src/components/coach/schedule-calendar.tsx:96-97 | `padStart(2, "0")` of a number below 100 gives two digits that read back as that number. |
| Text.JoinSplit | src/components/player/book-session.tsx:165 | Splitting at a separator and joining back gives the original string. |
| Text.ToLowerIdempotent | src/components/player/book-session.tsx:185 | Lower-casing twice is lower-casing once. |
| Seqs.SelectMembers | src/components/player/book-session.tsx:149 | `filter` keeps exactly the elements that satisfy the test. |
| Seqs.SelectIsSubsequence | src/components/player/book-session.tsx:149 | `filter` keeps the elements in their original order. |
| Ordering.UniqueSorted | src/components/player/book-session.tsx:229 | `[...new Set(xs)].sort()` is strictly sorted and holds exactly the elements of xs. |
| Ordering.StrictlySortedUnique | src/components/player/book-session.tsx:229 | Two strictly sorted lists with the same elements are equal, so the picker list is determined by the set of values. |

## Left out

- I/O: the Supabase client, `headers()` and console logging become inputs or outcome values. `redirect` and `encodedRedirect` become a `Response`. Where one is called inside a `try`, the thrown signal is modelled explicitly (`Signal`, `Completion`), so that the enclosing `catch` receives it. `src/utils/utils.ts` (`encodedRedirect`) is not part of this model. It is taken to call `redirect` with the notice in the query string, and a notice is kept as its kind, path and message, not as a URL.
- `setTimeout`: the back-off waits are returned as a list of delays, not slept. The 5-second reset of the booking success banner is not modelled.
- The booking view's initial fetch of coaches, branches and slots (`fetchData`), and all rendering. `formatDate` in the booking view uses `toLocaleDateString` and is not modelled; neither is the calendar's locale heading.
- Time zones and daylight saving: a `Date` is its local year, month and day. The 24-hour token lifetime is taken as exactly 86,400,000 ms.
- `crypto.randomUUID()` is an input (the token text). Reset URLs, e-mail delivery and `supabase.auth.updateUser` are outcomes (sent, attempted, the error text).
- An invalid `expires_at` text, which makes `new Date(...)` NaN and the expiry comparison false: the expiry is an integer in the model.
- Calendar.MakeDate: defined for days 0 up to the length of the normalised month, the only days the calendar passes. It does not model the overflow of larger days into the next month.
- Calendar.MakeDate: JavaScript's `new Date(y, m, d)` maps a year from 0 to 99 to 1900 + y. The model keeps the year as given, so it agrees with JavaScript only for years outside 0 to 99.
- Calendar.ScheduleCalendar.HandleDateClick: requires the clicked day to be a day of the month on show. The grid offers no other day.
- Text.ToLower: maps A to Z only. Unicode case mapping beyond ASCII is not modelled.
- Text.ParseIntPrefix and Text.ParseNumber: read unsigned decimal digits only. Several forms that `parseInt` and `Number` accept are not modelled: signs, whitespace, decimal fractions ("6.5", which `Number` reads as 6.5), "0x" and exponent forms. The model reads each of them as `None`. An empty field reads as 0, as `Number("")` does. `None` stands for NaN, and `Booking.InHours` makes it fail every bucket comparison. So an hour field such as "6.5", which JavaScript puts in the morning bucket, falls in no bucket in the model.
- AuthRules.IsSpace: JavaScript's `\s` is written out as its fixed character set.
- Booking.AvailableSlots: the refetch has no `.order(...)`, so the database returns the available rows in no defined order. The model takes them in the order the table holds them, and `Booking.BookingStep`, `Booking.WriteBooking`, `Booking.SuccessfulBooking` and `Booking.BookingView.BookSession` inherit that order. Only the set of slots, not their order, is what the source fixes.
- Booking.BookingStep: the existence check is one fault flag. A PGRST116 "no row" answer is modelled as the missing row it reports, not as the `count` aggregate the query selects.
- Booking.MarkBooked: the update is keyed by the session id alone, as in the source. It does not re-check that the session is still available, so a session booked by someone else meanwhile is overwritten. The model states this (`SuccessfulBooking` marks the row whatever its status was) rather than a stronger guarantee.
- Ordering.Less: compares strings character by character, which matches JavaScript's default `sort` for text in the Basic Multilingual Plane. Surrogate pairs are not modelled.
- The comment beside the back-off (lines 25-26 of `src/app/actions.ts`) lists 500 ms as the first delay. The code's exponent starts at 1, so the model follows the code: the first wait is 1000 ms (`FirstRetryWaitsOneSecond`).
- Provisioner: a round that finds the row keeps the error of an earlier failed round. The model reproduces this as the code does (`FoundRowKeepsEarlierError`).
- Booking.SearchHit: a coach without a specialization makes the search test throw (`SearchThrows`). The model reports this as `crashed` from `Booking.FilterTimeSlots` and `Booking.BookingView.RefreshFiltered`, which leave the shown list as it was. What React then does with an error thrown in an effect (an error boundary, unmounting the view) is not modelled.
- AuthRules.SignUp: states the evidently intended sign-up, where a taken address stops the action. The code as written is `AuthRules.SignUpAsWritten` (see Findings).
- AuthRules.SignIn: states the evidently intended sign-in, where an unapproved coach or admin gets the pending-approval warning. The code as written is `AuthRules.SignInAsWritten` (see Findings).
- AuthRules.ResetPassword: states the evidently intended reset, where an unknown or expired token stops the action. The code as written is `AuthRules.ResetPasswordAsWritten` (see Findings).
- Sign-out and the other pages and components are outside this model.

## Findings

In all three rows, `redirect` (through `encodedRedirect`) is called inside a `try` whose `catch` takes every error. The framework's redirect signal is therefore caught and never reaches the framework.

| source | as written | input that shows it | evidently intended | confidence | as-written member | corrected member |
|---|---|---|---|---|---|---|
| src/app/actions.ts:153-164 | The "already registered" redirect is caught and logged, and the sign-up goes on to create the identity | A present password and a well-formed e-mail that the users table already holds | Stop with the "already registered" notice and do not call the auth service | not executed; `redirect` throws and `encodedRedirect` is taken to call it | AuthRules.SignUpAsWritten, AuthRules.TakenAddressStillSignsUp | AuthRules.SignUp, AuthRules.SignUpValidationOrder |
| src/app/actions.ts:279-297 | The pending-approval redirect is caught and answered with "Failed to retrieve user profile information" | A signed-in coach whose row has approved = false | Show the pending-approval warning | not executed; `redirect` throws and `encodedRedirect` is taken to call it | AuthRules.SignInAsWritten, AuthRules.PendingApprovalReportedAsLookupFailure | AuthRules.SignIn, AuthRules.SignInApprovalGate |
| src/app/actions.ts:409-436 | The invalid-link and expired-link redirects are caught and logged, and the password update still runs | Matching passwords and a token with no row in the token table, or with an expiry in the past | Refuse with the token notice and do not update the password | not executed; `redirect` throws and `encodedRedirect` is taken to call it | AuthRules.ResetPasswordAsWritten, AuthRules.RejectedTokenStillUpdates, AuthRules.TokenLifetimeAsWritten | AuthRules.ResetPassword, AuthRules.ResetWithFoundToken, AuthRules.TokenLifetime |
