# Fidelidad loyalty ledger — a Dafny model

Fidelidad is a digital loyalty-stamp card for a shop. Staff scan a
customer's code and credit stamps to the customer's card. Customers watch
their count on their own card view, and staff can adjust visit counts from a
console. The app is a set of React pages that talk directly to a Supabase
store. This project models the bookkeeping those pages do:

- **Store** (`store.dfy`): the `profiles`, `loyalty_cards`, `stamp_events` and
  `promotions` tables as one value `Db`, and the row operations the pages
  issue. Every store failure is an explicit parameter, so each error path can
  be followed. A row that another session inserts between a page's read and
  its own insert (the "rival") is a parameter too.
- **Reward** (`reward.dfy`): the display arithmetic (filled slots, stamps
  remaining, progress bar, row of dots).
- **StaffAdd** (`staff_add.dfy`): the staff grant page. It loads or creates
  the customer's card and has an amount stepper that never goes below 1.
  A grant appends a stamp event and then overwrites the card with counters
  computed from the card the page last read.
- **ClientHome** (`client_home.dfy`): the customer's home page. It creates the
  profile and the card if absent and recovers from a unique-key collision
  (Postgres error 23505) by re-reading the row. It also derives the header's
  display name and initials.
- **FidelityView** (`fidelity_view.dfy`): the customer's live card. One local
  slot is seeded from a prop and then overwritten, last write wins, by
  realtime pushes and polling reads. A poll reply that arrives after teardown
  is dropped.
- **StaffConsole** (`staff_console.dfy`): the staff customer list. It joins
  profiles with cards and sorts stably by visits. It applies a clamped visit
  delta directly to a card; the rendered page offers only the −1 and +1
  buttons (StaffConsoleView.jsx lines 175 and 190). The typed-amount handlers
  `onAddInputChange` and `addCustom`, which validate with `parseInt`, are
  defined but no element calls them, so they are modelled as written although
  the page cannot reach them.
- **Login** (`login.dfy`): the post-login routing rule and the e-mail shape
  check. It also covers the sign-up validation chain and the profile and card
  that sign-up writes.
- **StaffMessages** (`staff_messages.dfy`): the promotion form (validate,
  upload, insert, reset) and the history capped at the 20 newest promotions.
- **Common** (`common.dfy`): the JavaScript string and number helpers the
  pages rely on: `trim`, `split(" ")`/`join`, `toLowerCase`/`toUpperCase`,
  `includes` and `parseInt(_, 10)`.

The pages are classes whose fields are the pages' `useState` slots. Their
handlers are methods that take the store and return the new store, and each
is proved against the pure functions and lemmas beside it.

The model follows the code as written, including these behaviours, which a
reader of a loyalty ledger might not expect:

- A grant computes the new counters from the card the page loaded earlier
  and overwrites the stored card with them; it neither re-reads the card nor
  increments atomically. The lemma
  `StaffAdd.StaleSnapshotKeepsLastGrant` shows that two grants from the same
  stale card keep only the last one on the card, while the log records both.
- The event append and the card update are separate writes.
  `StaffAdd.GrantAndLog` shows that a failed card update leaves the card
  `amount` stamps behind the event log.
- The console's visit adjustment writes no stamp event.
- The card view is seeded from `current_stamps`, but its push and poll
  handlers write `total_visits` (`FidelityView.SeedAndPushDisagree`).
- The three card-creating paths write different columns:
  - The home page and the grant page write all three counters as 0.
  - Sign-up writes only `points: 0`.
  - The console writes only `total_visits: 0`.

## Model

| member | source | states |
|---|---|---|
| Common.TrimEmptyIff | src/pages/Login2.jsx:207 | `s.trim()` is empty exactly when every character of `s` is whitespace, and a non-empty trim starts and ends with non-whitespace |
| Common.TrimStart | src/pages/client/ClientHome.jsx:182 | the result is a suffix of the input, and the dropped prefix is all whitespace; the result does not start with whitespace |
| Common.TrimEnd | src/pages/client/ClientHome.jsx:182 | the result is a prefix of the input, and the dropped suffix is all whitespace; the result does not end with whitespace |
| Common.Split | src/pages/client/ClientHome.jsx:185 | `split(" ")` yields at least one piece, and no piece contains a space |
| Common.JoinSplit | src/pages/client/ClientHome.jsx:185 | joining the pieces of `split(" ")` with " " gives back the original string |
| Common.SplitConcat | src/pages/client/ClientHome.jsx:185 | splitting a string with one more space in it gives the pieces of the part before that space followed by the pieces of the part after it |
| Common.Utf16Length | src/pages/Login2.jsx:223 | JavaScript's `length` counts UTF-16 code units: between one and two per character, and exactly one per character exactly when no character lies beyond U+FFFF |
| Common.Utf16LengthConcat | src/pages/Login2.jsx:223 | the code-unit length of a concatenation is the sum of the parts' lengths |
| Common.Utf16LengthAllAstral | src/pages/Login2.jsx:223 | a string made only of characters beyond U+FFFF has twice as many code units as characters |
| Common.ToLower | src/pages/Login2.jsx:241 | lower-casing keeps the length, turns each ASCII upper-case letter into its lower-case letter and keeps every other character |
| Common.ToUpper | src/pages/client/ClientHome.jsx:188 | an ASCII lower-case letter becomes its upper-case letter; every other character is kept |
| Common.DigitPrefix | src/pages/staff/StaffConsoleView.jsx:119 | the longest prefix made of decimal digits |
| Common.ParseInt | src/pages/staff/StaffConsoleView.jsx:119 | `parseInt(raw, 10)` is NaN exactly when, after leading whitespace and an optional sign, no digit follows; otherwise its magnitude is the value of the leading digits, and it is negative only after a '-' |
| Common.ParseDecimal | src/pages/staff/StaffConsoleView.jsx:119 | parsing the decimal form of a natural number gives that number back |
| Common.ParseNegativeDecimal | src/pages/staff/StaffConsoleView.jsx:119 | a '-' followed by the decimal form of a natural number parses to its negation |
| Store.SelectCard | src/pages/client/ClientHome.jsx:117-121 | the `maybeSingle` read of a user's card returns a row exactly when the user has a card, and then that card |
| Store.SelectProfile | src/pages/client/ClientHome.jsx:66-70 | the `maybeSingle` read of a profile returns a row exactly when the id has a profile, and then that profile |
| Store.InsertCard | src/pages/client/ClientHome.jsx:133-145 | an insert succeeds exactly when no fault occurs and the user has no card; a second card for the same user fails with 23505 and changes nothing; a new card holds the given columns |
| Store.InsertProfile | src/pages/client/ClientHome.jsx:82-93 | an insert succeeds exactly when no fault occurs and the id is new; a duplicate id fails with 23505; a failure changes nothing |
| Store.UpsertProfile | src/pages/Login2.jsx:259-269 | the upsert writes the carried columns over the row with that id, or inserts it; `email`, which it does not carry, keeps its stored value; a failure changes nothing |
| Store.AppendEvent | src/pages/staff/StaffAdd.jsx:107-111 | a successful insert appends exactly the one event to the log; a failure leaves the log unchanged |
| Store.WithRivalCard | src/pages/client/ClientHome.jsx:144-145 | another session's card, inserted between read and insert, is present afterwards with its own columns and takes the next card id; no other card, profile, event or promotion changes; well-formedness is kept |
| Reward.Evaluate | src/pages/staff/StaffAdd.jsx:154-157 | `filled` is the smaller of points and required; `remaining` is the shortfall floored at 0; together they make up `required`; the bar is capped at 100% and is full exactly when points reach `required` |
| Reward.Dots | src/pages/client/FidelityView.jsx:90-99 | the row has `required` dots and the filled ones form a prefix |
| Reward.DotsCount | src/pages/staff/StaffAdd.jsx:202-210 | the number of marked dots is `filled` clamped into 0..required |
| Reward.EvaluatedDots | src/pages/client/FidelityView.jsx:70-99 | for a non-negative count, exactly `filled` dots are marked, namely the first `filled` |
| StaffAdd.Grant | src/pages/staff/StaffAdd.jsx:102-138 | a failed event insert writes nothing; a failed card update leaves the one appended event and an unchanged card; a success appends one event with `amount` and raises `current_stamps` and `total_stamps` by `amount` and `total_visits` by 1 over the snapshot, with null read as 0 |
| StaffAdd.GrantAndLog | src/pages/staff/StaffAdd.jsx:106-138 | from a card that agrees with the event log, a grant keeps the agreement unless the card update fails, which leaves the card exactly `amount` behind the log |
| StaffAdd.StaleSnapshotKeepsLastGrant | src/pages/staff/StaffAdd.jsx:102-131 | two grants computed from the same stale card leave the card at snapshot + the second amount, while the log grows by both amounts |
| StaffAdd.StaffAddPage.constructor | src/pages/staff/StaffAdd.jsx:11-20 | the page starts with amount 1, loading, not saving, with no messages |
| StaffAdd.StaffAddPage.Load | src/pages/staff/StaffAdd.jsx:25-91 | without a session the page goes to login and changes nothing; each read failure sets its message and writes nothing; an existing card is shown; a missing card is created with zero counters and the next card id, and nothing else is written; a collision or insert error shows the creation message; profiles, events and promotions never change |
| StaffAdd.StaffAddPage.LoadCard | src/pages/staff/StaffAdd.jsx:51-90 | a card read failure shows its message and writes nothing; an existing card is shown unchanged; a missing card is inserted with all three counters 0 and the next card id and is the only change to the store; promotions never change; a collision or insert error shows "No se pudo crear la tarjeta del cliente." and keeps the card shown before; loading ends false |
| StaffAdd.StaffAddPage.Decrement | src/pages/staff/StaffAdd.jsx:245 | the amount goes down by one but never below 1 |
| StaffAdd.StaffAddPage.Increment | src/pages/staff/StaffAdd.jsx:273 | the amount goes up by one |
| StaffAdd.StaffAddPage.HandleAddStamps | src/pages/staff/StaffAdd.jsx:96-144 | without a card or staff session nothing happens; otherwise the store becomes the `Grant` result; on success the page shows the stored card and resets the amount to 1; on a failure it keeps the amount and card and shows the matching message; saving ends false |
| StaffAdd.StaffAddPage.UpdateCard | src/pages/staff/StaffAdd.jsx:114-144 | once the event is recorded, the store becomes the `Grant` result; a failed update or a vanished row shows "No se pudo actualizar la tarjeta del cliente." and keeps amount and card; a success shows the stored card and resets the amount to 1 |
| StaffAdd.StaffAddPage.Display | src/pages/staff/StaffAdd.jsx:154-157 | the widget's filled and remaining make up `REQUIRED_POINTS` and the bar never exceeds 100% |
| ClientHome.DisplayName | src/pages/client/ClientHome.jsx:181-182 | the header name is the trimmed full name if non-blank, else the e-mail if non-empty, else "" |
| ClientHome.Words | src/pages/client/ClientHome.jsx:185-186 | the words are non-empty and contain no space |
| ClientHome.NonEmpty | src/pages/client/ClientHome.jsx:186 | `filter(Boolean)` keeps exactly the non-empty pieces |
| ClientHome.NonEmptyConcat | src/pages/client/ClientHome.jsx:186 | the filter keeps the order of the pieces: filtering two runs one after the other gives the two filtered runs in that order |
| ClientHome.WordsConcat | src/pages/client/ClientHome.jsx:185-186 | the words of `a + " " + b` are the words of `a` followed by those of `b`, whatever runs of spaces either side holds |
| ClientHome.WordsOfWord | src/pages/client/ClientHome.jsx:185-186 | a run without spaces is one word, or no word when it is empty |
| ClientHome.Initials | src/pages/client/ClientHome.jsx:184-189 | the initials are the upper-cased first letters of the first two words, at most two characters |
| ClientHome.WordsOfJoin | src/pages/client/ClientHome.jsx:184-189 | a name typed as words separated by single spaces splits back into exactly those words |
| ClientHome.ClientHomePage.FetchProfile | src/pages/client/ClientHome.jsx:65-113 | an existing profile is returned unchanged; a missing one is created with empty name and role "customer"; on 23505 the row is re-read, giving the rival's row or null when there is none or the re-read fails, and the page writes nothing of its own; any other failure yields null and keeps the page's profile |
| ClientHome.ClientHomePage.FetchCard | src/pages/client/ClientHome.jsx:116-165 | an existing card is returned and nothing is written; a missing card is created once with zero counters; on 23505 the card is re-read, giving the rival's card or null when there is none or the re-read fails, and the page writes nothing of its own; other failures yield null; no other user's card changes |
| ClientHome.ClientHomePage.constructor | src/pages/client/ClientHome.jsx:14-15 | the page starts with no profile and no card |
| ClientHome.ClientHomePage.FetchCardTwice | src/pages/client/ClientHome.jsx:116-165 | without faults the first fetch always yields a card, the second returns the same card, and the page shows it; an existing card is returned and the store is untouched; otherwise only this user's card (the zero card, or the rival's) is added and the id counter moves by one |
| FidelityView.Seed | src/pages/client/FidelityView.jsx:7 | the slot starts at `points`, or 0 when it is null |
| FidelityView.Written | src/pages/client/FidelityView.jsx:27-58 | a push writes a numeric `total_visits`; a poll writes one only if it succeeded and the view is not cancelled |
| FidelityView.LastWriteWins | src/pages/client/FidelityView.jsx:27-58 | after any run of pushes and polls the slot holds what the last writing arrival carried, or its earlier value if none wrote |
| FidelityView.CancelledPollsIgnored | src/pages/client/FidelityView.jsx:54-66 | once the view is cancelled, no sequence of poll replies moves the slot |
| FidelityView.SeedAndPushDisagree | src/pages/client/ClientHome.jsx:278-281 | the view seeded from `current_stamps` shows a different number after the first push of the same card whenever `current_stamps` and `total_visits` differ |
| FidelityView.FidelityCard.constructor | src/pages/client/FidelityView.jsx:5-7 | the slot is seeded from `points` and the view is not cancelled |
| FidelityView.FidelityCard.PointsChanged | src/pages/client/FidelityView.jsx:9-11 | a numeric `points` prop replaces the slot; a null one leaves it |
| FidelityView.FidelityCard.OnPush | src/pages/client/FidelityView.jsx:27-32 | a row with a numeric `total_visits` sets the slot to it; anything else leaves the slot |
| FidelityView.FidelityCard.OnPoll | src/pages/client/FidelityView.jsx:47-59 | an error or a cancelled view leaves the slot; otherwise a numeric `total_visits` is written |
| FidelityView.FidelityCard.Cancel | src/pages/client/FidelityView.jsx:64-67 | the view is marked cancelled |
| FidelityView.FidelityCard.Display | src/pages/client/FidelityView.jsx:70-72 | filled and remaining make up `requiredPoints`; the bar is full exactly when the slot reaches `requiredPoints` |
| StaffConsole.FindCard | src/pages/staff/StaffConsoleView.jsx:44 | the card found belongs to the user, is in the list and is the first card of that user in it; none is found only when the list has no card of that user |
| StaffConsole.Entry | src/pages/staff/StaffConsoleView.jsx:45-49 | the entry has the profile's id; the name is the full name, or "(sin nombre)" if it is null or empty; a user without a card has 0 visits |
| StaffConsole.Merge | src/pages/staff/StaffConsoleView.jsx:43-50 | the join has one entry per profile, in the profiles' order |
| StaffConsole.MergedVisits | src/pages/staff/StaffConsoleView.jsx:43-50 | with a unique `user_id`, each entry shows its own card's `total_visits`, or 0 without a card or with a null count |
| StaffConsole.Insert | src/pages/staff/StaffConsoleView.jsx:53 | inserting grows the list by one and puts the new entry or the old head first |
| StaffConsole.InsertSorted | src/pages/staff/StaffConsoleView.jsx:53 | inserting into a list sorted by visits, most first, keeps it sorted |
| StaffConsole.InsertPermutes | src/pages/staff/StaffConsoleView.jsx:53 | inserting adds exactly the new entry to the list's multiset |
| StaffConsole.SortByVisits | src/pages/staff/StaffConsoleView.jsx:52-55 | the sorted list has most visits first and is a permutation of the join |
| StaffConsole.InsertHead | src/pages/staff/StaffConsoleView.jsx:53 | inserting the head into the sorted rest of a list gives a list sorted most visits first with the same entries as the whole list |
| StaffConsole.SortStable | src/pages/staff/StaffConsoleView.jsx:53 | customers with equal visits keep their order from the join |
| StaffConsole.Clamped | src/pages/staff/StaffConsoleView.jsx:92 | the new count is never negative, is at least `current + delta`, and equals it unless it is 0 |
| StaffConsole.SetVisits | src/pages/staff/StaffConsoleView.jsx:102-104 | only the entries of that user change, and only their visits |
| StaffConsole.EnsureCard | src/pages/staff/StaffConsoleView.jsx:60-80 | an existing card is returned; a missing one is created with only `total_visits = 0`; a collision is thrown as 23505 with no re-read; a read or insert error is thrown; at most the user's own card is added and no existing card changes |
| StaffConsole.WriteVisits | src/pages/staff/StaffConsoleView.jsx:94-97 | the update sets only `total_visits` of the user's card; a missing row is not an error; a failure changes nothing |
| StaffConsole.AdjustVisits | src/pages/staff/StaffConsoleView.jsx:89-97 | no new count results exactly when the read, the card creation or the update fails; a failure leaves every existing card as it was and a read failure writes nothing; otherwise the card's `total_visits` becomes `max(current + delta, 0)` with null read as 0, a missing card is first created with only `total_visits`; when the update fails after that creation, the created card stays with only `total_visits`; only this user's card and the id counter can change, so no other column, card, profile, event or promotion changes |
| StaffConsole.WriteClamped | src/pages/staff/StaffConsoleView.jsx:91-97 | once the card is known, its `total_visits` becomes `max(current + delta, 0)` with null read as 0 and nothing else changes (no other card, profile, event, promotion or the id counter); a failed update changes nothing and yields no count |
| StaffConsole.Console.constructor | src/pages/staff/StaffConsoleView.jsx:5-10 | the console starts empty, loading, with no input and nothing busy |
| StaffConsole.Console.LoadCustomers | src/pages/staff/StaffConsoleView.jsx:16-57 | a failed query keeps the list; otherwise the list is the join sorted most visits first, a permutation of the join; loading ends false |
| StaffConsole.Console.UpdateVisits | src/pages/staff/StaffConsoleView.jsx:83-111 | a zero or NaN delta does nothing; otherwise the alert is raised exactly when the read, the card creation or the update failed, and then the list is kept and no existing card changes; on success the card's `total_visits` becomes the clamped sum, only that user's entry changes, no stamp event is written; profiles and promotions never change and only this user's card and the id counter can; busy is cleared |
| StaffConsole.Console.OnAddInputChange | src/pages/staff/StaffConsoleView.jsx:113-115 | only that user's input changes (the rendered page never calls this handler) |
| StaffConsole.Console.AddCustom | src/pages/staff/StaffConsoleView.jsx:117-130 | an empty, unparsable or non-positive input raises the alert, writes nothing and keeps the input; otherwise the parsed number is applied exactly as `updateVisits` applies a delta (clamped count on the card and in the list, or the alert with nothing changed) and the input is cleared; the rendered page never calls this handler |
| StaffConsole.TypedNumberAccepted | src/pages/staff/StaffConsoleView.jsx:119-121 | a number typed in decimal passes the input check exactly when it is positive |
| Login.RoleOf | src/pages/Login2.jsx:127 | a null or empty role counts as "customer" |
| Login.RouteAfterLogin | src/pages/Login2.jsx:108-133 | a read error shows "No se pudo cargar tu perfil." and does not navigate; a missing profile or one without name or birth date goes to /complete-profile; staff and admin go to /staff; every other role goes to /client |
| Login.NullRoleIsCustomer | src/pages/Login2.jsx:127-132 | a complete profile without a role is routed to /client |
| Login.EmailFormatMatchesPattern | src/pages/Login2.jsx:197-200 | the e-mail check accepts exactly the strings L@A.B with L, A and B non-empty and free of whitespace and '@' |
| Login.IsValidEmailFormat | src/pages/Login2.jsx:197-200 | an accepted address has at least five characters, no whitespace and exactly one '@', not in front; an address without '@' or starting with it is refused |
| Login.AcceptedMatches | src/pages/Login2.jsx:197-200 | every accepted address has the pattern's shape |
| Login.MatchAccepted | src/pages/Login2.jsx:197-200 | every string of the pattern's shape is accepted |
| Login.FirstSignupError | src/pages/Login2.jsx:207-226 | the checks run in the order name (trimmed), birth date, e-mail (trimmed), e-mail format, password length ≥ 6 counted in UTF-16 code units as JavaScript's `length` does; the message is that of the first failing check, and none is given exactly when all pass |
| Login.AstralPasswordLongEnough | src/pages/Login2.jsx:223-226 | a password of three characters beyond U+FFFF (six code units) passes the length check when the other fields do |
| Login.BlankNameRefused | src/pages/Login2.jsx:207-210 | a name of blanks is refused with "Debes ingresar tu nombre." whatever else the form holds |
| Login.ValidEmailNotBlank | src/pages/Login2.jsx:215-222 | an address that passes the format check is never blank |
| Login.SignUpErrorMessage | src/pages/Login2.jsx:237-247 | the "already registered" message appears exactly when the lower-cased error contains "already registered"; otherwise the generic message |
| Login.SignupProfile | src/pages/Login2.jsx:259-268 | the sign-up profile has role "customer" and carries the name as typed, the birth date, the phone and the opt-in |
| Login.SignupProfileComplete | src/pages/Login2.jsx:259-293 | a profile written after the form's checks passed is complete and routes to /client |
| Login.SignupWrites | src/pages/Login2.jsx:259-287 | after sign-up the user has a profile: a new one is the customer profile as typed, an existing one is overwritten but keeps its e-mail; a points-only card is added only when the user had none and the insert did not fail; no other user's profile or card, no stamp event and no promotion changes |
| Login.SignupRoutesToClient | src/pages/Login2.jsx:258-293 | once the form's checks have passed, the profile sign-up writes is routed to /client whatever the store held before |
| Login.LoginPage.constructor | src/pages/Login2.jsx:78-92 | the form starts empty, without messages and not loading |
| Login.LoginPage.EnsureProfileAndRedirect | src/pages/Login2.jsx:108-133 | the page navigates as `RouteAfterLogin` decides, or sets its error message |
| Login.LoginPage.CreateAccount | src/pages/Login2.jsx:258-293 | a failed upsert shows its message and writes nothing; otherwise the customer profile is saved, a points-only card is inserted when none exists (a failure is ignored), and the user is sent to /client unless the profile read fails |
| Login.LoginPage.Submit | src/pages/Login2.jsx:228-293 | a sign-up error shows the matching message, a pending confirmation asks to confirm the e-mail, and a failed upsert shows its message, each writing nothing; a signed-up user gets the sign-up writes and goes to /client unless the profile read fails; loading ends false |
| Login.LoginPage.HandleSignup | src/pages/Login2.jsx:203-294 | a failed check sets its message and makes no sign-up call; a sign-up error, a pending confirmation and a failed upsert each show their message and write nothing; a new account gets its profile and card and goes to /client |
| StaffMessages.Newest | src/pages/staff/StaffMessagesView.jsx:21-25 | the fetch returns the first `min(n, 20)` promotions of the newest-first table |
| StaffMessages.PrependCapped | src/pages/staff/StaffMessagesView.jsx:47 | the new promotion becomes the head, the history holds at most 20, and the rest is the first ≤ 19 previous items in their order |
| StaffMessages.PrependMatchesRefetch | src/pages/staff/StaffMessagesView.jsx:47 | prepending to a fetched history gives what a fetch after the insert returns |
| StaffMessages.InsertsKeepNewest | src/pages/staff/StaffMessagesView.jsx:46-48 | after any run of realtime inserts the history is the newest 20 of everything seen, newest first |
| StaffMessages.PriceColumn | src/pages/staff/StaffMessagesView.jsx:100 | an empty price is stored as null and any other price as typed |
| StaffMessages.ImageColumn | src/pages/staff/StaffMessagesView.jsx:70-94 | without an image the URL is null; with an image and a non-empty public URL that URL is stored; a stored URL is always the non-empty public URL |
| StaffMessages.InsertPromotion | src/pages/staff/StaffMessagesView.jsx:97-102 | a successful insert makes the promotion the newest; a failure changes nothing |
| StaffMessages.MessagesForm.constructor | src/pages/staff/StaffMessagesView.jsx:6-16 | the form starts empty, with an empty history that is loading |
| StaffMessages.MessagesForm.FetchHistory | src/pages/staff/StaffMessagesView.jsx:18-35 | the history becomes the 20 newest promotions, or is kept on error; loading ends false |
| StaffMessages.MessagesForm.OnInsert | src/pages/staff/StaffMessagesView.jsx:46-48 | the history becomes the prepend-and-cap of the new promotion, and stays within 20 |
| StaffMessages.MessagesForm.Publish | src/pages/staff/StaffMessagesView.jsx:70-118 | an upload is attempted exactly when an image is set; a failed upload stops before the insert; a failed insert keeps the fields; a success stores the promotion, clears the form and refreshes the history, which a failed refresh keeps as it was; loading ends false after a refresh and is untouched otherwise |
| StaffMessages.MessagesForm.HandleSend | src/pages/staff/StaffMessagesView.jsx:57-118 | a blank title is refused before a blank body, with no upload or insert; a failed upload aborts before the insert; success stores the promotion with an empty price as null, clears title, body, price and image and refreshes the history (kept as it was when the refresh fails, loading ending false); an insert error keeps them |

## Left out

- The Supabase client itself is not modelled: network, authentication, sessions, row-level security and `src/lib/supabaseClient.js`. The store is an in-memory value, and every success or failure of a call is an input.
- Navigation is not modelled. Routes are returned values and the login redirect is an out-parameter.
- Realtime channels, the 2-second polling timer and the splash timeout are timing and concurrency. Only the state change when a value arrives is modelled, plus the `cancelled` flag.
- Concurrent sessions are not interleaved. The one race the code handles, a card or profile inserted between read and insert, is the `rival` parameter. Two grants from the same stale card are a lemma.
- No "no lost update" property is proved. The code gives no atomicity, and the stale-snapshot lemma shows the loss instead.
- The storage upload, the `Date.now()` file name and the public URL are inputs: the upload outcome and the returned URL.
- The clock is an input: `updated_at` takes a `now` string parameter.
- Rendering, theming, the profile menu, logout, the QR pages, the customer messages page, the staff home page and the app router are not modelled.
- The staff grant page and the card view use their own display-name variants, and they are not modelled. The grant page uses the untrimmed name or the e-mail; the card view upper-cases.
- `handleLogin`, `handleGoogleLogin`, `handleResetPassword`, the session-check effect and the complete-profile page are not modelled: these are auth calls and a duplicate of the sign-up checks.
- Common.TrimStart: whitespace is the ASCII set (space, tab, line feed, vertical tab, form feed, carriage return), not JavaScript's full Unicode set.
- Common.ToLower: ASCII letters only; Unicode case mapping is not modelled.
- Common.ToUpper, ClientHome.Initials: ASCII letters only. JavaScript upper-cases the full Unicode range, and some characters grow (`"ß".toUpperCase()` is `"SS"`), so an initial could be longer than one character and the initials longer than two.
- Login.EmailFormatMatchesPattern, Login.IsValidEmailFormat: `\s` is the same ASCII whitespace set.
- ClientHome.Initials: `word[0]` takes one UTF-16 code unit, which for a first character beyond U+FFFF is a lone high surrogate. A Dafny character is a whole Unicode scalar value and cannot be a lone surrogate, so the model takes the whole character. The trims, the split and the e-mail check only look at ASCII characters, so they treat astral characters the same whether counted as one character or two code units.
- Common.ParseInt: this is `parseInt(_, 10)` on unbounded integers. It does not model the loss of precision past 2^53, and a `-0` reads as 0.
- Reward.Evaluate: the progress percentage is a float in the code. Here it is the exact numerator `progressScaled` over `required`. `required = 0` (division by zero, `NaN`/`Infinity`) is not modelled beyond what the integer formula gives.
- StaffConsole.SortByVisits: `Array.prototype.sort` sorts in place. Here it is a stable insertion sort on a sequence, proved sorted, a permutation and stable.
- StaffConsole.Console.LoadCustomers: the query results, already filtered on `role = "customer"`, are inputs. The role filter itself is part of the query and is not modelled.
- StaffConsole.Console.UpdateVisits: the `busyId` value while the update is in flight is a ghost out-parameter, and the +1/−1 buttons are not separate members.
- ClientHome.ClientHomePage.FetchCardTwice: both runs are fault-free, and a rival insert can appear only in the first run. The session check and the profile fetch of the load effect are not part of it.
- StaffAdd.StaffAddPage.Load, ClientHome.ClientHomePage.FetchProfile, ClientHome.ClientHomePage.FetchCard, StaffConsole.EnsureCard: they require a well-formed store. Row keys match the rows, which holds for the real tables because of their keys.
