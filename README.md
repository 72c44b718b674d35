# Calm Focus — a verified model of its decision logic

Calm Focus is a Next.js + Supabase productivity app. It has a Pomodoro-style focus
timer, milestone badges unlocked by completed sessions, reminders, a community forum
with likes, and admin tools for moderation and bans. Almost all of it is database
glue and JSX. This project models the small sequential decision procedures inside
that glue, in Dafny, and proves what they promise.

The model follows one rule throughout. Every database read, `auth.getUser()` call
and clock read is a parameter. Every table the code writes is a class field that a
method reassigns. Times are integer milliseconds.

- **Focus timer store** (`timer_store.dfy`). The five-action state machine as a pure
  `Step` function and as a `Store` class whose methods are proved against `Step`.
  Proved: every action keeps `0 <= timeLeft <= duration`, the countdown reaches 0
  and then stops, toggle twice is the identity, and the mode presets.
- **Milestone progress** (`milestones.dfy`, tables in `focus_tables.dfy`). The next
  locked milestone, the starting point, the clamped percentage as `real` and
  sessions to go. `GetNextMilestone` makes the three table reads and passes them to that computation.
- **Saving a focus session** (`focus_actions.dfy`). Control flow, minute rounding,
  the set difference that picks newly unlocked milestones, achievement inserts and
  the result defaults.
- **Profile settings** (`settings_actions.dfy`, table in `profiles.dfy`). The
  validation chain, built field by field as the source does. Its reference function
  fixes the check order. The profile write touches only the listed columns.
- **Ban middleware** (`middleware.dfy`). Pass through, lift an expired ban, or sign
  out and redirect.
- **Likes** (`like_actions.dfy`, `like_button.dfy`). The server toggle over a
  reaction table: the pair set flips, the count moves by exactly one, and other rows
  are untouched. The client's optimistic counter, revert and server sync.
- **Reminders** (`reminders.dfy`, `reminder_notifications.dfy`, `reminders_page.dfy`,
  `reminders_client.dfy`). The due-in-the-last-day query, the dismissed set, the
  upcoming/past partition, time-until labels and urgency colours, and owner-only
  actions.
- **Forum and admin UI** (`post_actions.dfy`, `comments_tab.dfy`, `forum_actions.dfy`,
  `ban_user_modal.dfy`). The one-hour edit window, the comment filters, relative
  time, required post fields and the trimmed ban reason.
- **Navigation and identity** (`sidebar.dfy`, `user_menu.dfy`, `user_avatar.dfy`).
  Active-link matching, navigation items, display names and avatar initials.

Shared modules:

- `Wrappers` holds `Option` and `Result`.
- `Text` is an ASCII model of `trim`, `toLowerCase`, `toUpperCase`, `includes`,
  `startsWith` and `split`. It also renders decimals and models JavaScript
  `parseInt`: leading whitespace, sign, `0x` hex and the longest digit prefix.
  `None` stands for `NaN`.
- `Seqs` holds order-preserving filters, sortedness, reversal and `slice(0, n)`.

Tables whose query orders its rows are stored already in that order. Milestones are
ascending by threshold and reminders ascending by `remind_at`. This is a class
invariant or a precondition of the query function, so an ordered query is a filter,
plus a reversal for descending order.

## Model

| member | source | states |
|---|---|---|
| TimerStore.InitialIsIdleFocus | stores/timerStore.ts:18-21 | The store starts with timeLeft = duration = 1500, not running, in focus mode, within bounds |
| TimerStore.Store.constructor | stores/timerStore.ts:17-21 | The new store's state is the initial state and satisfies the bounds invariant |
| TimerStore.SetDurationEffect | stores/timerStore.ts:23 | setDuration(s) sets duration and timeLeft to s, stops the timer and keeps the mode |
| TimerStore.Store.SetDuration | stores/timerStore.ts:23 | The method's new fields are exactly those of the setDuration step; bounds hold again when s >= 0 |
| TimerStore.ToggleTwiceRestores | stores/timerStore.ts:25 | toggleTimer flips only isActive, and toggling twice restores the state |
| TimerStore.Store.ToggleTimer | stores/timerStore.ts:25 | The method flips isActive and leaves every other field unchanged; bounds are preserved |
| TimerStore.ResetEffect | stores/timerStore.ts:27 | resetTimer sets timeLeft to duration and stops; duration and mode are unchanged |
| TimerStore.Store.ResetTimer | stores/timerStore.ts:27 | The method's new fields are those of the reset step; bounds are preserved |
| TimerStore.TickCases | stores/timerStore.ts:29-37 | tick is a no-op when stopped, decrements by exactly one when running above 0, and stops at 0 leaving timeLeft 0 |
| TimerStore.Store.Tick | stores/timerStore.ts:29-37 | The method reads then writes as tick does: the three cases, duration and mode unchanged, bounds preserved |
| TimerStore.SetModeEffect | stores/timerStore.ts:39-42 | setMode gives duration 1500 for focus and 300 for break, timeLeft = duration, stopped, mode set |
| TimerStore.Store.SetMode | stores/timerStore.ts:39-42 | The method sets mode, the preset duration and timeLeft, and stops; bounds hold |
| TimerStore.StepKeepsBounds | stores/timerStore.ts:23-42 | Every action keeps 0 <= timeLeft <= duration, given setDuration's argument is >= 0 |
| TimerStore.RunKeepsBounds | stores/timerStore.ts:23-42 | Any sequence of admissible actions keeps the bounds invariant |
| TimerStore.CountdownRuns | stores/timerStore.ts:29-32 | k ticks from a running state with timeLeft >= k lower timeLeft by exactly k and keep it running |
| TimerStore.StoppedStaysStopped | stores/timerStore.ts:29-36 | Any number of ticks leave a stopped timer unchanged |
| TimerStore.TicksSplit | stores/timerStore.ts:29-36 | m + n ticks equal m ticks followed by n ticks |
| TimerStore.Countdown | stores/timerStore.ts:29-36 | From running with timeLeft t, t ticks reach 0 still running, and any further tick stops the timer at 0 |
| Milestones.Clamp | utils/milestones.ts:70 | min(100, max(0, x)) lies in [0, 100] and is x when x is already there |
| Milestones.FirstLocked | utils/milestones.ts:47-48 | Returns the first position whose milestone is not unlocked, or none when all are unlocked |
| Milestones.MaxThresholdBelow | utils/milestones.ts:63-65 | The largest threshold strictly below t among the listed milestones, or none when no threshold is below t |
| Milestones.PercentOf | utils/milestones.ts:68-70 | The clamped percentage lies in [0, 100]; it is NaN exactly when both range and progress are 0 |
| Milestones.NextMilestone | utils/milestones.ts:30-79 | totalSessions is the count or 0; the milestone is the first locked one; null exactly when all are unlocked, with the completed result; sessionsToGo = max(0, threshold - count) |
| Milestones.ProgressFromPreviousRung | utils/milestones.ts:63-79 | progress is the unclamped count minus a start that is the largest active threshold below the next one, locked or not, else 0 |
| Milestones.SessionsToGoZeroIff | utils/milestones.ts:71 | sessionsToGo is 0 exactly when the count has reached the next milestone's threshold, or all are unlocked |
| Milestones.PercentageIsClampedRatio | utils/milestones.ts:67-70 | With a positive range the percentage is the clamped ratio progress / range * 100 |
| Milestones.RatioMonotone | utils/milestones.ts:70 | The ratio is monotone in the progress for a positive range |
| Milestones.ClampMonotone | utils/milestones.ts:70 | Clamping is monotone |
| Milestones.MoreSessionsNeverRegress | utils/milestones.ts:68-71 | With milestones and unlocked set fixed, more sessions never lower the percentage and never raise sessionsToGo |
| Milestones.NoMilestonesIsCompleted | utils/milestones.ts:48-59 | With no active milestones the result is the completed one: null, progress 0, 100 %, 0 to go |
| Milestones.ExampleFirstRung | utils/milestones.ts:63-79 | Worked example: thresholds 5, 10, 20 and no sessions give the first rung, progress 0, 0 % and 5 to go |
| Milestones.ExampleSecondRung | utils/milestones.ts:63-79 | Worked example: with the first rung unlocked, 7 sessions give the rung at 10, progress 2, 40 % and 3 to go |
| Milestones.GetNextMilestone | utils/milestones.ts:21-79 | The session count, the user's achieved ids and the active milestones in threshold order are read and passed to NextMilestone; totalSessions is the user's session count, and the milestone returned is active and not yet achieved |
| FocusActions.RoundedMinutes | app/focus/actions.ts:43 | Math.round(s / 60) is the whole number m with 60m - 30 <= s < 60m + 30 |
| FocusActions.RoundedMinutesUnique | app/focus/actions.ts:43 | That m is unique: any m in the half-open window is the rounding |
| FocusActions.NewMilestones | app/focus/actions.ts:75-78 | The new milestones are exactly the given ones whose id is not among existing achievements, in order |
| FocusActions.NewMilestonesAre | app/focus/actions.ts:62-78 | A milestone is newly unlocked exactly when it is listed, active, has threshold <= total and its id is not among existing achievements |
| FocusActions.NewMilestonesInOrder | app/focus/actions.ts:62-78 | The new milestones keep ascending threshold order and are a subsequence of those reached |
| FocusActions.UnlockIsIdempotent | app/focus/actions.ts:75-78 | With the gained ids recorded, a second call with the same total unlocks nothing |
| FocusActions.NextMilestoneAfterUnlock | app/focus/actions.ts:62-78 | After recording the unlocked ids, the next locked active milestone, if any, has a threshold above the total |
| FocusActions.View | app/focus/actions.ts:103-109 | The reported milestone keeps id and title; description, colour and icon are the stored value when truthy, else '', '#10b981' and the default icon |
| FocusActions.OrDefault | app/focus/actions.ts:106-108 | `x \|\| fallback`: a null and an empty string both give the fallback |
| FocusActions.Views | app/focus/actions.ts:103-109 | One view per new milestone, in order |
| FocusActions.AchievementRows | app/focus/actions.ts:84-89 | One (user, milestone) row per new milestone, in order |
| FocusActions.InsertedRowsAreNew | app/focus/actions.ts:78-90 | No inserted achievement row is for a milestone the user already holds |
| FocusActions.SaveFocusSession | app/focus/actions.ts:19-112 | No user: failure 'Not authenticated', nothing written. Break: success, nothing written. Session insert error: failure with its message, no further reads or writes. Otherwise: one session row, the new milestones and the count or 0, with achievement rows appended unless that insert fails, which changes neither success nor the list |
| SettingsActions.ValidatedUpdates | app/settings/actions.ts:23-76 | The reference chain: ok exactly when every check passes; the username error comes first, then the goal error. Accepted updates hold updated_at, the untrimmed username, full_name trimmed or null, and a key exactly for each filled preference, holding parseInt of that field, which lies in range |
| SettingsActions.ChecksRunInOrder | app/settings/actions.ts:28-76 | The focus error is reported exactly when username and goal pass and focus fails; the break error exactly when the first three pass and break fails |
| SettingsActions.FocusStepNotEnforced | app/settings/actions.ts:62-68 | A focus duration of 7 minutes is accepted: the form's step of 5 is not enforced |
| SettingsActions.SharedUsernameNotBlocked | app/settings/actions.ts:34-43 | With two other profiles holding the name, the single-row lookup finds none and the username check passes |
| SettingsActions.InRangeAccepted | app/settings/actions.ts:54-76 | Any in-range goal, focus and break durations written as plain numbers are stored as those numbers |
| SettingsActions.ApplyUpdates | app/settings/actions.ts:78-82 | The write changes exactly the keys present in the updates, plus updated_at; the ban columns are never touched |
| SettingsActions.CollectUpdates | app/settings/actions.ts:22-76 | The field-by-field construction with early returns equals the reference chain |
| SettingsActions.UpdateProfile | app/settings/actions.ts:7-92 | No user: redirect to login. A failed check or a failed write: the error (write error message or 'Failed to update profile') and the table unchanged. Otherwise the user's row is updated with the accepted updates |
| Middleware.Decide | middleware.ts:57-96 | Sign out exactly when the user's profile is banned with no expiry or now before it; lift exactly when banned with now >= expiry; otherwise pass |
| Middleware.NotBannedPasses | middleware.ts:57-96 | No user, no profile or a profile that is not banned: pass through |
| Middleware.ExpiryInstantIsExpired | middleware.ts:73 | The expiry instant itself counts as expired; one millisecond before it is still banned |
| Middleware.Unbanned | middleware.ts:75-83 | The unban clears is_banned, ban_reason, banned_until and banned_by and nothing else |
| Middleware.UnbannedPasses | middleware.ts:67-69 | A row after the unban passes the next request |
| Middleware.CheckBan | middleware.ts:57-96 | Pass: continue, nothing written. Block: sign out, redirect to '/banned', nothing written. Lift: continue, and the user's row is unbanned unless that write fails, which is not inspected |
| LikeActions.Find | app/forum/likeActions.ts:15-20 | Finds the user's reaction on the post; none exactly when the pair has no reaction |
| LikeActions.ToggleFlipsPair | app/forum/likeActions.ts:22-47 | The successful toggle flips membership of exactly the caller's (user, post) pair in the reaction set |
| LikeActions.ToggleTwiceRestoresPairs | app/forum/likeActions.ts:22-47 | Toggling twice restores the set of liked pairs |
| LikeActions.ToggleCountDelta | app/forum/likeActions.ts:22-53 | The post's reaction count after the toggle is the old count plus one for a like and minus one for an unlike |
| LikeActions.ToggleKeepsOthers | app/forum/likeActions.ts:22-47 | Reactions of other users or other posts are neither removed nor added |
| LikeActions.ToggleKeepsConsistent | app/forum/likeActions.ts:22-47 | The toggle keeps ids distinct and at most one reaction per user and post |
| LikeActions.CountWithout | app/forum/likeActions.ts:22-53 | Deleting the one row with a given id lowers its post's count by one and no other post's |
| LikeActions.ReactionTable.TogglePostLike | app/forum/likeActions.ts:6-59 | No user: 'Not authenticated', table unchanged. Write error: its message, table unchanged. Otherwise the row is deleted or one 'like' row inserted; isLiked is whether there was none before; likeCount is the new count, or 0 when the count is missing |
| LikeButton.ReplyOf | app/forum/likeActions.ts:10-58 | The server's reply as the client reads it: an error with no count, or the count and isLiked |
| LikeButton.Click | components/LikeButton.tsx:24-45 | A click while pending does nothing; otherwise it flips isLiked, moves the count by one toward the new state and starts pending |
| LikeButton.Finish | components/LikeButton.tsx:27-39 | A truthy error restores the captured isLiked and resets the count to initialLikeCount; otherwise a reply with a count adopts it and `isLiked \|\| false`; pending always ends |
| LikeButton.ClickKeepsBase | components/LikeButton.tsx:24-25 | The optimistic step preserves count - (isLiked ? 1 : 0) |
| LikeButton.PendingIgnoresClicks | components/LikeButton.tsx:45 | While a request is pending a second click changes nothing |
| LikeButton.RevertUsesInitialCount | components/LikeButton.tsx:30-33 | After a like synced to 6, a failed unlike shows 5 (the prop count) while liked: the revert does not restore the pre-click count |
| LikeButton.ServerReplyWins | components/LikeButton.tsx:34-37 | After a successful reply the client shows the server's count and state |
| LikeButton.LikeButtonView.constructor | components/LikeButton.tsx:14-16 | The initial state is the props, not pending |
| LikeButton.LikeButtonView.Disabled | components/LikeButton.tsx:45 | The button is disabled exactly when a click would leave its state unchanged |
| LikeButton.LikeButtonView.HandleLike | components/LikeButton.tsx:18-27 | The handler's new state is the click step of the old one |
| LikeButton.LikeButtonView.OnReply | components/LikeButton.tsx:27-39 | The transition's continuation leaves the finish step of the old state |
| ReminderNotifications.FetchDue | components/ReminderNotifications.tsx:29-37 | The fetch keeps exactly the global or own reminders with now - 24 h <= remind_at <= now, newest first |
| ReminderNotifications.AfterPoll | components/ReminderNotifications.tsx:39-47 | An empty fetch changes nothing; otherwise dismissed is the stored set, and due holds every fetched reminder whose id is not stored and nothing else, as a subsequence of the fetch |
| ReminderNotifications.AfterDismiss | components/ReminderNotifications.tsx:59-65 | Adds the id to dismissed, persists exactly the new set, removes only that id from due and keeps the order |
| ReminderNotifications.AfterDismissAll | components/ReminderNotifications.tsx:67-72 | dismissed becomes old dismissed plus every due id, persisted, and due empties |
| ReminderNotifications.DismissedStaysHidden | components/ReminderNotifications.tsx:39-65 | After a dismiss, no later poll shows that reminder |
| ReminderNotifications.DismissAllStaysHidden | components/ReminderNotifications.tsx:39-73 | After dismiss-all, no reminder that was on screen comes back on a poll |
| ReminderNotifications.Rendered | components/ReminderNotifications.tsx:75-77 | The banner renders exactly when at least one reminder is due; nothing renders when the list is empty |
| ReminderNotifications.DismissAllHidesBanner | components/ReminderNotifications.tsx:67-77 | After dismiss-all the banner is gone, and an empty poll keeps it gone |
| ReminderNotifications.DismissIdempotent | components/ReminderNotifications.tsx:59-65 | Dismissing the same id twice equals dismissing it once |
| ReminderNotifications.Heading | components/ReminderNotifications.tsx:88 | The heading reads '1 Reminder Due' for one and pluralises only above one |
| ReminderNotifications.ReminderBanner.CheckReminders | components/ReminderNotifications.tsx:24-49 | The method's new state is the poll step |
| ReminderNotifications.ReminderBanner.DismissReminder | components/ReminderNotifications.tsx:59-65 | The method's new state is the dismiss step |
| ReminderNotifications.ReminderBanner.DismissAll | components/ReminderNotifications.tsx:67-72 | The method's new state is the dismiss-all step |
| ReminderNotifications.ReminderBanner.constructor | components/ReminderNotifications.tsx:17-18 | Starts with nothing due and nothing dismissed |
| RemindersPage.Query | app/reminders/page.tsx:24-28 | Exactly the global reminders and the user's own, ascending by remind_at, as a subsequence of the table |
| RemindersPage.Sections | app/reminders/page.tsx:30-31 | Upcoming reminders are later than now and past ones at or before now; missing data gives two empty lists |
| RemindersPage.SectionsPartition | app/reminders/page.tsx:30-31 | Upcoming and past together are the fetched list, as a multiset |
| RemindersPage.DueNowIsPast | app/reminders/page.tsx:30-31 | A reminder exactly at now is past and not upcoming |
| RemindersPage.SectionsOrdered | app/reminders/page.tsx:28-31 | Both sections keep the ascending order |
| RemindersPage.CanDelete | app/reminders/page.tsx:100 | A delete button appears only on the user's own reminders, which are always visible to them; never on someone else's global reminder |
| RemindersPage.PastShown | app/reminders/page.tsx:119 | Exactly min(5, n) past reminders are shown, a prefix of the list, so the earliest ones when it is sorted |
| RemindersClient.GetTimeUntil | app/reminders/RemindersClient.tsx:66-82 | Overdue exactly when diff < 0, urgent below an hour, soon below a day, upcoming below a week, future otherwise; 'Today' never occurs |
| RemindersClient.UrgentLabel | app/reminders/RemindersClient.tsx:71-76 | Under an hour the label is "in {m}m" with m in 0..59 |
| RemindersClient.SoonLabel | app/reminders/RemindersClient.tsx:72-77 | From one hour to a day the label is "in {h}h" with h in 1..23 |
| RemindersClient.DaysLabel | app/reminders/RemindersClient.tsx:73-80 | One day away reads 'Tomorrow', two to six days "in N days" |
| RemindersClient.UrgencyColor | app/reminders/RemindersClient.tsx:84-92 | Overdue and urgent map to error colours, soon to warning, today to primary, the rest to the default |
| RemindersClient.ErrorColourIffWithinAnHour | app/reminders/RemindersClient.tsx:66-92 | The label is error-coloured exactly when the reminder is less than an hour away or overdue |
| RemindersClient.PrimaryColourNeverShows | app/reminders/RemindersClient.tsx:75-89 | The primary colour of the 'today' urgency never shows |
| RemindersClient.PastSection | app/reminders/RemindersClient.tsx:200-204 | The past section shows the first min(5, n) reminders and its header states that number and n |
| RemindersClient.OwnerActions | app/reminders/RemindersClient.tsx:168 | Edit and delete show only for a signed-in user on their own reminder, which is visible to them |
| RemindersClient.RemindersView.StartEdit | app/reminders/RemindersClient.tsx:168-176 | Editing opens only for a signed-in user's own reminder |
| RemindersClient.RemindersView.StartDelete | app/reminders/RemindersClient.tsx:168-183 | Deleting opens only for a signed-in user's own reminder |
| RemindersClient.RemindersView.HandleUpdateReminder | app/reminders/RemindersClient.tsx:46-56 | An update error shows an error toast and keeps the edit modal open; otherwise the modal closes with a success toast |
| RemindersClient.RemindersView.HandleCreateReminder | app/reminders/RemindersClient.tsx:38-44 | The create modal closes with a success toast |
| RemindersClient.RemindersView.HandleDeleteReminder | app/reminders/RemindersClient.tsx:58-64 | The delete confirmation closes with a toast |
| RemindersClient.RemindersView.constructor | app/reminders/RemindersClient.tsx:32-36 | No modal open and no toast |
| PostActions.CanEdit | components/PostActions.tsx:29-31 | A post can be edited from its creation until one hour has passed, and not after |
| PostActions.EditWindowNeverReopens | components/PostActions.tsx:29-31 | Once the edit window has closed it stays closed |
| PostActions.MinutesRemaining | components/PostActions.tsx:29-33 | The floor of max(0, hour - since) in minutes; 0 once the window has passed and at most 60 when since >= 0 |
| PostActions.LastMinuteShowsZero | components/PostActions.tsx:31-33 | In the last minute of the window edit is still allowed with 0 minutes left |
| PostActions.MinutesNeverGrow | components/PostActions.tsx:30-33 | Minutes left never grow as time passes |
| PostActions.Render | components/PostActions.tsx:53-121 | Nothing renders for a user who is neither author nor admin; the open menu always offers delete, edit exactly to the author in the window, the expired notice to the author after it, the admin notice to a non-author admin |
| PostActions.AdminNeverEdits | components/PostActions.tsx:70-115 | An admin who is not the author never gets edit and sees the admin notice |
| PostActions.EditOrExpired | components/PostActions.tsx:70-103 | Edit and the expired notice are never shown together |
| PostActions.PostMenu.Toggle | components/PostActions.tsx:60 | The trigger flips the menu |
| PostActions.PostMenu.MouseDown | components/PostActions.tsx:36-50 | A mousedown outside an open menu closes it; anything else leaves it as it was |
| PostActions.PostMenu.Choose | components/PostActions.tsx:73-121 | Picking edit or delete closes the menu |
| PostActions.PostMenu.constructor | components/PostActions.tsx:23 | The menu starts closed |
| CommentsTab.Filtered | app/admin/content/CommentsTab.tsx:99-109 | An order-preserving subsequence holding exactly the comments that match the search (content, username or post title, case-insensitively) and the user filter |
| CommentsTab.EmptyFiltersShowAll | app/admin/content/CommentsTab.tsx:99-106 | With empty search and user filter every comment shows |
| CommentsTab.UserFilterHidesAnonymous | app/admin/content/CommentsTab.tsx:105-106 | A non-empty user filter hides comments without a username |
| CommentsTab.Header | app/admin/content/CommentsTab.tsx:148 | The header shows the number of comments passing both filters and the total, and the first never exceeds the second |
| CommentsTab.FormatRelativeTime | app/admin/content/CommentsTab.tsx:86-96 | Under 60 s 'Just now', then minutes 1..59, hours 1..23, days 1..6 ago, else the date |
| CommentsTab.FutureIsJustNow | app/admin/content/CommentsTab.tsx:89-91 | A timestamp in the future reads 'Just now' |
| CommentsTab.CommentsView.FetchComments | app/admin/content/CommentsTab.tsx:42-62 | A query error keeps the list; otherwise it becomes the data or empty; loading ends |
| CommentsTab.CommentsView.HandleDeleteComment | app/admin/content/CommentsTab.tsx:64-84 | No selection: nothing happens. Otherwise the selection clears whatever the outcome, with an error toast, or a success toast and a refetch |
| CommentsTab.CommentsView.constructor | app/admin/content/CommentsTab.tsx:29-36 | Starts empty and loading with nothing selected |
| ForumActions.InsertRecord | app/forum/actions.ts:16-29 | A record exists exactly when title, content and category are all non-empty, and it holds exactly those and the user id |
| ForumActions.PostTable.CreatePost | app/forum/actions.ts:7-38 | No user: redirect to login. A missing field: the fill-in error. An insert error: its message or the fallback. Each leaves the table unchanged; success appends exactly the record |
| BanUserModal.HelpText | components/BanUserModal.tsx:91-96 | The help text for each duration |
| BanUserModal.BanDialog.constructor | components/BanUserModal.tsx:15-16 | Defaults: reason '' and duration permanent |
| BanUserModal.BanDialog.SubmitDisabled | components/BanUserModal.tsx:104 | Disabled exactly when loading or the reason is only whitespace |
| BanUserModal.BanDialog.HandleSubmit | components/BanUserModal.tsx:20-25 | onConfirm is not called for a whitespace-only reason; otherwise it gets the trimmed reason, non-empty with no surrounding whitespace, and the selected duration |
| BanUserModal.BanDialog.SetReason | components/BanUserModal.tsx:62 | Sets the reason only |
| BanUserModal.BanDialog.SetDuration | components/BanUserModal.tsx:82 | Sets the duration only |
| Sidebar.IsActive | components/Sidebar.tsx:17-20 | '/' is active only on '/'; any other path whenever the pathname starts with it; a null pathname never |
| Sidebar.ActiveBelowItself | components/Sidebar.tsx:19 | A non-root item is active on its page and everything below it |
| Sidebar.NoSegmentBoundary | components/Sidebar.tsx:18-19 | '/forum' is active on '/forumx', and '/' is not active on '/forum' |
| Sidebar.NavItems | components/Sidebar.tsx:28-37 | The four base items in fixed order, then 'Admin' last exactly when not loading and admin |
| UserMenu.DisplayName | components/UserMenu.tsx:43 | A non-empty username, else the non-empty part of the email before the first '@', else 'User'; never empty |
| UserMenu.EmptyLocalPartFallsBack | components/UserMenu.tsx:43 | An email starting with '@' falls back to 'User' |
| UserMenu.LocalPartUsed | components/UserMenu.tsx:43 | For a plain address without a username, the local part is shown |
| UserMenu.Dropdown.Toggle | components/UserMenu.tsx:48 | The chevron toggles the menu |
| UserMenu.Dropdown.ClickBackdrop | components/UserMenu.tsx:64 | The backdrop closes the menu |
| UserMenu.Dropdown.constructor | components/UserMenu.tsx:16 | The menu starts closed |
| UserAvatar.AvatarName | components/UserAvatar.tsx:10 | Username if non-empty, else email if non-empty, else 'U'; never empty |
| UserAvatar.Initial | components/UserAvatar.tsx:10-11 | Exactly one character: the first character of that name, upper-cased |
| UserAvatar.AnonymousInitial | components/UserAvatar.tsx:10-11 | With neither username nor email, or both empty, the initial is 'U' |
| UserAvatar.SizeOrDefault | components/UserAvatar.tsx:9 | The size defaults to md |
| UserAvatar.SizeClass | components/UserAvatar.tsx:13-17 | Sm, Md and Lg map to their class strings; the lookup is total |
| Text.TrimEmptyIff | app/settings/actions.ts:28-51 | A string trims to empty exactly when it is all whitespace |
| Text.ParseIntOfBlank | app/settings/actions.ts:55-71 | parseInt of an empty or all-whitespace string is NaN |
| Text.ParseIntIgnoresLeadingSpace | app/settings/actions.ts:55-71 | Leading whitespace does not change what parseInt reads |
| Text.ParseIntOfNatToString | app/settings/actions.ts:55-71 | parseInt of a number's decimal rendering is that number |

## Left out

- Supabase I/O, auth and realtime: each query result is a parameter and each written table is a class field. The Supabase client is not modelled.
- `getUserAchievements` (utils/milestones.ts:82-103): a plain read, not modelled.
- The admin CRUD and audit-log actions (app/admin/content/actions.ts, app/admin/milestones/actions.ts, app/admin/users/actions.ts, app/reminders/actions.ts): thin table writes behind `requireAdmin`, whose module is not part of this model. `banUser(formData)` (app/admin/users/actions.ts:39) does not match its callers `banUser(id, reason, duration)`; the model does not cover that call.
- `formatRelativeTime` in app/admin/content/PostDetailModal.tsx:122-132 is the same as the CommentsTab helper. `CommentsTab.FormatRelativeTime` covers both.
- Rendering-only files and markup, including the ban dialog's `isOpen` guard and the sidebar's loading placeholder (each shows exactly when its flag is set, with no logic to prove), SearchBar, the middleware cookie adapters and matcher, and the logout handler in UserMenu (it clears browser storage and navigates).
- Dates: `Date` parsing, ISO strings and locale formatting. Times are integer milliseconds, and a formatted date is an opaque `dateText` parameter.
- JavaScript numbers are modelled as unbounded integers. The percentage is a `real`. Floating-point rounding is not modelled.
- Milestones.PercentOf: the floating-point division by a zero range (possible only when the first locked milestone has threshold 0 and no lower one exists) is modelled by its outcome: +Infinity clamps to 100, 0/0 gives NaN.
- Unicode: `trim`, `toLowerCase` and `toUpperCase` are ASCII models. A non-ASCII first character whose upper case is two characters is not covered by `UserAvatar.Initial`.
- Text.ParseInt: models leading whitespace, sign, `0x` hex and the longest digit prefix. Exponents, infinities and digit separators are not modelled.
- Polling (`setInterval`), the JSON encoding in localStorage, multi-tab races and overlapping like requests. The persisted dismissed set is a field.
- app/reminders/page.tsx evaluates the clock separately in its two filters. The model uses one `now`.
- The like toggle assumes at most one reaction per user and post, as the table invariant. With two, `.single()` errors and the source would insert a third; that case is outside the model.
- Middleware.CheckBan: the unban write's error is a parameter that is not inspected, as in the source. A `banned_until` that is an empty string (falsy) is not distinguishable from a missing one.
- The Timer component and `setUserPreferences` (app/focus/FocusPageClient.tsx:16) are not part of this model. The store defines no such action.
- The badge icon fallback at app/focus/actions.ts:107 is garbled text. The model uses the trophy emoji as an opaque default.
