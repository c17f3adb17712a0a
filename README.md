# careermatch core, modelled in Dafny

This project models the core of careermatch, an internship-matching
platform. Students rank up to five internships and keep a profile. Admins
manage courses and internships and run an allocation engine. The engine pairs
each student with the Active internships they ranked and scores each pair. It
then sorts the pairs by score and greedily assigns at most one internship per
student and one student per internship.

The model covers these parts:
- the Express handlers of `backend/routes/admin.js`, `student.js`, `auth.js`
  and `internships.js`, over the SQLite tables they read and write;
- the pure logic of the React pages and components that edit that data;
- the three client-side state containers: auth, theme and toasts;
- the route guard of the front end.

Layout, one module per source file:
- **Common** holds the JavaScript library behaviour the sources rely on:
  truthiness, ASCII case mapping, `includes`, `filter`, `split`/`join`, `trim`,
  `padStart`, decimal numerals and `Math.round` of a percentage.
- **Json** holds the fragment of JSON that is written and read back.
- **Database** holds the tables, as fields of one class `Db`.
- **The engine** is five modules: `EngineCandidates`, `EngineScoring`,
  `EngineSort` and `EngineGreedy`, one per stage, and `EnginePlan`, which
  composes them.
- **The handlers** are `AdminStats`, `AdminRoutes`, `StudentRoutes`,
  `AuthRoutes` and `InternshipRoutes`.
- **Every page, component and context** has a module of its own.

Where the source mutates state, the model is imperative:
- the engine's loops are methods with loop invariants, and its sort is an
  in-place insertion sort on an array;
- the handlers are methods that update `Db`'s fields;
- the contexts and the stateful pages are classes.

Each such method is proved against a specification function, and the
properties are lemmas about those functions. Totals and match scores are
exact integers scaled by 100. `Math.round` of a percentage is modelled on
rationals, which agrees with the source's doubles for the checklist's five
items but not for every ratio (see "## Left out").

## Model

| member | source | states |
|---|---|---|
| EngineCandidates.FindPref | backend/routes/admin.js:219-225 | the row `find` returns after the stable rank sort: it matches the pair and no matching row has a smaller rank; None exactly when no row matches |
| EngineCandidates.FindPrefEarliestLeast | backend/routes/admin.js:219-225 | among matching rows of least rank, the earliest one is found (the stable sort's tie-break) |
| EngineCandidates.FindPrefOwnRows | backend/routes/admin.js:220-225 | filtering the preferences to the student's own rows first does not change what is found |
| EngineCandidates.PotentialMatchesExactly | backend/routes/admin.js:212-228 | a candidate is exactly a student, an Active internship and the preference row found for the pair |
| EngineCandidates.PairHasCandidate | backend/routes/admin.js:212-228 | a pair yields a candidate iff the internship is Active and the student ranked it; students without preferences and Closed internships contribute nothing |
| EngineCandidates.UniquePrefIsFound | backend/routes/admin.js:224-225 | under the unique (user_id, internship_id) key, the candidate's row is the student's row for that internship |
| EngineCandidates.BuildCandidates | backend/routes/admin.js:217-228 | the nested loops push exactly the potential matches, in student-then-internship order |
| EngineScoring.ParseIntJs | backend/routes/admin.js:176 | parseInt without a radix: optional white space, sign and 0x prefix, then the longest run of digits; NaN without one |
| EngineScoring.ParseIntOfNumeral | backend/routes/admin.js:176 | a decimal numeral followed by a non-digit parses to its value, except "0" followed by x |
| EngineScoring.ParseIntNaN | backend/routes/admin.js:176 | text starting with neither a sign nor a digit is NaN |
| EngineScoring.SkillScore | backend/routes/admin.js:163-183 | the integer parsed from the trimmed reply, 0 for NaN, a missing text or a throw; never clamped |
| EngineScoring.SkillScoreOfNumeral | backend/routes/admin.js:175-178 | a padded numeral reply scores its value, however large (150 scores 150) |
| EngineScoring.SkillScoreOfNegativeNumeral | backend/routes/admin.js:175-178 | a negative numeral scores below zero |
| EngineScoring.SkillScoreDefaults | backend/routes/admin.js:175-182 | a reply without digits, a missing text and a throwing call all score 0 |
| EngineScoring.DefaultWeights | backend/routes/admin.js:189 | absent weights default to 50/30/10; a null weight counts as 0 |
| EngineScoring.PreferenceScoreSteps | backend/routes/admin.js:235 | rank 1 scores 100, each worse rank exactly 10 less, with no floor |
| EngineScoring.FairnessScoreCases | backend/routes/admin.js:236 | the bonus is the boost iff the district is exactly "Aspirational", else 0 |
| EngineScoring.TotalIsExact | backend/routes/admin.js:238-240 | 100·total = skill·skillWeight + pref·preferenceWeight + 100·fairness |
| EngineScoring.ProgressLinesCount | backend/routes/admin.js:242-243 | one progress line per ten candidates scored |
| EngineScoring.ScoreCandidates | backend/routes/admin.js:231-244 | the scoring loop sets each candidate's total from the k-th model reply and logs the progress lines |
| EngineSort.SortDescSorted | backend/routes/admin.js:247 | the sorted candidates are in non-increasing total |
| EngineSort.SortDescPermutation | backend/routes/admin.js:247 | the sort is a permutation |
| EngineSort.SortDescStable | backend/routes/admin.js:247 | candidates with equal totals keep their relative order |
| EngineSort.AnyStableSortIsSortDesc | backend/routes/admin.js:247 | any stable descending sort gives the same sequence |
| EngineSort.SortByTotal | backend/routes/admin.js:247 | the in-place insertion sort leaves the array equal to the specified stable sort of its old contents |
| EngineGreedy.AssignOneToOne | backend/routes/admin.js:250-268 | no student and no internship is taken twice |
| EngineGreedy.AssignSubsequence | backend/routes/admin.js:254-268 | the taken candidates are a subsequence of the sorted ones |
| EngineGreedy.AssignMaximal | backend/routes/admin.js:254-268 | every candidate shares its student or internship with a taken candidate no later than itself |
| EngineGreedy.AssignSorted | backend/routes/admin.js:254-268 | over sorted candidates, allocations come out by non-increasing total |
| EngineGreedy.AssignGreedy | backend/routes/admin.js:250-268 | the loop with its two used sets yields the specified greedy allocations |
| EnginePlan.PlanOneToOne | backend/routes/admin.js:212-268 | no student and no internship appears in two allocations of a run |
| EnginePlan.PlanRowsAreCandidates | backend/routes/admin.js:212-268 | every allocation is "Matched", its internship is Active and its student ranked it |
| EnginePlan.PlanOrdered | backend/routes/admin.js:247-268 | allocations come out by non-increasing score |
| EnginePlan.PlanMaximal | backend/routes/admin.js:250-268 | every candidate's student or internship is allocated |
| AdminRoutes.RunAuditRow | backend/routes/admin.js:203-280 | one audit row per run; it reads "Completed" with "Placed N students." iff the run completes, and "Running" after any failure |
| AdminRoutes.RunAllocations | backend/routes/admin.js:209-273 | the allocations table: untouched when the insert or delete throws, empty when a later call throws, the planned allocations otherwise |
| AdminRoutes.RunLog | backend/routes/admin.js:200-286 | the log opens with who started the run and ends with the summary, or with one "ERROR: " line |
| AdminRoutes.RunKeepsAllocationsValid | backend/routes/admin.js:209-273 | whatever happens, no student holds two allocations afterwards |
| AdminRoutes.RunAllocationEngine | backend/routes/admin.js:188-290 | the handler's effect on the tables and the log is that of the specified run |
| AdminRoutes.RunAfterClearing | backend/routes/admin.js:212-282 | from the read of the tables on, the handler's effect is the specified rest of the run, and it keeps the audit ids fresh and every student allocated at most once |
| AdminRoutes.SaveAndCompleteRun | backend/routes/admin.js:270-282 | inserting the chosen allocations and completing the audit row has the specified effect, keeping the audit ids fresh and every student allocated at most once |
| AdminRoutes.SaveAndCompleteLog | backend/routes/admin.js:270-286 | the end of a run keeps the earlier log lines and ends on the summary or on one "ERROR: " line |
| AdminRoutes.UpdateCourseStatus | backend/routes/admin.js:77-91 | 400 with no change unless the status is Active, Inactive or Blocked; else the course takes it |
| AdminRoutes.UpdateInternshipStatus | backend/routes/admin.js:146-158 | 400 with no change unless the status is Active or Closed; else the internship takes it |
| AdminRoutes.AdminCreateInternship | backend/routes/admin.js:109-135 | 400 with no insert without title, organization and description; else the row with `skills ?? []` and status Active is appended |
| AdminRoutes.AdminCreateThenList | backend/routes/admin.js:96-131 | listing a created internship gives back its skills, or [] when they were absent or null |
| AdminRoutes.CreateHandlersDisagreeOnEmptyText | backend/routes/admin.js:125 | for an empty-text skills value the admin handler stores `""` while the internships router stores `[]` |
| AdminStats.CountValueOrder | backend/routes/admin.js:14 | the count column is read first, then "count(*)", then the first column, skipping nullish ones |
| AdminStats.ParseCountMissing | backend/routes/admin.js:13 | a missing row counts 0 |
| AdminStats.ParseCountOfNumber | backend/routes/admin.js:15 | a numeric count is returned as it is |
| AdminStats.ParseCountOfNumeral | backend/routes/admin.js:15 | a count given as a decimal numeral text is its value |
| AdminStats.ParseCountOfWord | backend/routes/admin.js:15 | a text starting with a lower-case letter counts 0 |
| AdminStats.ParseCountNaN | backend/routes/admin.js:15 | null, booleans and the empty text pass the isNaN test yet parse to NaN |
| AdminStats.ParseCountOrZeroNaN | backend/routes/admin.js:12-16 | the corrected parseCount gives 0 on those inputs |
| AdminStats.ParseCountDigitlessNumeric | backend/routes/admin.js:15 | a numeric text without a leading digit (blank, "Infinity", ".5") also passes isNaN and parses to NaN |
| AdminStats.ParseCountOfBlank | backend/routes/admin.js:15 | a count text " " yields NaN |
| AdminStats.ParseCountOfInfinity | backend/routes/admin.js:15 | a count text "Infinity" yields NaN |
| AdminStats.ParseCountOfPointFive | backend/routes/admin.js:15 | a count text ".5" yields NaN |
| AdminStats.PlacementRateBounds | backend/routes/admin.js:28-30 | with at most as many placed as students, the rate is within 0..100 |
| AdminStats.FindPlacedFirst | backend/routes/admin.js:349 | `find` returns the first placed row of the district |
| AdminStats.DistrictRateZero | backend/routes/admin.js:351 | a district with no placed row or no students gets 0 |
| AdminStats.DistrictRateFound | backend/routes/admin.js:347-353 | otherwise the rate is the rounded percentage of the first placed row |
| StudentRoutes.ReplaceUniqueIff | backend/routes/student.js:152-164 | the insert keeps both unique keys iff no id is listed twice |
| StudentRoutes.SavePreferences | backend/routes/student.js:143-171 | 400 with no change for a non-array; else the user's rows are replaced by the list with ranks 1..n |
| StudentRoutes.SavedListIsRanked | backend/routes/student.js:152-164 | after a save the user's rows are the list in order with ranks 1..n; other users' rows are untouched |
| StudentRoutes.SavedPrefIsFound | backend/routes/student.js:158-162 | the engine reads rank i + 1 for the i-th saved internship |
| StudentRoutes.UpdateProfile | backend/routes/student.js:54-68 | 500 with no change for an empty update or an unknown column; else the profile takes the remaining fields |
| StudentRoutes.ProfileUpdateKeepsIdentity | backend/routes/student.js:55-62 | the update never writes id, user_id or email and never moves a profile |
| StudentRoutes.UpdateThenReadSkills | backend/routes/student.js:36-61 | skills saved through the update read back as sent |
| StudentRoutes.GetProfile | backend/routes/student.js:29-51 | 404 without a profile, 500 when skills do not parse, else the profile and quick stats |
| StudentRoutes.QuickStatsAfterSave | backend/routes/student.js:39-45 | the count is the length of the last saved list; "Allocated" iff an allocation row exists |
| StudentRoutes.RespondToOffer | backend/routes/student.js:199-211 | 400 with no change unless Accepted or Declined; else the student's allocation takes it |
| StudentRoutes.RespondKeepsAllocationStatus | backend/routes/student.js:199-211 | answering an offer never changes who counts as allocated |
| StudentRoutes.InProgressListing | backend/routes/student.js:351-353 | a course is listed in progress iff it is Active and the user has an in-progress enrolment in it |
| StudentRoutes.ExploreListing | backend/routes/student.js:355-356 | a course is offered to explore iff it is Active and the user has no enrolment in it |
| StudentRoutes.InProgressProgress | backend/routes/student.js:353 | a listed course carries the progress of the user's enrolment |
| StudentRoutes.CompletedInNeither | backend/routes/student.js:351-356 | a completed course appears in neither list |
| StudentRoutes.Enroll | backend/routes/student.js:365-378 | 201 and a new in-progress enrolment at 0; 400 with no change when the id is missing or already enrolled |
| StudentRoutes.EnrollThenListed | backend/routes/student.js:346-378 | after enrolling in an Active course it is in progress at 0 and no longer offered |
| StudentRoutes.IdsOfTypeExactly | backend/routes/student.js:306-307 | the ids of one type are exactly the ids saved under that type |
| StudentRoutes.SavedIdsPartition | backend/routes/student.js:306-307 | course and internship ids share out the saved rows |
| StudentRoutes.SaveItem | backend/routes/student.js:320-332 | 201 and the row appended when new; 200 with no change on any constraint failure |
| StudentRoutes.RemoveItem | backend/routes/student.js:335-343 | every row with that user, id and type is removed |
| StudentRoutes.SaveThenRemove | backend/routes/student.js:320-343 | removing an item right after saving it restores the table |
| StudentRoutes.SetApplication | backend/routes/student.js:459-480 | a truthy status is upserted, a falsy one deletes; a status outside the enum is refused with no change |
| StudentRoutes.ApplicationsAfterSet | backend/routes/student.js:447-470 | setting a status is a map update of the user's view |
| StudentRoutes.ApplicationsAfterClear | backend/routes/student.js:447-476 | clearing removes the entry from the user's view |
| AuthRoutes.UserByEmailFinds | backend/routes/auth.js:125 | with unique emails the lookup finds the one user with that email |
| AuthRoutes.AddUserKeepsKeys | backend/routes/auth.js:80-95 | appending a user with an unused email and Google id keeps both unique keys |
| AuthRoutes.Register | backend/routes/auth.js:62-111 | 400, then 409, with no write; else a student and their profile are added and the token carries the new claims |
| AuthRoutes.Login | backend/routes/auth.js:117-145 | 400 without email or password; 401 for an unknown email, a missing hash or a failed compare; else the user's claims |
| AuthRoutes.LoginAfterRegister | backend/routes/auth.js:62-141 | a just-registered password logs in with the same claims |
| AuthRoutes.LinkKeepsKeys | backend/routes/auth.js:29-31 | linking an unused Google id keeps both unique keys |
| AuthRoutes.LinkThenKnown | backend/routes/auth.js:20-31 | after a link, the same Google id finds the linked user |
| AuthRoutes.GoogleSignIn | backend/routes/auth.js:18-58 | a known Google id signs in unchanged; else an email match is linked; else a student is created; no email or name is an error |
| InternshipRoutes.NewInternshipDefaults | backend/routes/internships.js:52-61 | omitted optional fields take their defaults, which the column enums accept |
| InternshipRoutes.Create | backend/routes/internships.js:33-72 | 400 with no insert without the required fields; 500 for an enum violation; else the row is appended |
| InternshipRoutes.StatusAcceptedFitsColumn | backend/routes/internships.js:80 | an accepted status is one the status column allows |
| InternshipRoutes.UpdateStatus | backend/routes/internships.js:77-94 | 400 with no change unless Active or Closed; else the internship takes it |
| InternshipRoutes.SkillsViewFallback | backend/routes/internships.js:14-20 | a falsy column, or a text not in the layout `JSON.stringify` writes, lists as [] |
| InternshipRoutes.CreateThenList | backend/routes/internships.js:8-61 | listing a created internship gives back its skills, or [] when they were falsy |
| Json.QuoteRoundTrip | pages/student/StudentInternshipsPage.tsx:239 | a JSON string literal reads back as the same text |
| Json.StringifyStringsRoundTrip | backend/routes/student.js:36-60 | a JSON array of strings reads back as the same list |
| Json.SearchRoundTrip | pages/student/StudentInternshipsPage.tsx:239-250 | a saved search's parameters read back as the same term and filters |
| Common.RoundPercent | components/ProfileCompletion.tsx:21 | `Math.round(p / t * 100)` on exact rationals: the integer nearest to 100p/t, with halves rounded up |
| Common.SplitJoin | pages/admin/AdminManageInternshipsPage.tsx:29 | joining the pieces of a split gives back the text |
| Common.SplitCount | pages/admin/AdminManageInternshipsPage.tsx:29 | a split has one piece more than there are separators |
| Common.TrimPadded | pages/admin/AdminManageInternshipsPage.tsx:29 | trim removes exactly the surrounding white space |
| Common.FilterIsSubsequence | pages/student/StudentPreferencesPage.tsx:61 | a filter keeps elements in their order |
| Common.NatToStringRoundTrip | pages/admin/AdminAuditLogsPage.tsx:66 | the decimal digits of a number read back as that number |
| PreferencesPage.AddPreference | pages/student/StudentPreferencesPage.tsx:54-58 | the list grows by the internship at the end iff fewer than five are ranked and it is not; otherwise it is unchanged |
| PreferencesPage.AddKeepsValid | pages/student/StudentPreferencesPage.tsx:54-58 | adding keeps at most five entries and no id twice |
| PreferencesPage.RemovePreference | pages/student/StudentPreferencesPage.tsx:60-62 | the internship is gone, every other entry stays, in order |
| PreferencesPage.RemoveAbsent | pages/student/StudentPreferencesPage.tsx:60-62 | removing an unranked internship changes nothing |
| PreferencesPage.RemoveKeepsValid | pages/student/StudentPreferencesPage.tsx:60-62 | removing keeps the editor's invariant |
| PreferencesPage.MovePreference | pages/student/StudentPreferencesPage.tsx:64-73 | no change at the edges; otherwise the two splices swap the entry with its neighbour |
| PreferencesPage.SwapKeepsValid | pages/student/StudentPreferencesPage.tsx:64-73 | a move keeps the same entries and the editor's invariant |
| PreferencesPage.AvailableIff | pages/student/StudentPreferencesPage.tsx:46-52 | offered iff not ranked and matching the search and the location filter |
| PreferencesPage.SaveOrderIsRank | pages/student/StudentPreferencesPage.tsx:54-73 | the internship shown at position i + 1 is stored and found with rank i + 1 |
| ProfileCompletion.Checklist | components/ProfileCompletion.tsx:12-18 | five items; each completion condition, with "Set Preferences" never complete |
| ProfileCompletion.CompletedAtMostFour | components/ProfileCompletion.tsx:17-20 | at most four items count as complete |
| ProfileCompletion.Percentage | components/ProfileCompletion.tsx:21 | twenty times the completed count: a multiple of 20 between 0 and 80 |
| ProfileCompletion.NextSteps | components/ProfileCompletion.tsx:23 | one or two incomplete checklist items, each from the checklist |
| ProfileCompletion.NextStepsAreFirstTwoIncomplete | components/ProfileCompletion.tsx:12-23 | with incomplete items k1 < k2 and all items before k2 other than k1 complete, the next steps are exactly items k1 and k2 in that order |
| ProfileCompletion.OneNextStepIff | components/ProfileCompletion.tsx:12-23 | only one next step is shown iff the first four items are complete, and it is then "Set Preferences" |
| ProfileCompletion.NextStepIsFirstIncomplete | components/ProfileCompletion.tsx:23 | the first next step is the earliest incomplete item |
| InternshipsPage.ToggleSave | pages/student/StudentInternshipsPage.tsx:197-204 | the id is in the new set iff it was not shown as saved; other ids keep their membership |
| InternshipsPage.ToggleTwice | pages/student/StudentInternshipsPage.tsx:197-204 | two toggles of the same card give back the saved set |
| InternshipsPage.ChangeStatus | pages/student/StudentInternshipsPage.tsx:219-226 | a truthy status is set for the id, a null one removed; other entries are kept |
| InternshipsPage.StatusChangeMatchesServer | pages/student/StudentInternshipsPage.tsx:219-226 | the optimistic map equals the user's applications after the server handles the same change |
| InternshipsPage.StatusButtonText | pages/student/StudentInternshipsPage.tsx:83-88 | the text starts with "Status: " iff a status is set, followed by that status; else "Update Status" |
| InternshipsPage.FilteredInternships | pages/student/StudentInternshipsPage.tsx:255-262 | listed iff matching the search and all three filters, in the fetched order |
| InternshipsPage.NoFilterKeepsAll | pages/student/StudentInternshipsPage.tsx:255-262 | an empty search with every filter on "All" lists everything |
| InternshipsPage.ApplySavedSearch | pages/student/StudentInternshipsPage.tsx:249-253 | unparsable parameters leave the term and filters unchanged |
| InternshipsPage.SaveThenApply | pages/student/StudentInternshipsPage.tsx:236-253 | applying a saved search restores the term and filters it was saved with |
| CoursesPage.ToggleSave | pages/student/StudentCoursesPage.tsx:109-116 | the same toggle as the internships page: the course is saved iff it was not |
| CoursesPage.FilteredExplore | pages/student/StudentCoursesPage.tsx:145-148 | shown iff the title or provider contains the term, in order |
| CoursesPage.EmptySearchKeepsAll | pages/student/StudentCoursesPage.tsx:145-148 | an empty search shows every course |
| ProfilePage.AddSkill | pages/student/StudentProfilePage.tsx:21-26 | a non-empty new skill is appended and the box cleared; otherwise nothing changes |
| ProfilePage.AddSkillKeepsNoDup | pages/student/StudentProfilePage.tsx:21-26 | adding never lets a skill in twice |
| ProfilePage.RemoveSkill | pages/student/StudentProfilePage.tsx:28-30 | the skill is gone and every other skill stays with its multiplicity, in order |
| ProfilePage.AddThenRemove | pages/student/StudentProfilePage.tsx:21-30 | removing a skill just added restores the list |
| ProfilePage.Dedupe | pages/student/StudentProfilePage.tsx:123 | `[...new Set(s)]`: no repeats and the same elements |
| ProfilePage.DedupePrefix | pages/student/StudentProfilePage.tsx:123 | what the set received first stays first |
| ProfilePage.MergeKeepsCurrentFirst | pages/student/StudentProfilePage.tsx:122-123 | the merged skills are the current ones in order, then the new extracted ones, each once |
| ProfilePage.SaveButtonVariant | pages/student/StudentProfilePage.tsx:201-205 | success iff saved, danger iff error, primary otherwise |
| ProfilePage.ProfileState.SaveProfile | pages/student/StudentProfilePage.tsx:177-190 | without a profile nothing changes; else the status ends in success or error |
| ProfilePage.ProfileState.SaveTimerFires | pages/student/StudentProfilePage.tsx:184 | the timer puts the status back to idle |
| ProfilePage.ProfileState.InputChange | pages/student/StudentProfilePage.tsx:207-213 | an error clears to idle; only the named field takes the value |
| ProfilePage.ProfileState.SaveSkills | pages/student/StudentProfilePage.tsx:215-221 | the skills are replaced and saved |
| ProfilePage.ProfileState.ResumeAnalyzed | pages/student/StudentProfilePage.tsx:112-138 | a failed extraction ends in error with the profile unchanged; else the merged skills are shown and saved |
| ProfilePage.AvatarInitial | pages/student/StudentProfilePage.tsx:73-74 | one character: the upper-cased first letter of a non-empty name, else "?" |
| ProfilePage.AvatarInitialNotLower | pages/student/StudentProfilePage.tsx:74 | the initial is never a lower-case letter |
| AdminCoursesPage.NextStatus | pages/admin/AdminManageCoursesPage.tsx:102-105 | Active to Inactive to Blocked to Active, always a status the server accepts |
| AdminCoursesPage.CycleOfThree | pages/admin/AdminManageCoursesPage.tsx:102-105 | three clicks bring each status back |
| AdminCoursesPage.FilteredCourses | pages/admin/AdminManageCoursesPage.tsx:115-118 | kept iff a present title or provider contains the term, in order |
| AdminCoursesPage.EmptySearch | pages/admin/AdminManageCoursesPage.tsx:115-118 | an empty search keeps exactly the courses with a title or a provider |
| AdminCoursesPage.StatusBadge | pages/admin/AdminManageCoursesPage.tsx:9-17 | green for Active, red for Blocked, gray for anything else |
| AdminInternshipsPage.ToggleStatus | pages/admin/AdminManageInternshipsPage.tsx:86-87 | Active becomes Closed and anything else Active, always a status the server accepts |
| AdminInternshipsPage.ToggleInvolution | pages/admin/AdminManageInternshipsPage.tsx:86-87 | on Active and Closed, toggling twice is the identity |
| AdminInternshipsPage.SkillsArray | pages/admin/AdminManageInternshipsPage.tsx:29 | one piece per comma plus one, none containing a comma |
| AdminInternshipsPage.EmptySkills | pages/admin/AdminManageInternshipsPage.tsx:29 | an empty box gives one empty skill |
| AdminInternshipsPage.SkillsArrayPieces | pages/admin/AdminManageInternshipsPage.tsx:29 | each piece is the trimmed text between two commas |
| AdminInternshipsPage.FilteredInternships | pages/admin/AdminManageInternshipsPage.tsx:96-99 | kept iff the title or organization contains the term, in order |
| AdminInternshipsPage.StatusBadge | pages/admin/AdminManageInternshipsPage.tsx:9-16 | green exactly for Active, gray for any other status the column allows |
| UploadPage.Extension | pages/admin/AdminDataUploadPage.tsx:41 | the lower-cased text after the last dot, or the whole name without a dot |
| UploadPage.CheckFile | pages/admin/AdminDataUploadPage.tsx:38-52 | refused as a bad type iff neither the MIME type nor the extension is accepted; else too large iff over 10 MiB; else sent |
| UploadPage.SizeBoundary | pages/admin/AdminDataUploadPage.tsx:49 | exactly 10 MiB is sent, one byte more is not |
| UploadPage.ExtensionAfterLastDot | pages/admin/AdminDataUploadPage.tsx:41 | the extension of base.ext is ext lower-cased |
| UploadPage.ExtensionAlone | pages/admin/AdminDataUploadPage.tsx:41-44 | "DATA.CSV" with an empty MIME type is sent |
| NotificationDropdown.Decremented | components/NotificationDropdown.tsx:42 | one less, never below zero |
| NotificationDropdown.MarkOneUnread | components/NotificationDropdown.tsx:39-42 | with unique ids, marking an unread one lowers the unread count by exactly one |
| NotificationDropdown.MarkNoneMatching | components/NotificationDropdown.tsx:41 | marking an unknown id changes nothing |
| NotificationDropdown.Dropdown.Fetched | components/NotificationDropdown.tsx:22-25 | the fetched summary replaces both fields |
| NotificationDropdown.Dropdown.MarkAsRead | components/NotificationDropdown.tsx:39-42 | only that notification becomes read, and the counter drops by one, never below zero |
| Toasts.ToastQueue.AddToast | contexts/ToastContext.tsx:22-24 | the toast is appended with the clock reading as its id |
| Toasts.ToastQueue.RemoveToast | contexts/ToastContext.tsx:30-32 | every toast with that id goes; the rest keep their order |
| Toasts.RemoveAbsent | contexts/ToastContext.tsx:30-32 | removing an unknown id changes nothing |
| Toasts.AddThenDismiss | contexts/ToastContext.tsx:22-32 | a toast's own timer removes it and nothing older, unless an older toast has the same millisecond |
| Toasts.SameMillisecond | contexts/ToastContext.tsx:23-32 | two toasts of the same millisecond are dismissed together |
| AuditLogsPage.RunDigits | pages/admin/AdminAuditLogsPage.tsx:66 | at least three digits, zero-padded on the left |
| AuditLogsPage.ThreeDigits | pages/admin/AdminAuditLogsPage.tsx:66 | ids of three digits or more are not padded |
| AuditLogsPage.LogFileName | pages/admin/AdminAuditLogsPage.tsx:44 | the label followed by "-log.txt" |
| AuditLogsPage.LabelRoundTrip | pages/admin/AdminAuditLogsPage.tsx:66 | the label reads back as the id |
| AuditLogsPage.RunBadge | pages/admin/AdminAuditLogsPage.tsx:70 | green for Completed, red for Failed, yellow otherwise |
| AuditLogsPage.RunBadgeNeverRed | pages/admin/AdminAuditLogsPage.tsx:70 | the row a run leaves is green when it completed and yellow otherwise |
| StudentsPage.FilteredStudents | pages/admin/AdminManageStudentsPage.tsx:80-83 | kept iff the name or email contains the term, in order |
| StudentsPage.EmptyTermKeepsAll | pages/admin/AdminManageStudentsPage.tsx:80-83 | an empty term keeps every student |
| StudentsPage.FilterAgain | pages/admin/AdminManageStudentsPage.tsx:80-83 | searching the result again changes nothing |
| ResultsPage.FilteredResults | pages/admin/AdminResultsDashboardPage.tsx:52-56 | kept iff the student name, title or organization contains the term; the email is not searched |
| ResultsPage.EmptyTermKeepsAll | pages/admin/AdminResultsDashboardPage.tsx:52-56 | an empty term keeps every row |
| ResultsPage.StatusBadge | pages/admin/AdminResultsDashboardPage.tsx:105-107 | green for Accepted, red for Declined, yellow otherwise |
| AllocationEnginePage.ChunkLines | pages/admin/AdminAllocationEnginePage.tsx:45 | the lines of a chunk are non-empty, contain no line break and are pieces of its split |
| AllocationEnginePage.ChunkLinesKeepText | pages/admin/AdminAllocationEnginePage.tsx:45 | laid end to end, a chunk's lines are the chunk without its line breaks |
| AllocationEnginePage.LineSplitAcrossChunks | pages/admin/AdminAllocationEnginePage.tsx:41-45 | a line arriving in two chunks is logged as two entries |
| AllocationEnginePage.AllLines | pages/admin/AdminAllocationEnginePage.tsx:41-46 | no logged line is empty or contains a line break |
| AllocationEnginePage.AllLinesPrefix | pages/admin/AdminAllocationEnginePage.tsx:45 | later chunks only append: the earlier log stays a prefix |
| AllocationEnginePage.LogMonitor.StartAllocation | pages/admin/AdminAllocationEnginePage.tsx:20-54 | the logs are cleared, then hold the chunks' lines and one "ERROR: " line iff the run failed; not running at the end |
| AllocationEnginePage.FinalLogsShape | pages/admin/AdminAllocationEnginePage.tsx:48-53 | exactly the failed runs end with one extra line, which starts with "ERROR: " |
| ThemeContext.InitialTheme | contexts/ThemeContext.tsx:13-19 | a stored light, dark or system is adopted; anything else gives system |
| ThemeContext.StoredThemeRoundTrip | contexts/ThemeContext.tsx:13-46 | what setTheme stores is read back as the same theme |
| ThemeContext.IsDark | contexts/ThemeContext.tsx:23-25 | dark for dark, light for light, the OS preference under system |
| ThemeContext.OsMattersOnlyUnderSystem | contexts/ThemeContext.tsx:23-25 | the OS preference changes the outcome only under system |
| ThemeContext.DarkAfterOsChange | contexts/ThemeContext.tsx:32-36 | the class follows the OS only while storage says "system" |
| ThemeContext.OsChangeMissesDefault | contexts/ThemeContext.tsx:13-36 | with nothing stored the theme is system, yet the class ignores the OS turning dark |
| ThemeContext.FixedListenerKeepsClass | contexts/ThemeContext.tsx:32-36 | testing the theme in use keeps the class equal to isDark |
| ThemeContext.ListenerAgreesWhenStored | contexts/ThemeContext.tsx:32-46 | as written, the class stays right while storage names the theme in use |
| ThemeContext.ThemeState.SetTheme | contexts/ThemeContext.tsx:21-46 | the theme is stored and adopted; the class is recomputed only when the theme changes, so it agrees with isDark then or if it did before, and is kept as it was otherwise |
| ThemeContext.SystemAfterMissedChange | contexts/ThemeContext.tsx:13-46 | choosing system after the missed OS change leaves the class off while the OS is dark |
| ThemeContext.ThemeState.OsChange | contexts/ThemeContext.tsx:30-36 | the listener as written; it keeps the class correct when storage names the theme |
| AuthContext.InitOutcomeOf | contexts/AuthContext.tsx:33-51 | no decision without a stored token; the token is kept iff it decodes and exp·1000 > now, with the payload's user |
| AuthContext.ExpiryIsFinal | contexts/AuthContext.tsx:36 | a token kept now was kept earlier; one cleared now stays cleared |
| AuthContext.AuthState.InitAuth | contexts/AuthContext.tsx:32-53 | keeps, clears or leaves the session as decided, sets the header when kept, and always ends loading |
| AuthContext.AuthState.HandleAuthSuccess | contexts/AuthContext.tsx:59-70 | stores the token; the user is exactly {id, name, email, role} of the payload; an undecodable token throws after storing |
| AuthContext.AuthState.Logout | contexts/AuthContext.tsx:82-87 | user, token, stored token and header are cleared, so not authenticated |
| AuthContext.SignInSurvivesReload | contexts/AuthContext.tsx:33-67 | an unexpired token from sign-in restores the same user on reload |
| AppRoutes.ProtectedRoute | App.tsx:33-44 | the loading screen iff loading; else the children iff authenticated, a user present and the role allowed; else the login redirect |
| AppRoutes.Access | App.tsx:34-43 | read from the auth context, a tree renders iff loading is over and the user has an allowed role |
| AppRoutes.RoleTreesDisjoint | App.tsx:58-74 | no user reaches both the student and the admin tree |
| AppRoutes.EachRoleReachesItsTree | App.tsx:58-74 | a student reaches exactly the student tree and an admin exactly the admin tree |
| AppRoutes.SignedOutRedirects | App.tsx:40-41 | with no user, either tree redirects to the login page |
| AppRoutes.IndexStaysInTree | App.tsx:58-86 | each index route redirects to a child of its own tree |

## Left out

- Database access is modelled as whole tables: knex, SQLite, query plans and storage. Reads return rows in insertion order. The migrations declare foreign keys with ON DELETE CASCADE (for example backend/migrations/20240102000000_add_features.js:9-18). SQLite enforces them only after `PRAGMA foreign_keys = ON`, and the pool's `afterCreate` (backend/knexfile.js:9-10) sets only the journal mode. So the model enforces no reference and cascades no delete.
- Errors other than those named in the contracts are not modelled. A database call fails only where a `Fault` parameter or a constraint says so.
- Concurrency is not modelled: two engine runs at once, or requests racing the optimistic page updates.
- The Gemini calls are not modelled. The skill score takes the model's reply as an input, and the resume analysis, AI advisor and career quiz are left out.
- Uploads are not modelled: multer, avatars, resumes and the fake processing of upload-data.
- These are I/O or simple reads: the results CSV export, the upload history, the GET joins, notifications and their settings, saved searches on the server side, support tickets and the admin student endpoints.
- AdminStats.PlacementRate, AdminStats.DistrictRateOf: the source rounds the double `placed / total * 100` (backend/routes/admin.js:29, :351), and the model rounds the exact rational. At an exact half the double can fall just below it: for 29 placed of 200, the double is 14.499999999999998 and the source reports 14 where the model gives 15. The checklist percentage (five items) is not affected.
- `match_score.toFixed(2)` and floating point are not modelled. Totals are exact integers scaled by 100.
- Log timestamps are not modelled. The streamed log is the sequence of its messages.
- Ids, which are numbers or strings in the source, are integers. Body fields are typed values.
- Json.ParseJson reads only the canonical layout JSON.stringify writes; other white space or key orders are not parsed.
- Case mapping covers ASCII letters only. Multi-character upper-case results of toUpperCase are not modelled.
- Timers are explicit calls. The toast auto-dismiss is a `RemoveToast` call and the 3-second save-status reset is `SaveTimerFires`. Polling, debounce and `Date.now` are parameters or left out.
- The network requests of the pages are left out; each optimistic update is modelled together with the handler it calls.
- ProfilePage.ProfileState.InputChange writes only the map of text fields; the skills are held beside it rather than under a field name.
- AuthContext: decoding a token (base64 and JSON) is a parameter. The login and signup calls are `HandleAuthSuccess` after the request.
- AdminCoursesPage.StatusBadge, AdminInternshipsPage.StatusBadge: `styles[status]` also finds properties inherited from Object.prototype, such as "constructor"; the model treats them as absent.
- AuditLogsPage.RunDigits: negative ids, which the counter never produces, are not modelled.
- The saved-search parameters are written and read in the layout the page writes. A saved search edited by hand is applied only when it parses in that layout.
- The landing, login, signup and callback pages, layouts, sidebars and the pages not named above are not part of this model. They are JSX, fetch wrappers or unfiltered queries.

## Findings

| source | as written | input that shows it | evidently intended | confidence | as-written member | corrected member |
|---|---|---|---|---|---|---|
| backend/routes/admin.js:15 | `isNaN(val) ? 0 : parseInt(val)` returns NaN for values that Number converts but parseInt does not | a count of null, true, false, "", a blank text, "Infinity" or ".5" | 0 for every value that is not a count | medium, not executed | AdminStats.ParseCountNaN | AdminStats.ParseCountOrZeroNaN |
| contexts/ThemeContext.tsx:33 | the OS-change listener tests `localStorage.getItem('theme') === 'system'` | nothing stored: the theme is system, and the OS turning dark leaves the class off | follow the OS whenever the theme in use is system | medium, not executed | ThemeContext.OsChangeMissesDefault | ThemeContext.FixedListenerKeepsClass |
