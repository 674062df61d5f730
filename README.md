# Credit-transfer portal: client-side rules in Dafny

This project models the business rules of a React front end for credit
transfer. Students apply to have past subjects credited, coordinators check
them against Template3 mappings, subject method experts (SMEs) review topic
similarity, and administrators and heads of section manage staff. The server
decides everything that is stored. What the browser decides is modelled here:

- which requests are made and what they carry;
- how statuses are aggregated and translated;
- how the editable tables change;
- which forms are refused and with which message;
- where each role is routed.

Each source file of the core is one module, named after the page or hook:

- `ReviewSubject`: the SME similarity review page.
- `CtHistory`: the student's application history.
- `SmeAssignments`: the SME's assignment list.
- `ReviewApplication` and `ReviewRequests`: the coordinator's review page and its request hook.
- `ApplyCt`: the student's application form.
- `ManageCourses` and `StructureCourses`: the coordinator's course tables, sharing their row objects through `CourseRows`.
- `BookAppointment`: the student's booking page.
- `ViewAppointmentRequests` and `ViewAppointment`: the coordinator's appointment hook and page.
- `Register`, `ManageStaff`, `CreateLecturer`, `ResetPassword`: the forms.
- `Login`, `MockLogin`, `PrivateRoute`, `AppRoutes`, `UserProfile`: routing and the session badge.

Shared modules:

- `Common` models the parts of JavaScript the pages rely on: `toLowerCase`,
  `trim`, `parseInt`, `parseFloat`, `Math.round`, `filter`, `find`, and
  `x || fallback`.
- `Api` models the outcome of a network call: an ok answer with its body, a
  non-ok answer, or an exception.
- `Status` is the approval-status datatype, with an `Other` case for unknown
  strings.
- `Sorting` is an in-place insertion sort on an array, by an integer key, proved to be the stable sort.
- `Session` is the browser's storage.

Pages and hooks whose handlers change state step by step are classes. Their
fields are the React state, and each handler is a method whose `modifies`
clause names what it changes. Pure mappings over lists are functions.

Every network call, every confirmation dialog and the current time enter as
method parameters:

- a network call is an `Http` or `Reply` value;
- a confirmation dialog is a boolean;
- the current time is an integer;
- a generated id is an integer.

## Model

| member | source | states |
|---|---|---|
| Common.Lower | src/module/coordinator/pages/Appointment/ViewAppointment.js:62-64 | lowercasing keeps the length and lowercases each ASCII letter in place |
| Common.LowerIdempotent | src/module/coordinator/pages/Appointment/ViewAppointment.js:44 | lowercasing an already lowercased status changes nothing |
| Common.TrimStart | src/module/coordinator/pages/Appointment/ViewAppointment.js:45 | trimming the front drops exactly a run of leading white space and stops at the first other character |
| Common.TrimEnd | src/module/coordinator/pages/Appointment/ViewAppointment.js:45 | trimming the back drops exactly a run of trailing white space and stops at the last other character |
| Common.BlankIffAllSpace | src/module/coordinator/hooks/useReviewApplication.js:327-344 | a text trims to empty exactly when every character is white space |
| Common.TrimIdempotent | src/module/coordinator/pages/Manage/ManageCourses.js:87-92 | trimming a trimmed text changes nothing |
| Common.BeforeFirst | src/components/UserProfile.js:19 | the first piece of a split is a prefix without the separator, ended by the separator or by the end of the text |
| Common.Utf16Length | src/auth/hooks/useRegister.js:47 | `length` counts UTF-16 code units: at least one and at most two per character, exactly one per character when all lie in the Basic Multilingual Plane |
| Common.ParseInt | src/auth/hooks/useRegister.js:74-75 | parseInt yields NaN exactly when no digit follows the leading white space and sign |
| Common.ParseIntOfNatToString | src/auth/hooks/useRegister.js:74-75 | parseInt of a number written in decimal gives that number back |
| Common.ParseIntOfIntToString | src/module/coordinator/pages/CTApplication/ReviewApplication.js:32 | parseInt of a signed number written in decimal gives that number back |
| Common.IntOrNull | src/module/coordinator/pages/Manage/ManageCourses.js:69-70 | an empty field is sent as null, and a decimal number as that number |
| Common.ParseIntField | src/module/admin/pages/ManageStaff.js:109-115 | parseInt without an emptiness check never yields null |
| Common.ParseFloatOfNatToString | src/module/expert/pages/ReviewSubject.js:46 | parseFloat of a whole number written in decimal gives that number back |
| Common.Round | src/module/student/pages/CTHistory/history.js:96 | Math.round lands within one half of its argument |
| ReviewSubject.RowSimilarity | src/module/expert/pages/ReviewSubject.js:45-47 | a row contributes a value only when its percentage parses to a number, and that value is above 0 |
| ReviewSubject.Similarities | src/module/expert/pages/ReviewSubject.js:45-47 | the counted values are at most one per row and all positive |
| ReviewSubject.CalculateAverage | src/module/expert/pages/ReviewSubject.js:39-52 | an empty table, or a table with no positive percentage, averages 0 |
| ReviewSubject.MeanBetween | src/module/expert/pages/ReviewSubject.js:54-55 | the unrounded mean lies between the smallest and the largest counted percentage |
| ReviewSubject.MeanOfSimilaritiesPositive | src/module/expert/pages/ReviewSubject.js:45-55 | when some row counts, the unrounded mean is positive |
| ReviewSubject.AverageZeroIff | src/module/expert/pages/ReviewSubject.js:39-58 | the average is 0 exactly when no row counts or the counted mean is below 0.05, so it rounds down to 0 |
| ReviewSubject.AverageBounds | src/module/expert/pages/ReviewSubject.js:45-58 | the rounded average is within 0.05 of the range of the counted percentages and is never negative |
| ReviewSubject.AverageInRange | src/module/expert/pages/ReviewSubject.js:39-58 | when every row holds a percentage in [0, 100], the average is in [0, 100] |
| ReviewSubject.AverageSamePercentages | src/module/expert/pages/ReviewSubject.js:45-47 | the average depends only on the rows' percentage column |
| ReviewSubject.CellCount | src/module/expert/pages/ReviewSubject.js:197 | a new row gets one cell per past subject, and one cell when the count is missing or 0 |
| ReviewSubject.AddTopicRow | src/module/expert/pages/ReviewSubject.js:196-205 | exactly one row is appended and the existing rows are unchanged; the new row has the given id, empty texts and one empty past topic per cell |
| ReviewSubject.AddTopicRowKeepsAverage | src/module/expert/pages/ReviewSubject.js:196-205 | appending a blank row leaves the average unchanged |
| ReviewSubject.RemoveTopicRow | src/module/expert/pages/ReviewSubject.js:210-212 | a row survives exactly when it was present and has another id |
| ReviewSubject.RemoveTopicRowConcat | src/module/expert/pages/ReviewSubject.js:210-212 | removal distributes over concatenation, so the surviving rows keep their order |
| ReviewSubject.UpdateTopic | src/module/expert/pages/ReviewSubject.js:216-228 | the length and every row with another id are unchanged; rows with the id get the named field set and keep the other field and their cells |
| ReviewSubject.UpdateTopicTextKeepsAverage | src/module/expert/pages/ReviewSubject.js:216-222 | editing a new-subject topic leaves the average unchanged, which is why it is not recomputed |
| ReviewSubject.SetCell | src/module/expert/pages/ReviewSubject.js:233-234 | the indexed cell holds the new topic; every other cell is the spread copy's, so a hole becomes undefined; an index past the end leaves holes in between |
| ReviewSubject.Fill | src/module/expert/pages/ReviewSubject.js:233 | a copied cell is never a hole: a hole becomes undefined, anything else is kept |
| ReviewSubject.SetCellWithoutHoles | src/module/expert/pages/ReviewSubject.js:233-234 | in a row without holes, an edit inside the row changes only the indexed cell |
| ReviewSubject.SecondEditFillsHole | src/module/expert/pages/ReviewSubject.js:233-234 | two edits past the end of a one-cell row leave undefined in the skipped cell |
| ReviewSubject.UpdatePastSubjectTopic | src/module/expert/pages/ReviewSubject.js:230-240 | only rows with the id change, each to the copied-and-set cells; every other row is kept |
| ReviewSubject.UpdatePastSubjectTopicKeepsAverage | src/module/expert/pages/ReviewSubject.js:230-240 | editing a past topic leaves the average unchanged |
| ReviewSubject.CheckSubmit | src/module/expert/pages/ReviewSubject.js:245-265 | the guards fire in order: no rows, then any missing, non-numeric or out-of-range percentage, then a zero average; ready only when all pass |
| ReviewSubject.ReadyMeansCountedRows | src/module/expert/pages/ReviewSubject.js:245-265 | a table that passes the guards has at least one counted row and an average in (0, 100] |
| ReviewSubject.ZeroRowValidButUncounted | src/module/expert/pages/ReviewSubject.js:250-255 | a percentage of exactly "0" passes validation but contributes nothing to the average |
| ReviewSubject.ReviewPayload | src/module/expert/pages/ReviewSubject.js:269-277 | building the body throws exactly when some past-topic cell is undefined or null (`ps.topic`); otherwise it carries the average and notes, and one entry per row in order with its cells and its parsed percentage in [0, 100] |
| ReviewSubject.HasNullishCell | src/module/expert/pages/ReviewSubject.js:274 | some row holds an undefined or null past-topic cell |
| ReviewSubject.IsApproval | src/module/expert/pages/ReviewSubject.js:289 | the review counts as an approval when the average is at least 80 |
| ReviewSubject.StorageKeyInjective | src/module/expert/pages/ReviewSubject.js:73 | two subjects never share a draft key |
| ReviewSubject.DraftToRestore | src/module/expert/pages/ReviewSubject.js:89-104 | a draft is restored exactly when there is a subject id, a draft under its key, a non-empty topics list, and the content scan over its rows answers true |
| ReviewSubject.BlankRowHasNoContent | src/module/expert/pages/ReviewSubject.js:97-101 | a freshly added blank row has no content, and its content test answers false without throwing |
| ReviewSubject.AnyOfTrue | src/module/expert/pages/ReviewSubject.js:97-101 | a true answer of the scan comes from some element whose test answered true |
| ReviewSubject.AnyOfTotal | src/module/expert/pages/ReviewSubject.js:97-101 | when no test throws, the scan answers whether some element passes |
| ReviewSubject.RowTestWithoutNullish | src/module/expert/pages/ReviewSubject.js:97-101 | for a row without null or undefined cells the content test answers whether the row has a non-blank new topic, past topic or percentage |
| ReviewSubject.NullFirstCellThrows | src/module/expert/pages/ReviewSubject.js:97-101 | a null first cell behind a blank new topic makes the content test throw |
| ReviewSubject.RestoredDraftHasContent | src/module/expert/pages/ReviewSubject.js:95-103 | a restored draft has a non-empty topics list with a row whose content test answered true |
| ReviewSubject.ShouldRestoreWithoutNullish | src/module/expert/pages/ReviewSubject.js:95-103 | a draft without null or undefined cells is restored exactly when it has rows and some row has content |
| ReviewSubject.JsonRows | src/module/expert/pages/ReviewSubject.js:73 | JSON keeps every row field and writes each hole as null |
| ReviewSubject.JsonRowsWithoutHoles | src/module/expert/pages/ReviewSubject.js:73 | rows without holes come back from JSON unchanged |
| ReviewSubject.BlankDraftNotRestored | src/module/expert/pages/ReviewSubject.js:95-104 | a draft made only of blank rows is never restored |
| ReviewSubject.ReviewPage.constructor | src/module/expert/pages/ReviewSubject.js:9-18 | the page starts with no rows, empty notes, average 0, restoring and not yet restored |
| ReviewSubject.ReviewPage.ApplyDraft | src/module/expert/pages/ReviewSubject.js:103-112 | the draft's rows and notes (missing notes become '') are taken over, the average becomes that of the rows, and the restored flag is set |
| ReviewSubject.ReviewPage.Restore | src/module/expert/pages/ReviewSubject.js:89-130 | a restorable draft replaces the rows and notes (missing notes become '') and sets the restored flag; otherwise rows, notes and flag are kept; restoring ends either way and the shown average stays the table's average |
| ReviewSubject.ReviewPage.LoadSubjectDetails | src/module/expert/pages/ReviewSubject.js:132-153 | on success the past-subject count is recorded, and exactly one blank row is seeded when nothing was restored, the table is empty and there are past subjects; a failure alerts the message or "Failed to load subject details", navigates to /expert/assignments and keeps the rows |
| ReviewSubject.ReviewPage.Autosave | src/module/expert/pages/ReviewSubject.js:161-172 | the draft, with its rows as JSON stores them, is written under the subject's key exactly when there is a subject id, restoring is over, and there are rows or non-blank notes; otherwise storage is unchanged |
| ReviewSubject.ReviewPage.SaveBeforeUnload | src/module/expert/pages/ReviewSubject.js:175-190 | the same write without the restoring check |
| ReviewSubject.ReviewPage.AddRow | src/module/expert/pages/ReviewSubject.js:196-206 | the table becomes the appended table, with a fresh id, and the shown average stays in step |
| ReviewSubject.ReviewPage.RemoveRow | src/module/expert/pages/ReviewSubject.js:210-214 | the rows with the id are removed and the average is recomputed from what remains |
| ReviewSubject.ReviewPage.EditTopic | src/module/expert/pages/ReviewSubject.js:216-228 | the table becomes the updated table and the shown average stays the table's average; a topic-text edit leaves the average as it was |
| ReviewSubject.ReviewPage.EditPastSubjectTopic | src/module/expert/pages/ReviewSubject.js:230-240 | the table becomes the updated table and the shown average stays in step |
| ReviewSubject.ReviewPage.Submit | src/module/expert/pages/ReviewSubject.js:242-301 | a failing guard sends nothing and changes nothing; an undefined or null cell makes building the body throw, so nothing is sent and submitting stays set; otherwise the body is sent and submitting ends false; a success removes exactly the subject's draft, reports approval exactly when the average is at least 80 with the count `pastSubjects.length \|\| 1`, and navigates to /expert/assignments; a failure keeps storage and reports the message or "Failed to submit review" |
| ReviewSubject.ReviewPage.SetNotes | src/module/expert/pages/ReviewSubject.js:578 | the typed text becomes the notes and nothing else changes |
| CtHistory.Classify | src/module/student/pages/CTHistory/history.js:84-91 | a past subject counts as approved exactly when its lower-cased status is approved_template3 or approved_sme, as rejected exactly when it is rejected, and as pending otherwise, a missing status included |
| CtHistory.ClassifyIgnoresCase | src/module/student/pages/CTHistory/history.js:84 | a status is classified the same in any letter case |
| CtHistory.CountsPartition | src/module/student/pages/CTHistory/history.js:83-91 | every past subject lands in exactly one bucket, so approved + rejected + pending = total |
| CtHistory.PercentageInRange | src/module/student/pages/CTHistory/history.js:96 | the percentage is between 0 and 100, is 100 when everything is approved and 0 when nothing is |
| CtHistory.ProgressConsistent | src/module/student/pages/CTHistory/history.js:70-97 | the tally's buckets add up to the total, the percentage is in [0, 100] and 0 for an empty tally, and an application without new subjects gets all zeros |
| CtHistory.CountPastSubjects | src/module/student/pages/CTHistory/history.js:82-92 | the inner loop adds exactly the tally of one new subject's past subjects to the running counters |
| CtHistory.CalculateProgress | src/module/student/pages/CTHistory/history.js:70-98 | the loop's result is the tally of every past subject under every new subject, with consistent counts and a percentage in [0, 100] |
| CtHistory.CurrentSubjectStatus | src/module/student/pages/CTHistory/history.js:336-348 | a course has no status exactly when it has no past subjects |
| CtHistory.CurrentSubjectStatusMatchesTally | src/module/student/pages/CTHistory/history.js:336-348 | a course is approved exactly when all its past subjects count as approved, and rejected exactly when not all are approved and one counts as rejected |
| CtHistory.RejectionOutranksPending | src/module/student/pages/CTHistory/history.js:344-346 | one rejected past subject makes the course rejected whatever else is pending |
| CtHistory.ParseCtStatus | src/module/student/pages/CTHistory/history.js:35-41 | exactly the five configured application statuses are recognised |
| CtHistory.ApplicationBadgeFallback | src/module/student/pages/CTHistory/history.js:43 | an unknown or missing application status gets the "submitted" (Under Review) badge |
| CtHistory.SubjectBadgeFallback | src/module/student/pages/CTHistory/history.js:61 | an unknown or missing subject status gets the "pending" badge |
| CtHistory.ApplicationBadgeIgnoresCase | src/module/student/pages/CTHistory/history.js:43 | the application badge is looked up case-insensitively |
| CtHistory.SubjectBadgeIgnoresCase | src/module/student/pages/CTHistory/history.js:61 | the subject badge is looked up case-insensitively |
| CtHistory.SortNewestFirst | src/module/student/pages/CTHistory/history.js:20-22 | the fetched list becomes, in place, its stable sort newest first: ordered by creation time, the same applications, and those created at the same time in fetched order |
| CtHistory.ShowProgressBar | src/module/student/pages/CTHistory/history.js:222 | the bar is shown for an application that is not a draft and has subjects |
| CtHistory.ProgressBarShown | src/module/student/pages/CTHistory/history.js:222-240 | the bar is shown exactly for a non-draft with statuses, and then its approved count is at most the total and its percentage is in [0, 100] |
| CtHistory.Toggle | src/module/student/pages/CTHistory/history.js:30-32 | clicking the open application closes it; clicking any other opens that one |
| CtHistory.ToggleTwice | src/module/student/pages/CTHistory/history.js:30-32 | two clicks on a closed application return to closed, and two clicks on the open one return to it open |
| Sorting.InsertionSortBy | src/module/student/pages/CTHistory/history.js:20-22 | the array becomes the stable sort of what it held: sorted by ascending key, a permutation, and the order within every key class kept |
| Sorting.Sink | src/module/student/pages/CTHistory/history.js:20-22 | one pass moves an element down past the greater keys before it, which is inserting it into the prefix, and leaves the rest alone |
| Sorting.InsertAt | src/module/student/pages/CTHistory/history.js:20-22 | the element goes after the last key not greater than its own |
| Sorting.StableSort | src/module/student/pages/CTHistory/history.js:20-22 | the reference stable sort, of the same length: each element goes after every earlier element whose key is not greater than its own |
| Sorting.StableSortSorted | src/module/student/pages/CTHistory/history.js:20-22 | the stable sort is ordered by ascending key |
| Sorting.StableSortPermutes | src/module/student/pages/CTHistory/history.js:20-22 | the stable sort holds exactly the elements it was given |
| Sorting.StableSortStable | src/module/student/pages/CTHistory/history.js:20-22 | the stable sort keeps the order of the elements within every key class |
| Status.ParseApproval | src/module/student/pages/CTHistory/history.js:54-58 | reading a status name and naming it back gives the same text, and only the five backend names are known statuses |
| Status.ParseApprovalName | src/module/student/pages/CTHistory/history.js:54-58 | naming a known status and reading the name back gives that status |
| SmeAssignments.OverallStatus | src/module/expert/pages/SMEAssignments.js:92-101 | the status is needs_sme_review exactly when some past subject is needs_sme_review or pending, approved_sme exactly when none waits and all are approved, and rejected exactly when none waits and one is not approved |
| SmeAssignments.EmptyAssignmentApproved | src/module/expert/pages/SMEAssignments.js:93-101 | an assignment without past subjects shows as approved |
| SmeAssignments.RejectedWhenSomethingUnapproved | src/module/expert/pages/SMEAssignments.js:96-101 | with nothing waiting, one past subject that is not an approval (rejected, unknown or missing) makes the assignment rejected |
| SmeAssignments.StatusBadge | src/module/expert/pages/SMEAssignments.js:22-30 | any status outside approved_sme, rejected and approved_template3 gets the needs_sme_review badge |
| SmeAssignments.AssignmentBadge | src/module/expert/pages/SMEAssignments.js:93-135 | an assignment's badge reads "Pending Review" exactly when some past subject waits |
| SmeAssignments.ActionLink | src/module/expert/pages/SMEAssignments.js:138-152 | the link reads "Review All" exactly when something waits and "View" otherwise, and both lead to the subject's review page |
| SmeAssignments.ActionLinkId | src/module/expert/pages/SMEAssignments.js:140-147 | the id read back from the link's path is the assignment's id |
| SmeAssignments.OppositePrecedence | src/module/expert/pages/SMEAssignments.js:99-101 | a rejected and a pending past subject show as waiting here but as rejected on the student's history page |
| ReviewApplication.FindFirst | src/module/coordinator/pages/CTApplication/ReviewApplication.js:32 | the result is the first application with that id, and there is none exactly when no application has it |
| ReviewApplication.FindApplication | src/module/coordinator/pages/CTApplication/ReviewApplication.js:32 | a route id that does not parse finds nothing; otherwise the first application with the parsed id is found |
| ReviewApplication.FindApplicationByRoute | src/module/coordinator/pages/CTApplication/ReviewApplication.js:32 | a route built from a listed application's id finds an application with that id |
| ReviewApplication.HasPendingSubjects | src/module/coordinator/pages/CTApplication/ReviewApplication.js:241-243 | the Template3 check is offered exactly when the course has a past-subject list and some entry's status is exactly "pending" |
| ReviewApplication.AnyPendingIff | src/module/coordinator/pages/CTApplication/ReviewApplication.js:241-243 | the recursive scan agrees with "some entry is pending" in both directions |
| ReviewApplication.PendingIsCaseSensitive | src/module/coordinator/pages/CTApplication/ReviewApplication.js:241-243 | "Pending" spelled with a capital does not offer the check |
| ReviewApplication.ReviewSummary | src/module/coordinator/pages/CTApplication/ReviewApplication.js:481-499 | there is no summary exactly when the application has no course list, and pending + approved + awaiting SME never exceeds the total |
| ReviewApplication.WithStatus | src/module/coordinator/pages/CTApplication/ReviewApplication.js:485-498 | the entries kept are exactly those whose status is the given one, never more than the list |
| ReviewApplication.SummaryBounded | src/module/coordinator/pages/CTApplication/ReviewApplication.js:481-499 | each past subject is counted in at most one of the three status counts |
| ReviewApplication.SummaryOfConcat | src/module/coordinator/pages/CTApplication/ReviewApplication.js:481-499 | the summary of a list of courses is the sum of the summaries of its parts |
| ReviewApplication.StatusColor | src/module/coordinator/pages/CTApplication/ReviewApplication.js:122-131 | any status outside the five keys, or a missing one, is gray, and the five keys are not |
| ReviewApplication.StatusText | src/module/coordinator/pages/CTApplication/ReviewApplication.js:133-142 | a status outside the five keys is shown as it is, a missing one stays missing, and the five keys get a label of their own |
| ReviewApplication.SmeDecisionsShownRaw | src/module/coordinator/pages/CTApplication/ReviewApplication.js:122-142 | the backend's approved_sme and rejected are shown raw and gray |
| ReviewApplication.NotesFor | src/module/coordinator/pages/CTApplication/ReviewApplication.js:89 | the notes of a course are those typed for it, or "" when none were |
| ReviewApplication.ReviewApplicationPage.constructor | src/module/coordinator/pages/CTApplication/ReviewApplication.js:18-25 | the page starts loading, with no application and empty maps |
| ReviewApplication.ReviewApplicationPage.LoadApplication | src/module/coordinator/pages/CTApplication/ReviewApplication.js:28-36 | a success shows the application the route names (or none); a failure keeps the previous one; loading ends false |
| ReviewApplication.ReviewApplicationPage.CheckCurrentSubject | src/module/coordinator/pages/CTApplication/ReviewApplication.js:42-55 | a success stores the result under that course only, so "Approve All" is offered exactly when it has allMatch; a failure alerts the message or the fallback and stores nothing; processing ends |
| ReviewApplication.ApproveAllOffered | src/module/coordinator/pages/CTApplication/ReviewApplication.js:282-302 | "Approve All" is shown exactly when the course has a stored result with allMatch |
| ReviewApplication.Cached | src/module/coordinator/pages/CTApplication/ReviewApplication.js:77 | an SME list already fetched for the course, even an empty one, skips the request |
| ReviewApplication.ReviewApplicationPage.Idle | src/module/coordinator/pages/CTApplication/ReviewApplication.js:20-25 | no course is being processed and no SME list is loading |
| ReviewApplication.ReviewApplicationPage.ApproveAll | src/module/coordinator/pages/CTApplication/ReviewApplication.js:57-75 | nothing happens without confirmation; a success removes only that course's result, so "Approve All" disappears, and reloads; a failure alerts and keeps the results |
| ReviewApplication.ReviewApplicationPage.LoadSmesForCourse | src/module/coordinator/pages/CTApplication/ReviewApplication.js:77-86 | a request is made exactly when the course id is present, non-zero and not cached, and it raises that course's loading flag; a call that returns lowers the flag and, on success, caches the list under that course; a call that throws leaves the flag raised and the cache unchanged |
| ReviewApplication.SmeCallThrows | src/module/coordinator/pages/CTApplication/ReviewApplication.js:3-12 | getSMEsForCourse is not exported by the coordinator request module, so calling it throws, while the three subject actions the page imports are exported |
| ReviewApplication.ReviewApplicationPage.SendAllToSme | src/module/coordinator/pages/CTApplication/ReviewApplication.js:88-115 | nothing is sent without confirmation; the request carries the course's notes and no SME; a success resets that course's notes to "" and drops its selection and result only; a failure changes none of them |
| ReviewApplication.ReviewApplicationPage.SelectSme | src/module/coordinator/pages/CTApplication/ReviewApplication.js:330-335 | the empty option stores no selection; any other choice is stored for that course |
| ReviewApplication.ReviewApplicationPage.EditNotes | src/module/coordinator/pages/CTApplication/ReviewApplication.js:366-369 | the typed notes become the notes of that course |
| ReviewApplication.SentNotesAreTyped | src/module/coordinator/pages/CTApplication/ReviewApplication.js:88-95 | the send-all request carries exactly the last notes typed for the course and the send_all_to_sme tag |
| ReviewRequests.RequestFor | src/module/coordinator/hooks/useReviewApplication.js:31-316 | each action's body carries its id under the per-past-subject or per-course field, its fixed action tag, and the notes exactly for the two send operations |
| ReviewRequests.RequestsDistinguishOperations | src/module/coordinator/hooks/useReviewApplication.js:36-300 | endpoint and tag together identify the operation |
| ReviewRequests.ChecksShareTag | src/module/coordinator/hooks/useReviewApplication.js:44-234 | the two Template3 checks share the check_template3 tag and differ only in endpoint |
| ReviewRequests.Perform | src/module/coordinator/hooks/useReviewApplication.js:221-249 | without a token nothing is sent and the reply is "User not authenticated"; otherwise the body is sent, an ok answer succeeds with its data, a non-ok one fails with the server's error or the operation's default, an exception with its message |
| ReviewRequests.FetchList | src/module/coordinator/hooks/useReviewApplication.js:10-26 | a request is made exactly when there is a token; the reply succeeds exactly on an ok answer, with its list or [] when the list is missing, and fails with [] otherwise |
| ReviewRequests.KeyRank | src/module/coordinator/hooks/useReviewApplication.js:327-344 | the six filter keys have six distinct positions |
| ReviewRequests.TextFilter | src/module/coordinator/hooks/useReviewApplication.js:327-335 | a text filter is sent exactly when present and not blank after trimming, and the untrimmed text is sent |
| ReviewRequests.ProgramIdFilter | src/module/coordinator/hooks/useReviewApplication.js:336-338 | a numeric programme id is sent as its decimal text unless it is 0; a text one follows the text rule |
| ReviewRequests.Template3Params | src/module/coordinator/hooks/useReviewApplication.js:324-344 | the parameter list holds exactly the keys whose filter is sent, each with its value as given, in the fixed key order |
| ReviewRequests.AppendIfSent | src/module/coordinator/hooks/useReviewApplication.js:327-329 | one conditional append keeps the list sound, complete up to that key, and ordered |
| ReviewRequests.Template3Url | src/module/coordinator/hooks/useReviewApplication.js:346 | without parameters the URL is the bare template3 endpoint; otherwise the endpoint, '?' and the encoded query |
| ReviewRequests.Pair | src/module/coordinator/hooks/useReviewApplication.js:346 | an encoded pair starts with the key name followed by "=" |
| ReviewRequests.Encode | src/module/coordinator/hooks/useReviewApplication.js:346 | the query is empty exactly when there are no parameters, and one parameter is its key=value pair |
| ReviewRequests.EncodeConcat | src/module/coordinator/hooks/useReviewApplication.js:346 | the query of two non-empty lists joined is their queries joined with "&" |
| ReviewRequests.EncodeSnoc | src/module/coordinator/hooks/useReviewApplication.js:346 | appending a parameter appends "&" and its pair to a non-empty query |
| Api.OrElse | src/module/coordinator/hooks/useReviewApplication.js:50 | a present non-empty text wins, otherwise the fallback |
| Api.Announce | src/module/student/pages/Appointment/BookAppointment.js:59-66 | a handler whose call throws reports nothing and does not reload; a success reports its text and reloads; a failure reports the server's message, or the fallback when it is empty, and does not reload |
| ApplyCt.FreshRow | src/module/student/pages/CTApplication/ApplyCT.js:33-39 | a fresh row has an empty current subject, status "Pending" and exactly one blank past subject |
| ApplyCt.CourseChange | src/module/student/pages/CTApplication/ApplyCT.js:30-42 | the table is empty exactly when the empty course is chosen; a chosen course resets it to one fresh row |
| ApplyCt.UpdateCurrentSubject | src/module/student/pages/CTApplication/ApplyCT.js:44-48 | only the rows with that id change, and only in their current subject; length and order are kept |
| ApplyCt.EditPast | src/module/student/pages/CTApplication/ApplyCT.js:54-56 | the past subjects with that id get the edit and the others are unchanged |
| ApplyCt.UpdatePastSubject | src/module/student/pages/CTApplication/ApplyCT.js:50-60 | only the past subjects with that id, inside the rows with that id, change; every other row and field is kept |
| ApplyCt.ApplyEditChangesOneField | src/module/student/pages/CTApplication/ApplyCT.js:55 | an edit changes only its own field of a past subject |
| ApplyCt.AddTableRow | src/module/student/pages/CTApplication/ApplyCT.js:62-72 | one fresh row is appended and the existing rows are unchanged |
| ApplyCt.RemoveTableRow | src/module/student/pages/CTApplication/ApplyCT.js:74 | a row survives exactly when it was present and has another id |
| ApplyCt.RemoveTableRowConcat | src/module/student/pages/CTApplication/ApplyCT.js:74 | removal distributes over concatenation, so the others keep their order |
| ApplyCt.RemoveAddedRow | src/module/student/pages/CTApplication/ApplyCT.js:62-74 | removing a row just added with a fresh id gives the table back |
| ApplyCt.AddPastSubject | src/module/student/pages/CTApplication/ApplyCT.js:75-86 | the rows with that id get one blank past subject at the end; other rows are unchanged |
| ApplyCt.WithoutPast | src/module/student/pages/CTApplication/ApplyCT.js:91 | a past subject survives exactly when it was present and has another id |
| ApplyCt.RemovePastSubject | src/module/student/pages/CTApplication/ApplyCT.js:87-95 | in the rows with that id exactly the past subjects with another id remain; other rows are unchanged |
| ApplyCt.RemoveAddedPastSubject | src/module/student/pages/CTApplication/ApplyCT.js:75-95 | removing a past subject just added with a fresh id gives the table back |
| ApplyCt.PastToPayload | src/module/student/pages/CTApplication/ApplyCT.js:102-107 | a past subject's texts are kept and its syllabus becomes the file name, or null without a file |
| ApplyCt.RowToPayload | src/module/student/pages/CTApplication/ApplyCT.js:100-109 | a row keeps its current subject, its status and its past subjects in order |
| ApplyCt.Payload | src/module/student/pages/CTApplication/ApplyCT.js:99-109 | the payload has one entry per row, in order |
| ApplyCt.PayloadIgnoresIds | src/module/student/pages/CTApplication/ApplyCT.js:99-109 | renumbering rows and past subjects leaves the payload unchanged |
| ApplyCt.UploadReachesPayload | src/module/student/pages/CTApplication/ApplyCT.js:96-106 | an uploaded syllabus shows up in the payload as the file's name |
| CourseRows.WithEdit | src/module/coordinator/pages/Manage/ManageCourses.js:38-42 | an edit changes only its own field of a row and never the row's id |
| CourseRows.CategoryChoice | src/module/coordinator/pages/Manage/ManageCourses.js:218-221 | the empty option stores no category; any other choice is stored |
| CourseRows.CourseRow.constructor | src/module/coordinator/pages/Manage/ManageCourses.js:44-54 | a new row object holds the given value |
| CourseRows.CourseRow.Edit | src/module/coordinator/pages/Manage/ManageCourses.js:40 | the row object's value becomes the edited value |
| CourseRows.Values | src/module/coordinator/pages/Manage/ManageCourses.js:38-42 | the list of row values has one value per row object, in order |
| CourseRows.RemoveAt | src/module/coordinator/pages/Manage/ManageCourses.js:56-59 | a position inside the list is removed, keeping the order of the others and shortening the list by one; an index outside removes nothing |
| CourseRows.RemoveAtMembers | src/module/coordinator/pages/Manage/ManageCourses.js:56-59 | with distinct rows, exactly the row at the index is gone and every other one is kept |
| CourseRows.RemoveAtDistinct | src/module/coordinator/pages/Manage/ManageCourses.js:56-59 | removing keeps the row objects distinct |
| CourseRows.EditAt | src/module/coordinator/pages/Manage/ManageCourses.js:38-42 | the row object at the index is changed in place and every other position keeps its value |
| CourseRows.AppendBlank | src/module/coordinator/pages/Manage/ManageCourses.js:44-54 | the same row objects followed by one new blank row without id or category |
| CourseRows.SentId | src/module/coordinator/pages/Manage/ManageCourses.js:66 | the id is sent exactly when present and non-zero |
| CourseRows.CategoryField | src/module/coordinator/pages/Manage/ManageCourses.js:70 | the category is null exactly when none or "" is chosen, and parsed as an integer otherwise |
| CourseRows.WithCategory | src/module/coordinator/pages/Manage/ManageCourses.js:65-71 | the course page sends the id rule, the texts unchanged, the credit as an integer or null, and the category as an integer or null |
| CourseRows.WithoutCategory | src/module/coordinator/pages/Manage/StructureCourses.js:64-69 | the structure page sends the same fields without any category |
| CourseRows.Payload | src/module/coordinator/pages/Manage/ManageCourses.js:65-71 | one payload entry per row, in order |
| CourseRows.PayloadsDifferInCategoryOnly | src/module/coordinator/pages/Manage/StructureCourses.js:64-69 | the two pages' payloads agree except in the category field |
| CourseRows.BlankRowPayload | src/module/coordinator/pages/Manage/ManageCourses.js:44-71 | a row added and left blank is sent as a new course with null credit and null (or no) category |
| CourseRows.CreditSentAsNumber | src/module/coordinator/pages/Manage/ManageCourses.js:69 | a credit written as decimal digits is sent as that number |
| CourseRows.UpdateCourses | src/module/coordinator/hooks/useManageStructureCourses.js:38-57 | without a token the reply is "Not authenticated"; with one, the call throws exactly when its `payload` argument is undefined, and otherwise returns the server's reply |
| CourseRows.SaveWithoutIdThrows | src/module/coordinator/pages/Manage/ManageCourses.js:74 | the pages' one-argument call leaves `payload` undefined, so a logged-in save always throws |
| ManageCourses.CategoryRequest | src/module/coordinator/pages/Manage/ManageCourses.js:86-92 | nothing is sent exactly when the name is blank; otherwise the trimmed name, non-empty and without surrounding spaces |
| ManageCourses.CategoryRequestStable | src/module/coordinator/pages/Manage/ManageCourses.js:92 | a name that was sent once is sent unchanged again |
| ManageCourses.ManageCoursesPage.constructor | src/module/coordinator/pages/Manage/ManageCourses.js:6-12 | the page starts with no courses or categories, both lists loading, an empty name input and no save in progress |
| ManageCourses.ManageCoursesPage.LoadCourses | src/module/coordinator/pages/Manage/ManageCourses.js:18-26 | a request that returns ends loading, with the server's rows ([] when missing) on success and the table kept otherwise; a request that throws keeps the table and loading never ends |
| ManageCourses.ManageCoursesPage.LoadCategories | src/module/coordinator/pages/Manage/ManageCourses.js:28-36 | a call that returns ends the category loading, with the server's categories ([] when missing) on success and the list kept otherwise; a call that throws (the unexported function) keeps the list and loading never ends |
| ManageCourses.ManageCoursesPage.UpdateCourseField | src/module/coordinator/pages/Manage/ManageCourses.js:38-42 | only the row at the index changes, by the edit |
| ManageCourses.ManageCoursesPage.AddCourseRow | src/module/coordinator/pages/Manage/ManageCourses.js:44-54 | the table gains one blank row at the end and keeps its row objects |
| ManageCourses.ManageCoursesPage.RemoveCourseRow | src/module/coordinator/pages/Manage/ManageCourses.js:56-59 | exactly the row at the index is removed |
| ManageCourses.ManageCoursesPage.SaveRequest | src/module/coordinator/pages/Manage/ManageCourses.js:61-73 | the save request has one entry per row, in order, each mapped with its category |
| ManageCourses.ManageCoursesPage.SaveCourses | src/module/coordinator/pages/Manage/ManageCourses.js:61-83 | the rows' payload is sent and saving starts; a success reloads the table and then alerts "Courses saved successfully!"; a failure alerts the message or "Failed to save courses" and keeps the table; saving ends only when neither the save nor the reload throws, and a throw raises no alert |
| ManageCourses.ManageCoursesPage.CreateCategory | src/module/coordinator/pages/Manage/ManageCourses.js:86-100 | a blank name alerts and sends nothing; otherwise the trimmed name is requested; a reply that returns clears the input and reloads on success, or alerts the message and keeps the input; a call of the unexported function throws, with no alert and no reload |
| ManageCourses.ManageCoursesPage.DeleteCategory | src/module/coordinator/pages/Manage/ManageCourses.js:102-114 | a request is made exactly after confirmation; a reply that returns decides the alert and the reload; a call of the unexported function throws, with no alert and no reload |
| ManageCourses.CategoryCallsThrow | src/module/coordinator/pages/Manage/ManageCourses.js:2 | the three category functions the page imports are not exported by the hook, so calling any of them throws |
| ManageCourses.CourseCallsReturn | src/module/coordinator/pages/Manage/ManageCourses.js:2 | the course functions the page imports are exported, so their calls return |
| ManageCourses.ManageCoursesPage.SetNewCategoryName | src/module/coordinator/pages/Manage/ManageCourses.js:268 | the typed text becomes the name input and nothing else changes |
| StructureCourses.StructureCoursesPage.constructor | src/module/coordinator/pages/Manage/StructureCourses.js:6-8 | the page starts with no structure, no file and no courses |
| StructureCourses.StructureCoursesPage.LoadData | src/module/coordinator/pages/Manage/StructureCourses.js:14-24 | the handler throws, changing nothing, exactly when the request rejects or a success has no `program`; any other success sets the structure and the rows ([] when missing), which then become editable exactly when the structure is non-empty; a failure changes nothing |
| StructureCourses.LoadThrows | src/module/coordinator/pages/Manage/StructureCourses.js:19 | loading throws exactly on a success whose data has no `program` |
| StructureCourses.StructureCoursesPage.CoursesEditable | src/module/coordinator/pages/Manage/StructureCourses.js:167-173 | the course rows are shown for editing exactly when a structure is set |
| StructureCourses.StructureCoursesPage.SelectFile | src/module/coordinator/pages/Manage/StructureCourses.js:7 | the chosen file is the selection |
| StructureCourses.StructureCoursesPage.Upload | src/module/coordinator/pages/Manage/StructureCourses.js:26-37 | without a file an alert and no request; a success reloads and clears the selection unless the reload throws (a rejected request or a missing `program`), which keeps the file; a failure alerts the message and keeps the file; an upload request that throws ends the handler with no alert and nothing changed |
| StructureCourses.StructureCoursesPage.UpdateCourseField | src/module/coordinator/pages/Manage/StructureCourses.js:39-43 | only the row at the index changes, by the edit |
| StructureCourses.StructureCoursesPage.AddCourseRow | src/module/coordinator/pages/Manage/StructureCourses.js:45-55 | the table gains one blank row at the end |
| StructureCourses.StructureCoursesPage.RemoveCourseRow | src/module/coordinator/pages/Manage/StructureCourses.js:57-60 | exactly the row at the index is removed |
| StructureCourses.StructureCoursesPage.SaveRequest | src/module/coordinator/pages/Manage/StructureCourses.js:62-71 | the save request has one entry per row, in order, without categories |
| StructureCourses.StructureCoursesPage.SaveCourses | src/module/coordinator/pages/Manage/StructureCourses.js:62-80 | the rows' payload is sent; a success reloads and then alerts "Courses saved successfully!" unless the reload throws; a failure alerts the message and changes nothing; a save that throws raises no alert and changes nothing |
| BookAppointment.WithField | src/module/student/pages/Appointment/BookAppointment.js:33 | only the named form field takes the new value |
| BookAppointment.PendingBlocksBooking | src/module/student/pages/Appointment/BookAppointment.js:38-43 | a pending appointment keeps blocking booking however the history grows |
| BookAppointment.PendingIgnoresCase | src/module/student/pages/Appointment/BookAppointment.js:39 | any capitalisation of "pending" blocks booking |
| BookAppointment.Rank | src/module/student/pages/Appointment/BookAppointment.js:131-134 | the sort key is 1 exactly for pending, 99 exactly for statuses outside pending, rejected and cancelled, and 2 or 3 for the other two |
| BookAppointment.DisplayOrder | src/module/student/pages/Appointment/BookAppointment.js:130-134 | the shown history is the stable sort of the list by rank: ordered by rank, the same appointments, equal ranks in history order; the list itself is left alone |
| BookAppointment.PendingShownFirst | src/module/student/pages/Appointment/BookAppointment.js:130-152 | in the shown order every appointment that offers a cancel button precedes every one that does not |
| BookAppointment.CancelOffered | src/module/student/pages/Appointment/BookAppointment.js:149-152 | a cancel button is offered exactly for an appointment whose lowercased status is "pending" |
| BookAppointment.BookAppointmentPage.constructor | src/module/student/pages/Appointment/BookAppointment.js:6-10 | the page starts with no history, loading, no coordinators and an empty form |
| BookAppointment.BookAppointmentPage.LoadHistory | src/module/student/pages/Appointment/BookAppointment.js:20-26 | a request that returns ends loading, showing the server's history on success and emptying it on failure; a request that throws keeps the history and loading never ends |
| BookAppointment.BookAppointmentPage.LoadCoordinators | src/module/student/pages/Appointment/BookAppointment.js:28-31 | a success replaces the coordinator list and a failure keeps it |
| BookAppointment.BookAppointmentPage.HandleChange | src/module/student/pages/Appointment/BookAppointment.js:33 | the form becomes the form with the named field changed |
| BookAppointment.BookAppointmentPage.Submit | src/module/student/pages/Appointment/BookAppointment.js:35-67 | a pending appointment refuses first, then an incomplete form, with their alerts and no request; otherwise the parsed coordinator is asked for from the start for thirty minutes; a success empties the form, reloads and alerts "Appointment booked!"; a failure keeps the form and alerts the message or "Failed to book appointment"; a request that throws keeps the form, with no alert and no reload |
| BookAppointment.BookAppointmentPage.Cancel | src/module/student/pages/Appointment/BookAppointment.js:74-84 | a request is made exactly after confirmation; a reply that returns decides the alert and the reload; a call of the unexported function throws, with no alert and no reload |
| BookAppointment.CancelCallThrows | src/module/student/pages/Appointment/BookAppointment.js:2 | cancelAppointment is not exported by the student hook, so calling it throws |
| Api.Invoke | src/module/student/pages/Appointment/BookAppointment.js:2 | a call returns its reply exactly when the module exports the name, and otherwise is not a function |
| ViewAppointmentRequests.ToFrontendStatus | src/module/coordinator/hooks/useViewAppointment.js:33 | the backend's "scheduled" reads "pending" and every other status passes through unchanged |
| ViewAppointmentRequests.Transform | src/module/coordinator/hooks/useViewAppointment.js:24-35 | each record keeps its id, times, notes and student details under the page's names, a missing student stays null, and the status is translated |
| ViewAppointmentRequests.TransformAll | src/module/coordinator/hooks/useViewAppointment.js:24-35 | the translated list has the answer's length and order, and is [] when the answer has no list |
| ViewAppointmentRequests.NoneShownScheduled | src/module/coordinator/hooks/useViewAppointment.js:24-35 | no translated appointment reads "scheduled" |
| ViewAppointmentRequests.GetAppointmentHistory | src/module/coordinator/hooks/useViewAppointment.js:8-37 | a request is made exactly when there is a token; a thrown request rejects the call; otherwise the reply succeeds exactly on an ok answer, with the translated list, and is an empty failure otherwise |
| ViewAppointmentRequests.Body | src/module/coordinator/hooks/useViewAppointment.js:45-48 | the status is sent as given, and the notes are null exactly when they are missing or empty |
| ViewAppointmentRequests.UpdateAppointmentStatus | src/module/coordinator/hooks/useViewAppointment.js:40-66 | without a token nothing is sent and the reply is "User not authenticated"; otherwise the body is sent for that appointment, a non-ok answer fails with the server's error or "Server error", and a thrown request rejects the call |
| ViewAppointment.ToBackendStatus | src/module/coordinator/pages/Appointment/ViewAppointment.js:39-44 | an action that lowercases to "pending" is sent as "scheduled"; any other action is sent lowercased |
| ViewAppointment.StatusRoundTrip | src/module/coordinator/pages/Appointment/ViewAppointment.js:39-44 | sending an action and reading the status back gives the lowercased action, for every action that does not lowercase to "scheduled" |
| ViewAppointment.PopupActionsRoundTrip | src/module/coordinator/pages/Appointment/ViewAppointment.js:39-44 | the popup's Pending, Approved and Rejected actions come back as pending, approved and rejected |
| ViewAppointment.ScheduledComesBackPending | src/module/coordinator/pages/Appointment/ViewAppointment.js:39-44 | the one exception: an action "scheduled" comes back as "pending" |
| ViewAppointment.NotesToSend | src/module/coordinator/pages/Appointment/ViewAppointment.js:45 | notes are sent exactly when not blank, and then trimmed |
| ViewAppointment.BodyNotes | src/module/coordinator/pages/Appointment/ViewAppointment.js:45 | the notes in the PUT body are the trimmed popup notes, or null when those are blank |
| ViewAppointment.Partition | src/module/coordinator/pages/Appointment/ViewAppointment.js:62-64 | each list holds exactly the appointments whose lowercased status is its own, the lists are pairwise disjoint, and any other status is in none |
| ViewAppointment.WithStatus | src/module/coordinator/pages/Appointment/ViewAppointment.js:62-64 | the list kept holds exactly the appointments whose lowercased status is the given one, never more than the history |
| ViewAppointment.PartitionLength | src/module/coordinator/pages/Appointment/ViewAppointment.js:62-64 | the three lists together are never longer than the history |
| ViewAppointment.ViewAppointmentPage.constructor | src/module/coordinator/pages/Appointment/ViewAppointment.js:6-13 | the page starts loading, with no appointments, no selection and the popup closed |
| ViewAppointment.ViewAppointmentPage.LoadAppointments | src/module/coordinator/pages/Appointment/ViewAppointment.js:21-27 | a request that returns ends loading, showing the reply's list on success and emptying it on failure; a request that throws keeps the list and loading never ends |
| ViewAppointment.ViewAppointmentPage.ActionClick | src/module/coordinator/pages/Appointment/ViewAppointment.js:29-34 | the appointment and the action are remembered, the notes cleared and the popup opened |
| ViewAppointment.ViewAppointmentPage.EditNotes | src/module/coordinator/pages/Appointment/ViewAppointment.js:11 | the typed notes become the popup notes |
| ViewAppointment.ViewAppointmentPage.Confirm | src/module/coordinator/pages/Appointment/ViewAppointment.js:36-55 | nothing happens without a selected appointment; otherwise the update names the appointment, the backend status of the action and the trimmed notes; a success closes the popup and reloads, a failure alerts and keeps it open, and an update that throws raises no alert and keeps it open |
| Register.WithField | src/auth/hooks/useRegister.js:24-27 | the named field takes the new value and every other field keeps its own |
| Register.Validate | src/auth/hooks/useRegister.js:35-63 | the submission is stopped by the first check, in source order, that fails; none stops it exactly when all five pass; the password length is counted in UTF-16 code units |
| Register.AstralPasswordLongEnough | src/auth/hooks/useRegister.js:47 | a password of three characters outside the Basic Multilingual Plane is six code units long and passes the length check |
| Register.ShortMismatchReportsMismatch | src/auth/hooks/useRegister.js:41-51 | a short password that also differs from its confirmation is reported as a mismatch, not as too short |
| Register.AcceptedForm | src/auth/hooks/useRegister.js:35-63 | a form that passes has a matching password of at least six characters and every required text filled in |
| Register.Payload | src/auth/hooks/useRegister.js:69-78 | the signup body carries the form's texts, an empty phone as null, and the programme and campus as parseInt of the selected values |
| Register.SelectedIdsSentAsNumbers | src/auth/hooks/useRegister.js:74-75 | a programme or campus id written in decimal is sent as that number |
| Register.FailureMessage | src/auth/hooks/useRegister.js:81-90 | a refusal shows the body's message, else its error, else "Registration failed"; an exception shows its own non-empty message or the same fallback; the message is never empty |
| Register.RegisterHook.constructor | src/auth/hooks/useRegister.js:9-21 | the form starts blank, not loading, with no error |
| Register.RegisterHook.HandleChange | src/auth/hooks/useRegister.js:24-27 | one field changes and the error is cleared |
| Register.RegisterHook.Submit | src/auth/hooks/useRegister.js:29-94 | a failing check shows its message and sends nothing; otherwise the body is sent, a success alerts and goes to /login, and a failure shows its message; loading ends false on every path |
| Register.ProgramsUrl | src/auth/hooks/useRegister.js:106-110 | the static-data URL carries the campus as a query exactly when a non-empty campus is given |
| Register.StaticList | src/auth/hooks/useRegister.js:111-132 | a static-data call succeeds exactly on an ok answer, with the list or [] when it is missing; a non-ok answer or an exception gives an empty failure |
| Register.RegisterPage.constructor | src/auth/pages/Register.js:38-60 | the programme list starts empty and not loading |
| Register.RegisterPage.CampusChanged | src/auth/pages/Register.js:38-60 | a cleared campus empties the list and clears a chosen programme without a request; a loaded campus replaces the list and clears the programme; a failed load keeps both |
| ManageStaff.FirstOwned | src/module/admin/pages/ManageStaff.js:146 | the entry found is the lecturer's first one in the list, and none is found exactly when no entry is the lecturer's |
| ManageStaff.FirstRole | src/module/admin/pages/ManageStaff.js:145-147 | at most one role of the given kind is shown, and it belongs to the lecturer |
| ManageStaff.SmeRolesAreSme | src/module/admin/pages/ManageStaff.js:150-153 | every SME role shown is an SME entry of the lecturer |
| ManageStaff.RolesInOrder | src/module/admin/pages/ManageStaff.js:142-161 | the roles come as coordinator, then SMEs, then head of section, with at most one coordinator and one head-of-section role, all belonging to the lecturer |
| ManageStaff.EverySmeShown | src/module/admin/pages/ManageStaff.js:150-153 | every SME entry of the lecturer appears among the roles |
| ManageStaff.CoordinatorIsFirstMatch | src/module/admin/pages/ManageStaff.js:145-147 | a coordinator role leads the list exactly when the lecturer has a coordinator entry, and it is the first such entry |
| ManageStaff.EndTarget | src/module/admin/pages/ManageStaff.js:257-261 | ending a role sends the server's role type for its kind and the entry's id of that kind |
| ManageStaff.EndTargetNamesKind | src/module/admin/pages/ManageStaff.js:257-261 | the role type sent determines the kind of the role ended |
| ManageStaff.Missing | src/module/admin/pages/ManageStaff.js:104-116 | an assignment is stopped exactly when it is a coordinator without a programme or an SME without a course, with the matching message |
| ManageStaff.RoleDataOf | src/module/admin/pages/ManageStaff.js:98-116 | the role body carries the type and start date, an empty end date as null, the parsed programme exactly for a coordinator and the parsed course exactly for an SME |
| ManageStaff.SentIdsAreChosen | src/module/admin/pages/ManageStaff.js:104-116 | a form whose select holds the decimal text of the chosen programme (coordinator) or course (SME) passes the checks, and the role update carries exactly that id and no other |
| ManageStaff.FindLecturer | src/module/admin/pages/ManageStaff.js:55 | the lecturer found has the id asked for and is the first in the list with it; none is found exactly when no lecturer has it |
| ManageStaff.ManageStaffPage.constructor | src/module/admin/pages/ManageStaff.js:15-26 | the page starts loading, with empty lists, no selection, the modal closed and a blank form dated today |
| ManageStaff.ManageStaffPage.LoadData | src/module/admin/pages/ManageStaff.js:32-52 | each of the three lists is replaced when its call succeeded and kept otherwise; loading ends false |
| ManageStaff.ManageStaffPage.GetLecturerRoles | src/module/admin/pages/ManageStaff.js:142-161 | the loop collects exactly the roles described by the coordinator, SME and head-of-section lookups |
| ManageStaff.ManageStaffPage.AssignRole | src/module/admin/pages/ManageStaff.js:54-65 | the lecturer with the id is selected, the form is reset with today's start date and the modal opens |
| ManageStaff.ManageStaffPage.RoleTypeChange | src/module/admin/pages/ManageStaff.js:67-79 | the role type is set and the course cleared; courses are fetched for an SME with a programme chosen, and emptied for any other choice |
| ManageStaff.ManageStaffPage.ProgramChange | src/module/admin/pages/ManageStaff.js:81-91 | the programme is set and the course cleared; courses are fetched only for an SME role with a programme, and never emptied here |
| ManageStaff.ManageStaffPage.EditForm | src/module/admin/pages/ManageStaff.js:20-26 | the typed form becomes the form |
| ManageStaff.ManageStaffPage.SubmitAssignment | src/module/admin/pages/ManageStaff.js:93-127 | nothing without a selected lecturer; a missing programme or course alerts and sends nothing; otherwise the role body goes to the selected lecturer, and a success closes the modal and reloads |
| ManageStaff.ManageStaffPage.EndRole | src/module/admin/pages/ManageStaff.js:129-140 | a request is sent exactly after confirmation, naming the role's type and id; a success reloads and a failure alerts the server's message or the fallback |
| CreateLecturer.FindAdmin | src/module/admin/pages/CreateLecturer.js:32-35 | the record found is the first lecturer with the stored user's e-mail; none is found when there is no list or no lecturer has that e-mail |
| CreateLecturer.FirstWithEmail | src/module/admin/pages/CreateLecturer.js:33-35 | the record found is the first with the e-mail, and none is found exactly when no record has it |
| CreateLecturer.AdminCampus | src/module/admin/pages/CreateLecturer.js:37-38 | a campus is settled on exactly when the administrator's record is found with a non-zero campus, and it is that campus |
| CreateLecturer.AdminCampusIgnoresOthers | src/module/admin/pages/CreateLecturer.js:33-38 | a lecturer with another e-mail listed first does not change the campus settled on |
| CreateLecturer.CreateLecturerPage.constructor | src/module/admin/pages/CreateLecturer.js:5-14 | the page starts with no campus, a blank form and nothing in progress |
| CreateLecturer.CreateLecturerPage.LoadAdminData | src/module/admin/pages/CreateLecturer.js:20-50 | on an ok answer with a stored user the administrator's campus and its name or "Unknown Campus" are kept, and an unknown campus alerts; without a stored user a non-empty list makes the lookup throw and alerts the load error, while an empty or missing one alerts the campus error; an exception alerts the load error; a non-ok answer changes nothing; loading ends false |
| CreateLecturer.CreateLecturerPage.EditForm | src/module/admin/pages/CreateLecturer.js:7-12 | the typed form becomes the form |
| CreateLecturer.CreateLecturerPage.Submit | src/module/admin/pages/CreateLecturer.js:52-92 | an empty name, e-mail or password and then an unknown campus are refused without a request; otherwise the lecturer is sent with the administrator's campus and no role, and a success empties the form |
| Session.Storage.constructor | src/auth/hooks/useLogin.js:46-50 | the browser store starts with no session and no tokens |
| Login.DashboardPath | src/auth/hooks/useLogin.js:13-22 | each of the five roles goes to its own dashboard, and any other role goes nowhere |
| Login.DashboardsDistinct | src/auth/hooks/useLogin.js:17-21 | two roles sent to the same dashboard are the same role |
| Login.UnknownGoesNowhere | src/auth/hooks/useLogin.js:50 | the role stored when the answer names none leads to no dashboard |
| Login.LoginHook.constructor | src/auth/hooks/useLogin.js:6-9 | the form starts empty, not loading, with no error |
| Login.LoginHook.SetEmail | src/auth/hooks/useLogin.js:6 | the typed e-mail is kept |
| Login.LoginHook.SetPassword | src/auth/hooks/useLogin.js:7 | the typed password is kept |
| Login.LoginHook.SubmitLogin | src/auth/hooks/useLogin.js:24-57 | an accepted login stores both tokens and the session with the answer's role or "Unknown" and goes to that role's dashboard; a refusal or an exception stores nothing and shows its message; loading ends false |
| MockLogin.Check | src/pages/auth/hooks/useLogin.js:25-26 | a login succeeds exactly when the e-mail is a demonstration account and the password is its own, giving that account's role |
| MockLogin.AccountsReachDistinctDashboards | src/pages/auth/hooks/useLogin.js:12-18 | every demonstration account logs in with its password and reaches a dashboard, and no two accounts reach the same one |
| MockLogin.MockLoginHook.constructor | src/pages/auth/hooks/useLogin.js:7-10 | the form starts empty, not loading, with no error |
| MockLogin.MockLoginHook.SetEmail | src/pages/auth/hooks/useLogin.js:7 | the typed e-mail is kept |
| MockLogin.MockLoginHook.SetPassword | src/pages/auth/hooks/useLogin.js:8 | the typed password is kept |
| MockLogin.MockLoginHook.SubmitLogin | src/pages/auth/hooks/useLogin.js:20-45 | a matching account stores the session with its role and goes to its dashboard; otherwise the error is shown and nothing is stored; loading ends false |
| PrivateRoute.Guard | src/components/PrivateRoute.js:4-14 | a page is shown exactly when a user is stored and, when an allow-list is given, the user's role is in it; every other case redirects to /login |
| PrivateRoute.NoListAdmitsEveryone | src/components/PrivateRoute.js:9 | without an allow-list every stored user gets in, whatever the role |
| PrivateRoute.WiderListAdmitsMore | src/components/PrivateRoute.js:9 | adding roles to an allow-list never shuts out a user it let in |
| PrivateRoute.EmptyListAdmitsNobody | src/components/PrivateRoute.js:9 | an empty allow-list lets nobody in |
| AppRoutes.Lookup | src/App.js:25-90 | the route found matches the location, and none is found exactly when no route matches |
| AppRoutes.GuardAt | src/App.js:25-90 | a location has a guard exactly when some route matches it, and it is that route's allow-list |
| AppRoutes.PathsDistinct | src/App.js:27-89 | no two top-level routes share a path |
| AppRoutes.GuardOfRoute | src/App.js:27-89 | a location matching a route is guarded by that route's allow-list |
| AppRoutes.PublicPagesUnguarded | src/App.js:27-29 | the sign-in, forgot-password and reset-password pages have no guard |
| AppRoutes.OneRolePerDashboard | src/App.js:32-89 | every guarded dashboard admits exactly one role |
| AppRoutes.LoginTargetsAdmitTheirRole | src/App.js:32-89 | the dashboard a login sends a role to lets the session just stored through its guard |
| AppRoutes.NestedPagesBehindParent | src/App.js:41-45 | the nested student and coordinator pages sit behind their dashboard's guard |
| AppRoutes.NoNestedPagesElsewhere | src/App.js:64-89 | the expert, head-of-section and administrator dashboards have no nested pages |
| AppRoutes.LoginPathUnrouted | src/App.js:25-90 | /login, where the guard redirects, has no route |
| UserProfile.ShownUser | src/components/UserProfile.js:5 | the stored user is shown, and a missing one reads as a user with no fields |
| UserProfile.RoleDisplayName | src/components/UserProfile.js:8-17 | a known role shows its display name, an unknown non-empty role shows itself, and a missing or empty role shows "Unknown" |
| UserProfile.RoleDisplayNonEmpty | src/components/UserProfile.js:8-17 | the role shown is never empty, and exactly the five backend roles are translated |
| UserProfile.RenamedRoles | src/components/UserProfile.js:9-15 | only the head of section and the administrator are shown under another name |
| UserProfile.UserName | src/components/UserProfile.js:19 | the name is shown when present, else the e-mail's part before the first "@", else "User"; it is never empty |
| UserProfile.LoginSessionShowsLocalPart | src/components/UserProfile.js:19 | a session written at login shows the e-mail's local part |
| UserProfile.MissingUserBadge | src/components/UserProfile.js:5-20 | without a stored user the badge reads "User" and "Unknown" |
| ResetPassword.ResetPasswordPage.constructor | src/pages/auth/pages/ResetPassword.js:6-8 | the inputs start empty and no confirmation is shown |
| ResetPassword.ResetPasswordPage.SetNewPassword | src/pages/auth/pages/ResetPassword.js:6 | the typed password is kept |
| ResetPassword.ResetPasswordPage.SetConfirmPassword | src/pages/auth/pages/ResetPassword.js:7 | the typed confirmation is kept |
| ResetPassword.ResetPasswordPage.Reset | src/pages/auth/pages/ResetPassword.js:10-14 | the confirmation appears when both inputs are filled and equal, is otherwise left as it was, and is never cleared |

## Left out

- Network I/O: `fetch`, `FormData`, bearer headers and JSON parsing are not modelled. Each call is an abstract result passed in: `Http` for the raw answer, `Reply` for the `{ success, data, message }` object the hooks return.
- The thin hook modules are not modelled, because they only forward to the network: `useSMEReview.js`, `useStaffManagement.js`, `useCTApplication.js`, both `useAppointment.js`, `useViewCTApplications.js`, `useManageStructureCourses.js` (except its `updateCourses` guard, `CourseRows.UpdateCourses`). Only the names that `useManageStructureCourses.js`, the student's `useAppointment.js` and `useReviewApplication.js` export are modelled (`ManageCourses.StructureHookExports`, `BookAppointment.StudentAppointmentExports`, `ReviewRequests.ReviewHookExports`), because the pages import names they do not export (see Findings).
- `useManageStructureCourses.js`, the student's `useAppointment.js`, `useViewAppointment.js` and `useViewCTApplications.js` have no `try`/`catch`. A rejected `fetch` or a body that is not JSON is then the `Rejected` case of `Api.Call`, which the handlers of the course, structure, booking and appointment pages receive and do not catch. The other hook modules catch their exceptions and answer with a failure.
- ReviewRequests.Encode: values are joined as given. `URLSearchParams` percent-encodes them (a space as `+`), which is not modelled.
- `uploadTemplate3PDF`, `createTemplate3Entry` and `bulkCreateTemplate3` in `useReviewApplication.js` are not modelled, because they are plain request wrappers.
- `updateCourses(structureId, payload)` is called with the payload as its only argument by `ManageCourses.js:74` and `StructureCourses.js:72`. In the source `structureId` receives the payload and `payload` is undefined, so reading `payload.courses` in the hook throws (see Findings). The save handlers take the call as a parameter, so that both the thrown call and the replies of a working one are modelled.
- `ReviewApplication.js:95` passes the selected SME to `sendAllToSME`, but that function takes only two parameters. The model does not send the SME, as the code does not.
- `localStorage` is a class (`Session.Storage`) for the login session and a map field for the SME drafts. JSON serialisation is modelled only where it changes a value: a hole in a past-topic list is stored as null (`ReviewSubject.JsonRows`). `setTimeout` debouncing, the `beforeunload` listener and React refs are not modelled: an autosave is one guarded write, with the time as a parameter.
- ReviewSubject.ReviewPage.Submit: the awaited request is a reply passed in, and nothing can run while it waits. The alert text is not built: the result carries the count and average it shows, since number formatting is not modelled. The `isSaving` flag of the autosave only drives a spinner and is not modelled.
- Floating point is not modelled. Percentages are `real`, `parseFloat` reads sign, digits and an optional fraction (no exponent, no `Infinity`), and `Math.round(x * 10) / 10` is exact rounding to one decimal.
- `toLowerCase` lowercases the ASCII letters only. `parseInt` reads decimal only, with no hexadecimal prefix.
- `Date`, ISO strings and locale formatting are not modelled. Times are integers in minutes, "today" is a string parameter, and `Date.now()` ids are an integer parameter.
- ApplyCt.FreshRow: the past subject's id is the row id plus one. The source reads `Date.now()` twice (`ApplyCT.js:35` and `37`), so the second id can be larger by more than one when the clock ticks between the reads; the model does not cover that.
- AppRoutes.Lookup: a `Location` is the canonical path, already split into its top segment and its nested segment, and matched exactly. React Router's case-insensitive matching and its tolerance of a trailing slash are not modelled.
- Property lookups such as `statusMap[x]` and `roleMap[x]` are maps over the listed keys. The inherited prototype keys of a JavaScript object (`"constructor"` and the like) are not modelled.
- `Array.prototype.sort` is required by the language to be stable. The model sorts by insertion and proves the result equal to `Sorting.StableSort`, which is the one stable order: sorted by key, with ties in their original order.
- Rendering, styling and modals are not modelled; each predicate on page state that decides whether an element is shown has a row above. Alerts and navigation are outcomes returned by the methods that raise them: an `alert` is an optional message (or a result value carrying what it shows), a navigation an optional path, a confirm dialog a boolean input.
- Not modelled because they are presentation only: the landing, login and registration pages (except the registration page's campus effect), the programme-structure and Template3 pages, `ViewCTApplications.js`, the layouts, the dashboard shells and `useLogout.js`.
- `ForgotPassword.js` is not modelled: its only rule is one non-empty check.
- Template3 matching and approval are done by the server and are not part of this model. Only their results appear, as inputs.
- ManageCourses.ManageCoursesPage.UpdateCourseField: requires an index inside the table and a table of distinct row objects. The page only passes positions of rendered rows; an index outside would throw in the source.
- StructureCourses.StructureCoursesPage.UpdateCourseField: has the same requirement, for the same reason.
- `CourseRows` models the row objects the two course pages share and mutate in place. It does not model aliasing between two tables: rows loaded into one page are never handed to another.
- ReviewSubject.ReviewPayload: requires every percentage to be valid, because the page builds the payload only after validation has passed.
- `App.js` imports a head-of-section dashboard file that is not in this source tree. The route table is modelled as written, and the redirect target /login has no route in it (`AppRoutes.LoginPathUnrouted`).
- ReviewApplication.StatusText: modelled as written: its keys `sme_approved` and `sme_rejected` never match the backend's `approved_sme`, so that status shows raw (`ReviewApplication.SmeDecisionsShownRaw`).
- Storing an undefined token writes the text "undefined", as `localStorage.setItem` does (`Session.StoredText`).
- The 700 ms delay of the offline login is not modelled.

## Findings

| source | as written | input that shows it | evidently intended | confidence | as-written member | corrected member |
|---|---|---|---|---|---|---|
| src/module/coordinator/pages/Manage/ManageCourses.js:2 | the page imports `getCategories`, `createCategory` and `deleteCategory` from `useManageStructureCourses.js`, which exports none of them; bound to undefined, each call throws a TypeError that rejects the async handler, so no reply is applied. This assumes a bundler that binds a missing named export to undefined; under strict export checking the import is a build error and no page runs. | opening the page (the category list stays loading), or creating or deleting a category | the hook exports the three functions, and the page applies their replies | not executed | ManageCourses.CategoryCallsThrow | ManageCourses.ManageCoursesPage.CreateCategory |
| src/module/student/pages/Appointment/BookAppointment.js:2 | the page imports `cancelAppointment` from the student `useAppointment.js`, which does not export it; bound to undefined, a confirmed cancel throws a TypeError that the handler does not catch. This assumes a bundler that binds a missing named export to undefined; under strict export checking the import is a build error and no page runs. | confirming the cancellation of a pending appointment | the hook exports the function, and its reply decides the alert and the reload | not executed | BookAppointment.CancelCallThrows | BookAppointment.BookAppointmentPage.Cancel |
| src/module/coordinator/pages/CTApplication/ReviewApplication.js:11 | the page imports `getSMEsForCourse` from `useReviewApplication.js`, which does not export it; bound to undefined, the call throws a TypeError after the course's loading flag was set, and nothing catches it. This assumes a bundler that binds a missing named export to undefined; under strict export checking the import is a build error and no page runs. | focusing the SME select of a subject whose SME list is not cached (the spinner stays and the list never loads) | the module exports the function, and its reply fills the cache and lowers the flag | not executed | ReviewApplication.SmeCallThrows | ReviewApplication.ReviewApplicationPage.LoadSmesForCourse |
| src/module/coordinator/pages/Manage/ManageCourses.js:74 | both course pages call `updateCourses(payload)` with one argument, while the hook declares `updateCourses(structureId, payload)`; the payload binds to `structureId`, and with a token the hook reads `payload.courses` of undefined (`useManageStructureCourses.js:43`), which throws; nothing catches it, so no alert is shown and ManageCourses' `saving` stays set | pressing Save Courses while logged in | the payload reaches the hook's `payload` parameter, and the server's reply decides the alert and the reload | not executed | CourseRows.SaveWithoutIdThrows | ManageCourses.ManageCoursesPage.SaveCourses |
