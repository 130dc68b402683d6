# Quiz, passport and session client logic, in Dafny

This project models the client-side logic of a React web application for quiz
examinations (drivers, welders and students), the question editors used by
administrators, a passport-upload form, the registration schema, the
authentication session, and the navigation chrome. Each core source file is one
Dafny module:

| module | source |
|---|---|
| `AttendQuiz` | `src/pages/Quizz/attendQuizz.tsx` — taking one examination |
| `Examinations` | `src/pages/Quizz/ExaminationPage.tsx` — the list of assigned examinations |
| `QuestionCreation` (with `Choices`) | `src/pages/Quizz/QuestionCreation.tsx` — the "Add Question" form |
| `QuestionEdit` | `src/pages/Quizz/QuestionEditModal.tsx` — editing a question and its options |
| `SetBuilder` | `src/pages/Quizz/questionSetBuilder.tsx` — the options step of the set builder |
| `UserAssignment` | `src/pages/Quizz/UserAssignment.tsx` — assigning question sets to users |
| `PassportForm` | `src/components/forms/passport.tsx` |
| `Registration` | `src/pages/RegisterPage.tsx` |
| `Auth` | `src/contexts/AuthContext.tsx` |
| `Navbar` | `src/components/ui/Navbar.tsx` |
| `Sidebar` | `src/components/Sidebar.tsx` |

`Wrappers` (an `Option` type), `Files` (a browser `File`: name, MIME type,
size), `Seqs` (`Array.prototype.filter` and index removal) and `Text` (the
JavaScript string operations used: `trim`, `startsWith`, `split`, `join`,
`toUpperCase`) are shared helpers.

Components whose state the source updates with `setState` are Dafny classes.
Each piece of state is a field, and each handler is a method that states its
whole new state. The `forEach` and `for` loops of the source are `while`
loops. Each loop is proved against a function that specifies its result:
- the "mark only this option correct" loops;
- the answer-map initialisation;
- the examination aggregation;
- the assignment-map construction;
- the multipart body of the passport form.

Pure computations are functions: validation, payload mapping, the view
choice, initials, breadcrumbs, the visible navigation items and the active
item. Lemmas relate them: round trips, if-and-only-if characterisations,
ordering and size facts.

Network requests are not performed. Each request's outcome is a parameter of
the handler that issues it. `None` means a failed request, and `Some` carries
the body the code reads. For `Date.now()` ids the caller passes a `freshId`, and
the e-mail check of the schema library is a boolean parameter.

JavaScript truthiness is written out where the code relies on it:
- `!setId` and `!questionSetId` are true for the empty string;
- `!selectedQuestionId` is true for a missing id and for id `0`;
- `storedToken && storedUser` and `!email` treat `""` as missing;
- `answers[id] !== null` holds for a missing key, because the key reads as `undefined`.

The three question editors enforce different option rules:
- the "Add Question" form requires every row to have text and exactly one
  row to be correct (`QuestionCreation.SaveCheckCases`);
- the set builder sends only the rows with text and requires at least two of
  them, at least one correct (`SetBuilder.OptionsCheckCases`);
- the edit dialog checks only that the question text is not blank
  (`QuestionEdit.Editor.Submit`).

File checks differ too. In the "Add Question" form a dropped file must have an
`image/` MIME type (`QuestionCreation.Form.Drop`), while a file chosen with the
file input is taken as it is (`QuestionCreation.Form.PickFile`). The 5 MiB
limit and the JPEG/PNG check exist only in the passport form
(`PassportForm.CheckFile`).

## Model

| member | source | states |
|---|---|---|
| AttendQuiz.InitialAnswers | src/pages/Quizz/attendQuizz.tsx:108-112 | the answer map has exactly one key per question id and every value is unset |
| AttendQuiz.AnsweredCount | src/pages/Quizz/attendQuizz.tsx:184 | the count of set answers never exceeds the map's size, and equals it exactly when every answer is set |
| AttendQuiz.Payload | src/pages/Quizz/attendQuizz.tsx:141-149 | the payload holds exactly the answered question ids, each mapped to its selected option |
| AttendQuiz.PayloadSize | src/pages/Quizz/attendQuizz.tsx:141-149 | the payload has one entry per answered question |
| AttendQuiz.PayloadComplete | src/pages/Quizz/attendQuizz.tsx:129-149 | once no answer is unset, the payload covers every key of the answer map |
| AttendQuiz.PayloadCoversQuestions | src/pages/Quizz/attendQuizz.tsx:141-149 | with every question answered, the payload has as many entries as there are questions |
| AttendQuiz.ExhaustedViews | src/pages/Quizz/attendQuizz.tsx:243-322 | with no attempt left, a passed user always sees "completed"; a user who has not passed sees "exhausted" before submitting and the in-progress view after |
| AttendQuiz.InProgressIff | src/pages/Quizz/attendQuizz.tsx:194-322 | the in-progress view is chosen exactly when loading is over, a status exists, and neither earlier branch applies |
| AttendQuiz.ForwardDisabledIff | src/pages/Quizz/attendQuizz.tsx:547-548 | the forward button is disabled only on the last question, and there exactly when that question is unanswered |
| AttendQuiz.Controller.Load | src/pages/Quizz/attendQuizz.tsx:90-122 | an empty route set id loads nothing; otherwise each successful request stores its reply, the answer map is initialised only when all three succeed, and loading ends |
| AttendQuiz.Controller.SelectOption | src/pages/Quizz/attendQuizz.tsx:124-126 | the chosen question's answer becomes the option and every other entry is unchanged |
| AttendQuiz.Controller.Submit | src/pages/Quizz/attendQuizz.tsx:128-170 | an unset answer or no attempt left stops before anything is sent; otherwise the route's set id and the payload of the answers are sent, a failure changes nothing, and a success stores the result, history and status and opens the result dialog on a pass; answers are never changed |
| AttendQuiz.Controller.Next | src/pages/Quizz/attendQuizz.tsx:172-176 | the index advances only when it is not the last, staying in range |
| AttendQuiz.Controller.Previous | src/pages/Quizz/attendQuizz.tsx:178-182 | the index goes back only when it is above zero, staying in range |
| Examinations.CollectExams | src/pages/Quizz/ExaminationPage.tsx:71-88 | the loop pushes one card per set whose status and history requests both succeeded, in list order |
| Examinations.CollectedAppend | src/pages/Quizz/ExaminationPage.tsx:71-88 | collecting distributes over concatenation, so the cards keep the order of their sets |
| Examinations.CollectedMembers | src/pages/Quizz/ExaminationPage.tsx:71-88 | a card is in the list exactly when it is the card of some fetched set |
| Examinations.CollectedLength | src/pages/Quizz/ExaminationPage.tsx:71-88 | there are never more cards than sets, and as many when every request succeeded |
| Examinations.EmptyAssignmentList | src/pages/Quizz/ExaminationPage.tsx:63-67 | no assigned sets give no examinations |
| Examinations.FetchData | src/pages/Quizz/ExaminationPage.tsx:58-97 | a failed first request keeps the list; otherwise the list is the collected cards of the assigned sets, a missing `assigned` being empty |
| Examinations.FooterBranches | src/pages/Quizz/ExaminationPage.tsx:242-276 | the footer is the start button exactly when an attempt is allowed, else the passed banner exactly when passed, else the no-attempts banner |
| Examinations.StartButtonText | src/pages/Quizz/ExaminationPage.tsx:249-256 | "Start Examination" exactly on a first attempt, "Take Another Attempt" otherwise; the remaining note exactly after a first attempt with attempts left, plural exactly when the count is not 1 |
| Examinations.GuidelinesOrCarousel | src/pages/Quizz/ExaminationPage.tsx:228-237 | the guidelines and the results carousel are never shown together |
| Choices.CountOneIff | src/pages/Quizz/QuestionCreation.tsx:94-97 | the correct count is 1 exactly when a single option, and only it, is marked correct |
| Choices.MarkedOnlyIsOnlyCorrect | src/pages/Quizz/QuestionCreation.tsx:70-73 | marking an in-range option leaves exactly that option correct |
| QuestionCreation.MarkOnlyCorrect | src/pages/Quizz/QuestionCreation.tsx:70-73 | each row is marked correct exactly when it is the chosen row, and every text is kept |
| QuestionCreation.SaveCheckCases | src/pages/Quizz/QuestionCreation.tsx:85-97 | the three rejections in order (set and text; two options with text; exactly one correct) each happen exactly under their condition, and the form passes exactly when none applies |
| QuestionCreation.QuestionType | src/pages/Quizz/QuestionCreation.tsx:51 | the question type is "image" exactly when an image is attached, "text" otherwise |
| QuestionCreation.Form.constructor | src/pages/Quizz/QuestionCreation.tsx:34-42 | the form starts with no set, no text, no image and two blank incorrect options |
| QuestionCreation.Form.SelectSet | src/pages/Quizz/QuestionCreation.tsx:145 | the set selector stores the chosen set's id |
| QuestionCreation.Form.EditQuestion | src/pages/Quizz/QuestionCreation.tsx:172 | the text area stores the typed question text |
| QuestionCreation.Form.AddOptionRow | src/pages/Quizz/QuestionCreation.tsx:64-66 | one blank incorrect row is appended and the length grows by one |
| QuestionCreation.Form.UpdateOption | src/pages/Quizz/QuestionCreation.tsx:68-78 | turning the switch on leaves only that row correct; editing text or turning the switch off changes only that field of that row |
| QuestionCreation.Form.RemoveOption | src/pages/Quizz/QuestionCreation.tsx:80-82 | exactly the row at the index is removed, the others keep their order |
| QuestionCreation.Form.SaveAll | src/pages/Quizz/QuestionCreation.tsx:47-116 | a rejected form changes nothing and sends nothing; an accepted form posts its set id, text, type and image, then, once that post returns an id, that id with every row; a success resets the form |
| QuestionCreation.Form.Drop | src/pages/Quizz/QuestionCreation.tsx:118-126 | a dropped file replaces the image exactly when its MIME type starts with "image/" |
| QuestionCreation.Form.PickFile | src/pages/Quizz/QuestionCreation.tsx:216 | the picked file, or none, becomes the image without any check |
| QuestionCreation.SavedQuestionShape | src/pages/Quizz/QuestionCreation.tsx:85-97 | an accepted form has at least two options, all with non-blank text, exactly one correct |
| QuestionEdit.InitialOptions | src/pages/Quizz/QuestionEditModal.tsx:24-30 | each server option becomes one editable row with the same id, text and flag; no options give no rows |
| QuestionEdit.Payload | src/pages/Quizz/QuestionEditModal.tsx:65-69 | each row becomes one server option, same length and order |
| QuestionEdit.PayloadOfInitial | src/pages/Quizz/QuestionEditModal.tsx:24-30 | submitting untouched rows sends back exactly the options loaded |
| QuestionEdit.InitialOfPayload | src/pages/Quizz/QuestionEditModal.tsx:65-69 | loading the options that were sent gives back the same rows |
| QuestionEdit.MarkOnlyCorrect | src/pages/Quizz/QuestionEditModal.tsx:34-35 | each row is marked correct exactly when it is the chosen row, nothing else changes |
| QuestionEdit.Editor.constructor | src/pages/Quizz/QuestionEditModal.tsx:17-30 | the dialog starts with the question's text (or "") and its options mapped to rows |
| QuestionEdit.Editor.EditText | src/pages/Quizz/QuestionEditModal.tsx:96 | the text area stores the typed question text |
| QuestionEdit.Editor.ChangeImage | src/pages/Quizz/QuestionEditModal.tsx:48-53 | a picked file replaces the new image, and picking nothing keeps it |
| QuestionEdit.Editor.UpdateText | src/pages/Quizz/QuestionEditModal.tsx:36 | only the text of the row at the index changes |
| QuestionEdit.Editor.UpdateCorrect | src/pages/Quizz/QuestionEditModal.tsx:34-35 | the chosen row becomes the only correct one, texts and ids are kept |
| QuestionEdit.Editor.AddOption | src/pages/Quizz/QuestionEditModal.tsx:40-41 | one blank incorrect row with the fresh id is appended |
| QuestionEdit.Editor.RemoveOption | src/pages/Quizz/QuestionEditModal.tsx:43-46 | removal is refused exactly when at most two rows remain; otherwise exactly that row goes |
| QuestionEdit.Editor.Submit | src/pages/Quizz/QuestionEditModal.tsx:55-76 | a blank text sends nothing; otherwise the text and any new image are sent, then the rows' payload only after the question was updated, and the outcome is "updated" exactly when both requests succeed |
| SetBuilder.ValidOptions | src/pages/Quizz/questionSetBuilder.tsx:113 | the valid rows are exactly the rows with non-blank text, never more than all rows |
| SetBuilder.OptionsCheckCases | src/pages/Quizz/questionSetBuilder.tsx:113-124 | fewer than two valid rows is rejected first, then no correct valid row, and the check passes exactly when neither applies |
| SetBuilder.ValidOptionsAppend | src/pages/Quizz/questionSetBuilder.tsx:113 | filtering keeps row order: a row added at the end is kept at the end exactly when it has text |
| SetBuilder.AllRowsSent | src/pages/Quizz/questionSetBuilder.tsx:113 | when every row has text, every row is sent |
| SetBuilder.SentOptionsShape | src/pages/Quizz/questionSetBuilder.tsx:113-124 | what is posted has at least two rows, all with text, at least one correct |
| SetBuilder.Builder.constructor | src/pages/Quizz/questionSetBuilder.tsx:34-45 | the builder starts with no question selected, the dialog closed and two blank rows |
| SetBuilder.Builder.QuestionCreated | src/pages/Quizz/questionSetBuilder.tsx:94-98 | a created question is selected and the options dialog opens |
| SetBuilder.Builder.AddOptionField | src/pages/Quizz/questionSetBuilder.tsx:156-158 | one blank incorrect row is appended |
| SetBuilder.Builder.RemoveOptionField | src/pages/Quizz/questionSetBuilder.tsx:160-164 | the row is removed only while more than two rows remain, the others keep their order |
| SetBuilder.Builder.UpdateOption | src/pages/Quizz/questionSetBuilder.tsx:166-170 | only the named field of the row at the index changes |
| SetBuilder.Builder.HandleAddOptions | src/pages/Quizz/questionSetBuilder.tsx:110-154 | no selection does nothing; a rejected check sends nothing; otherwise the valid rows are sent and a success resets the rows, clears the selection and closes the dialog |
| SetBuilder.Builder.Cancel | src/pages/Quizz/questionSetBuilder.tsx:466-477 | cancelling closes the dialog, resets the rows and clears the selection |
| UserAssignment.BuildAssignments | src/pages/Quizz/UserAssignment.tsx:73-84 | the loop builds the map that the rows define, later rows overwriting earlier ones |
| UserAssignment.AssignmentMapKeys | src/pages/Quizz/UserAssignment.tsx:76-79 | the map's keys are exactly the users that appear in the rows |
| UserAssignment.AssignmentMapLastWins | src/pages/Quizz/UserAssignment.tsx:76-79 | a user's entry is the set of that user's last row |
| UserAssignment.FindSet | src/pages/Quizz/UserAssignment.tsx:97 | the result is absent exactly when no set has the id, and otherwise is the first set with it |
| UserAssignment.AvailableSets | src/pages/Quizz/UserAssignment.tsx:113-115 | the available sets are exactly those whose category is the selected role |
| UserAssignment.AssignEnabledIff | src/pages/Quizz/UserAssignment.tsx:226-229 | the assign button is enabled exactly when that user is not being assigned and some set is available for the role |
| UserAssignment.Board.constructor | src/pages/Quizz/UserAssignment.tsx:27-33 | the screen starts with no sets or assignments, the "driver" role and nobody being assigned |
| UserAssignment.Board.FetchSets | src/pages/Quizz/UserAssignment.tsx:60-71 | the sets become the reply's list, or none on a failure or a missing `data` |
| UserAssignment.Board.SelectRole | src/pages/Quizz/UserAssignment.tsx:40-43 | choosing a role stores it and refetches that role's assignments |
| UserAssignment.Board.FetchAssignments | src/pages/Quizz/UserAssignment.tsx:73-84 | a reply replaces the map with the one its rows define; a failure keeps it |
| UserAssignment.Board.AssignSetToUser | src/pages/Quizz/UserAssignment.tsx:86-111 | only that user's entry can change, only to a known set; the message says re-assigned exactly when the user had an entry; nobody is left being assigned |
| PassportForm.FieldOrderComplete | src/components/forms/passport.tsx:41-56 | every form field appears in the serialisation order |
| PassportForm.FieldOrderDistinct | src/components/forms/passport.tsx:41-56 | no form field appears twice in the serialisation order |
| PassportForm.EmptyValues | src/components/forms/passport.tsx:41-56 | the form starts with every field present and empty |
| PassportForm.ValidateIff | src/components/forms/passport.tsx:77-92 | validation passes exactly when none of type, country code, number and full name is empty |
| PassportForm.OptionalFields | src/components/forms/passport.tsx:77-92 | the other ten fields never change the verdict |
| PassportForm.CheckFile | src/components/forms/passport.tsx:104-125 | a file is accepted exactly when it is at most 5 MiB and JPEG or PNG; the size is checked before the type |
| PassportForm.SizeBoundary | src/components/forms/passport.tsx:111 | exactly 5 MiB passes the size check, one byte more does not |
| PassportForm.BuildFormData | src/components/forms/passport.tsx:135-142 | the body holds every field under its own key in declaration order, then the photo and then the signature exactly when present |
| PassportForm.Form.constructor | src/components/forms/passport.tsx:41-64 | the form starts empty with no files and no error |
| PassportForm.Form.HandleChange | src/components/forms/passport.tsx:99-101 | the named field takes the value, the others are kept, the error is cleared |
| PassportForm.Form.SelectSex | src/components/forms/passport.tsx:237 | the sex selector writes its field and leaves the error as it was |
| PassportForm.Form.HandleFile | src/components/forms/passport.tsx:104-125 | the slot receives the file exactly when it is accepted and is emptied otherwise; the other slot is kept; a rejection sets its error, an acceptance clears it, no file leaves it |
| PassportForm.Form.Submit | src/components/forms/passport.tsx:127-168 | a failed validation sends nothing and sets the error; otherwise the body is sent: every field in declaration order, then the photo and the signature exactly when each is present; and the error is cleared on success and set on failure |
| Registration.Issues | src/pages/RegisterPage.tsx:22-34 | each rule is reported exactly when it fails: e-mail, phone of at least 10, name of at least 2, password of at least 6, role among driver, welder and student, and a password mismatch when the role is valid |
| Registration.AcceptedIff | src/pages/RegisterPage.tsx:22-34 | the schema accepts exactly the forms that meet every rule |
| Registration.MismatchOnConfirmPath | src/pages/RegisterPage.tsx:31-34 | a password mismatch is reported on the confirmation field |
| Registration.AdminCannotRegister | src/pages/RegisterPage.tsx:29 | the role "admin" is always rejected |
| Registration.DefaultRoleAccepted | src/pages/RegisterPage.tsx:51 | the default role "driver" passes the role rule |
| Registration.SubmitRequest | src/pages/RegisterPage.tsx:55-70 | a request is made exactly when the schema accepts, with the form's values and a registrable role |
| Auth.DashboardFor | src/contexts/AuthContext.tsx:44-59 | the four roles land on /dashboard/ followed by the role, any other role on /dashboard |
| Auth.Restored | src/contexts/AuthContext.tsx:16-25 | a session is recovered exactly when a non-empty token and a user are both stored |
| Auth.Session.constructor | src/contexts/AuthContext.tsx:11-13 | the provider starts signed out and loading |
| Auth.Session.Restore | src/contexts/AuthContext.tsx:16-25 | the stored session is taken only when both parts are stored; loading ends either way |
| Auth.Session.Login | src/contexts/AuthContext.tsx:27-65 | a success stores and sets the token and user and goes to the role's dashboard; a failure changes nothing and is reported |
| Auth.Session.Register | src/contexts/AuthContext.tsx:67-81 | a success records the e-mail awaiting verification and goes to the verification page; a failure changes nothing |
| Auth.Session.VerifyEmail | src/contexts/AuthContext.tsx:83-106 | without a pending e-mail it fails before any request; otherwise it sends the e-mail and code, and a success removes the pending entry and goes to the login page |
| Auth.Session.Logout | src/contexts/AuthContext.tsx:108-115 | token and user leave both storage and state, and the route is the login page |
| Navbar.Heads | src/components/ui/Navbar.tsx:28-31 | one character per non-empty word, its first, in word order |
| Navbar.Initials | src/components/ui/Navbar.tsx:27-34 | at most two characters, the upper-cased first letters of the first words in order, never a space |
| Navbar.Segments | src/components/ui/Navbar.tsx:37 | the segments are non-empty and hold no slash |
| Navbar.Breadcrumbs | src/components/ui/Navbar.tsx:36-50 | a path without segments gives exactly the Home crumb; otherwise one crumb per segment |
| Navbar.CrumbContents | src/components/ui/Navbar.tsx:44-45 | crumb i's title is segment i with its first letter upper-cased and its link is "/" and the first i+1 segments joined by "/" |
| Navbar.HrefExtends | src/components/ui/Navbar.tsx:44 | each link extends the previous one by a slash and the next segment |
| Navbar.HrefPrefixes | src/components/ui/Navbar.tsx:44 | every link is a proper prefix of every later one, so the links, which key the list, are distinct |
| Navbar.ExactlyOneCurrentPage | src/components/ui/Navbar.tsx:36-75 | the last crumb, and no other, is rendered as the current page, and every other crumb links to a strictly shorter path |
| Navbar.SegmentsOfPath | src/components/ui/Navbar.tsx:37 | a path written as a slash before each segment gives back its segments |
| Navbar.LastCrumbIsPage | src/components/ui/Navbar.tsx:43-44 | on such a path the last crumb links to the path itself |
| Sidebar.VisibleItems | src/components/Sidebar.tsx:62-64 | the visible entries are exactly the table entries whose roles include the user's role |
| Sidebar.NoUserNoItems | src/components/Sidebar.tsx:62-64 | signed out, no entry is visible |
| Sidebar.AdminSeesAll | src/components/Sidebar.tsx:24-55 | an administrator sees all five entries in table order |
| Sidebar.StudentView | src/components/Sidebar.tsx:24-55 | a student sees Dashboard, Passport Upload and Settings but neither Users nor Reports |
| Sidebar.PassportUploadHighlight | src/components/Sidebar.tsx:66-77 | on the passport upload page its entry is highlighted and the dashboard entry is not |
| Sidebar.LoginLandingHighlighted | src/components/Sidebar.tsx:67-74 | every page a login lands on highlights the dashboard entry |
| Seqs.Filter | src/pages/Quizz/questionSetBuilder.tsx:113 | `filter` keeps exactly the elements that pass, never more than there were |
| Seqs.RemoveAt | src/pages/Quizz/QuestionCreation.tsx:80-82 | removal by index keeps everything before and after the index, and removes nothing for an index outside |
| Text.Trim | src/pages/Quizz/QuestionCreation.tsx:85 | the trimmed text has no leading or trailing white space and is empty exactly when the text is all white space |
| Text.JoinSplit | src/components/ui/Navbar.tsx:37 | splitting and joining on the same separator gives back the text |
| Text.SplitJoin | src/components/ui/Navbar.tsx:44 | joining separator-free parts and splitting again gives back the parts |

## Left out

- Network requests, their timing and their concurrency: each reply is a parameter, and a request that would be discarded after navigating away is not modelled.
- Toasts, `alert`, console output, CSS, dialogs' rendering, icons and the theme toggle.
- File previews (`FileReader`, `URL.createObjectURL`) and the existing-image display of the edit dialog.
- JSON encoding of the stored user: the store keeps the user value itself, so `JSON.parse(JSON.stringify(u)) == u` is assumed by construction.
- `progressPercent` (floating-point division) in the quiz screen; percentages are exact reals compared with 70.
- The order of `Object.entries` in the quiz payload: the payload is a map from question id to option id.
- AttendQuiz.Controller.Submit: `question_set_id` is sent as the route's set id string; the `Number(...)` conversion of it is not modelled.
- The e-mail format check of the schema library: it is a boolean parameter of `Registration.Issues`.
- String lengths are counted in characters, not UTF-16 code units, and `toUpperCase` is modelled for ASCII letters only.
- QuestionCreation.Form.UpdateOption: an out-of-range index for a text edit or for turning the switch off is excluded by its precondition, because the source then writes a new element past the end of the array.
- QuestionEdit.Editor.UpdateText: requires an index in range, because the source writes into the row object at that index, which fails for a missing row.
- SetBuilder.Builder.UpdateOption: requires an index in range, for the same reason as QuestionCreation.Form.UpdateOption.
- The row-object aliasing of the edit dialog and the "Add Question" form, whose updates mutate the previous array's row objects in place, is not modelled; rows are values.
- The logout, login and verification routes are recorded as the target route; the router and the pages it shows are not part of this model.
- The user list fetch of the assignment screen, and the question-list fetches of the set builder, are display-only and are not modelled.
