# Self-sense and device-pairing screens: rules model in Dafny

This project models the small deterministic rules inside a React Native health
self-assessment and device-pairing demo app. All of it is pure functions over
immutable datatypes, with the properties proved as contracts and lemmas.

- **Questionnaire catalog and risk scoring** (`catalog.dfy`, `scoring.dfy`).
  - The catalog is a Dafny constant holding the five conditions (diabetes,
    hypertension, lung cancer, stress, vision), their questions, the
    score-weighted options and the three-band threshold table.
  - Scoring sums the chosen option scores. It flags every answer scoring 5 or
    more as a risk factor: "high" at 10 or more, "moderate" otherwise. It then
    picks the first threshold whose range holds the total, or the first
    threshold when none does.
- **Questionnaire session** (`questionnaire.dfy`). This covers loading the
  questions of the chosen condition, the completion flag, recording one answer
  per question with auto-advance, the next and previous arrows, submit routing
  on the risk-level string, and reset.
- **User profiles** (`profiles.dfy`). This covers the active user with its
  fallback, the add and edit forms, validated save (create with id = max + 1,
  or update the active user), selecting a user, and the confirmed delete.
- **Device enable switch** (`devices.dfy`). Toggling flips `isEnabled` and
  brings `isOnline` and the status text along with it.
- **Permission dialogs** (`permissions.dfy`). This covers the request,
  "denied" and "device added" modals, and the session-wide "handled" flag.
- **Card accordion** (`accordion.dfy`, `selfsense.dfy`, `selfsense_legacy.dfy`).
  At most one card is expanded at a time. In the newer screen, tapping a
  condition hands its id and label on unchanged.
- **Font-weight lookup** (`fonts.dfy`). Each weight selects its Outfit font
  family. An omitted weight, or an unknown weight that is not the name of an
  inherited object property, gives the regular family.

Modelling conventions:

- Each event handler is one atomic step. A handler's `setTimeout` follow-up
  happens within that same step.
- The questionnaire's completion effect runs right after any step that changes
  the answers or the questions.
- Answers are keyed by the numeric question id. The only keys the screen ever
  writes are ids of loaded questions.
- A dialog button can only be pressed while its modal is shown.
  `PermissionDialog.Step` therefore applies a handler only when the handler is
  enabled. The handlers themselves are unconditional, as in the source.
- The scorer (`Questionnaires.jsx`, lines 397-430) does not reject an empty
  question list. Such a list scores 0, which is "Low Risk". Submission never
  happens with no questions, because the completion flag stays false.
- `maxPossibleScore` is the declared `total_possible_score` (40). It is not
  computed from the questions. `HealthCatalog.CatalogInvariants` proves that it
  equals the best total of every condition.

## Model

| member | source | states |
|---|---|---|
| HealthCatalog.FindInCategory | Task3/src/screens/SelfSense/Questionnaires.jsx:332 | finds the first condition with the id, and finds nothing iff no condition has it |
| HealthCatalog.FirstHolder | Task3/src/screens/SelfSense/Questionnaires.jsx:329-336 | the index of the first category holding the id: every earlier category holds nothing with it, and when it is in range that category does |
| HealthCatalog.FindCondition | Task3/src/screens/SelfSense/Questionnaires.jsx:329-338 | the category loop finds a condition with the requested id iff some category lists one, and the one found is the first match of the first category holding the id (the loop breaks there) |
| HealthCatalog.LookupFindsExactlyCatalogIds | Task3/src/screens/SelfSense/Questionnaires.jsx:329-346 | lookup succeeds exactly for diabetes, hypertension, lung_cancer, stress and vision; every other id takes the not-found path |
| HealthCatalog.CatalogInvariants | Task3/src/screens/SelfSense/Questionnaires.jsx:21-309 | each catalog condition has 4 questions with distinct ids and at least one option each, option scores lie in [0,10], and the best answers total exactly total_possible_score = 40 |
| QuestionnaireSession.LookupQuestions | Task3/src/screens/SelfSense/Questionnaires.jsx:329-338 | the for-of loop with `find` and `break` reports found iff the catalog has the id, with that condition's questions |
| QuestionnaireSession.LoadQuestions | Task3/src/screens/SelfSense/Questionnaires.jsx:329-346 | loading fails (alert, go back) iff the id is not a catalog id; otherwise it loads that catalog condition's questions |
| QuestionnaireSession.Mount | Task3/src/screens/SelfSense/Questionnaires.jsx:316-324 | missing route params default to diabetes/Diabetes; the session starts with no questions, no answers, index 0 and the flag off |
| QuestionnaireSession.MountIsValid | Task3/src/screens/SelfSense/Questionnaires.jsx:321-324 | the freshly mounted session satisfies the session invariant |
| QuestionnaireSession.SyncCompletion | Task3/src/screens/SelfSense/Questionnaires.jsx:348-354 | once questions are loaded, the flag is on iff the answer count equals the question count; with no questions the flag is left unchanged |
| QuestionnaireSession.HandleSelect | Task3/src/screens/SelfSense/Questionnaires.jsx:366-375 | stores or overwrites exactly one entry, for the given question id, and leaves every other answer alone; the count grows by one only for a new question; the index advances by one iff it was not on the last question |
| QuestionnaireSession.GoToNextQuestion | Task3/src/screens/SelfSense/Questionnaires.jsx:377-382 | moves forward by one unless already on the last question; route params, questions, answers and flag untouched |
| QuestionnaireSession.GoToPrevQuestion | Task3/src/screens/SelfSense/Questionnaires.jsx:384-389 | moves back by one unless already on the first question; route params, questions, answers and flag untouched |
| QuestionnaireSession.ResetQuestionnaire | Task3/src/screens/SelfSense/Questionnaires.jsx:450-456 | answers empty, index 0, flag off once questions are loaded, questions kept |
| QuestionnaireSession.RouteFor | Task3/src/screens/SelfSense/Questionnaires.jsx:439-446 | "Low Risk" routes to LowRisk and "Moderate Risk" to ModerateRisk; any other string routes to HighRisk |
| QuestionnaireSession.HandleSubmit | Task3/src/screens/SelfSense/Questionnaires.jsx:433-447 | submit does nothing iff the completion flag is off; otherwise it navigates with exactly the reference assessment of the session (score, risk factors, level, message, colour and max score from the shipped risk logic), routed on its level |
| QuestionnaireSession.LoadKeepsValid | Task3/src/screens/SelfSense/Questionnaires.jsx:329-354 | a successful load yields a valid session, because every catalog condition meets the invariant |
| QuestionnaireSession.StepKeepsValid | Task3/src/screens/SelfSense/Questionnaires.jsx:366-389 | choosing an option, next, prev and reset keep the session invariant: distinct question ids, option scores in [0,10], a best total of at most 40, the index in [0, len-1], answers only for loaded questions and drawn from their options, and the flag in step with the answers |
| QuestionnaireSession.AnsweredCountBounded | Task3/src/screens/SelfSense/Questionnaires.jsx:348-354 | with distinct question ids, the answered count equals the question count iff every question is answered |
| QuestionnaireSession.SubmitGatedOnCompletion | Task3/src/screens/SelfSense/Questionnaires.jsx:433-434 | in a valid session, submit navigates iff questions are loaded and every one is answered |
| QuestionnaireSession.SubmitRoutesByScore | Task3/src/screens/SelfSense/Questionnaires.jsx:439-446 | in a valid session with the flag set, submit navigates, the score lies in [0,40], and the route is LowRisk iff the score is 10 or less, ModerateRisk iff it is 11..25, and HighRisk iff it is 26 or more |
| RiskScoring.CalculateRiskAssessment | Task3/src/screens/SelfSense/Questionnaires.jsx:397-430 | the imperative forEach and find loops compute exactly the reference assessment |
| RiskScoring.Assess | Task3/src/screens/SelfSense/Questionnaires.jsx:397-430 | the level, message and colour come from the first threshold whose range holds the total, or from the first threshold when none does; the total and risk factors are those of the answers; name and max score are passed through |
| RiskScoring.FindThreshold | Task3/src/screens/SelfSense/Questionnaires.jsx:416-418 | returns the first threshold with range_min <= total <= range_max, and none iff no threshold matches |
| RiskScoring.SelectThreshold | Task3/src/screens/SelfSense/Questionnaires.jsx:415-419 | the first matching threshold, or thresholds[0] when none matches |
| RiskScoring.TotalScoreAppend | Task3/src/screens/SelfSense/Questionnaires.jsx:398-404 | the total is additive over any split of the question list |
| RiskScoring.RiskFactorsAppend | Task3/src/screens/SelfSense/Questionnaires.jsx:401-412 | risk factors of a split list are those of the first part followed by the second: question order is kept |
| RiskScoring.UnansweredContributeNothing | Task3/src/screens/SelfSense/Questionnaires.jsx:401-404 | unanswered questions add no score and no risk factor, so an empty answer set scores 0 with no risk factors |
| RiskScoring.RiskFactorsSound | Task3/src/screens/SelfSense/Questionnaires.jsx:405-410 | every risk factor comes from an answered question with score >= 5, carries its question and answer text, and has severity high iff the score is >= 10 |
| RiskScoring.RiskFactorsComplete | Task3/src/screens/SelfSense/Questionnaires.jsx:405-410 | every answered question with score >= 5 contributes its risk factor |
| RiskScoring.TotalScoreBounded | Task3/src/screens/SelfSense/Questionnaires.jsx:401-404 | answers drawn from the questions' options total between 0 and the sum of the questions' best scores |
| RiskScoring.ShippedThresholdsPartition | Task3/src/screens/SelfSense/Questionnaires.jsx:281-308 | the shipped ranges start at 0, are contiguous, end at 40, and every score in [0,40] matches exactly one threshold |
| RiskScoring.ShippedRiskLevels | Task3/src/screens/SelfSense/Questionnaires.jsx:283-307 | the level is Low iff the total is <= 10 or > 40, Moderate iff it is in 11..25, and High iff it is in 26..40; the 10/11 and 25/26 boundaries are exact |
| RiskScoring.CatalogScoresNeverFallBack | Task3/src/screens/SelfSense/Questionnaires.jsx:415-419 | any catalog condition answered from its own options totals within [0,40], so some threshold always matches and the thresholds[0] fallback never fires |
| RiskScoring.DiabetesHighRiskScenario | Task3/src/screens/SelfSense/Questionnaires.jsx:26-79 | Diabetes answered 10, 10, 0, 10 totals 30, is High Risk, and has three risk factors |
| UserProfiles.FindUser | Task3/src/screens/SelfSense/PersonalDetails.jsx:45 | finds the first user with the id, and finds nothing iff no user has it |
| UserProfiles.ActiveUser | Task3/src/screens/SelfSense/PersonalDetails.jsx:45 | the user whose id is the active id when there is one; otherwise users[0] |
| UserProfiles.MaxId | Task3/src/screens/SelfSense/PersonalDetails.jsx:99 | an id of the list that no id of the list exceeds |
| UserProfiles.NextId | Task3/src/screens/SelfSense/PersonalDetails.jsx:98-99 | one more than the largest id, or 1 for an empty list; it is fresh |
| UserProfiles.OpenAddUserModal | Task3/src/screens/SelfSense/PersonalDetails.jsx:66-70 | the form becomes empty name, age and phone with gender "female", in create mode |
| UserProfiles.OpenEditUserModal | Task3/src/screens/SelfSense/PersonalDetails.jsx:72-81 | the form becomes a copy of the active user's name, age, gender and phone, in edit mode |
| UserProfiles.UpdateUsers | Task3/src/screens/SelfSense/PersonalDetails.jsx:91-95 | users with the active id take the form's four fields; every user keeps its id and email, and all others are unchanged |
| UserProfiles.HandleSaveUser | Task3/src/screens/SelfSense/PersonalDetails.jsx:83-110 | an empty name or age changes nothing; an edit updates in place; a create appends one user with id max + 1 (1 for an empty list), which is fresh, the form's fields and email "", and makes it active; the edit/create mode is never changed |
| UserProfiles.UpdateChangesOnlyActiveUser | Task3/src/screens/SelfSense/PersonalDetails.jsx:89-95 | an update keeps length, order, ids and every other user, and the active user becomes its old self with the form applied |
| UserProfiles.SelectUser | Task3/src/screens/SelfSense/PersonalDetails.jsx:260-263 | tapping a listed user makes its id the active id; users, form, edit mode and modal visibility are unchanged |
| UserProfiles.RemoveId | Task3/src/screens/SelfSense/PersonalDetails.jsx:127 | the kept users are exactly those whose id differs, and no more than before |
| UserProfiles.RemoveIdAppend | Task3/src/screens/SelfSense/PersonalDetails.jsx:127 | removal distributes over concatenation, so the kept users stay in list order |
| UserProfiles.RemoveIdFirstKept | Task3/src/screens/SelfSense/PersonalDetails.jsx:127-130 | the first kept user is the first user in the list whose id differs |
| UserProfiles.ConfirmRemoveUser | Task3/src/screens/SelfSense/PersonalDetails.jsx:112-131 | refused with at most one user; otherwise removes that id and leaves the list non-empty; removing the active user activates the first user in the old list whose id differs, and removing any other leaves the active id; form, edit mode and modal are never touched |
| UserProfiles.RemoveIdKeepsOthers | Task3/src/screens/SelfSense/PersonalDetails.jsx:127-130 | with unique ids, the removal keeps ids unique and drops exactly one user when the id is present |
| UserProfiles.InitialIsValid | Task3/src/screens/SelfSense/PersonalDetails.jsx:33-44 | the initial list is valid: one user, id 1, active |
| UserProfiles.StepKeepsValid | Task3/src/screens/SelfSense/PersonalDetails.jsx:66-131 | every screen event keeps ids unique, the list non-empty and the active id resolving |
| DeviceToggle.StatusFor | Task5/Src/Screens/MyDevicePage.jsx:51 | "Connected" iff enabled, "Disconnected" iff not |
| DeviceToggle.Flip | Task5/Src/Screens/MyDevicePage.jsx:43-52 | flips isEnabled, makes isOnline equal to it with the matching status, and keeps id, name, icon and colour |
| DeviceToggle.ToggleSwitch | Task5/Src/Screens/MyDevicePage.jsx:40-57 | length and order are kept; devices with the id are flipped and consistent; every other device is unchanged |
| DeviceToggle.InitialDevicesConsistent | Task5/Src/Screens/MyDevicePage.jsx:18-37 | both initial devices have isOnline == isEnabled and the matching status |
| DeviceToggle.ToggleKeepsConsistent | Task5/Src/Screens/MyDevicePage.jsx:40-57 | toggling keeps every device consistent |
| DeviceToggle.ToggleAbsentIsNoOp | Task5/Src/Screens/MyDevicePage.jsx:41-55 | toggling an id no device has changes nothing |
| DeviceToggle.ToggleTwiceRestores | Task5/Src/Screens/MyDevicePage.jsx:40-57 | toggling the same id twice restores a consistent list |
| PermissionDialog.Mount | Task5/Src/Screens/DevicePage.jsx:17-26 | on mount the request modal is visible iff the flag is not set, and the other two are hidden |
| PermissionDialog.Remount | Task5/Src/Screens/DevicePage.jsx:16-24 | remounting keeps the flag and rebuilds the modals from it |
| PermissionDialog.RequestClose | Task5/Src/Screens/DevicePage.jsx:92-154 | hardware back closes the denied modal or the added modal and leaves the others alone; with only the request shown it changes nothing; the flag is never touched |
| PermissionDialog.Step | Task5/Src/Screens/DevicePage.jsx:30-154 | Allow opens device-added, either Deny opens the denied modal, OK opens device-added, Finalize closes it and sets the flag; hardware back closes the denied or added modal and does nothing on the request; each closes the modal it came from; a button on a hidden modal does nothing |
| PermissionDialog.StepKeepsAtMostOneVisible | Task5/Src/Screens/DevicePage.jsx:17-154 | mounting and every step keep at most one modal visible |
| PermissionDialog.RunKeepsAtMostOneVisible | Task5/Src/Screens/DevicePage.jsx:30-154 | after any sequence of user actions at most one modal is visible |
| PermissionDialog.FlagOnlySetByFinalize | Task5/Src/Screens/DevicePage.jsx:49-52 | after a step the flag is set iff it was set before or the step was Finalize on the visible device-added modal; hardware back never sets it |
| PermissionDialog.HandledStaysHandled | Task5/Src/Screens/DevicePage.jsx:22-24 | once set, the flag stays set, and a freshly mounted page shows no modal |
| PermissionDialog.FlowsReachFinalize | Task5/Src/Screens/DevicePage.jsx:31-52 | Allow then Finalize, and Deny then OK then Finalize, both end with no modal and the flag set; Deny then back ends unflagged, so the request shows again on remount |
| Accordion.ToggleCard | Task3/src/screens/SelfSense/SelfSense.jsx:152-155 | the tapped card becomes open iff it was not; no other card is open afterwards; the result is null iff the card was open |
| Accordion.AtMostOneOpen | Task3/src/screens/SelfSense/SelfSense.jsx:78 | two open cards are the same card |
| Accordion.FooterLabel | Task3/src/screens/SelfSense/SelfSense.jsx:139 | "Close Checks" iff open, "Explore Checks" iff closed |
| SelfSenseScreen.RenderCard | Task3/src/screens/SelfSense/SelfSense.jsx:78-144 | a card is open iff it is the expanded card; its grid, footer label, arrow rotation and active style all follow that |
| SelfSenseScreen.OnlyExpandedCardRendersGrid | Task3/src/screens/SelfSense/SelfSense.jsx:118-130 | with distinct card ids, the items on screen are exactly the expanded card's items |
| SelfSenseScreen.ShippedCardsRenderOnlyExpanded | Task3/src/screens/SelfSense/SelfSense.jsx:218-296 | on the four shipped cards, the items on screen are exactly the expanded card's items |
| SelfSenseScreen.HandleConditionSelect | Task3/src/screens/SelfSense/SelfSense.jsx:160-165 | the tapped item's id and label are passed unchanged as conditionId and conditionName |
| SelfSenseScreen.HandOffFindsQuestionsIffCatalog | Task3/src/screens/SelfSense/SelfSense.jsx:160-165 | a handed-off condition reaches the questionnaire unchanged, and finds questions iff its id is a catalog id |
| SelfSenseScreen.OfferedConditionsAndCatalog | Task3/src/screens/SelfSense/SelfSense.jsx:228-295 | 24 conditions are offered; exactly 5 of them (diabetes, hypertension, lung_cancer, stress, vision) have catalog questions, and every catalog id is offered |
| LegacySelfSenseScreen.Chevron | Task3/src/screens/SelfSense.jsx:105-107 | "chevron-up" iff open, "chevron-down" iff closed |
| LegacySelfSenseScreen.RenderCard | Task3/src/screens/SelfSense.jsx:74-113 | an open card renders its captions, "Close Checks" and "chevron-up"; a closed card renders no grid, "Explore Checks" and "chevron-down" |
| LegacySelfSenseScreen.AtMostOneGridRendered | Task3/src/screens/SelfSense.jsx:89-95 | for any expanded value, no two cards render their grids |
| LegacySelfSenseScreen.TapFlipsOnlyThatCard | Task3/src/screens/SelfSense.jsx:47-49 | tapping a footer flips that card's label and chevron and closes every other card |
| FontWeights.FontFamily | Task1/Components/TextWrapper.jsx:51 | always one of the nine fontMap families, named "Outfit_" plus the weight for a known weight; an omitted or unknown weight gives Outfit_400Regular |
| FontWeights.WeightsSelectMatchingFamily | Task1/Components/TextWrapper.jsx:17-27 | the map has exactly the keys 100..900, each weight selects its own Outfit family, and distinct weights select distinct families |

## Left out

- Styling, layout, gradients, icons, images, SVGs, Lottie, `Animated` and
  `LayoutAnimation`: presentational only. The arrow rotation is modelled only
  as its end value (0 or 180 degrees).
- `setTimeout` delays: each handler and its delayed follow-up are one atomic
  step. Interleavings inside the 250 ms auto-advance window are not modelled.
  One example is pressing "next" before the delayed increment lands.
- `progressPct`: a floating-point progress percentage used only for display.
- Alerts, modal presentation, the confirmation dialog before a delete (only the
  confirmed delete is modelled), and navigation calls. Navigation is modelled
  only as the parameters passed on and the result screen chosen. Reset's
  navigation back to the selection screen is not modelled.
- `colorCode` is carried into the assessment but nothing is proved about it.
- Profile-list expansion (`isProfileExpanded`), free-text form edits
  (`handleFormChange`), and closing the form with Cancel: plain UI state.
- Font loading (`useFonts`) and the loading spinner: asynchronous asset I/O.
- Persisting assessments to a user's history: that code is not part of this
  model.
- AddDevicePage, FindDeviceResultPage, SelfSenseHome, HealthCard,
  ConditionGrid, ReportBanner, ResultBottomMenu, the three result screens and
  the Task1 result screens: static mock data and display-only components.
- UserProfiles.OpenEditUserModal: phone is modelled as a string on every
  record, since every code path stores one. The `phone || ""` fallback is
  therefore the identity here.
- UserProfiles.ConfirmRemoveUser: requires unique ids, the invariant every
  reachable state has. With duplicate ids, `updatedUsers[0]` could be
  undefined.
- FontWeights.FontFamily: weights are modelled as strings looked up in the nine
  fontMap keys only. A weight naming an inherited object property such as
  "toString" or "constructor" makes `fontMap[weight]` a truthy non-font value in
  the source. The model gives it the regular family instead.
- FontWeights.FontFamily: a weight is modelled by its string form. A numeric
  prop such as `700` becomes the same object key, "700".
