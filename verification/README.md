# Face unlock and alert slider: a verified model

This project models the state machines of the device tree's vendor code in Dafny and proves what they keep over whole
runs. Most of it is about the face-unlock HAL in `aidl/face`:

- **The session engine** (`FaceHal.dfy`, `FaceHalReports.dfy`, `FaceHalLockout.dfy`, `FaceHalOwnership.dfy`,
  `FaceHalOutcomes.dfy`, `FaceHalLeftovers.dfy`, `FaceHalHistory.dfy`, `FaceHalAttempts.dfy`, `FaceHalRecord.dfy`,
  `FaceHalGuidance.dfy`, `FaceService.dfy`). Any number of users and sessions share one enrolment record, one template,
  one lockout map, one camera and one hardware lock. `FaceHal` says what each operation does to that state, with the
  environment's answers (frames and what the engine says about them, the cancel flag, clock readings, storage and camera
  results) as parameters of the step, and with every callback in a trace. `FaceService.Service` is the same engine in
  the source's imperative form, an object with the record file's text, the lockout map, the challenge sets, the camera
  and the st_auth engine as fields; every method is proved to take its state as `FaceHal` says. The other files prove
  what every operation reports and what runs guarantee.
- **The four frame loops** (`EnrollLoop.dfy`, `AuthLoop.dfy`, `AuthEngine.dfy`), each a loop with the source's own
  local variables, proved equal to a declarative reading of the whole frame sequence.
- **The camera** (`Camera.dfy`, `Nv21.dfy`, `Preview.dfy`): handles, the one-frame mailbox under any interleaving, the
  YUV repacking and the preview's geometry and drawing.
- **Face detection** (`FaceDetect.dfy`), **the trusted-app clients** (`TeeSessions.dfy`, `FaceTee.dfy`), and **the
  enrolment record's text** (`EnrollmentRecord.dfy`, over the decimals of `Decimal.dfy`).
- **The alert slider dialog** (`AlertSlider.dfy`): the handler over a timed message queue.

`Callbacks.dfy` holds the callbacks, `Traces.dfy` the traces, `Wrappers.dfy` optional values and
the outcomes of a file write.

## Where the code does not do what one would expect

Each of these is proved, with the exact condition under which the expectation holds:

- A start that creates its capture session output (output target) although the container (request) could not be created
  leaves that handle behind: `stop` frees it only with its owner, and the creations are not checked.
  `Camera.NothingHeldIff`, `FaceHalOutcomes.OneOutcomePerOperation`; `Camera.UnpairedTargetLeaks` is an instance.
- A record always has the template of its own enrolment, except after its owner's `removeEnrollments` took the template
  but not the record (`FaceHalOwnership.CoupledIff`).
- A template is left without a record exactly by an enrolment that fails with something stored and not cleaned up, and
  by the owner's `setFeature` or `invalidateAuthenticatorId` whose write loses the record file
  (`FaceHalLeftovers.OrphanIff`).
- An st_auth record has a readable face id, except after an enrolment that completed with a negative face id, and after
  an owner's removal that did not delete the record: the face id goes first (`FaceHalLeftovers.FaceIdIff`,
  `AuthEngine.FaceIdRoundTrip`). Such an enrolment stays listed and cannot unlock until it is removed
  (`FaceHalLeftovers.FailedRemovalDisables`, `FaceHalLeftovers.DisabledUntilDeleted`).
- `onEnrollmentsRemoved` is reported whether or not the record file could be deleted, and
  `onAuthenticatorIdInvalidated` whether or not the new id could be stored (`FaceHalOutcomes.RemovalReportTrueIff`,
  `FaceHalOutcomes.InvalidationReportTrueIff`).
- An unlock can follow a removal that its user was told of: with the trusted app, which keeps its template to itself, an
  attempt whose answers grant it unlocks as long as the record file could not be deleted
  (`FaceHalHistory.StandsIff`, `FaceHalHistory.AttemptJustifiedIff`; `FaceHalHistory.RemovedUnlocks` is an instance).
- With the trusted app, a record whose template is gone can be got rid of only by a removal that reports success, or by
  a failed write that loses it. Where the app answers a removal from an empty slot with an error and no write loses the
  record, it stays for good, and its owner's removals and all new enrolments are refused (`FaceHalLeftovers.StuckIff`,
  `FaceHalLeftovers.StuckForGood`).
- A permanent lockout ends without any `resetLockout` when the process restarts
  (`FaceHalLockout.RestartClearsLockout`; within a process it does not, `FaceHalLockout.PermanentUntilReset`).
- The preview's four maps are mirrored, so they do not compose to one another as rotations do: the turns behind them are
  a cyclic group of order four (`Preview.TurnsCompose`), but doing two of the mirrored maps in a row is one of the four
  again exactly when the square has at most one pixel (`Preview.DisplaysComposeIff`); each undoes itself
  (`Preview.MirroredTurnsCompose`). The four crops coincide exactly when width minus height is even
  (`Preview.CropsAgreeIff`).
- A slider change is always recorded, but it is not shown exactly when the dialog is showing and its dismissal is due,
  ahead in the queue of every update and of every recreation that will take effect (`AlertSlider.SliderChangeShownIff`,
  with an instance in `AlertSlider.LostChange`).
- A request fits the trusted app's shared buffer exactly up to a payload of 819087 bytes; the client does not check
  (`FaceTee.FitsIff`).

## Reading the model

- Times are integers in milliseconds, scores are real numbers. Record fields have the source's widths: 32-bit user and
  enrolment ids, a 64-bit authenticator id.
- A run is any sequence of steps in which users are not negative, the clock does not run backwards and random ids lie in
  their ranges (`FaceHal.Legal`). Whether the st_auth engine is installed and whether the TEE is used is fixed for a run.
- A process starts with no lockouts, no challenges and an idle camera (`FaceHal.Booted`); the record file, the template
  and the face id are whatever is on disk, an older four-field record or the record of another engine included. Results
  about what is on disk assume of the start only the property itself, so they carry over from process to process
  (`FaceHal.Lived`). The template of a state is the one in the store of the engine in use.
- `FaceHalRecord`'s results over runs start from a record as any file the source writes loads: with a user, or the empty
  one (`FaceHalRecord.Plain`).
- The preview is defined for sensor orientations that are multiples of 90 degrees, as sensors report them.
- A write of the record works, fails and leaves no file, or cannot even open the file and leaves the old one
  (`Wrappers.Saving`). A template removal that reports success has removed the template; one that reports failure may or
  may not have. A failed store may leave any template.
- The trusted app and the st_auth engine are asked to compare whether or not they hold a template, and may answer
  anything; only a comparison in this process is known to need one.
- `owner` and `enrolled` in `FaceHal.State` are history: they say who enrolled the template and what feature the record's
  enrolment extracted. No operation reads them.

## Model

| member | source | states |
|---|---|---|
| `FaceHalLockout.LockoutOverRuns` | aidl/face/Session.cpp:361-388 | In every state a process reaches from whatever is on disk, and for every user, the stored failure count is the number of failures reported since the user's last success or reset, at most 20, and the i-th and j-th of them (from 0) are at least 30 s * (j/5 - i/5) apart, for every interleaving of users and sessions |
| `FaceHalLockout.StepTracks` | aidl/face/Session.cpp:125-134 | Any legal operation of any session keeps that agreement between tracker and trace, for every user |
| `FaceHalLockout.FailureTracked` | aidl/face/Session.cpp:377-388 | Counting one more failure of an attempt that was not locked out keeps the spacing and starts a 30 s lockout at every fifth |
| `FaceHalLockout.TimedLockoutRefuses` | aidl/face/Session.cpp:361-375 | Less than 30 s after the 5th, 10th or 15th failure an attempt is refused without starting the camera, and is told a lockout that covers those 30 s and is at most 30 s long |
| `FaceHalLockout.PermanentLockoutRefuses` | aidl/face/Session.cpp:361-375 | With 20 failures an attempt is answered with onLockoutPermanent whatever the environment says, and leaves camera, record and template alone |
| `FaceHalLockout.PermanentUntilReset` | aidl/face/Session.cpp:361-388 | Over any continuation of a run without a resetLockout of the user, a permanently locked-out user's tracker and failures stay exactly as they are |
| `FaceHalLockout.OtherOperationSameLockout` | aidl/face/Session.cpp:613-706 | No operation except an attempt, or the user's own reset, changes a user's lockout |
| `FaceHalLockout.OthersAttempt` | aidl/face/Session.cpp:390-473 | An attempt of another user does not change a user's lockout |
| `FaceHalOwnership.OthersNeverInterfere` | aidl/face/Session.cpp:253-258 | While user u is enrolled, any run of other users' operations leaves the record, the template, the face id and u's lockout entry unchanged |
| `FaceHalOwnership.OthersChangeNothing` | aidl/face/Session.cpp:390-395 | The same for one operation |
| `FaceHalOwnership.CoupledIff` | aidl/face/Session.cpp:625-643 | A step loses the pairing of record and template exactly when it is the owner's removal that takes the template but not the record |
| `FaceHalOwnership.CoupledOverRuns` | aidl/face/Session.cpp:335-349 | From a start where record and template are paired, in every state reached without such a removal an existing record has a stored template: the feature extracted by the enrolment that created that record, of the same user |
| `FaceHalOwnership.OwnTemplateOverRuns` | aidl/face/Session.cpp:253-258 | In every state reached from data where it holds, whatever removals did, a template beside a record is that of the record's own enrolment and user |
| `FaceHalOwnership.OwnTemplateOverLives` | aidl/face/Session.cpp:97-112 | The same through any number of processes, each starting from what the ones before left on disk |
| `FaceHalOwnership.StepKeepsOwnTemplate` | aidl/face/Session.cpp:253-258 | The same for one operation |
| `FaceHalOwnership.ComparisonsAreOwners` | aidl/face/Session.cpp:390-395 | An attempt that compares a frame compares it with the template that its own user enrolled; only an engine outside the process can be asked without a template, and only after a broken removal or from unpaired data |
| `FaceHalOwnership.NoTemplateNoVerdict` | aidl/face/Session.cpp:187-199 | Where the process reads the template itself, a missing template means neither an unlock nor a counted failure |
| `FaceHalOwnership.AuthenticatedKeeps` | aidl/face/Session.cpp:390-473 | An attempt changes neither the record, the template, the face id nor any challenge |
| `FaceHalOwnership.EnrolledCouples` | aidl/face/Session.cpp:242-353 | An enrolment that finds nobody enrolled leaves no record without its own template, on either engine and every error path; any other leaves both alone |
| `FaceHalOwnership.RemovalData` | aidl/face/Session.cpp:625-643 | A removal takes the template, the face id and the record separately, and only for their owner |
| `FaceHalOwnership.OtherData` | aidl/face/Session.cpp:659-698 | Every operation but enrolment and removal keeps template and enrolment, unless a failed write loses the record file |
| `FaceHalLeftovers.OrphanIff` | aidl/face/Session.cpp:335-349 | A step leaves a template without a record exactly when it is an enrolment that fails with something stored and not cleaned up, or the owner's change of flag or id whose write loses the record |
| `FaceHalLeftovers.TogetherOverRuns` | aidl/face/Session.cpp:155-185 | Without such steps and without broken removals, record and template exist together in every reachable state, and belong together |
| `FaceHalLeftovers.FaceIdIff` | aidl/face/AuthEngine.cpp:294-305 | A step leaves an st_auth record without a readable face id exactly when it is an enrolment that succeeds with a negative face id, or an owner's removal that does not delete the record |
| `FaceHalLeftovers.FaceIdOverRuns` | aidl/face/AuthEngine.cpp:251-257 | Without such steps every st_auth record of the engine in use can be authenticated against, in every reachable state |
| `FaceHalLeftovers.FailedRemovalDisables` | aidl/face/Session.cpp:635-638 | After the owner's removal fails with the st_auth engine the enrolment is still listed, and no attempt, whatever the answers, unlocks |
| `FaceHalLeftovers.DisabledUntilDeleted` | aidl/face/AuthEngine.cpp:251-257 | An st_auth record without a readable face id stays so over any run, and no attempt unlocks, until the record is gone |
| `FaceHalLeftovers.StuckIff` | aidl/face/Session.cpp:635-640 | With the trusted app, a broken removal leads to a record without a template, and a step leads out again exactly when the owner's removal reports success and deletes the record, or a failed write loses it |
| `FaceHalLeftovers.StuckForGood` | aidl/face/FaceTee.cpp:127-129 | Where the app answers a removal from an empty slot with an error and no write loses the record, that lasts over every run: the same enrolment stays, its owner's removals and all enrolments end in an error |
| `FaceHalLeftovers.DiskOverLives` | aidl/face/Session.cpp:97-112 | Pairing in both directions and the face id last through any number of processes without the steps named above |
| `FaceHalLockout.RestartClearsLockout` | aidl/face/Session.cpp:97 | A new process refuses no attempt for failures of the one before it |
| `FaceHalHistory.UnlocksAreEnrolled` | aidl/face/Session.cpp:462-465 | Over every run, each onAuthenticationSucceeded of a user names the enrolment last reported finished (or on record at the start), of the same user, with no removal of it reported in between; where the trusted app compares, given that reported removals delete the record |
| `FaceHalHistory.StepHistory` | aidl/face/Session.cpp:335-352 | One operation keeps that agreement between the trace and the record |
| `FaceHalHistory.StandsIff` | aidl/face/Session.cpp:639-640 | A step leaves on record an enrolment that does not stand by what was reported exactly when it is an owner's removal, reported although the record file could not be deleted |
| `FaceHalHistory.AttemptJustifiedIff` | aidl/face/Session.cpp:462-465 | An attempt keeps every reported unlock justified exactly unless it unlocks while its own enrolment does not stand |
| `FaceHalHistory.RemovedUnlocksAgain` | aidl/face/Session.cpp:187-188 | After such a removal any attempt that is granted is unjustified, and it can be granted only where the trusted app compares |
| `FaceHalHistory.RemovedUnlocks` | aidl/face/Session.cpp:187-188 | An instance over a run of two operations |
| `FaceHalReports.EnrolledTold` | aidl/face/Session.cpp:242-353 | Every enrolment reports quiet frame callbacks and then either its end, with 0 remaining, or one error, with the camera released |
| `FaceHalReports.AuthenticatedTold` | aidl/face/Session.cpp:390-473 | Every attempt reports quiet frame callbacks and then what its verdict says; it succeeds exactly when granted, and is judged only if it compared |
| `FaceHalOutcomes.OneOutcomePerOperation` | aidl/face/Session.cpp:242-604 | Every enrolment and attempt reports exactly one verdict (a failure may be followed by one lockout), after the camera was released; the camera is then idle exactly when its start created no target or session output without its owner |
| `FaceHalOutcomes.IdleOverRuns` | aidl/face/Session.cpp:269-333 | Over every run without such a start, the camera is idle between operations and was idle at every verdict ever reported |
| `FaceHalOutcomes.EnrolmentSucceedsIff` | aidl/face/Session.cpp:242-353 | An enrolment writes the user's record and reports 0 remaining exactly when its session holds the challenge, nobody is enrolled and each answer it needs is good; otherwise it ends in an error |
| `FaceHalOutcomes.UnlockSucceedsIff` | aidl/face/Session.cpp:390-473 | An attempt unlocks exactly when its user is enrolled with the engine in use and not locked out, and a delivered frame is accepted; it then reports the record's enrolment and clears the user's lockout |
| `FaceHalOutcomes.ChallengesOverRuns` | aidl/face/Session.cpp:201-218 | In every reachable state a session's challenge set is what that session has generated and not revoked |
| `FaceHalOutcomes.EnrolmentNeedsChallenge` | aidl/face/Session.cpp:244-251 | Without an outstanding challenge of the very session an enrolment only reports an error |
| `FaceHalOutcomes.RemovalReportTrueIff` | aidl/face/Session.cpp:625-643 | After the owner's removal reports success, enumeration finds nothing exactly when the record file could be deleted |
| `FaceHalOutcomes.InvalidationReportTrueIff` | aidl/face/Session.cpp:686-698 | The id reported by an invalidation is the one retrieved next exactly when the record was written, or was unchanged and had that id |
| `FaceHalAttempts.RejectedAttempt` | aidl/face/Session.cpp:390-412 | An attempt that another user owns, that is locked out, unprepared, of another engine, without a running camera, or without a readable face id or configuration, in this order, is told so, and nothing of it counts |
| `FaceHalAttempts.FramesDecide` | aidl/face/Session.cpp:416-472 | From the frames alone: an in-process attempt unlocks exactly when some frame's face (the small detector's until a gap of more than 500 ms, the large one's after it) has open eyes where the record requires attention, a feature, a score of at least 0.8 and a spoof score of at most 0.95; else cancellation comes first, then failure if such a face was compared at all; the reports and the tracker say the same |
| `FaceHalAttempts.ClosedEyesNeverCount` | aidl/face/Session.cpp:437-445 | Where the record requires attention and no face in any frame has open eyes, an attempt neither unlocks nor counts a failure |
| `FaceHalAttempts.EyesIgnored` | aidl/face/Session.cpp:436-439 | Where it does not, the verdict is the one reached when every face has open eyes |
| `FaceHalAttempts.CodesDecide` | aidl/face/Session.cpp:573-603 | From the SDK's status codes, with eyes checked as the record says: 201 unlocks, -2 is a hardware error, -1001, 203 and 204 ask for re-enrolment, whichever comes first; otherwise cancellation, then failure if 202 or 2 occurred, then timeout |
| `FaceHalRecord.EnrolmentAnswers` | aidl/face/Session.cpp:242-353 | Which refusal and which failure of an enrolment gives which error, in the source's order, and 0 remaining otherwise, on both engines |
| `FaceHalRecord.EnrolmentWrites` | aidl/face/Session.cpp:335-352 | A finished enrolment has written its user, its new enrolment and authenticator ids, the attention flag of the record it loaded and the name of its engine, and stored a template of five good frames of one face (or the SDK's, with its face id) |
| `FaceHalRecord.RecordOverRuns` | aidl/face/Session.cpp:613-698 | After every run the record is what the operations and the reported endings of the enrolments tell of, field by field |
| `FaceHalRecord.RetrievedOverRuns` | aidl/face/Session.cpp:645-684 | After every run getAuthenticatorId, getFeatures and enumerateEnrollments report the id last enrolled or stored by an invalidation, the flag last stored and the enrolment of that record, to its user and to nobody else |
| `FaceHalRecord.FeatureSetHolds` | aidl/face/Session.cpp:659-675 | After a stored setFeature, getFeatures reports the flag that was set |
| `FaceHalRecord.AttentionOverRuns` | aidl/face/Session.cpp:431-445 | After any run whose last stored flag requires attention, an in-process attempt whose faces all have closed eyes neither unlocks nor counts a failure |
| `FaceHalRecord.InattentionOverRuns` | aidl/face/Session.cpp:431-445 | After any run whose last stored flag does not, closed eyes make no difference to the verdict |
| `FaceHalGuidance.AttemptGuides` | aidl/face/Session.cpp:427-445 | In the trace an in-process attempt shows, without repetitions, no face, closed eyes where attention is required, or good, for the frames up to the first match |
| `FaceHalGuidance.AttemptAuthGuides` | aidl/face/Session.cpp:573-589 | An st_auth attempt shows the infos of its status codes without repetitions |
| `FaceHalGuidance.EnrolGuides` | aidl/face/Session.cpp:284-352 | In the trace an in-process enrolment shows the infos of its frames without repetitions, and after each frame what its streak lacks of a group of five; a finished one counts 4, 3, 2, 1, 0 at the end |
| `FaceHalGuidance.EnrolAuthGuides` | aidl/face/Session.cpp:500-548 | An st_auth enrolment shows its infos likewise, and 4, 3, 2, 1 for its first four kept frames, then 0 if it finishes |
| `FaceHalGuidance.EnrolMarks` | aidl/face/Session.cpp:285-290 | An enrolment marks its first frame exactly once, if any frame is delivered |
| `FaceHalGuidance.EnrolCountsFor` | aidl/face/Session.cpp:320 | Every count an enrolment reports carries its own new id |
| `FaceService.ServiceGuarantees` | aidl/face/Session.cpp:125-134 | Whatever the process found on disk and whatever operations the service object has run, its fields satisfy the lockout, challenge and camera guarantees above |
| `FaceService.ServiceKeepsDisk` | aidl/face/Session.cpp:125-134 | So they do the guarantees about record, template, face id and unlocks, each under its own condition on start and run |
| `FaceService.Service.constructor` | aidl/face/Session.cpp:97-112 | A new service, over any record file that loads, any template and any face id file, is in the initial state of a run |
| `FaceService.Service.Schedule` | aidl/face/Session.cpp:125-134 | One scheduled operation is one step of the run |
| `FaceService.Service.DoEnroll` | aidl/face/Session.cpp:242-353 | doEnroll changes the shared state and reports as specified, on every path |
| `FaceService.Service.EnrollCv` | aidl/face/Session.cpp:269-352 | The in-process enrolment: loop, stop, store, save, and the clean-up after each failure |
| `FaceService.Service.EnrollAuth` | aidl/face/Session.cpp:475-548 | The st_auth enrolment, including template removal on every unfinished path |
| `FaceService.Service.FinishEnrollment` | aidl/face/Session.cpp:339-352 | Saving the record of a stored template, undone when the save fails; the saved text loads back as that record |
| `FaceService.Service.DoAuthenticate` | aidl/face/Session.cpp:390-473 | doAuthenticate changes the shared state and reports as specified, on every path |
| `FaceService.Service.AuthenticateCv` | aidl/face/Session.cpp:410-472 | The in-process attempt and its conclusion |
| `FaceService.Service.AuthenticateAuth` | aidl/face/Session.cpp:550-604 | The st_auth attempt, configured for the record's attention requirement, and its conclusion |
| `FaceService.Service.CheckLockoutLocked` | aidl/face/Session.cpp:361-375 | Reports a lockout exactly when the user's tracker locks, and creates a missing entry |
| `FaceService.Service.OnAuthenticationFailedLocked` | aidl/face/Session.cpp:377-388 | Reports and counts a failure, and starts or reports the lockout it causes |
| `FaceService.Service.RemoveFeature` | aidl/face/Session.cpp:176-185 | Removes the template of the engine in use and returns what the removal reports |
| `FaceService.Service.StoreFeature` | aidl/face/Session.cpp:155-174 | Stores the template, or leaves whatever the removal and the failed store leave |
| `FaceService.Service.LoadRecord` | aidl/face/Session.cpp:99-112 | Returns the record in the file, within the fields' widths and fit to be saved again |
| `FaceService.Service.SaveRecord` | aidl/face/Session.cpp:114-120 | Afterwards the file loads as the saved record, as no record after a failed write, or as the old one when it could not be opened |
| `FaceService.Service.DeleteRecord` | aidl/face/Session.cpp:115 | Saving the empty record deletes the file, or leaves the old one when the unlink fails |
| `FaceService.Service.RemoveEnrollments` | aidl/face/Session.cpp:625-643 | removeEnrollments on every path |
| `FaceService.Service.SetFeature` | aidl/face/Session.cpp:659-675 | setFeature on every path |
| `FaceService.Service.InvalidateAuthenticatorId` | aidl/face/Session.cpp:686-698 | invalidateAuthenticatorId on every path |
| `FaceService.Service.GenerateChallenge` | aidl/face/Session.cpp:201-209 | Adds the challenge to the session's set and reports it |
| `FaceService.Service.RevokeChallenge` | aidl/face/Session.cpp:211-218 | Removes the challenge from the session's set and reports it |
| `FaceService.Service.EnumerateEnrollments` | aidl/face/Session.cpp:613-623 | Reports the user's enrolment, or none |
| `FaceService.Service.GetFeatures` | aidl/face/Session.cpp:645-657 | Reports whether the user's record requires attention |
| `FaceService.Service.GetAuthenticatorId` | aidl/face/Session.cpp:677-684 | Reports the user's authenticator id, or 0 |
| `FaceService.Service.ResetLockout` | aidl/face/Session.cpp:700-706 | Clears exactly the user's tracker |
| `EnrollLoop.CaptureFeature` | aidl/face/Session.cpp:284-333 | The frame loop captures the feature of the first frame that completes a group of five in its streak and yields one, with exactly the callbacks of the frames up to it |
| `EnrollLoop.Classify` | aidl/face/Session.cpp:293-304 | A frame's info is GOOD exactly for a detected face of good quality with open eyes and spoof at most 0.95 |
| `EnrollLoop.GroupIsStreak` | aidl/face/Session.cpp:310-323 | The loop's counter is the length of the current streak modulo five |
| `EnrollLoop.CapturesIff` | aidl/face/Session.cpp:323-332 | A frame captures exactly when its streak's length is a positive multiple of five and it yields a feature |
| `EnrollLoop.StreakLengthIsLongest` | aidl/face/Session.cpp:310-323 | The streak counted frame by frame is the longest run of good frames with one face id that ends at the current frame |
| `EnrollLoop.CaptureNeedsFiveGoodFrames` | aidl/face/Session.cpp:315-332 | A feature is captured exactly when some frame captures; then the last five delivered frames were all good with one face id, and the feature comes from the last of them, the first that captures |
| `EnrollLoop.FirstCaptureIsFirst` | aidl/face/Session.cpp:328-332 | No earlier frame captures |
| `EnrollLoop.ProgressCountsDown` | aidl/face/Session.cpp:323-326 | The reported counts are a concatenation of prefixes of 4, 3, 2, 1, and inside a streak the last one is what is still missing |
| `EnrollLoop.SuccessEndsInCountdown` | aidl/face/Session.cpp:323-352 | On success the progress ends in exactly 4, 3, 2, 1, 0 |
| `EnrollLoop.GuidanceIsDestuttered` | aidl/face/Session.cpp:306-309 | Guidance callbacks are exactly the de-stuttered sequence of frame infos |
| `EnrollLoop.InfoOfFrame` | aidl/face/Session.cpp:80-93 | Which quality, and which of closed eyes and a spoof score above 0.95, gives a frame which info |
| `EnrollLoop.CountsAreStreaks` | aidl/face/Session.cpp:315-326 | Each frame reports what the longest streak it ends lacks of a group of five, and nothing when it lacks nothing |
| `Callbacks.DestutterNeighbours` | aidl/face/Session.cpp:306-309 | De-stuttering drops immediate repetitions only: neighbours differ, the ends and the set of infos stay |
| `AuthLoop.Authenticate` | aidl/face/Session.cpp:410-472 | The frame loop and the decision after it reach the declarative verdict, with the callbacks of the frames consumed |
| `AuthLoop.VerdictMeaning` | aidl/face/Session.cpp:446-472 | Success if and only if some frame is detected, attentive when required, yields a feature and scores at least 0.8 with spoof at most 0.95; else cancelled; else failed if some frame was scored; else timed out. Where no comparison is possible, never success or failure |
| `AuthLoop.LargeAfterGap` | aidl/face/Session.cpp:431-439 | The large detector is in use exactly after some frame without a face more than 500 ms after the last face |
| `AuthLoop.LastFaceIsLatest` | aidl/face/Session.cpp:435-436 | The remembered time is that of the latest frame with a face, or the start |
| `AuthLoop.FirstAcceptIsFirst` | aidl/face/Session.cpp:455-458 | The loop stops at the first accepted frame |
| `AuthLoop.AnyScoredIsExists` | aidl/face/Session.cpp:450-452 | `compared` records whether any frame was scored |
| `AuthLoop.GuidanceIsDestuttered` | aidl/face/Session.cpp:441-444 | Guidance callbacks are exactly the de-stuttered sequence of frame infos |
| `AuthLoop.SeenIsFaceAt` | aidl/face/Session.cpp:431-435 | The face that counts is the small detector's until some frame shows it none more than 500 ms after its last, and the large one's from then on |
| `AuthLoop.VerdictOfFrames` | aidl/face/Session.cpp:446-472 | The verdict from those faces: success exactly when one is comparable, scores at least 0.8 and has spoof at most 0.95; else cancelled; else failed if one is comparable; else timed out |
| `AuthLoop.InfoOfFrame` | aidl/face/Session.cpp:431-439 | Which of those faces gives which info |
| `AuthEngine.Engine.BeginEnroll` | aidl/face/AuthEngine.cpp:203-216 | Forgets the previous enrolment's count and face id, then reports a configuration error |
| `AuthEngine.Engine.Enroll` | aidl/face/AuthEngine.cpp:218-249 | Each status' info, count, completion and error; only a completing frame writes the face id, and a failed write leaves no file or the old one |
| `AuthEngine.Engine.BeginAuthenticate` | aidl/face/AuthEngine.cpp:251-266 | Reads the stored face id, asking for re-enrolment when there is none that is not negative, and has the SDK check the eyes exactly when attention is required |
| `AuthEngine.Engine.Authenticate` | aidl/face/AuthEngine.cpp:268-292 | Each status' info, success, comparison and error |
| `AuthEngine.Engine.RemoveTemplate` | aidl/face/AuthEngine.cpp:294-305 | The face id is gone whatever the SDK answers |
| `AuthEngine.ToAcquiredInfo` | aidl/face/AuthEngine.cpp:65-104 | No status maps to UNKNOWN, so the first frame of a loop is always reported |
| `AuthEngine.FaceIdRoundTrip` | aidl/face/AuthEngine.cpp:251-257 | The face id that an enrolment writes is read back exactly when it is not negative, for every 32-bit id |
| `AuthEngine.EnrollFrames` | aidl/face/Session.cpp:496-522 | The st_auth enrolment loop ends at the first completing or failing frame, with exactly the callbacks of the frames shown |
| `AuthEngine.ProgressDecreases` | aidl/face/AuthEngine.cpp:235-237 | After n kept frames and completion the reported counts are exactly 4 down to max(5 - n, 1), then 0, strictly decreasing; just 0 for n = 0 |
| `AuthEngine.EnrollTrace` | aidl/face/Session.cpp:503-522 | Before any ending, too, guidance is de-stuttered and each of the first four kept frames reports its count once |
| `AuthEngine.AuthenticateFrames` | aidl/face/Session.cpp:573-603 | The st_auth attempt's loop and decision reach the declarative verdict |
| `AuthEngine.VerdictMeaning` | aidl/face/Session.cpp:573-603 | The first frame that matches or breaks the engine decides; without one cancellation comes first, then failure if some frame was compared, then timeout |
| `AuthEngine.UnlockGuidanceIsDestuttered` | aidl/face/Session.cpp:580-583 | Guidance callbacks are exactly the de-stuttered sequence of frame infos |
| `AuthEngine.FirstEndingIsFirst` | aidl/face/Session.cpp:503-522 | No earlier enrolment frame ends the loop |
| `AuthEngine.FirstUnlockEndingIsFirst` | aidl/face/Session.cpp:573-589 | No earlier attempt frame ends the loop |
| `AuthEngine.VerdictOfCodes` | aidl/face/AuthEngine.cpp:268-292 | The verdict from the status codes: success exactly when the first of 201, -2, -1001, 203 and 204 is 201, a hardware error for -2, re-enrolment for the others; without any of them cancelled, failed if 202 or 2 occurred, or timed out |
| `AuthEngine.OutcomeOfCodes` | aidl/face/AuthEngine.cpp:218-249 | The enrolment's outcome from the codes: the first of 0, 101, -1008, -2 and -1001 completes it with that frame's face id (if the face id can be written), finds no space, or fails |
| `AuthEngine.InfoOfCodes` | aidl/face/AuthEngine.cpp:65-104 | Exactly which status codes give which info |
| `AuthEngine.ConfigIs` | aidl/face/AuthEngine.cpp:259 | The configuration is 20 where attention is required, with eyes checked, and 21 otherwise |
| `EnrollmentRecord.RoundTrip` | aidl/face/Session.cpp:99-120 | load after save returns the record, for every 32- and 64-bit value and every engine name the line can carry, with the empty engine read as "cv" and a record without user as no record |
| `EnrollmentRecord.RoundTripIff` | aidl/face/Session.cpp:104-120 | A user's record with an engine comes back exactly when the name has no space and no white space at its end |
| `EnrollmentRecord.LegacyLoads` | aidl/face/Session.cpp:104-112 | A four-field line loads as an enrolment of engine "cv" |
| `EnrollmentRecord.SaveKeepsLoaded` | aidl/face/Session.cpp:99-120 | Whatever was loaded for some user is unchanged by save and load, legacy lines included |
| `EnrollmentRecord.LoadedEngineFits` | aidl/face/Session.cpp:104-111 | A loaded engine name is never empty and can always be saved |
| `EnrollmentRecord.LineIs` | aidl/face/Session.cpp:114-119 | The line saved is the five fields in order, in decimal, the flag as 1 or 0, with single spaces |
| `EnrollmentRecord.SampleLines` | aidl/face/Session.cpp:114-119 | Two such lines, spelled out |
| `Decimal.PrintParse` | aidl/face/Session.cpp:106-118 | to_string then stoi (stoll) gives the number back exactly when it fits the type, and throws otherwise |
| `Camera.NothingHeldIff` | aidl/face/CameraSource.cpp:150-218 | A start that fails, at whichever call, and one that is stopped later, leave no handle exactly when no target (session output) was created without its request (container) |
| `Camera.StopFreesAllIff` | aidl/face/CameraSource.cpp:220-252 | stop frees everything exactly when target and session output still have their owners |
| `Camera.ObjectsConserved` | aidl/face/CameraSource.cpp:150-252 | Over any run of starts and stops every native object a pointer was given is freed, held, or lost to an overwritten pointer |
| `Camera.NothingLost` | aidl/face/CameraSource.cpp:150-252 | Without a leaking start, and starting only a stopped camera, nothing is lost, and whenever the camera is not running all that was created is freed |
| `Camera.LeftoverLostIff` | aidl/face/CameraSource.cpp:191-196 | What a leak left is lost for good exactly when a later start gets as far as creating another one |
| `Camera.StartHandles` | aidl/face/CameraSource.cpp:150-252 | The objects held after a start are those whose handles it leaves |
| `Camera.UnpairedTargetLeaks` | aidl/face/CameraSource.cpp:194-209 | An instance that leaks |
| `Camera.ReturnedFramesAreFresh` | aidl/face/CameraSource.cpp:72-88 | Under any interleaving, the frames nextFrame returns are a strictly increasing, duplicate-free subsequence of those stored since their start, each the newest when taken; a call that waited took its frame on a wake-up before its deadline and uncancelled |
| `Camera.ActKeepsSound` | aidl/face/CameraSource.cpp:254-270 | One critical section keeps that |
| `Camera.NoFrameAfterFailure` | aidl/face/CameraSource.cpp:134-148 | After a failure nothing is returned until the next start |
| `Camera.MailboxTells` | aidl/face/CameraSource.cpp:72-88 | From the sequence of critical sections alone: the frames returned are exactly the ones delivered last at each taking |
| `Camera.CallTakesIff` | aidl/face/CameraSource.cpp:254-270 | A call takes a frame at once exactly when no failure has come since the last start and some frame since the last start and the last taking; it is the one delivered last |
| `Camera.CameraSource.NextFrame` | aidl/face/CameraSource.cpp:254-270 | nextFrame runs exactly the critical sections of its call and its waits, and returns the frame they take |
| `Camera.CameraSource.StartCamera` | aidl/face/CameraSource.cpp:150-218 | Succeeds exactly when all checked calls do, holds the handles that outcome leaves, failed unchecked creations leaving their pointers alone, and resets the flags |
| `Camera.CameraSource.Stop` | aidl/face/CameraSource.cpp:220-252 | Which handles each release frees |
| `Camera.CameraSource.OnImageAvailable` | aidl/face/CameraSource.cpp:84-88 | Stores the newest frame in one critical section |
| `Camera.CameraSource.OnFailure` | aidl/face/CameraSource.cpp:134-148 | Marks the camera failed in one critical section |
| `Nv21.CopyImage` | aidl/face/CameraSource.cpp:272-306 | For every even size and all valid strides: fails exactly on a wrong size or unreadable planes, else fills an NV21 buffer in which every Y, V and U sample is at its index |
| `Nv21.CopyLuma` | aidl/face/CameraSource.cpp:292-294 | The luma half, row by row |
| `Nv21.CopyChroma` | aidl/face/CameraSource.cpp:296-304 | The chroma half through the running pointer, which stays where its row and column say |
| `Nv21.UnpackRecoversPlanes` | aidl/face/CameraSource.cpp:290-304 | The buffer has W*H*3/2 bytes and unpacking it recovers all three planes |
| `Nv21.Nv21IsUnique` | aidl/face/CameraSource.cpp:290-304 | The planes determine every byte |
| `Preview.SampleIsBijection` | aidl/face/CameraSource.cpp:95-121 | For even W - H, each rotation maps the output square one-to-one onto the same centred square of the frame, with the given inverse |
| `Preview.CropsAgreeIff` | aidl/face/CameraSource.cpp:96-99 | All four rotations stay in that square exactly when W - H is even |
| `Preview.SampleIsDisplay` | aidl/face/CameraSource.cpp:105-121 | The renderer's index arithmetic is a turn by the rotation, a mirroring, and a move to the crop |
| `Preview.TurnsCompose` | aidl/face/CameraSource.cpp:107-120 | The turns are a cyclic group of order four: twice 90 degrees is 180, four times is the identity |
| `Preview.TurnsDiffer` | aidl/face/CameraSource.cpp:107-120 | The four turns are different maps |
| `Preview.MirroredTurnsCompose` | aidl/face/CameraSource.cpp:107-121 | The mirrored maps compose to plain turns by the difference, so each is its own inverse |
| `Preview.DisplaysComposeIff` | aidl/face/CameraSource.cpp:107-121 | Any two of the mirrored maps in a row are a third one exactly for a square of at most one pixel: they are no cyclic group, and 90 degrees twice is not 180 |
| `Preview.SampleInFrame` | aidl/face/CameraSource.cpp:105-121 | Every pixel samples inside the frame, for every frame size |
| `Preview.ReadsInBounds` | aidl/face/CameraSource.cpp:123-125 | For even sizes all luma and chroma reads are in bounds |
| `Preview.PixelShowsPlanes` | aidl/face/CameraSource.cpp:121-128 | From camera planes to screen: each output pixel shows the luma and the 2-by-2 chroma of its sample |
| `Preview.RotationUndoesSensor` | aidl/face/CameraSource.cpp:95 | For every sensor orientation of full quarter turns, turning by the rotation and then by the orientation is no turn at all |
| `Preview.SampleOfSensor` | aidl/face/CameraSource.cpp:95-121 | The four index formulas, by the sensor's orientation |
| `Preview.ColourIsFullRange` | aidl/face/CameraSource.cpp:123-128 | The word is opaque R8G8B8A8, its channels those of ITU-T T.871 section 7 within one step, clamped |
| `Preview.RenderPreview` | aidl/face/CameraSource.cpp:91-132 | By the sensor's orientation, the double loop draws each pixel of the square with the colour of its frame sample, and nothing else, into a buffer of any stride of at least the side, leaves the padding alone, and draws nothing if the window cannot be locked |
| `Preview.DrawRow` | aidl/face/CameraSource.cpp:102-130 | One row of it |
| `Preview.DrawSquare` | aidl/face/CameraSource.cpp:102-130 | All rows of it, the padding of each left alone |
| `FaceDetect.DetectFace` | aidl/face/FaceEngine.cpp:240-289 | Returns the rectangle, id, landmarks, occlusion (zeros where the detector gives none) and orientation of the first face of maximal width at the first orientation in search order that finds any, nothing if none does, and makes exactly the logged native calls |
| `FaceDetect.Search` | aidl/face/FaceEngine.cpp:246-268 | The orientation search stops at the first orientation that finds a face |
| `FaceDetect.Widest` | aidl/face/FaceEngine.cpp:270-275 | The first index of maximal width |
| `FaceDetect.SearchOrderMeaning` | aidl/face/FaceEngine.cpp:258-267 | No orientation is tried twice; the expected one is first; with the others allowed all four are in the order |
| `FaceDetect.FirstFindingIsFirst` | aidl/face/FaceEngine.cpp:258-267 | No earlier orientation in the order finds a face |
| `FaceDetect.SearchOrderIs` | aidl/face/FaceEngine.cpp:51 | The order for each of the four orientations: the expected one, then right, left, up and down without it |
| `FaceDetect.EveryArrayReleasedOnce` | aidl/face/FaceEngine.cpp:251-254 | Over a whole detection every array a run returns is released exactly once, and each orientation is run at most once |
| `TeeSessions.HandlesConserved` | aidl/face/FaceTee.cpp:62-65 | Over any run of opens and closes with any answers, handles started minus handles shut down is the number held, and closing shuts down all |
| `TeeSessions.OpenIff` | aidl/face/FaceTee.cpp:87-114 | open succeeds exactly when the library loads and each missing session finds a usable handle in ten calls |
| `TeeSessions.FirstUsableIff` | aidl/face/FaceTee.cpp:94-107 | The retries find a usable handle exactly when some call gives one |
| `FaceTee.FaceTee.Start` | aidl/face/FaceTee.cpp:87-110 | The nested retry loop keeps the first usable handle and shuts down every other one it started |
| `FaceTee.FaceTee.Open` | aidl/face/FaceTee.cpp:112-114 | Opens feature then frame session, true exactly when both are held |
| `FaceTee.FaceTee.Close` | aidl/face/FaceTee.cpp:62-65 | Every handle ever started is shut down |
| `FaceTee.ResponseFollowsRequest` | aidl/face/FaceTee.cpp:53-58 | requestSize(n) is a multiple of 64 with n + 48 < requestSize(n) <= n + 112 |
| `FaceTee.FitsIff` | aidl/face/FaceTee.cpp:24 | Request and response fit the shared buffer exactly up to a payload of 819087 bytes; a frame always fits |
| `FaceTee.AppSeesRequest` | aidl/face/FaceTee.cpp:116-123 | The app finds exactly the request's fields and payload, and the preset result 9: the response overlaps nothing |
| `FaceTee.SuccessNeedsAnswer` | aidl/face/FaceTee.cpp:116-130 | Success is reported exactly when the call returned 0 and the app overwrote the preset result with 0 |
| `FaceTee.ThresholdsAre` | aidl/face/FaceTee.cpp:51 | The eight words sent are the single-precision numbers nearest to -1, 0.172, 0.268, 0.342, 0.405, 0.49, 0.55 and 1 |
| `FaceTee.WordRoundTrip` | aidl/face/FaceTee.cpp:34-48 | A 32-bit word written in little-endian order reads back |
| `FaceTee.WriteHeader` | aidl/face/FaceTee.cpp:157-162 | Clearing and filling the header field by field gives the 48 header bytes and touches nothing else |
| `FaceTee.Transact` | aidl/face/FaceTee.cpp:116-130 | One command: the buffer the app leaves and the status read from it, all accesses in bounds |
| `FaceTee.FaceTee.SaveFeature` | aidl/face/FaceTee.cpp:132-142 | True exactly when the sessions are open and the app accepted; the app was sent this feature |
| `FaceTee.FaceTee.RemoveFeature` | aidl/face/FaceTee.cpp:144-152 | The same for removal |
| `FaceTee.FaceTee.Compare` | aidl/face/FaceTee.cpp:154-168 | A score exactly when the app accepted the comparison with the thresholds; it is the response's first word |
| `FaceTee.FaceTee.SaveFrame` | aidl/face/FaceTee.cpp:170-181 | The same for a frame in the frame session |
| `FaceTee.FaceTee.RemoveFrame` | aidl/face/FaceTee.cpp:183-192 | The same for removing a frame |
| `AuthTee.AuthTee.Open` | aidl/face/AuthTee.cpp:163-184 | The second instance of the retry: true exactly when a usable handle is held, and no other handle stays started |
| `AuthTee.AuthTee.Close` | aidl/face/AuthTee.cpp:186-189 | Every handle ever started is shut down |
| `AlertSlider.AlwaysInv` | packages/KeyHandler/src/org/lineageos/settings/device/AlertSliderPlugin.kt:86-108 | In every reachable state at most one dismissal is pending; while showing exactly one is, due 3000 ms after the last refresh; the dialog's visibility is `showing` and its state is `lastInfo`, across recreations |
| `AlertSlider.StepKeeps` | packages/KeyHandler/src/org/lineageos/settings/device/AlertSliderPlugin.kt:110-174 | Every broadcast, dispatch and passing of time keeps that |
| `AlertSlider.HandlerGuarantees` | packages/KeyHandler/src/org/lineageos/settings/device/AlertSliderPlugin.kt:79-118 | So it holds of every handler object, whatever has happened to it |
| `AlertSlider.RecreatedKeeps` | packages/KeyHandler/src/org/lineageos/settings/device/AlertSliderPlugin.kt:147-174 | A recreation keeps it, through hiding and showing again |
| `AlertSlider.HidesOnlyOnTimeout` | packages/KeyHandler/src/org/lineageos/settings/device/AlertSliderPlugin.kt:124-136 | Nothing hides a shown dialog but the dispatch of its dismissal, at least 3000 ms after the last refresh |
| `AlertSlider.HidesExactlyAtTimeout` | packages/KeyHandler/src/org/lineageos/settings/device/AlertSliderPlugin.kt:128-136 | Without further events a shown dialog stays up for less than 3000 ms after the last refresh and is hidden from then on |
| `AlertSlider.DispatchDueCount` | packages/KeyHandler/src/org/lineageos/settings/device/AlertSliderPlugin.kt:110-118 | Handling a message makes no other message due, so the looper always catches up |
| `AlertSlider.SliderChangeShownIff` | packages/KeyHandler/src/org/lineageos/settings/device/AlertSliderPlugin.kt:39-54 | In every state and with whatever pending, a slider change is always recorded, and ends shown exactly unless the dialog was showing and its dismissal was due ahead of every update and effective recreation |
| `AlertSlider.DrainedForetold` | packages/KeyHandler/src/org/lineageos/settings/device/AlertSliderPlugin.kt:86-108 | Where the looper ends up is told by the queue: shown exactly if shown and not about to be dismissed, or about to be shown; with the info of the last pending update |
| `AlertSlider.DispatchForetold` | packages/KeyHandler/src/org/lineageos/settings/device/AlertSliderPlugin.kt:110-174 | No dispatch changes what the queue foretells |
| `AlertSlider.LostChange` | packages/KeyHandler/src/org/lineageos/settings/device/AlertSliderPlugin.kt:86-108 | An instance of a change that is not shown |
| `AlertSlider.RecreationNotes` | packages/KeyHandler/src/org/lineageos/settings/device/AlertSliderPlugin.kt:147-174 | A recreation notes the new configuration, keeps the dialog shown or hidden with its last state, restarts a shown one's timeout, and does nothing without a change or a second time |
| `AlertSlider.FollowsTheScreen` | packages/KeyHandler/src/org/lineageos/settings/device/AlertSliderPlugin.kt:36-38 | After any history, once the looper has caught up the dialog is built for the configuration last broadcast |
| `AlertSlider.UpdateNotes` | packages/KeyHandler/src/org/lineageos/settings/device/AlertSliderPlugin.kt:138-145 | An update is recorded, shown, and restarts the timeout at 3000 ms |
| `AlertSlider.DispatchPulses` | packages/KeyHandler/src/org/lineageos/settings/device/AlertSliderPlugin.kt:176-180 | A doze broadcast goes out, if enabled, exactly for an update and when the dialog comes up |
| `AlertSlider.NotificationHandler.SetShowing` | packages/KeyHandler/src/org/lineageos/settings/device/AlertSliderPlugin.kt:87-108 | The setter removes pending messages, moves the timeout and the dialog, only on a change |
| `AlertSlider.NotificationHandler.HandleResetTimeout` | packages/KeyHandler/src/org/lineageos/settings/device/AlertSliderPlugin.kt:128-136 | Replaces the pending dismissal by one 3000 ms from now |
| `AlertSlider.NotificationHandler.HandleUpdate` | packages/KeyHandler/src/org/lineageos/settings/device/AlertSliderPlugin.kt:138-145 | Records and shows the state and restarts the timeout |
| `AlertSlider.NotificationHandler.HandleRecreate` | packages/KeyHandler/src/org/lineageos/settings/device/AlertSliderPlugin.kt:147-174 | Replaces the dialog exactly when one of the four values changed |
| `AlertSlider.NotificationHandler.OnSliderMoved` | packages/KeyHandler/src/org/lineageos/settings/device/AlertSliderPlugin.kt:39-54 | Posts an update and a show, unless there is no ringer mode |
| `AlertSlider.NotificationHandler.OnScreenChanged` | packages/KeyHandler/src/org/lineageos/settings/device/AlertSliderPlugin.kt:36-38 | Posts a recreation |
| `AlertSlider.NotificationHandler.Handle` | packages/KeyHandler/src/org/lineageos/settings/device/AlertSliderPlugin.kt:110-118 | Each kind of message is handled as specified |
| `AlertSlider.NotificationHandler.DispatchNext` | packages/KeyHandler/src/org/lineageos/settings/device/AlertSliderPlugin.kt:110-118 | Handles the first message if it is due, as one event of the history |

## Left out

- The vendor SDKs, `dlopen`, licences, models in memfds, ION buffers and QSEECom: their answers are parameters.
- WorkerThread and CancellationSignal are not part of this model: accepted work runs in order, and the cancel flag is given as it stands when a loop has ended. No claim that every scheduled request runs.
- Real-time bounds on an operation: nextFrame looks at its deadline only when it has to wait, so a loop's frames are given as the sequence that nextFrame delivers until it returns false, and no bound of 5 s or 60 s is claimed.
- generateChallenge and revokeChallenge run outside the hardware lock under a lock of their own; they are steps between operations here, which is all an enrolment's single look at the set can tell, but the order of their callbacks relative to a running operation's is not modelled.
- Sessions are an id and a user; the challenge sets of all sessions are one map, and the AIDL plumbing, getEnrollmentConfig and close are left out.
- FaceService.Service.RemoveFeature: the commands and file calls behind a template removal are one answer, and the unlinks of the st_auth face id file are taken to work.
- FaceService.Service.StoreFeature: the file, or the trusted app's store, is one template, and the removal it begins with has no answer of its own, since a failed store may leave any template; the frame kept beside it is not modelled.
- Malformed numbers in the record file, which throw in the source, are a `None` of `EnrollmentRecord.Load`; the service requires a file that loads.
- AuthEngine.FaceIdRoundTrip: ParseInt's hexadecimal form is not modelled, since the file is only ever written in decimal.
- Integer overflow of the size computation and of the kept-frames counter.
- FaceTee.FaceTee.SaveFeature: requires a feature that fits, which the client does not check; FitsIff says which do. Writing past the end of the shared buffer has no meaning to model.
- FaceTee.FaceTee.Compare: requires a feature that fits, as SaveFeature does.
- FaceDetect.DetectFace: detectors that report faces without an array, or a negative count, are left out.
- Scores are compared as real numbers; rounding is left out.
- checkQuality, eyesOpen, spoofScore and extractFeature of the in-process engine, and init and deinit of both engines: only their answers enter.
- AuthTee::communicate and the message it marshals.
- The camera's search for the front camera, its session callbacks and the periodic 50 ms wake-ups, which are the waits of NextFrame.
- The dialog's drawing and animation, doze, KeyHandler, the settings screens, vibrator, fingerprint, touch and display services: mostly device writes and plumbing.
