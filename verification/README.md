# VisionCore: a verified model of its concurrent and stateful cores

A Dafny 4.11 model of the parts of VisionCore whose correctness depends on order: calls that
overlap at their awaits, streams that change owner, tokens that rotate under concurrent
requests, and the analytics state machines. `dafny verify dfyconfig.toml` checks all of it.

## How the code is modelled

An object whose methods update its fields is a class with those fields. A method with awaits is
cut there: each stretch between two awaits is one method of the class, and its contract gives
the new state as a function of the old one. The interleavings are step systems over the same
functions: a system holds the object's fields, one entry per call in flight, and logs of what the
environment handed out; an event is a new call or an answer, and an event that cannot happen
changes nothing, so every list of events is a run. The environment (transport, decoder adapter,
FFmpeg, clock, file system) answers as it likes. The main results hold for all runs.

| module | subject |
|---|---|
| `PlaybackSession`, `PlaybackCoordinator`, `PlaybackRuns`, `PlaybackAnswers`, `PlaybackStates`, `PlaybackProgress`, `PlaybackReopen`, `PlaybackControl` | native playback: decoder handles, grants, lifecycle |
| `MediaGrants` | the stand-alone grant client |
| `PreviewHandler`, `PreviewStream`, `PreviewReplies`, `PreviewTimers` | who owns a recording preview, its fallback chain and its answers |
| `RefreshRotation`, `RefreshReplies` | refresh-token rotation and replay under concurrency |
| `CacheCleanup` | the recording cache sweep |
| `ZoneIntrusion`, `ZoneDeriver`, `IngestThrottle`, `WorkerReconcile`, `CameraBreaker` | analytics state machines |
| `Nms`, `Ranking` | greedy non-maximum suppression |
| `StreamPath` | stream names in URIs |
| `Common` | optional values and bags of owned items |

## What the proofs found

- `invalidate()` does not look at `active` again after its await, so an earlier invalidate can
  take the grant of a later open and leave its decoder running. `LatestOpenKeepsGrantIff` gives
  the exact condition, `InvalidateTakesLaterGrant` a run.
- An open revokes the grant of the one before it at once but keeps its decoder until a new one
  comes. If it is denied, gets an expired grant or is refused by the adapter, and in no other
  case, the old decoder plays on without a grant (`ReopenLosesGrantIff`; `DeniedOpenKeepsDecoder`
  gives a run).
- The tails of `stop` and `invalidate` set the visible state without asking what was published
  meanwhile, so a session can show `stopped` while its decoder plays: exactly if a close was
  still in flight when it was published (`PublishedShowsPlayingIff`).
- A decision shown while the page is hidden is opened at once, and hiding again then issues
  nothing, so a decoder can play while hidden. Playback stays released while hidden exactly if
  the decision shown last is not one to open (`HiddenIsReleasedIff`, `DecoderPlaysWhileHidden`).
- Overlapping `acquire` calls of the grant client can forget a grant: exactly those overwritten
  while current (`ForgottenAreOverwritten`, `OverlapForgets`).
- Incident identifiers of a key can repeat exactly if the grace is below one millisecond
  (`OneMillisecondIsExact`); on a clock that may be negative truncation toward zero makes it two
  (`TwoMillisecondsOnAnyClock`).
- A signature held back by the cooldown counts as seen: it is not accepted later either, until
  the deduplication memory is emptied (`HashAcceptedOncePerWindow`).
- The throttle joins its texts with bars and escapes none, so streams of different cameras or
  zones can share a key: exactly if one of the texts holds a bar (`KeyIsOwnIff`).
- A worker whose stream opens and is cut over and over is never disabled with the default limit,
  because each opening resets the breaker (`CutsAloneDisableIff`); the log message about a
  number of cuts suggests otherwise.
- A negative limit of workers counts from the end of the list (`LimitHolds` follows the slice).
- Blanks inside a recorder identifier do not disturb the URI check; only its ends are trimmed.

## Model

| member | source | states |
|---|---|---|
| `PlaybackSession.LivePlaybackSession.constructor` | apps/native/shared/session-controller.ts:25-34 | A session starts with no handle, generation zero and not disposed. |
| `PlaybackSession.LivePlaybackSession.Open` | apps/native/shared/session-controller.ts:46-49 | `open` up to the adapter call: a disposed session refuses and changes nothing, any other one starts a new generation, which is returned, and shows `opening`. |
| `PlaybackSession.LivePlaybackSession.OnAdapterError` | apps/native/shared/session-controller.ts:63-66 | A failed adapter call changes the visible state only for the current generation. |
| `PlaybackSession.LivePlaybackSession.OnAdapterOpen` | apps/native/shared/session-controller.ts:68-79 | The first generation check: an outdated or disposed opening gives its own handle up, a current one takes the field's handle out for disposal or publishes at once. |
| `PlaybackSession.LivePlaybackSession.OnPreviousReleased` | apps/native/shared/session-controller.ts:85-92 | The second generation check, after the previous handle was disposed: publish, or give the own handle up. |
| `PlaybackSession.LivePlaybackSession.Close` | apps/native/shared/session-controller.ts:109-133 | `stop`, `invalidate` and `dispose` up to their await: the generation advances, the handle leaves the field and is handed over; only `dispose` marks the session. |
| `PlaybackSession.LivePlaybackSession.OnClosed` | apps/native/shared/session-controller.ts:113-133 | Their tail sets the visible state and nothing else. |
| `PlaybackSession.RunKeepsInv` | apps/native/shared/session-controller.ts:46-134 | Every run, in any order of calls and adapter answers, keeps: each handle in exactly one place, and only the latest call able to pass a generation check. |
| `PlaybackSession.HandleConservation` | apps/native/shared/session-controller.ts:46-134 | In every interleaving of open, stop, invalidate and dispose each handle the adapter returned is released at most once, and when no call is in flight every handle but the session's own was released exactly once. |
| `PlaybackSession.OpenIsNotOvertaken` | apps/native/shared/session-controller.ts:46-93 | An open on a session that is not disposed starts as the call nothing has overtaken. |
| `PlaybackSession.NotOvertakenStays` | apps/native/shared/session-controller.ts:68-92 | Answers to other calls never make the latest open fail a generation check or lose its handle. |
| `PlaybackSession.CloseSettles` | apps/native/shared/session-controller.ts:109-133 | Right after a stop, invalidate or dispose the field is empty and no earlier open can publish. |
| `PlaybackSession.SettledStays` | apps/native/shared/session-controller.ts:109-134 | That stays so while answers arrive, in any order, until a new call. |
| `PlaybackSession.OpsKeepTheirKind` | apps/native/shared/session-controller.ts:46-134 | No step changes the kind of another call or reopens a finished one. |
| `PlaybackStates.OpenShows` | apps/native/shared/session-controller.ts:46-49 | A call to open shows `opening` and starts a generation exactly if the session is not disposed. |
| `PlaybackStates.RefusalShows` | apps/native/shared/session-controller.ts:63-66 | A refused opening shows `error` only if nothing has overtaken it, and changes nothing else of the session. |
| `PlaybackStates.CloseShows` | apps/native/shared/session-controller.ts:109-133 | A close empties the field and advances the generation; with a handle to hand over the state waits for that, without one it shows at once. |
| `PlaybackStates.CloseEndShows` | apps/native/shared/session-controller.ts:113-133 | When the handle was handed over the state is `stopped`, or `disposed`, whatever was published meanwhile. |
| `PlaybackStates.HandleShows` | apps/native/shared/session-controller.ts:68-92 | What an open does with its handle: given up if overtaken, published at once on an empty field, else kept back while the previous one is handed over. |
| `PlaybackStates.ReleaseShows` | apps/native/shared/session-controller.ts:71-92 | After that the latest open publishes and an overtaken one gives its handle up; one that gave it up ends as stale. |
| `PlaybackStates.PublishingShows` | apps/native/shared/session-controller.ts:76-92 | A step that puts a handle into the field belongs to the open that received it and shows `playing`. |
| `PlaybackStates.PublishedShowsPlayingIff` | apps/native/shared/session-controller.ts:91-133 | Once quiet after the latest open was published, the state says `playing` exactly if no stop, invalidate or dispose was in flight when it was published; the decoder is there either way. |
| `PlaybackCoordinator.LivePlaybackCoordinator.constructor` | apps/native/shared/coordinator.ts:23-33 | A coordinator starts with no request, no grant and nothing pending. |
| `PlaybackCoordinator.LivePlaybackCoordinator.Open` | apps/native/shared/coordinator.ts:51-56 | `open` up to its first await: a new request becomes the active one and the current grant, if any, is taken out for revocation. |
| `PlaybackCoordinator.LivePlaybackCoordinator.OnGrantAnswer` | apps/native/shared/coordinator.ts:58-69 | The answer of the transport: superseded, denied, expired (`expiresAt` not after the clock) or on to the decoder, and which grant is revoked; what each case is follows in `PlaybackAnswers`. |
| `PlaybackCoordinator.LivePlaybackCoordinator.OnSessionOpened` | apps/native/shared/coordinator.ts:69-79 | The answer of the session: superseded and unpublished opens give their grant up, a published active one makes it current. |
| `PlaybackCoordinator.LivePlaybackCoordinator.Close` | apps/native/shared/coordinator.ts:83-92 | `invalidate` and `dispose` up to the session's answer: a new request number becomes active and nothing else changes. |
| `PlaybackCoordinator.LivePlaybackCoordinator.OnSessionClosed` | apps/native/shared/coordinator.ts:86-93 | Their tail takes whatever grant is current, without looking at `active` again. |
| `PlaybackCoordinator.LivePlaybackCoordinator.OnRevoked` | apps/native/shared/coordinator.ts:38-41 | A failed revocation is pending, a successful one is not. |
| `PlaybackCoordinator.LivePlaybackCoordinator.OnRetried` | apps/native/shared/coordinator.ts:43-49 | A retry that fails leaves the grant pending, one that succeeds strikes it off. |
| `PlaybackCoordinator.StepKeepsRetries` | apps/native/shared/coordinator.ts:43-49 | What a retry still has to try is pending or was revoked meanwhile, after every step. |
| `PlaybackCoordinator.PublishFindsNoGrant` | apps/native/shared/coordinator.ts:56-78 | The active open about to publish finds no current grant. |
| `PlaybackAnswers.GrantAnswerDecides` | apps/native/shared/coordinator.ts:58-69 | An overtaken open is superseded and gives a grant up; the active one is denied, gives up a grant whose expiry is not after the clock, or opens the decoder with it: each exactly then. |
| `PlaybackAnswers.NewCallDecides` | apps/native/shared/coordinator.ts:51-92 | A new call is the active one; an open takes the current grant to revoke it first, a close leaves the grant and turns to the session. |
| `PlaybackAnswers.SessionAnswerDecides` | apps/native/shared/coordinator.ts:69-79 | The grant of an open becomes current exactly if the open is still active and its decoder was published, and is given up otherwise. |
| `PlaybackAnswers.CloseAnswerDecides` | apps/native/shared/coordinator.ts:86-93 | The tail of a close takes whatever grant is current. |
| `PlaybackAnswers.CallsWaitForTheSession` | apps/native/shared/coordinator.ts:69-92 | No call goes on before the session has answered it. |
| `PlaybackAnswers.RevocationDecides` | apps/native/shared/coordinator.ts:38-41 | A failed revocation is pending, a successful one is not, and the call goes on the same way. |
| `PlaybackAnswers.RetryDecides` | apps/native/shared/coordinator.ts:43-49 | A retry goes through the grants pending when it was called; each revoked one is struck off, each failure stays. |
| `PlaybackAnswers.AnswersDecideOpens` | apps/native/shared/coordinator.ts:58-80 | In every run each open past its answer stands where the logged answer and instant put it: decoded or beyond only with a grant that had not expired, `GRANT_EXPIRED` only with one that had, denied only if denied. |
| `PlaybackAnswers.NoExpiredGrantIsCurrent` | apps/native/shared/coordinator.ts:64-78 | In every run a current grant was granted with an expiry after the instant of its answer. |
| `PlaybackAnswers.LatestOpenFollowsItsAnswer` | apps/native/shared/coordinator.ts:58-80 | With opens only, once quiet, the last open was denied, came too late or was refused by the adapter, each exactly as its answer says and then there is no current grant; or its grant and its decoder are the current ones. |
| `PlaybackRuns.StepKeepsGrants` | apps/native/shared/coordinator.ts:38-94 | Every step keeps each issued grant in exactly one place. |
| `PlaybackRuns.StepKeepsOrder` | apps/native/shared/coordinator.ts:51-94 | Every step keeps the order of requests: only the last call is active, and what its session call still holds or has lost. |
| `PlaybackRuns.SessionTakesOneStep` | apps/native/shared/coordinator.ts:69-92 | Each coordinator step is one step of the session, or none, so everything proved of session runs holds inside the coordinator. |
| `PlaybackRuns.GrantConservation` | apps/native/shared/coordinator.ts:38-94 | In every interleaving, with revocations failing arbitrarily, each issued grant is revoked, pending, current or held by one call in flight: exactly one of these. |
| `PlaybackRuns.NothingForgotten` | apps/native/shared/coordinator.ts:38-94 | When nothing is in flight only the current grant is neither revoked nor pending, and only the published handle was not handed back exactly once. |
| `PlaybackRuns.HandleConservation` | apps/native/shared/coordinator.ts:69-92 | Each handle received was released, is published or is held by one open in flight, through every run of the coordinator. |
| `PlaybackRuns.NoGrantOverwritten` | apps/native/shared/coordinator.ts:78 | An open never assigns the current grant over another one. |
| `PlaybackRuns.LatestOpenWins` | apps/native/shared/coordinator.ts:51-80 | With opens only, when all is quiet the last one was published and its grant and handle are the current ones, unless it was denied, its grant had expired or the adapter refused it; it is never superseded. |
| `PlaybackRuns.LastCloseClears` | apps/native/shared/coordinator.ts:83-94 | If an invalidate or dispose is the last call, quiescence has neither grant nor handle. |
| `PlaybackRuns.LatestOpenKeepsGrantIff` | apps/native/shared/coordinator.ts:78-87 | A published last open keeps its decoder, and keeps its grant exactly when no invalidate or dispose was still in flight at the moment it was published. |
| `PlaybackRuns.TeardownAbsorbs` | apps/native/shared/coordinator.ts:89-94 | After dispose was called no handle is ever published, no other grant becomes current and a grant once cleared stays cleared, whatever is called later; once quiet there is no grant. |
| `PlaybackRuns.TeardownGivesEverythingUp` | apps/native/shared/coordinator.ts:89-94 | A torn down quiet coordinator has every grant revoked or pending and every handle handed back exactly once. |
| `PlaybackProgress.QuiescenceReachable` | apps/native/shared/coordinator.ts:38-94 | From every reachable state answers alone bring every call and retry to its end: the statements about quiescence are never empty. |
| `PlaybackReopen.ReopenLosesGrantIff` | apps/native/shared/coordinator.ts:51-80 | One more open while a decoder plays and nothing in flight can change that, with any answers until all is quiet: the grant is missing exactly if the open was denied, granted too late or refused, and then the old decoder plays on; otherwise the new grant and the new decoder are there. |
| `PlaybackReopen.QuietIsUndisturbed` | apps/native/shared/coordinator.ts:51-80 | A quiet coordinator with a published decoder is such a situation. |
| `PlaybackProgress.DeniedOpenKeepsDecoder` | apps/native/shared/coordinator.ts:56-63 | A run of the first case: it ends with a denied open, no current grant and the decoder of the open before still published. |
| `PlaybackProgress.InvalidateTakesLaterGrant` | apps/native/shared/coordinator.ts:83-87 | A run in which an earlier invalidate takes the grant of a later published open and leaves its decoder running. |
| `PlaybackControl.NativeLifecycleBinder.constructor` | apps/native/shared/lifecycle-binder.ts:29-36 | A binder starts neither suspended nor disposed. |
| `PlaybackControl.NativeLifecycleBinder.OnHidden` | apps/native/shared/lifecycle-binder.ts:42-47 | Invalidates exactly when neither disposed nor already suspended, and is suspended then. |
| `PlaybackControl.NativeLifecycleBinder.OnVisible` | apps/native/shared/lifecycle-binder.ts:50-55 | Resumes exactly when suspended and not disposed. |
| `PlaybackControl.NativeLifecycleBinder.OnTeardown` | apps/native/shared/lifecycle-binder.ts:64-69 | Disposes the coordinator exactly the first time. |
| `PlaybackControl.NativePlaybackController.constructor` | apps/native/shared/native-controller.ts:35-48 | A controller starts with no decision to remember. |
| `PlaybackControl.NativePlaybackController.Show` | apps/native/shared/native-controller.ts:55-59 | Remembers the decision and issues its command, unless disposed. |
| `PlaybackControl.NativePlaybackController.Resume` | apps/native/shared/native-controller.ts:62-65 | Re-applies the remembered decision, unless disposed or none is remembered. |
| `PlaybackControl.NativePlaybackController.OnHidden` | apps/native/shared/native-controller.ts:68 | The hidden signal goes to the binder. |
| `PlaybackControl.NativePlaybackController.OnVisible` | apps/native/shared/native-controller.ts:69 | The visible signal resumes through the binder. |
| `PlaybackControl.NativePlaybackController.OnPageHide` | apps/native/shared/lifecycle-binder.ts:58-61 | A page kept in the cache counts as hidden, any other one as torn down. |
| `PlaybackControl.NativePlaybackController.Dispose` | apps/native/shared/native-controller.ts:73-77 | Forgets the decision and tears down once. |
| `PlaybackControl.DisposesOnTeardown` | apps/native/shared/lifecycle-binder.ts:57-69 | An input drives a dispose exactly when it tears down for the first time. |
| `PlaybackControl.DecisionOpensIff` | apps/native/shared/apply-decision.ts:46-70 | A decision shown to a live controller opens, with the codec of its kind, exactly if it is a native one with a native transport; any other gives playback up. |
| `PlaybackControl.StateIsHistory` | apps/native/shared/lifecycle-binder.ts:42-69 | Short of a teardown, suspended means that the last visibility signal hid the page, and the decision remembered is the one shown last. |
| `PlaybackControl.SignalsFollowHistory` | apps/native/shared/native-controller.ts:54-78 | After any signals: hiding invalidates unless hidden already, returning re-applies the decision shown last if hidden, closing disposes. |
| `PlaybackControl.TornDownOnce` | apps/native/shared/lifecycle-binder.ts:42-69 | With the real coordinator below, in every interleaving: dispose is called at most once; once torn down nothing is published, and once quiet no grant is left. |
| `PlaybackControl.NothingAliveAfterRelease` | apps/native/shared/apply-decision.ts:46-70 | If the last command gave playback up (hidden, a server or unavailable decision, a native decision without native transport, teardown), quiescence has neither grant nor handle. |
| `PlaybackControl.HiddenStaysReleased` | apps/native/shared/lifecycle-binder.ts:42-69 | From a released system that is hidden or torn down, every run in which nothing is shown and the hidden page does not return stays released. |
| `PlaybackControl.HiddenIsReleasedIff` | apps/native/shared/native-controller.ts:54-68 | The exact limit: through any run in which the page stays hidden, playback is released exactly if the decision shown last, if any, is not one to open. |
| `PlaybackControl.DecoderPlaysWhileHidden` | apps/native/shared/native-controller.ts:54-68 | A run that ends quiet and hidden with a grant and a playing decoder. |
| `PlaybackControl.TornDownSilence` | apps/native/shared/native-controller.ts:55-77 | A disposed controller issues no command any more. |
| `PlaybackControl.ClosedIsSilent` | apps/native/shared/native-controller.ts:73-77 | A controller closed by its owner issues no command in any run and remembers no decision. |
| `PlaybackControl.RunsTheCoordinator` | apps/native/shared/native-controller.ts:35-78 | Every run of the controller is a run of the coordinator, so all that is proved of those holds here. |
| `PlaybackControl.ControllerForgetsNothing` | apps/native/shared/native-controller.ts:35-78 | Under the controller, once quiet, every grant but the current one is revoked or pending and every handle but the published one was handed back once; torn down, without exception. |
| `MediaGrants.MediaGrantClient.constructor` | apps/native/shared/grant-client.ts:27-32 | A client starts without a grant and with nothing pending. |
| `MediaGrants.MediaGrantClient.TakeCurrent` | apps/native/shared/grant-client.ts:39-51 | `acquire` and `release` take the current grant out before they await its revocation. |
| `MediaGrants.MediaGrantClient.OnGrantAnswer` | apps/native/shared/grant-client.ts:41-43 | A granted request becomes the current grant, over whatever is there. |
| `MediaGrants.MediaGrantClient.OnRevokeAnswer` | apps/native/shared/grant-client.ts:59-66 | A failed revocation is pending, a successful one is not. |
| `MediaGrants.ForgottenAreOverwritten` | apps/native/shared/grant-client.ts:38-75 | In every interleaving, overlapping acquires included, the issued grants that are neither current, pending, revoked nor being revoked are exactly those overwritten while current. |
| `MediaGrants.SequentialAcquiresForgetNothing` | apps/native/shared/grant-client.ts:38-75 | If no acquire is called while another is under way, no grant is ever forgotten, however releases, retries and failures interleave. |
| `MediaGrants.OverlapForgets` | apps/native/shared/grant-client.ts:39-44 | Two overlapping acquires forget the first one's grant. |
| `MediaGrants.OnePlace` | apps/native/shared/grant-client.ts:38-75 | In every interleaving each issued grant is in exactly one place: current, being revoked, pending, revoked or forgotten. |
| `MediaGrants.CallDecides` | apps/native/shared/grant-client.ts:39-51 | A call takes the current grant to revoke it first; with none an acquire asks at once and a release is over. |
| `MediaGrants.RevocationDecides` | apps/native/shared/grant-client.ts:59-66 | A failed revocation is pending, a successful one is not, and an acquire goes on to its request either way. |
| `MediaGrants.GrantDecides` | apps/native/shared/grant-client.ts:41-43 | A grant becomes current, a denial leaves all as it was. |
| `MediaGrants.RetryDecides` | apps/native/shared/grant-client.ts:69-75 | A retry that succeeds strikes its grant off, one that fails changes nothing. |
| `PreviewHandler.StreamHandler.constructor` | apps/api/src/routes/recordings.ts:2429-2471 | A GET starts with no status line, no attempt and the audio decision it was given. |
| `PreviewHandler.StreamHandler.WriteHead` | apps/api/src/routes/recordings.ts:2484-2506 | Only the first status line is written. |
| `PreviewHandler.StreamHandler.End` | apps/api/src/routes/recordings.ts:2509-2531 | `finish` ends the response once and, when no status line was written and the client is there, writes the 502. |
| `PreviewHandler.StreamHandler.EnterPhase` | apps/api/src/routes/recordings.ts:2703-2707 | Only the phase of the attempt changes. |
| `PreviewHandler.StreamHandler.Start` | apps/api/src/routes/recordings.ts:2609-2671 | A start is refused with an error exactly when the budget is spent before a first byte; otherwise it spawns an attempt that is video-only if asked to be or if the session is. |
| `PreviewHandler.StreamHandler.FirstData` | apps/api/src/routes/recordings.ts:2846-2871 | The first block of output is accepted exactly when the attempt still waits for it, has not timed out or exited and the client waits; then it writes the 200. |
| `PreviewHandler.StreamHandler.ClientGone` | apps/api/src/routes/recordings.ts:3172-3186 | A disconnect ends the attempt's phase and the response, once. |
| `PreviewHandler.StreamHandler.Deadline` | apps/api/src/routes/recordings.ts:3211-3224 | The total budget ends the response only before a first byte, a disconnect or an end. |
| `PreviewHandler.StreamHandler.Failure` | apps/api/src/routes/recordings.ts:3037-3156 | A close without a first byte arms the next attempt unless the chain is at its end, the failure stops it or the client is gone; otherwise the response ends, with an error unless the attempt was cancelled. |
| `PreviewHandler.StreamHandler.Close` | apps/api/src/routes/recordings.ts:2934-3156 | What closing an attempt does: restart without audio, arm the next attempt, or end with or without an error. |
| `PreviewHandler.CloseKeepsLocals` | apps/api/src/routes/recordings.ts:2934-3156 | After a close the handler is idle, waits for its retry timer, or may restart the same index for the first and last time. |
| `PreviewHandler.StatusMeans` | apps/api/src/routes/recordings-preview-state.ts:29-58 | 401 exactly for the credentials, 500 for the encoder, 503 for the capacity of the recorder, 502 for what is not classified, else a timeout. |
| `PreviewStream.PreviewProcessRegistry.constructor` | apps/api/src/services/recordings/preview-process-registry.ts:60-67 | A registry starts empty. |
| `PreviewStream.PreviewProcessRegistry.Register` | apps/api/src/services/recordings/preview-process-registry.ts:70-81 | A new attempt is alive and gets the next number. |
| `PreviewStream.PreviewProcessRegistry.MarkExited` | apps/api/src/services/recordings/preview-process-registry.ts:85-91 | Only an observed exit ends the life of an attempt; an unknown one is ignored. |
| `PreviewStream.PreviewProcessRegistry.Unregister` | apps/api/src/services/recordings/preview-process-registry.ts:95-101 | A close implies the exit; an unknown attempt is ignored. |
| `PreviewStream.PreviewProcessRegistry.Alive` | apps/api/src/services/recordings/preview-process-registry.ts:109-113 | Counts the attempts whose exit was not observed. |
| `PreviewStream.PreviewProcessRegistry.BeginTakeover` | apps/api/src/routes/recordings-preview-state.ts:98-102 | Proceeds at once exactly when nothing is alive. |
| `PreviewStream.PreviewProcessRegistry.EndTakeover` | apps/api/src/routes/recordings-preview-state.ts:105-109 | Proceeds after the wait exactly when it was met and nothing is alive. |
| `PreviewStream.RunKeepsInv` | apps/api/src/routes/recordings.ts:2312-3226 | Every run keeps: what is alive belongs to the newest GET that serves or a takeover is still waiting for it; each GET's status lines, attempt and chain in order through every one of its events; spawns counted. |
| `PreviewStream.NeverTwoAlive` | apps/api/src/routes/recordings.ts:2312-2347 | Never two live FFmpeg processes for one preview session, in every interleaving of GETs, takeovers, exits, closes, retry timers, audio restarts, disconnects, deadlines and the teardown. |
| `PreviewStream.ChainIsBounded` | apps/api/src/routes/recordings.ts:2984-3116 | One GET spawns at most one process per attempt of its chain and one more, and not that one when it started without audio. |
| `PreviewStream.StatusLines` | apps/api/src/routes/recordings.ts:2484-2531 | At most one explicit status line per GET, a 200 exactly when a first byte was accepted, and no ended response without one while its client waits. |
| `PreviewStream.LostStreamSpawnsNothing` | apps/api/src/routes/recordings.ts:2477-2478 | A GET that lost the stream to a newer GET or to the teardown never spawns again, whatever timers and events are still to come. |
| `PreviewStream.NothingAfterDelete` | apps/api/src/routes/recordings.ts:650-658 | After the teardown no process is ever spawned for the session. |
| `PreviewReplies.GetDecides` | apps/api/src/routes/recordings-preview-state.ts:98-102 | A GET goes on at once exactly if every process of the session has exited; a closing session takes none. |
| `PreviewReplies.TakeoverDecides` | apps/api/src/routes/recordings-preview-state.ts:103-109 | After the wait it goes on exactly if the wait was met and every process has exited. |
| `PreviewReplies.ResumeDecides` | apps/api/src/routes/recordings.ts:2312-2428 | Then superseded, cancelled, not reaped, without capacity, nothing to try or no time left, in this order, each with its status; otherwise exactly one process is spawned for the first attempt. |
| `PreviewReplies.FirstDataDecides` | apps/api/src/routes/recordings-preview-state.ts:19-25 | The first data is accepted, with a 200 as only status, exactly if the attempt still waits for it, has neither timed out nor exited, and the client waits for an open response. |
| `PreviewReplies.WhatBars` | apps/api/src/routes/recordings.ts:2703-2930 | A first-byte timeout, an exit, a process error, a disconnect, the deadline and an audio problem each bar the attempt that still waits. |
| `PreviewReplies.BarredAcceptsNothing` | apps/api/src/routes/recordings.ts:2846-2871 | Whatever comes afterwards, a barred attempt never delivers a byte until its handler goes on to another attempt. |
| `PreviewReplies.CloseRestarts` | apps/api/src/routes/recordings.ts:2985-3030 | A close with an audio restart due, the stream still owned and the client there spawns the same index once more without audio, if time is left. |
| `PreviewReplies.CloseAdvances` | apps/api/src/routes/recordings.ts:3037-3110 | A close without a first byte, with an index left, no failure that stops the chain and the client there arms the next index and changes nothing else. |
| `PreviewReplies.CloseEnds` | apps/api/src/routes/recordings.ts:2997-3156 | Every other close ends the response: with the status already written, none for a client that is gone, the failure's own, or the 502. |
| `PreviewReplies.CloseDecides` | apps/api/src/routes/recordings.ts:2934-3156 | The three outcomes together, each exactly under its condition. |
| `PreviewReplies.CloseIsNoted` | apps/api/src/routes/recordings.ts:2979 | The closed process is marked closed and exited. |
| `PreviewReplies.RetryDecides` | apps/api/src/routes/recordings.ts:3107-3113 | The retry timer spawns the armed index for an owner whose client waits, if time is left, and ends the response otherwise. |
| `PreviewReplies.ErrorsHaveReasons` | apps/api/src/routes/recordings.ts:2312-3226 | In every run a waiting client gets an error only after the deadline, a process that could not be run, a start without time left, a failure that stops the chain, the loss of the stream, or when every attempt of the chain has been spawned. |
| `PreviewReplies.GoneClientSpawnsNothing` | apps/api/src/routes/recordings.ts:3172-3186 | Once its client is gone a GET spawns nothing in any run. |
| `PreviewReplies.DeleteSilences` | apps/api/src/routes/recordings.ts:650-658 | The teardown leaves no attempt that could still deliver. |
| `PreviewReplies.NothingAcceptedAfterDelete` | apps/api/src/routes/recordings.ts:650-658 | After the teardown no response accepts a first byte in any run. |
| `PreviewTimers.TimeoutDecides` | apps/api/src/routes/recordings.ts:2708-2720 | A first-byte timeout marks the attempt that still waits, answers nothing yet, and does not touch any other. |
| `PreviewTimers.ExitDecides` | apps/api/src/routes/recordings.ts:2909-2932 | An exit is noted with attempt and process and ends the wait for a byte; a stream that delivers goes on. |
| `PreviewTimers.AudioRestarts` | apps/api/src/routes/recordings.ts:2780-2993 | An audio problem seen before a byte makes the close of that attempt spawn the same index without audio. |
| `PreviewTimers.DeadlineEnds` | apps/api/src/routes/recordings.ts:3211-3224 | The total budget ends an open response without a byte with the error reported, and the close after it neither goes on in the chain nor changes the answer. |
| `PreviewTimers.DisconnectDecides` | apps/api/src/routes/recordings.ts:3172-3186 | A disconnect ends the response without a status; a second one does nothing. |
| `PreviewTimers.FirstByteDisarms` | apps/api/src/routes/recordings.ts:2866-2871 | After a first byte timeout, audio fallback and deadline change nothing; the deadline neither after a disconnect or an end. |
| `PreviewTimers.DeleteDisarms` | apps/api/src/routes/recordings.ts:3193-3199 | The teardown disarms timers and listeners of an open response and answers nothing itself. |
| `PreviewTimers.DeliveryBegins` | apps/api/src/routes/recordings.ts:2846-2871 | An accepted first byte starts the delivery. |
| `PreviewTimers.DeliveryGoesOn` | apps/api/src/routes/recordings.ts:2846-3226 | In every run a stream that delivers goes on until its process closes or fails, its client goes or the session is torn down. |
| `RefreshRotation.SessionStore.constructor` | apps/api/src/routes/auth.ts:980-990 | The tables start empty. |
| `RefreshRotation.SessionStore.FindByToken` | apps/api/src/routes/auth.ts:619-622 | Finds the session whose current token was presented, if there is one. |
| `RefreshRotation.SessionStore.Rotate` | apps/api/src/routes/auth.ts:642-657 | Succeeds exactly when the session still has the presented token, and then rotates it and writes the history row in the same transaction. |
| `RefreshRotation.SessionStore.RevokeFamily` | apps/api/src/routes/auth.ts:689-692 | Removes all sessions and all history of the user and nothing else. |
| `RefreshRotation.RotationIsLinear` | apps/api/src/routes/auth.ts:619-657 | In every interleaving a token is rotated at most once, a consumed token is no session's current one, current and used tokens are disjoint, and a session's previous token is the one its latest rotation consumed. |
| `RefreshRotation.RotationsMeet` | apps/api/src/routes/auth.ts:642-657 | Of two successive rotations of a session the later consumes the token the earlier issued. |
| `RefreshRotation.LoserIsNoThief` | apps/api/src/routes/auth.ts:659-685 | A refresh that saw its token as current and lost the race is never answered `TOKEN_REUSE` and revokes nothing. |
| `RefreshRotation.RevokedOnlyAfterGrace` | apps/api/src/routes/auth.ts:675-698 | A family is revoked only for a token rotated away at least the grace period before the request came in; that it then is revoked is `RefreshReplies.ReplayIsCaught`. |
| `RefreshRotation.HistoryNeverClashes` | apps/api/src/routes/auth.ts:652-655 | The history row of a winning rotation is never a duplicate. |
| `RefreshRotation.WinnerConsumesFirst` | apps/api/src/routes/auth.ts:642-652 | A request about to win finds its token never consumed before. |
| `RefreshReplies.FindDecides` | apps/api/src/routes/auth.ts:619-630 | A presented token that is current goes on to rotate exactly if its user is active and it has not expired; any other is looked up in the history. |
| `RefreshReplies.CommitDecides` | apps/api/src/routes/auth.ts:637-657 | The rotation succeeds exactly if the session still has the presented token; then current, previous, expiry and the history row are the new ones, otherwise nothing changes. |
| `RefreshReplies.LoginDecides` | apps/api/src/routes/auth.ts:980-990 | A login makes a session that never rotated and lasts seven days. |
| `RefreshReplies.ArrivalDecides` | apps/api/src/routes/auth.ts:617 | A request is stamped with the clock when it comes; time and pruned sessions touch nothing else. |
| `RefreshReplies.ConsultDecides` | apps/api/src/routes/auth.ts:674-704 | Unknown to the history is invalid, consumed less than thirty seconds before is `TOKEN_ROTATED` and touches nothing, older goes on to revoke. |
| `RefreshReplies.ReuseRevokes` | apps/api/src/routes/auth.ts:677-698 | Reuse after the grace is answered `TOKEN_REUSE`, and exactly that user's sessions and history rows are gone. |
| `RefreshReplies.HistoryNamesOwners` | apps/api/src/routes/auth.ts:652-692 | In every run the history names the user whose session consumed the token, and every consumed token is in it unless reuse in that family was answered. |
| `RefreshReplies.ReplayIsCaught` | apps/api/src/routes/auth.ts:674-704 | In every run a token presented thirty seconds or more after it was rotated away is caught: the answer is reuse, or invalid because reuse in the same family was answered already. |
| `Ranking.ArgsortDescending` | apps/analytics/app/providers/yolox_onnx.py:65 | All indices, each once, in falling score. |
| `Ranking.OneRanking` | apps/analytics/app/providers/yolox_onnx.py:65 | With distinct scores the same indices have one order. |
| `Nms.IntersectionFits` | apps/analytics/app/providers/yolox_onnx.py:72-78 | The intersection is not negative and fits into either box, inverted boxes included. |
| `Nms.IoUBounds` | apps/analytics/app/providers/yolox_onnx.py:64-79 | The ratio is symmetric and lies in [0, 1) for all boxes. |
| `Nms.IoUOfOverlap` | apps/analytics/app/providers/yolox_onnx.py:72-79 | For two upright boxes that overlap: the overlap over both areas minus the overlap plus 1e-9, in coordinates. |
| `Nms.IoUOfInner` | apps/analytics/app/providers/yolox_onnx.py:72-79 | For a box inside another: the quotient of the areas, up to the 1e-9. |
| `Nms.OverlapIsShared` | apps/analytics/app/providers/yolox_onnx.py:72-79 | The ratio is positive exactly if the boxes share an interior point. |
| `Nms.NotOverlapped` | apps/analytics/app/providers/yolox_onnx.py:72-80 | It keeps exactly the remaining indices that do not overlap the kept box. |
| `Nms.NotOverlappedInOrder` | apps/analytics/app/providers/yolox_onnx.py:80 | It keeps them distinct and in falling score. |
| `Nms.Survivors` | apps/analytics/app/providers/yolox_onnx.py:72-80 | The mask of one round, in the order of what was left. |
| `Nms.Nms` | apps/analytics/app/providers/yolox_onnx.py:59-81 | Distinct indices in falling score, no two kept boxes overlapping above the threshold, and every dropped box overlapped by a kept one of at least its score; it terminates. |
| `Nms.NmsIsUnique` | apps/analytics/app/providers/yolox_onnx.py:59-81 | With distinct scores these promises are met by one list only. |
| `Nms.KeptDoNotOverlap` | apps/analytics/app/providers/yolox_onnx.py:80-81 | Any two kept boxes have a ratio of at most the threshold, in either order. |
| `Nms.CopiesAreDropped` | apps/analytics/app/providers/yolox_onnx.py:59-81 | Of two boxes that cover the same rectangle at most one is kept, if the threshold is below the ratio of the rectangle with itself. |
| `Nms.LoneBoxIsKept` | apps/analytics/app/providers/yolox_onnx.py:59-81 | A box that shares no interior point with any other of at least its score is kept, if the threshold is not negative. |
| `CacheCleanup.CacheDir.constructor` | apps/api/src/routes/recordings.ts:222-233 | All listed files are there. |
| `CacheCleanup.CacheDir.Unlink` | apps/api/src/routes/recordings.ts:242 | An unlink removes one file or fails and removes nothing. |
| `CacheCleanup.SortByMtime` | apps/api/src/routes/recordings.ts:251 | All files, oldest first. |
| `CacheCleanup.StillThere` | apps/api/src/routes/recordings.ts:249-251 | The files whose stat still succeeds, in the same order. |
| `CacheCleanup.TotalBytes` | apps/api/src/routes/recordings.ts:235 | The sum of the sizes. |
| `CacheCleanup.TtlPass` | apps/api/src/routes/recordings.ts:235-245 | Removes exactly the expired files whose unlink succeeds; freed plus remaining bytes equal the initial total. |
| `CacheCleanup.TtlTakesTheOld` | apps/api/src/routes/recordings.ts:239-245 | A file stays exactly if its age is within the limit or its unlink fails. |
| `CacheCleanup.CapPass` | apps/api/src/routes/recordings.ts:248-257 | Walks the files oldest first and stops when the cap is met; the totals still account for what is on disk, even when unlinks fail. |
| `CacheCleanup.RunCacheCleanup` | apps/api/src/routes/recordings.ts:219-258 | Both passes: freed plus remaining bytes equal the initial total whatever fails, and if every unlink succeeds the sweep keeps its promise (next rows). |
| `CacheCleanup.EvictOnlyRemoves` | apps/api/src/routes/recordings.ts:252-256 | The cap pass removes only files of its list whose unlink succeeds. |
| `CacheCleanup.EvictMeetsCap` | apps/api/src/routes/recordings.ts:252-256 | If all unlinks succeed the cap is met. |
| `CacheCleanup.EvictTakesOldest` | apps/api/src/routes/recordings.ts:251-256 | What the cap pass removed is no newer than what it left. |
| `CacheCleanup.EvictStopsInTime` | apps/api/src/routes/recordings.ts:253 | Of the files the cap pass removed, the one that comes last in its order was still needed: with it the cap would not be met. |
| `CacheCleanup.EvictTriesShortestStretch` | apps/api/src/routes/recordings.ts:252-256 | Whatever unlinks fail, the cap pass tries the shortest stretch of its list that meets the cap, or the whole list. |
| `CacheCleanup.CleanupPromise` | apps/api/src/routes/recordings.ts:239-257 | With all unlinks succeeding: no expired file left, the rest within the cap, oldest taken first, none taken once the cap was met. |
| `ZoneIntrusion.ZoneIntrusionTracker.constructor` | apps/analytics/app/rules.py:111-113 | A tracker starts with nobody inside. |
| `ZoneIntrusion.ZoneIntrusionTracker.MarkInside` | apps/analytics/app/rules.py:119-167 | One sighting: a first one opens an incident, a later one refreshes the last sighting and emits loitering and reminder exactly when due. |
| `ZoneIntrusion.ZoneIntrusionTracker.SweepExits` | apps/analytics/app/rules.py:169-182 | Removes exactly the occupants not seen for more than the grace, with one exit each in the order in which their visits opened; all that remain were seen within it. |
| `ZoneIntrusion.ZoneIntrusionTracker.Walk` | apps/analytics/app/rules.py:173 | The occupants of one kind, late or not, in the order of arrival. |
| `ZoneIntrusion.PickListsLate` | apps/analytics/app/rules.py:173 | The walk lists every late occupant once, and what is left is in order again. |
| `ZoneIntrusion.ZoneIntrusionTracker.PopAll` | apps/analytics/app/rules.py:174-182 | Pops the listed occupants, one exit each. |
| `ZoneIntrusion.ZoneIntrusionTracker.ActiveIncidents` | apps/analytics/app/rules.py:184-185 | The number of occupants. |
| `ZoneIntrusion.EventsFormVisits` | apps/analytics/app/rules.py:119-182 | In every run on any clock the events of a key read as visits: an intrusion, at most one loitering, any reminders, one exit, all with the opening identifier; the key is inside exactly while a visit is open. |
| `ZoneIntrusion.ActiveIncidentsAreCounted` | apps/analytics/app/rules.py:119-185 | In every run intrusions minus exits are the active incidents. |
| `ZoneIntrusion.ReentryWaitsOutTheGrace` | apps/analytics/app/rules.py:135-182 | On a clock that does not run backwards a key's next intrusion comes more than the grace after the last sighting of its previous visit. |
| `ZoneIntrusion.IncidentsNeverRepeat` | apps/analytics/app/rules.py:115-117 | No identifier is given to two visits of a key, with a grace of 2 ms on any clock that does not run backwards, or of 1 ms on one that is never negative. |
| `ZoneIntrusion.QuickReturnRepeats` | apps/analytics/app/rules.py:115-117 | A key that leaves and returns after the grace but within the same whole millisecond gets the same identifier again. |
| `ZoneIntrusion.OneMillisecondIsExact` | apps/analytics/app/rules.py:115-117 | On clocks that are never negative, identifiers never repeat in any run exactly when the grace is at least one millisecond. |
| `ZoneIntrusion.TwoMillisecondsOnAnyClock` | apps/analytics/app/rules.py:115-117 | On all clocks that do not run backwards they never repeat in any run exactly when the grace is at least two milliseconds. |
| `ZoneIntrusion.RemindersKeepTheirDistance` | apps/analytics/app/rules.py:149-166 | On a clock that is never negative a visit's loitering waits for its limit, and its reminders keep the interval from each other and from the opening. |
| `ZoneIntrusion.SightingDecides` | apps/analytics/app/rules.py:119-167 | A sighting opens a visit if none is open; else it emits loitering exactly if none came in this visit and the limit has passed since the opening, and a reminder exactly if the interval has passed since the one before or the opening. |
| `ZoneIntrusion.SightingsFollowHistory` | apps/analytics/app/rules.py:119-167 | So in every run on a clock that is never negative, read off the events emitted so far. |
| `ZoneIntrusion.SweepDecides` | apps/analytics/app/rules.py:169-182 | A sweep ends a visit exactly if its key was last seen more than the grace ago. |
| `ZoneIntrusion.LastSeenIsLastSighting` | apps/analytics/app/rules.py:146 | In every run last seen is the instant of the last sighting. |
| `ZoneDeriver.FrigateDeriver.constructor` | apps/analytics/app/frigate/derive.py:21-23 | No track is known. |
| `ZoneDeriver.FrigateDeriver.Update` | apps/analytics/app/frigate/derive.py:31-59 | Sends one crossing per zone entered and left, entries before exits and each in name order, and stores the new zones unless there are none. |
| `ZoneDeriver.FrigateDeriver.Occupancy` | apps/analytics/app/frigate/derive.py:61-65 | Counts the tracks of the camera inside the zone. |
| `ZoneDeriver.FrigateDeriver.OccupancyExceeded` | apps/analytics/app/frigate/derive.py:67-71 | True exactly when the limit is positive and below the occupancy. |
| `ZoneDeriver.FrigateDeriver.ForgetCamera` | apps/analytics/app/frigate/derive.py:76-80 | Drops exactly the tracks of the camera. |
| `ZoneDeriver.Listed` | apps/analytics/app/frigate/derive.py:50-53 | Every zone of the set once, in name order. |
| `ZoneDeriver.CrossingsAlternate` | apps/analytics/app/frigate/derive.py:31-59 | In every run that does not forget the camera, the crossings of a track and zone alternate beginning with an entry, and the track is inside exactly when their number is odd. |
| `ZoneDeriver.OccupancyIsConserved` | apps/analytics/app/frigate/derive.py:31-80 | In every run entries minus exits sent for a zone are its occupancy plus what forgetting the camera dropped, and no empty zone set is stored. |
| `ZoneDeriver.TrackIsWhereReported` | apps/analytics/app/frigate/derive.py:46-58 | In every run a track is in the zones of its last report, and stored only if there are any. |
| `ZoneDeriver.EndedTrackHasLeft` | apps/analytics/app/frigate/derive.py:47-59 | A track that ended is in no zone and not stored, and every entry of it was answered by an exit. |
| `IngestThrottle.CooldownTracker.constructor` | apps/analytics/app/rules.py:13-14 | No key was emitted yet. |
| `IngestThrottle.CooldownTracker.ShouldEmit` | apps/analytics/app/rules.py:16-21 | Emits exactly when the key's last emission (instant zero if none) is a cooldown ago, and only then remembers the instant. |
| `IngestThrottle.CooldownTracker.Reset` | apps/analytics/app/rules.py:23-24 | Forgets the key. |
| `IngestThrottle.TrackDedup.constructor` | apps/analytics/app/rules.py:29-31 | Nothing seen yet. |
| `IngestThrottle.TrackDedup.IsNew` | apps/analytics/app/rules.py:33-40 | New exactly when not remembered; past the cap only the new one stays remembered. |
| `IngestThrottle.TrackDedup.Forget` | apps/analytics/app/rules.py:42-43 | Forgets the one. |
| `IngestThrottle.IngestDecider.constructor` | apps/analytics/app/frigate/ingestor.py:123-137 | Fresh memories with the given limits. |
| `IngestThrottle.IngestDecider.PassesFilter` | apps/analytics/app/frigate/ingestor.py:139-147 | Supported class and readable confidence not below the minimum: zero when missing, and the float NaN passes. |
| `IngestThrottle.IngestDecider.Decide` | apps/analytics/app/frigate/ingestor.py:149-161 | Filter, then deduplication, then cooldown: the decision and both memories after it. |
| `IngestThrottle.DecisionsFollowHistory` | apps/analytics/app/frigate/ingestor.py:149-161 | In every run a payload is accepted exactly when it passes the filter, its hash was not decided on since the memory was last emptied and the last accepted payload with its key is a cooldown ago. |
| `IngestThrottle.HashAcceptedOncePerWindow` | apps/analytics/app/frigate/ingestor.py:153-160 | A hash that passed the filter once, accepted or held back by the cooldown, is accepted later only if the memory was emptied in between. |
| `IngestThrottle.MemoryIsBounded` | apps/analytics/app/rules.py:33-40 | The memory never exceeds its cap. |
| `IngestThrottle.HashAcceptedOnceUnderTheCap` | apps/analytics/app/frigate/ingestor.py:153 | In a run whose hashes fit under the cap each is accepted at most once. |
| `IngestThrottle.AcceptedKeepCooldown` | apps/analytics/app/frigate/ingestor.py:155-160 | Any two accepted payloads with the same key are a cooldown apart, on any clock and across emptied memories. |
| `IngestThrottle.KeyOfPlainTexts` | apps/analytics/app/frigate/ingestor.py:155-158 | Payloads without bars in their texts share a key exactly if camera, type, zone and direction agree. |
| `IngestThrottle.BarsCollide` | apps/analytics/app/frigate/ingestor.py:155-158 | With a bar in a text there is another stream with the same key. |
| `IngestThrottle.KeyIsOwnIff` | apps/analytics/app/frigate/ingestor.py:155-158 | A key stands for one stream exactly if none of its texts holds a bar. |
| `IngestThrottle.StreamsAreThrottledApart` | apps/analytics/app/frigate/ingestor.py:149-161 | In every run a payload without bars is accepted exactly if class and confidence pass, its hash is new and the last accepted payload of its own stream is a cooldown ago. |
| `WorkerReconcile.CameraWorker.constructor` | apps/analytics/app/pipeline.py:47-50 | A worker is made for a configuration and not yet started. |
| `WorkerReconcile.CameraWorker.Start` | apps/analytics/app/pipeline.py:533 | Started. |
| `WorkerReconcile.CameraWorker.Stop` | apps/analytics/app/pipeline.py:441-442 | Asked to stop. |
| `WorkerReconcile.PipelineManager.constructor` | apps/analytics/app/pipeline.py:450-460 | No workers and no exclusions. |
| `WorkerReconcile.PipelineManager.DesiredCameras` | apps/analytics/app/pipeline.py:508-520 | The wanted identifiers in order and the configuration last listed for each; which and how many they are is in `WantedAreTheFirst` and `LimitHolds`. |
| `WorkerReconcile.PipelineManager.StopUnwanted` | apps/analytics/app/pipeline.py:521-526 | Stops and drops exactly the workers not wanted in their version; the others are untouched. |
| `WorkerReconcile.PipelineManager.StartMissing` | apps/analytics/app/pipeline.py:529-533 | Every wanted camera without a worker gets a new one that runs; the others keep theirs. |
| `WorkerReconcile.PipelineManager.BringInLine` | apps/analytics/app/pipeline.py:521-533 | Both loops together. |
| `WorkerReconcile.PipelineManager.Reconcile` | apps/analytics/app/pipeline.py:505-533 | The workers are those of the wanted cameras, no more than a limit that is not negative, each with the `updatedAt` wanted; an unchanged worker is the same untouched object, any other old one is stopped, any other wanted camera has a new one that runs; if all were as wanted nothing changes. |
| `WorkerReconcile.WantedAreTheFirst` | apps/analytics/app/pipeline.py:508-520 | A camera is wanted exactly when it is listed, not excluded, and fewer allowed cameras than the limit are first listed before it; a negative limit leaves that many out at the end. |
| `WorkerReconcile.WantedWithLastListing` | apps/analytics/app/pipeline.py:508 | It is wanted with the last configuration listed for it. |
| `WorkerReconcile.LimitHolds` | apps/analytics/app/pipeline.py:516-520 | The number of wanted cameras is the number allowed or the limit, whichever is less; a negative limit leaves that many out. |
| `WorkerReconcile.SecondPassKeepsAll` | apps/analytics/app/pipeline.py:521-533 | After one pass a second one over the same list finds every worker as wanted. |
| `CameraBreaker.CircuitBreaker.constructor` | apps/analytics/app/rules.py:188-194 | Closed, with no failures. |
| `CameraBreaker.CircuitBreaker.RecordFailure` | apps/analytics/app/rules.py:196-200 | One more failure; open from the limit on. |
| `CameraBreaker.CircuitBreaker.RecordSuccess` | apps/analytics/app/rules.py:202-204 | Closed again with no failures. |
| `CameraBreaker.Run` | apps/analytics/app/pipeline.py:382-437 | The worker disables itself at the first failure that trips the breaker and at no other, waits the backoff after every other failure, and otherwise ends stopped. |
| `CameraBreaker.StreakIsRefusals` | apps/analytics/app/rules.py:196-204 | A streak of m failures is m - 1 refusals in a row after one failure of either kind. |
| `CameraBreaker.DisabledByRefusals` | apps/analytics/app/pipeline.py:382-434 | The breaker trips exactly after as many failures in a row as the limit, of which only the first may be a cut stream. |
| `CameraBreaker.CutsAloneDisableIff` | apps/analytics/app/pipeline.py:398-434 | A camera whose connections all open and are then cut is disabled exactly if the limit is at most one, however often it is cut. |
| `CameraBreaker.WaitOfFailure` | apps/analytics/app/rules.py:76-82 | The n-th failure in a row waits the n-th entry of the schedule, or the last one when there is none. |
| `CameraBreaker.NoWaitWhenInterrupted` | apps/analytics/app/pipeline.py:398-437 | An attempt that was interrupted waits for nothing. |
| `StreamPath.ParsesExactlyTheShape` | apps/api/src/routes/hlsAuth.ts:42-48 | The parser returns an identifier and a channel exactly for the strings of the pattern with those parts. |
| `StreamPath.ShapeIsUnique` | apps/api/src/routes/hlsAuth.ts:36-43 | The pattern can be read in one way only. |
| `StreamPath.ParserInvertsPrinter` | apps/api/src/routes/hlsAuth.ts:42-48 | Parsing a printed name gives back identifier and channel exactly if the identifier is not empty and has no underscore and the channel is 0 to 9999, for all three kinds of stream. |
| `StreamPath.ReprintedIsSame` | apps/api/src/services/stream.ts:901-908 | Printing what was parsed, under any kind, names the same stream. |
| `StreamPath.NameFoundInUri` | apps/api/src/routes/hlsAuth.ts:55-66 | A name that trims to itself is found below `/hls/` with any query, exactly when no later segment of the path is `.` or `..`. |
| `StreamPath.NameIsOneSegment` | apps/api/src/routes/hlsAuth.ts:55-66 | What is found is not empty and has no slash and no question mark. |
| `StreamPath.UriNamesItsStream` | apps/api/src/routes/hlsAuth.ts:42-66 | For every identifier, channel, kind and rest of the URI: the URI is checked for the stream it was printed for exactly if the identifier is not empty and has no underscore, slash or question mark, the channel is 0 to 9999 and no later segment is `.` or `..`. |
| `StreamPath.OneFile` | apps/api/src/routes/hlsAuth.ts:62 | A single file name is rejected exactly when it is `.` or `..`. |
| `StreamPath.NameIsFirstSegment` | apps/api/src/routes/hlsAuth.ts:55-66 | The name is the first segment after any number of slashes, with or without the prefix `hls/`, white space around it dropped, whatever the query; a later `.` or `..` rejects the URI. |
| `StreamPath.PrefixNamesNothing` | apps/api/src/routes/hlsAuth.ts:59-66 | The bare prefix names nothing. |
| `StreamPath.WordCharacters` | apps/api/src/routes/hlsAuth.ts:36-43 | Digits, letters and the underscore, by their codes. |
| `StreamPath.SpaceCharacters` | apps/api/src/routes/hlsAuth.ts:64 | What trimming takes away, by the codes. |
| `StreamPath.ChannelIsPadded` | apps/api/src/services/stream.ts:901-908 | A printed channel below ten has a zero before it, any other is its decimal digits. |

## Left out

- Playback: `pause` and `resume`, the guarded callbacks' bodies (an `onError` of the decoder also shows `error`), the transition table of the visible state (`set` does not consult it), the number `retryPendingRevokes` returns.
- Playback: adapter `dispose` and `stop` are taken never to reject; grant requests and revocations may fail.
- Preview: signals and kill timers (an attempt may exit at any moment anyway), bytes piped after the headers, statistics, the learned camera and recorder profiles, logging.
- Preview: admission and capacity of the recorder are one answer (granted or not), the startup budget one bit, the category of a failure a choice of the environment; the budget planner and the error classification are not part of this model.
- Preview: `isDrainRace` only shapes a log text. The 401 and 404 answers before the takeover change no state.
- PreviewHandler.ErrorStatusForCategory: its own contract gives only the range, `StatusMeans` the table; the categories are a datatype, all without a status of their own are one constructor, and the two that answer 502 explicitly are among them.
- Refresh: signing, cookies, hashing (tokens are named by their hashes, fresh ones are new), auditing, the choice of sessions a login prunes (any set may be removed at any time).
- Refresh: two tables with atomic transactions and one clock for requests and rows.
- Nms.Nms: arithmetic is real; the order of equal scores is any, where the source reverses an ascending sort.
- CacheCleanup.RunCacheCleanup: the listing holds the files whose first stat succeeded; sidecar files, the unset directory and log lines are absent, and the order of the cap pass is computed even when the cap is already met.
- ZoneIntrusion: the run lemmas hold for any order of the exits within one sweep, the order of arrival among them; identifier texts are pairs of key and milliseconds, so two keys whose texts coincide through colons are not considered; instants are real numbers.
- ZoneDeriver, ZoneIntrusion: zone and camera names are numbers, in the order of their strings.
- IngestThrottle: the hash of a signature is given with the payload; equal hashes of different signatures count as equal. Missing clocks, the choice of the signature and the default classes are resolved by the caller.
- `plan_events`, the polling cursor, snapshots and posting of the ingestor.
- WorkerReconcile: thread creation is a flag; `restart_worker`, status and frames are absent, and a missing provider is the caller's concern.
- CameraBreaker.Run: frames, sampling and the wait's duration; a stop request is seen at the end of the list of attempts.
- CameraBreaker.BackoffDelay: the schedule is not empty, as configured.
- StreamPath: characters are code points; the request's origin, session and access checks are absent.
- MediaGrants: `revokeGrantId` and the count `retryPending` returns.
- Schedules, line crossing, normalisation of events, roles, users, views, alerts, configuration, mock and disabled providers: easy claims of one branch.
