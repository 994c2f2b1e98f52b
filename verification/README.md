# A verified model of the Plasma Login Manager's authentication path

The login manager is three processes. A *greeter* asks a person for a name and a password. A *daemon* passes the
login on to a *helper*, which runs as root, holds the PAM conversation and starts the session. Helper and daemon talk
over a local socket in length-prefixed frames; greeter and daemon over another one, unframed. This project models
that path from the bytes on the sockets up to the state machine of both processes, and proves what it promises for
every input, every run and every interleaving. Two self-contained pieces come on top: the list of desktop sessions
and the ownership repair of the settings helper.

`dafny verify dfyconfig.toml` checks everything. Code that works by changing things in place is a class or a method
with loops, proved equal to a function of the old state; the properties are then lemmas about that function.

| File | What it models |
|---|---|
| `Bytes`, `AuthMessages`, `AuthWire`, `WireForms` | integers, strings, prompts, requests, environments and the frames of the helper protocol as bytes; null values and the bytes in literal numbers |
| `SafeDataStream` | framing over a device with short writes and piecemeal arrival |
| `PamData`, `PamQuestions`, `PamStore`, `PamCache`, `PamBatch` | the prompt store of the PAM conversation; what is asked and when a call fails, the invariant, the linear use of answers, when batching is invisible, and conversations of several messages |
| `LoginDaemon` | `Auth::Private`, `AuthRequest` and the slots of `Display` as one object, with the nested signal emission |
| `LoginSystem`, `LoginSafety`, `LoginHistory`, `LoginRuns` | helper and daemon as one transition system; lockstep, progress, safety over all runs, what exits and verdicts say about PAM, and runs that do occur |
| `PamLogin`, `PamDialogue` | prompt store, wire and daemon together: a request end to end, and whole dialogues with the daemon, which answers by position |
| `HelperArgs`, `LoginService` | the helper's command line, the PAM service chosen from it, and which service greeter logins reach |
| `Teardown` | `Display::stop` and everything that re-enters it, with the seat's display list |
| `GreeterSocket` | the two streams between greeter and daemon |
| `SessionModel`, `OwnershipRepair` | the session list; the recursive change of owner |

## The main results

*Conversations.* A call of the callback fails exactly when the number of messages is out of range or its one request came
back empty (`FailsIff`); every error and information message is passed on once and in order, also then
(`NoticesArePassedOn`). In every run, requests show what is typed for a user name and for nothing else
(`SecretsAreHidden`).

*Prompt store.* In every run of conversations at most six prompts are stored, one per type, and the shared invalid
prompt keeps its value (`StoreInvariant`). No answer is invented, misdirected or handed out twice, whatever the
answering process replies and however many messages a conversation has (`AnswersAreLinear`). For one-message
conversations the batching cannot be told from asking for each prompt alone (`CacheIsTransparent`). In a conversation of
several messages, whatever earlier ones have left stored, each answer goes to the first message of its class
(`AnswersGoToTheFirst`), so these results hold in runs of conversations of any sizes (`RunsStayFaithful`).

*Dialogues with the daemon.* The daemon answers by position and only requests of one or two prompts. A small memory, of
what has been sent and which answers are held, says for every dialogue exactly when it leaves a request unanswered
(`AnsweredIffFlows`) and what every message is answered with until then (`EveryResponse`).

*Framing.* Whatever the pattern of short writes and the chunking, the two ends of a socket are a message queue exactly up
to the first frame header that is cut between two chunks (`Relay`).

*Protocol.* In every interleaving at most one reply is under way to a live helper, and it is the one it waits for, so
the wrong-opcode branches are unreachable (`Lockstep`). A helper that is blocked with nothing under way has sent a
request of neither one nor two prompts (`BlockedMeansUnanswerable`), and then stays blocked (`BlockingStays`). Every
other wait ends in exactly one reply once the daemon has read what is there (`EveryWaitIsSettled`).

*Logins.* Every success told to a greeter was earned from PAM by the same helper (`SuccessIsEarned`); after a verdict
a greeter hears nothing before it logs in again (`VerdictIsLast`); a helper is answered with the credentials it was
launched with, whatever logins arrive meanwhile (`CredentialsAreFixed`). Greeter logins reach the normal PAM service
(`GreeterLoginsUseTheNormalService`). A success certifies the login of the greeter that is told of it exactly when nobody
has logged in since the helper was launched (`SuccessCertifiesItsLogin`).

*Outcomes.* In every run a verdict is a success exactly if PAM accepted the login and named its user
(`VerdictTellsTheTruth`), and the exit status of a helper says how far PAM let it get (`ExitStatus`). A refused login
leaves the display up for the next one (`RefusalKeepsDisplay`; `RefusedLogin` and `NextTry` are such runs), a session that
cannot be opened or a crash takes it down (`FailedSessionStops`, `CrashStops`). What greeters are told is fixed for every
frame (`WhatGreetersAreTold`).

*Teardown.* `Display::stop` terminates although it re-enters itself; the socket server is down and both helpers have been
told to terminate, and killed if they did not; after each `stopped` signal the seat's list is non-empty, free of
duplicates and without the stopped display (`Display.Stop`).

## What turned out not to hold

Each point is a lemma about the code as it is.

- An information message "Changing password for ..." replaces the stored prompts without clearing the sent flag. While
  answers are stored, the next prompts for passwords are then answered with nothing, without asking anyone
  (`OverwriteAnswersNothing`, with a run from the start in `OverwriteHappens`). `TransparentIffNotOverwritten` shows
  that this is the only such message.
- In a conversation of several messages, some message that is not a prompt takes the answer to the prompt for the user
  name exactly when it comes before that prompt and only hidden prompts come before it (`InfoTakesTheUserName`).
- In such a conversation, prompts get their own answers exactly when each is the first message of its class and, if
  answers are stored, either every class asked for is stored or already the first prompt's is not (`ServedIffFirst`).
  `StoredAnswerIsLost` is a run in which a pass phrase that was stored is lost; `ClashLosesAnswer` shows why no prompt of
  unknown type may have the text of a prompt for the user name.
- The daemon leaves a request unanswered, and the helper blocked, exactly in two situations: any prompt but one for the
  user name comes while the three prompts predicted by a message about changing the password wait to be sent, or a
  prompt for the current password comes and no answer to it is held (`AnsweredIffFlows`). The first hits ordinary logins
  as well (`NoticeBlocksLogin`). Runs to blocked helpers are `BlockingHappens` and `BlockingStays`.
- As long as a dialogue is answered, prompts for the user name and the pass phrase get what they ask for, but a prompt for
  a new password gets the user name or nothing (`LoginPromptsAreServed`). In a conversation of several messages from the
  empty store, the daemon's answers are right exactly if one class is asked for that is not the user name, or two with
  the user name first, and each prompt is the first of its class (`CredentialsInBatch`).
- An error of kind ERROR_AUTHENTICATION is reported as a failed login but does not end it: the verdict still follows
  and can be a success (`FailureIsNotFinal`, `FailureThenSuccess`). Any PAM error message has this kind.
- A login that arrives while another is being checked receives the other one's verdict (`VerdictGoesToTheLatest`), so a
  greeter can be told of a success with any name and password (`SuccessOfAnother`). `SuccessCertifiesItsLogin` gives the
  exact condition. A login with an unusable session is answered by nothing of its own (`LoginIsTakenUp`).
- A session that ends with exit code 1 is taken for a refused login, and the display is not stopped
  (`DisplaySurvivesCodeOne`, with a run from the start in `DisplayOutlivesSession`).
- A user whom PAM authenticates under an empty name is told of a failed login although every check has passed
  (`VerdictTellsTheTruth`), and its helper goes on to open the session.
- A variable that a session does not set keeps its value from the login before, also from a refused one of another user
  (`SessionEnvironmentWins`). XDG_CURRENT_DESKTOP is only set if the session names a desktop (`StaleDesktop`).
- A session command or user name that is an option word can be misread from the command line. `ArgumentsRoundTrip` gives
  the exact condition.
- A frame header that arrives in pieces makes `receive` return silently, in the middle of a frame (`Receive`).
- A display that stops before its greeter's session is up leaves the greeter's helper running (`Display.Stop`).
- An environment variable whose name contains '=' does not survive the wire (`EnvironmentRoundTrip`).
- `Display::start` always reports success, so the repeated attempts of `Seat::startDisplay` never happen
  (`Display.Start`).

## Model

| member | source | states |
|---|---|---|
| AuthMessages.PromptRoundTrip | src/auth/AuthMessages.h:195-213 | Reading a written prompt, whatever bytes follow, gives the same prompt and leaves exactly those bytes. |
| AuthMessages.ListRoundTrip | src/auth/AuthMessages.h:215-241 | If single elements survive writing and reading, so does a list of any length, and what follows it is untouched. |
| AuthMessages.RequestRoundTrip | src/auth/AuthMessages.h:215-241 | The same for a request of any length. |
| AuthMessages.MsgRoundTrip | src/auth/AuthMessages.h:109-138 | Each opcode is read back as itself; every number outside 1 to 7 is reported as corrupt. |
| AuthMessages.StringListRoundTrip | src/auth/AuthMessages.h:178-193 | The same for the string list that carries an environment. |
| AuthMessages.WriteRequest | src/auth/AuthMessages.h:215-223 | The writing loop produces the encoding that RequestRoundTrip inverts. |
| AuthMessages.ReadRequest | src/auth/AuthMessages.h:225-241 | The reading loop computes the decoder of RequestRoundTrip, including a negative length (corrupt) and a prompt that cannot be read. |
| AuthMessages.ReadEnvironment | src/auth/AuthMessages.h:184-193 | The loop that splits entries computes the environment of EnvironmentRoundTrip. |
| AuthMessages.EnvironmentRoundTrip | src/auth/AuthMessages.h:178-193 | For any order of the variables, an environment survives its string-list form if and only if no variable name contains '='. |
| AuthMessages.EnvironmentOverTheWire | src/auth/AuthMessages.h:178-193 | The same through the bytes, whatever follows them, and those are left unread. |
| AuthMessages.LastEntryCounts | src/auth/AuthMessages.h:184-193 | Of several entries for a variable the last counts; an entry without '=' becomes a variable named and valued by itself. |
| WireForms.RequestReads | src/auth/AuthMessages.h:195-241 | A request of any length is read as itself whichever of its texts and responses were null when written. |
| WireForms.HelperReads | src/helper/HelperApp.cpp:172-247 | Every frame of the helper is read as itself, whatever follows, whichever of its values were null. |
| WireForms.AnswerReads | src/auth/Auth.cpp:242-249 | The same for the daemon's answer to a request. |
| WireForms.RefusalOnTheWire | src/helper/HelperApp.cpp:134-143 | The eight bytes of a refused login, its name being null, read as an empty name. |
| WireForms.AskOnTheWire | src/auth/AuthMessages.h:195-241 | The bytes of one first request in literal numbers: length, type, text, visibility and null response, in this order. |
| WireForms.MessageCodes | src/auth/AuthMessages.h:109-125 | The four bytes that each kind of frame starts with. |
| WireForms.KindCodes | src/auth/AuthMessages.h:140-176 | The bytes of the kinds of errors and information; reading fails exactly for numbers that are none. |
| WireForms.HeaderBytes | src/common/SafeDataStream.cpp:22-30 | A frame starts with the eight base-256 digits of the payload's length, lowest first, and goes on with the payload. |
| WireForms.GreeterCodes | src/common/Messages.h:24-33 | The four bytes that each message between greeter and daemon starts with. |
| AuthWire.HelperRoundTrip | src/helper/HelperApp.cpp:172-247 | Every frame the helper can send is read by the daemon as the same frame, leaving what follows. |
| AuthWire.DaemonRoundTrip | src/auth/Auth.cpp:179-249 | Every reply of the daemon is read by the helper as the same reply, leaving what follows. |
| SafeDataStream.ShortHeaderIsNegative | src/common/SafeDataStream.cpp:46-59 | A header that arrives short leaves the length negative, because the variable starts as -1. |
| SafeDataStream.FramesAreUnambiguous | src/common/SafeDataStream.cpp:22-42 | Two lists of frames at the start of one byte string agree as far as the shorter goes, and what follows the shorter is the rest of the longer. |
| SafeDataStream.SafeDataStream.Send | src/common/SafeDataStream.cpp:22-42 | For every pattern of short writes, exactly one frame is written and the buffer is emptied; if a write fails or the device closes first, the frame breaks off after the bytes taken so far and the buffer stays; a closed device changes nothing. Terminates. |
| SafeDataStream.SafeDataStream.WritePayload | src/common/SafeDataStream.cpp:31-39 | The loop writes the whole payload exactly if no write goes wrong before, and otherwise the bytes taken until then. |
| SafeDataStream.SafeDataStream.ReceiveLength | src/common/SafeDataStream.cpp:46-59 | Eight bytes are read if and only if no chunk ends inside the header; then the length is that of the payload, and otherwise it is negative and the first piece is lost. |
| SafeDataStream.SafeDataStream.ReceiveBody | src/common/SafeDataStream.cpp:62-71 | For every chunking, the payload is collected and no byte of the next frame is touched. Terminates. |
| SafeDataStream.SafeDataStream.Receive | src/common/SafeDataStream.cpp:44-72 | If the header arrives whole, exactly the payload; if it is cut, the buffer as before and the stream in mid-frame; with a closed device, nothing. |
| SafeDataStream.SendAll | src/common/SafeDataStream.cpp:22-42 | For every pattern of short writes without a failure, one send per payload writes the frames in order. |
| SafeDataStream.ReceiveAll | src/common/SafeDataStream.cpp:44-72 | As many receives give exactly the payloads before the first cut header, in order; if none is cut, every later byte is left. |
| SafeDataStream.IntactMeansUncut | src/common/SafeDataStream.cpp:54-59 | All payloads come before the first cut header if and only if no chunk ends inside any header, wherever it stands in the stream. |
| SafeDataStream.Relay | src/common/SafeDataStream.cpp:22-72 | For every pattern of short writes and every chunking, what is received is what was sent, in order, up to the first cut header; all of it if and only if no header is cut, and then nothing remains. |
| PamData.PamData.FindPrompt | src/helper/backend/PamBackend.cpp:80-94 | The first stored prompt that a message hits, by type or, for an unknown message, by text; -1 stands for the shared invalid prompt. |
| PamData.PamData.InsertPrompt | src/helper/backend/PamBackend.cpp:99-144 | The whole new store and the result, as the specification Insert that InsertKeeps is about. |
| PamData.PamData.HandleInfoMessage | src/helper/backend/PamBackend.cpp:146-155 | The new store and the kind of information; the sent flag is not changed. |
| PamData.PamData.GetResponse | src/helper/backend/PamBackend.cpp:160-168 | The response of the prompt found, and the store without it, as the specification that TakeResponseKeeps is about. |
| PamData.PamData.CompleteRequest | src/helper/backend/PamBackend.cpp:179-196 | A reply that asks the same questions in the same order replaces the prompts and marks them answered; any other is ignored. |
| PamData.PamBackend.HearMessages | src/helper/backend/PamBackend.cpp:319-343 | The first loop: store, newRequest flag and what is passed on to the daemon. |
| PamData.PamBackend.HandOut | src/helper/backend/PamBackend.cpp:358-378 | The second loop: one response per message, each that of the prompt taken out for it. |
| PamData.PamBackend.Converse | src/helper/backend/PamBackend.cpp:315-383 | The whole callback against an arbitrary answering process: store, requests asked, notices, and responses or PAM_CONV_ERR; the latter exactly for no or more than 32 messages or an empty reply, and then without responses. |
| PamQuestions.TypesOfPrompts | src/helper/backend/PamBackend.cpp:43-65 | For each type, exactly the messages that are of it, by visibility and the four text patterns. |
| PamQuestions.Predictions | src/helper/backend/PamBackend.cpp:26-35 | What is guessed to come after each type, in literal texts; nothing after any other type. |
| PamQuestions.AskedInItsWords | src/helper/backend/PamBackend.cpp:99-144 | A message that asks is asked in its own text, unless its whole request is a guess. |
| PamQuestions.AcceptedIff | src/helper/backend/PamBackend.cpp:179-196 | A reply is accepted if and only if it has as many prompts, of the same type, text and visibility; otherwise the store is untouched. |
| PamQuestions.SecretsAreHidden | src/helper/backend/PamBackend.cpp:99-196 | In every run, whatever the replies, each prompt asked for hides what is typed if and only if it is not for the user name. |
| PamQuestions.FailsIff | src/helper/backend/PamBackend.cpp:315-383 | The callback fails if and only if there is no message, more than 32, or an empty reply to its request; then nothing is handed out and the store stays as the messages left it. |
| PamQuestions.AsksOnce | src/helper/backend/PamBackend.cpp:319-356 | One request with all that is stored if any message asked for it, and none otherwise. |
| PamQuestions.NoticesArePassedOn | src/helper/backend/PamBackend.cpp:324-343 | Error and information messages are passed on once, in order and with their kind, also when the call then fails. |
| PamStore.RemoveOneExact | src/helper/backend/PamBackend.cpp:160-164 | removeOne takes out the prompt that was found and no other, and nothing when none was found. |
| PamStore.InsertKeeps | src/helper/backend/PamBackend.cpp:99-144 | The invariant is kept; the result is true exactly when the store is unsent; a false result changes nothing; no answers appear; the message can be found afterwards. |
| PamStore.HandleInfoKeeps | src/helper/backend/PamBackend.cpp:146-155 | The invariant is kept, the sent flag stays and no answers appear. |
| PamStore.TakeResponseKeeps | src/helper/backend/PamBackend.cpp:160-168 | The invariant is kept; exactly the prompt found leaves the store; the sent flag falls with the last one. |
| PamStore.CompleteKeeps | src/helper/backend/PamBackend.cpp:179-196 | Any non-empty reply keeps the invariant. |
| PamStore.FlagIsAny | src/helper/backend/PamBackend.cpp:319-356 | The flag that every message overwrites tells at the end whether any message asked, and then the request to be sent is not empty. |
| PamStore.ConversationKeeps | src/helper/backend/PamBackend.cpp:315-383 | Every call of the callback keeps the invariant, for every answering process. |
| PamStore.StoreInvariant | src/helper/backend/PamBackend.cpp:80-196 | In every run: at most one prompt per type and at most six, none of type NONE, sent implies non-empty, unsent implies unanswered, the shared invalid prompt unmodified. |
| PamStore.AnswersAreLinear | src/helper/backend/PamBackend.cpp:160-196 | In every run, also with rejected replies and several messages at once, each non-empty answer handed out is a prompt of the last accepted request that matches the message, and no such prompt is handed out twice. |
| PamCache.PromptTurn | src/helper/backend/PamBackend.cpp:315-383 | From a faithful store, one prompt gets the answer it would get alone, and the store stays faithful. |
| PamCache.OtherTurn | src/helper/backend/PamBackend.cpp:315-383 | Any other message gets nothing, and takes nothing from an answered store, unless it overwrites it. |
| PamCache.CacheIsTransparent | src/helper/backend/PamBackend.cpp:80-196 | In every run of one-message conversations from the start or any faithful store, with one fixed answer per type and no overwriting message, every prompt is answered as if asked alone and every other message with nothing. |
| PamCache.OverwriteAnswersNothing | src/helper/backend/PamBackend.cpp:146-155 | After an overwriting information message, a next prompt about changing passwords is answered with nothing and nobody is asked. |
| PamCache.OverwriteHappens | src/helper/backend/PamBackend.cpp:146-168 | From the start: a prompt for a new password, the information message, and the repetition, which is answered with nothing although an answer was stored for it. |
| PamCache.TransparentIffNotOverwritten | src/helper/backend/PamBackend.cpp:146-155 | From a faithful store, a message that is no prompt leaves every later undisturbed run transparent if and only if it does not overwrite stored answers. |
| PamBatch.AnswersGoToTheFirst | src/helper/backend/PamBackend.cpp:315-383 | In every conversation of several messages, from every faithful store, each answer that is at hand goes to the first message of its class, every other message gets nothing, and the answers to the other classes are left, faithful again. A stored list serves if it knows every class asked for; otherwise its answers are lost and what is asked from the first new class on is requested. |
| PamBatch.InfoTakesTheUserName | src/helper/backend/PamBackend.cpp:324-378 | From every faithful store, some message that is no prompt is handed an answer, and then the user name, if and only if the first message that is no hidden prompt is no prompt at all and a prompt for the user name follows it. |
| PamBatch.ServedIffFirst | src/helper/backend/PamBackend.cpp:99-168 | From every faithful store, every prompt of the conversation gets its own answer if and only if each is the first message of its class and, with answers stored, all classes asked for are stored or the first prompt's is not. |
| PamBatch.StoredAnswerIsLost | src/helper/backend/PamBackend.cpp:110-117 | From the start: a user name prompt leaves the pass phrase stored; a conversation of a pass phrase prompt and a new password prompt then gives the first nothing. |
| PamBatch.ClashLosesAnswer | src/helper/backend/PamBackend.cpp:80-94 | A prompt of unknown type with the text of the user name prompt before it gets nothing, although each is the first of its class. |
| PamBatch.RunsStayFaithful | src/helper/backend/PamBackend.cpp:315-383 | In every run of conversations of any sizes, undisturbed by overwriting messages and text clashes, the store stays faithful. |
| PamLogin.AnswerIsAccepted | src/daemon/Display.cpp:413-423 | The daemon's answer to any request of one or two prompts asks the same questions position by position, holds the pass phrase last and the user first, and is accepted by the store. |
| PamLogin.AskOverTheWire | src/helper/HelperApp.cpp:188-202 | For every chunking of question and answer, the exchange is completed if and only if neither header is cut; then a request of one or two prompts returns with only its responses filled in, after encoding, framing, decoding, copying and answering. |
| PamDialogue.TurnFollows | src/helper/backend/PamBackend.cpp:99-196 | From every store that the memory tracks, one message is left unanswered by the daemon if and only if the memory says so; otherwise it is answered as the memory says, and the memory tracks the new store. |
| PamDialogue.AnsweredIffFlows | src/daemon/Display.cpp:413-423 | For every dialogue of one-message conversations from the start, the daemon answers every request if and only if no prompt but for the user name comes while predicted prompts wait unsent, and none for the current password without an answer held. |
| PamDialogue.EveryResponse | src/daemon/Display.cpp:413-423 | What each message of such a dialogue is answered with: what is held for its class, otherwise the user name for a user name or new password prompt and the pass phrase for any other. |
| PamDialogue.LoginPromptsAreServed | src/helper/backend/PamBackend.cpp:99-144 | Whatever else an answered dialogue holds, prompts for user name and pass phrase get what they ask for, those for a new password the user name or nothing, those for the current password nothing. |
| PamDialogue.NoticeBlocksLogin | src/helper/backend/PamBackend.cpp:146-155 | After a message about changing the password, an ordinary pass phrase prompt is never answered. |
| PamDialogue.DaemonAnswersBatch | src/helper/backend/PamBackend.cpp:315-383 | A conversation of several messages from the empty store is left unanswered if and only if it asks for more than two classes; otherwise every response is that of the daemon's positional answers, each to the first message of its class. |
| PamDialogue.CredentialsInBatch | src/daemon/Display.cpp:413-423 | In such a conversation of at most two classes, every prompt gets the credential it asks for if and only if each is the first of its class, and one class is asked for that is not the user name or two with the user name first. |
| LoginDaemon.SessionEnvironmentWins | src/auth/Auth.cpp:315-318 | A helper launched by a login or the first start has every variable of its session, and of the environment before exactly those that its session does not set; without a launch nothing changes. |
| LoginDaemon.FramesInTurn | src/auth/Auth.cpp:148-214 | What several frames do is what the first do and then the others, wherever the list is cut. |
| LoginDaemon.LoginDaemon.SetRequest | src/auth/AuthRequest.cpp:51-69 | Through all the nested signals: an answerable request is answered exactly once and forgotten; another is kept, unfinished and unanswered; setting nothing answers nothing. |
| LoginDaemon.LoginDaemon.SlotRequestChanged | src/daemon/Display.cpp:413-423 | One prompt gets the pass phrase; two get user and pass phrase; any other number is left as it is. |
| LoginDaemon.LoginDaemon.Done | src/auth/AuthRequest.cpp:81-87 | The answer is sent at most once per request. |
| LoginDaemon.LoginDaemon.RequestFinished | src/auth/Auth.cpp:242-249 | The current prompts are sent back and then forgotten. |
| LoginDaemon.LoginDaemon.CurrentRequest | src/auth/AuthRequest.cpp:102-114 | The copy has the same prompts, field by field, in order. |
| LoginDaemon.LoginDaemon.DataPending | src/auth/Auth.cpp:148-214 | Any list of arrived frames has the effect of its frames one after the other: state, replies to the helper and messages to greeters. |
| LoginDaemon.LoginDaemon.HandleFrame | src/auth/Auth.cpp:154-212 | The effect of each kind of frame, an unexpected HELLO included; information changes nothing but the one message to the greeter. |
| LoginDaemon.LoginDaemon.Authenticated | src/auth/Auth.cpp:177-190 | A name renames the user, gives a verdict and gets the environment back; an empty one gives a failed verdict and no reply. |
| LoginDaemon.LoginDaemon.SlotAuthenticationFinished | src/daemon/Display.cpp:350-374 | The verdict goes to the greeter's socket, which is then cleared; a failed autologin starts the greeter and keeps the socket. |
| LoginDaemon.LoginDaemon.SlotAuthInfo | src/daemon/Display.cpp:376-385 | The message goes to the greeter that has logged in, if any. |
| LoginDaemon.LoginDaemon.SlotAuthError | src/daemon/Display.cpp:387-399 | The same, followed by a failed login for authentication errors, without clearing the socket. |
| LoginDaemon.LoginDaemon.HandleAutologinFailure | src/daemon/Display.cpp:208-216 | Autologin is off and the start of the socket server is queued. |
| LoginDaemon.LoginDaemon.TryStartAuth | src/daemon/Display.cpp:263-348 | A helper is launched only if none is active and the session is usable; the pass phrase is replaced unless one is active. The new state is that of SessionEnvironmentWins. |
| LoginDaemon.LoginDaemon.Login | src/daemon/Display.cpp:248-261 | The socket is replaced in every case; the greeter's own account is refused at once. |
| LoginDaemon.LoginDaemon.Start | src/daemon/Display.cpp:165-187 | Autologin with a valid session, otherwise or on failure the socket server is queued; a second start changes nothing. |
| LoginDaemon.LoginDaemon.ChildExited | src/auth/Auth.cpp:216-234 | A crash is reported as an error and stops the display whatever the signal number; otherwise the display stops unless the exit code is that of a refused login. |
| LoginDaemon.LoginDaemon.SlotHelperFinished | src/daemon/Display.cpp:401-411 | The display and its server go down for every status but that of a refused login. |
| LoginDaemon.LoginDaemon.Reap | src/auth/Auth.cpp:216-240 | The end of a process; a crash is signalled twice, as an error and as an exit, and the greeter gets two messages. |
| LoginSystem.HearingSettles | src/auth/Auth.cpp:148-214 | Reading the blocked helper's own message turns its wait into exactly one reply under way, or into a request kept for ever. |
| LoginSystem.LockAlways | src/helper/HelperApp.cpp:125-247 | In every run: a helper that does not wait is owed nothing, one that waits is owed exactly one reply or has sent an unanswerable request. |
| LoginSystem.Lockstep | src/helper/HelperApp.cpp:188-247 | In every reachable state at most one frame is under way to a live helper, only while it waits and with the opcode it waits for; no helper has met a wrong one. |
| LoginSystem.BlockedMeansUnanswerable | src/daemon/Display.cpp:413-423 | A blocked helper whose message was read and that has no reply coming waits for a request of neither one nor two prompts, which the daemon keeps unfinished. |
| LoginSafety.SuccessIsEarned | src/helper/HelperApp.cpp:134-148 | Every success told to a greeter comes from a helper run in which pam_authenticate succeeded and so did the account check, directly or by changing an expired token. |
| LoginSafety.CallIsEarned | src/helper/backend/PamHandle.cpp:56-87 | A PAM call leads on only as far as the results so far have earned, with an expired token leading to the token change. |
| LoginSafety.VerdictIsLast | src/daemon/Display.cpp:350-399 | In every run, between a verdict and the next message to any greeter that greeter has logged in again. |
| LoginSafety.CredentialsAreFixed | src/daemon/Display.cpp:248-348 | Whatever logins have arrived since, a request is answered with the pass phrase its helper was launched with, last, and before it in a request of two its user, until it authenticates another name. |
| LoginSafety.EnvironmentIsFixed | src/auth/Auth.cpp:180-186 | An authenticated helper is answered with the environment it was launched with. |
| LoginSafety.LaunchIsFixed | src/daemon/Display.cpp:263-348 | No step changes what the current helper was launched with; a new helper starts only when none is active and with empty channels. |
| LoginSafety.GreeterLoginsAreOrdinary | src/daemon/Display.cpp:165-261 | In every reachable state, a helper launched for a greeter runs without autologin, not in greeter mode, not for the greeter's own account, and with the name and password given. |
| LoginSafety.LoginIsTakenUp | src/daemon/Display.cpp:248-289 | Handling a login launches no helper and sends nothing if and only if it is not for the greeter's own account and a helper is active or the session is unusable. |
| LoginSafety.AnswersItsLogin | src/daemon/Display.cpp:248-399 | In every run, each message of a helper goes to the last login before it; that is the login its helper was launched for, with its name and password, if and only if nobody has logged in since that launch, of which there is only one. |
| LoginSafety.SuccessCertifiesItsLogin | src/daemon/Display.cpp:248-374 | In every run, a success comes from a helper that earned it; it certifies the last login of the greeter told of it, with its name and password, if and only if nobody has logged in since that helper was launched. |
| LoginSafety.VerdictGoesToTheLatest | src/daemon/Display.cpp:248-261 | A login that arrives while a success is on its way gets that success. |
| LoginSafety.FailureIsNotFinal | src/daemon/Display.cpp:387-399 | An authentication error gives a failed login, and the verdict after it goes to the same greeter and may be a success. |
| LoginSafety.DisplaySurvivesCodeOne | src/daemon/Display.cpp:401-411 | When a running session ends, the display stays up if and only if the exit code is that of a refused login. |
| LoginHistory.ExitStatus | src/helper/HelperApp.cpp:125-165 | In every run, a helper that PAM has not accepted exits with 1, or with 3 or 255 before it asked PAM anything; an accepted one without a session exits with 0. |
| LoginHistory.VerdictTellsTheTruth | src/helper/HelperApp.cpp:134-148 | In every run, a verdict is a success if and only if its helper was accepted by PAM, account check included, and named its user; otherwise a failure. |
| LoginHistory.RefusalKeepsDisplay | src/helper/HelperApp.cpp:134-145 | From every reachable state with a refused helper, it exits with 1, and reaping it leaves display and server as they are and no helper active. |
| LoginHistory.FailedSessionStops | src/helper/HelperApp.cpp:154-158 | A session that could not be opened ends its helper with 2, and with it the display and its server. |
| LoginHistory.CrashStops | src/auth/Auth.cpp:216-240 | A crash takes display and server down, and the greeter addressed gets its text twice and no verdict. |
| LoginHistory.WhatGreetersAreTold | src/daemon/Display.cpp:350-399 | For every frame, exactly what the greeter addressed is told: information without a failure, an error with one only if of authentication, a verdict for a name or its absence. |
| LoginHistory.NobodyIsTold | src/daemon/Display.cpp:350-399 | With no greeter addressed, no frame is told to anybody. |
| LoginHistory.WhereFailuresComeFrom | src/daemon/Display.cpp:248-399 | A failure is told only for an empty name, an error of authentication or a login for the greeter's own account. |
| LoginHistory.OwnAccountIsRefused | src/daemon/Display.cpp:248-257 | Such a login is told of its failure at once, launches nothing and leaves a running helper alone. |
| LoginHistory.PamMessageArrives | src/helper/HelperApp.cpp:172-186 | A message of PAM reaches the greeter addressed as information, with a failure if and only if it is an error message. |
| LoginRuns.RefusedLogin | src/helper/HelperApp.cpp:141-145 | For every login there is a run from the start in which PAM refuses it, its greeter gets PAM's text, a failure and the verdict, and display and server are still up. |
| LoginRuns.NextTry | src/daemon/Display.cpp:263-348 | After it, every next login gets a helper with its own name, password and command, and the environment of its session over that of the first. |
| LoginRuns.StaleDesktop | src/daemon/Display.cpp:324-344 | If the first session names a desktop and the next one does not, the next helper is launched with the first one's XDG_CURRENT_DESKTOP. |
| LoginRuns.PamUnavailable | src/helper/HelperApp.cpp:134-138 | A run from the start in which PAM cannot be started: text and verdict, display and server still up. |
| LoginRuns.ExpiredToken | src/helper/backend/PamHandle.cpp:56-87 | A run from the start in which an expired token is changed and the login succeeds. |
| LoginRuns.AutologinFallsBack | src/daemon/Display.cpp:208-216 | A run from the start in which an autologin is refused: nobody is told, and the server for greeters is up. |
| LoginRuns.SuccessHappens | src/helper/HelperApp.cpp:125-151 | For every login with a usable session there is a run from the start to its success, with exactly this log. |
| LoginRuns.FailureThenSuccess | src/helper/HelperApp.cpp:180-186 | There is a run from the start in which one login is told of a failure and then of a success. |
| LoginRuns.SuccessOfAnother | src/daemon/Display.cpp:248-270 | For every second login, whatever its name, password and session, there is a run from the start in which it is told of the first one's success. |
| LoginRuns.DisplayOutlivesSession | src/daemon/Display.cpp:401-411 | There is a run from the start in which a login succeeds, its session ends with exit code 1, and the display stays up without a helper. |
| LoginRuns.BlockingHappens | src/helper/HelperApp.cpp:188-202 | For every unanswerable request there is a run from the start to a helper blocked on it. |
| LoginRuns.BlockingStays | src/daemon/Display.cpp:413-423 | From there every step, whatever its kind, leaves the helper blocked, except its death. |
| LoginRuns.EveryWaitIsSettled | src/auth/Auth.cpp:148-214 | From every reachable state with a blocked helper, reading on leads to a reachable state with exactly its reply under way, or, if and only if it asked with neither one nor two prompts, to one blocked for ever. |
| HelperArgs.StartArguments | src/auth/Auth.cpp:369-387 | The arguments are the list that ArgumentsRoundTrip is about. |
| HelperArgs.ArgumentsRoundTrip | src/helper/HelperApp.cpp:57-123 | The helper reads back exactly the settings it was launched with if and only if no session command or user name is misread as an option. |
| HelperArgs.AcceptedIff | src/helper/HelperApp.cpp:57-123 | Any list of words is accepted if and only if none of the options that take a value ends it, a server is named, and an id that is a positive number. |
| HelperArgs.CommandLine | src/auth/Auth.cpp:369-387 | Two whole command lines, word by word. |
| HelperArgs.ServiceByMode | src/helper/backend/PamBackend.cpp:212-223 | Through the command line: the greeter's service if and only if greeter mode and the greeter's account, else that of autologin if and only if autologin, else the normal one. |
| LoginService.AutologinUsesItsService | src/daemon/Display.cpp:175-180 | In every reachable state, an autologin authenticates as its user and through "plasmalogin-autologin" if no word is misread. |
| LoginService.GreeterLoginsUseTheNormalService | src/helper/backend/PamBackend.cpp:212-223 | In every reachable state, a helper launched for a greeter authenticates as the user given and through the service "plasmalogin" if neither user nor session command in force is an option word; for other words, an accepted command line leads elsewhere if and only if one of them is the autologin option. |
| Teardown.Greeter.Start | src/daemon/Greeter.cpp:49-125 | A greeter that is not up gets a new running helper, but counts as started only later. |
| Teardown.Seat.CreateDisplay | src/daemon/Seat.cpp:55-76 | A new started display is appended. |
| Teardown.Seat.RemoveDisplay | src/daemon/Seat.cpp:99-113 | The display leaves the list and stops without a signal, however its helpers exit meanwhile. |
| Teardown.Seat.DisplayStopped | src/daemon/Seat.cpp:115-148 | The stopped display is gone, all others stay, the list is non-empty and free of duplicates. |
| Teardown.Seat.DisplayServerFailed | src/daemon/Seat.cpp:64-68 | The display leaves the list and none replaces it. |
| Teardown.Display.Start | src/daemon/Display.cpp:165-187 | Always reports success and leaves the display started, whether or not autologin launched a helper. |
| Teardown.Display.StartSocketServerAndGreeter | src/daemon/Display.cpp:189-206 | The server is up and a greeter not yet started is launched. |
| Teardown.Display.Stop | src/daemon/Display.cpp:226-246 | Terminates with the display not started, although each wait may re-enter it. If it was started, its server is down, and its helper and its greeter's helper, if running, have been told to terminate and killed if still running. At most one signal more than helpers were running, each leaving an orderly list; no signal while blocked; a greeter whose session is not up is not touched. |
| Teardown.Display.StopParts | src/daemon/Display.cpp:233-242 | The same for all of it before the signal. |
| Teardown.Display.GreeterStop | src/daemon/Greeter.cpp:136-146 | The same for the wait for the greeter's helper, which may finish in time with any status or be killed. |
| Teardown.Display.OnGreeterFinished | src/daemon/Greeter.cpp:186-205 | The exit of the greeter's helper: 2 and 5 stop the display, 4 removes it with the daemon's exit code 12 unless blocked, every other status changes nothing else. |
| Teardown.Display.AuthStop | src/auth/Auth.cpp:389-401 | The same for the wait for the session's helper. |
| Teardown.Display.SlotHelperFinished | src/daemon/Display.cpp:401-411 | The exit of the display's helper: 1 changes nothing, every other status stops the display and its server. |
| OwnershipRepair.AdjustOwnershipRecursively | src/frontend/kcm/auth/plasmaloginauthhelper.cpp:91-143 | Result and tree afterwards are those of the specification that the next five rows are about. |
| OwnershipRepair.SuccessMeansNoFailure | src/frontend/kcm/auth/plasmaloginauthhelper.cpp:91-143 | For every tree and every pattern of failures, the result is true if and only if no system call that was made failed. |
| OwnershipRepair.SuccessRepairsAll | src/frontend/kcm/auth/plasmaloginauthhelper.cpp:105-142 | After success every descendant that is no symbolic link has the new owner. |
| OwnershipRepair.OwnersAfterRepair | src/frontend/kcm/auth/plasmaloginauthhelper.cpp:105-140 | A node changes hands exactly when its own ancestors were entered and its own calls succeed; links never do; failures elsewhere make no difference. |
| OwnershipRepair.FailureHasCause | src/frontend/kcm/auth/plasmaloginauthhelper.cpp:91-143 | A reported failure comes from a node that was reached and on which a call failed. |
| OwnershipRepair.TroubleIsReported | src/frontend/kcm/auth/plasmaloginauthhelper.cpp:133-142 | A failure at any depth reaches the result. |
| GreeterSocket.ReadyRead | src/daemon/SocketServer.cpp:108-153 | The loop over the arrived bytes gives the messages that the two stream lemmas speak of, and terminates. |
| GreeterSocket.GreeterStream | src/frontend/greeter/backend/GreeterProxy.cpp:59-71 | The daemon's loop reads every list of Connect and Login messages back as the same list. |
| GreeterSocket.DaemonStream | src/frontend/greeter/backend/GreeterProxy.cpp:86-124 | The greeter's loop reads every list of verdicts and information messages back as the same list. |
| SessionModel.GetSessionsPaths | src/frontend/settings/models/sessionmodel.cpp:188-211 | Pairwise distinct file names; every name found anywhere is represented; each by the first directory that has it. |
| SessionModel.PlasmaByFileName | src/frontend/settings/models/sessionmodel.cpp:157-165 | A session counts as Plasma if and only if the name of its file, whatever its directory, starts with "plasma". |
| SessionModel.BeforeIsStrictWeak | src/frontend/settings/models/sessionmodel.cpp:157-183 | For a consistent collation the comparator is irreflexive, asymmetric and transitive, and so is incomparability. |
| SessionModel.SortedByThreeKeys | src/frontend/settings/models/sessionmodel.cpp:157-183 | Sorted by the comparator means: Plasma first, then by name, then Wayland first. |
| SessionModel.SessionModel.Populate | src/frontend/settings/models/sessionmodel.cpp:143-186 | The sessions are exactly one X11 and one Wayland session per distinct file name, in the order of the three keys, each with the path, name and comment of its own file. |

## Left out

Stated weaker than one might wish:

- PamCache.CacheIsTransparent: supposes that no overwriting message arrives, and that the lexicon recognises the four predicted password texts as being about passwords, as the regular expressions do.
- PamBatch.AnswersGoToTheFirst: supposes answers fixed per type and, as ClashLosesAnswer shows it must, that no prompt of unknown type has the text of a prompt for the user name.
- PamDialogue.AnsweredIffFlows: starts from the empty store and supposes the same of the lexicon as CacheIsTransparent.
- PamDialogue.CredentialsInBatch: starts from the empty store; what the positional answers give to several messages at once with answers already stored is not worked out.
- LoginSafety.AnswersItsLogin: leaves out messages caused by frames that an earlier helper left unread, which are logged under run 0 and are never a success.
- LoginSafety.VerdictIsLast: is about the messages of `slotAuthenticationFinished`; the refusal of the greeter's own account and a failed login from an authentication error do not clear the socket and are no verdicts here.
- PamLogin.AskOverTheWire: does not say what either end makes of a frame whose header was cut.
- SafeDataStream.SafeDataStream.Receive: supposes that the body of a frame does arrive; a device that closes or fails while one is being read is not modelled.
- SafeDataStream.SendAll: supposes that no write fails; what a failing write leaves behind is stated by `Send`.
- SessionModel.Sort: an insertion sort stands in for `std::sort`, of which only the result is used, a sorted permutation.
- SessionModel.GetSessionsPaths: supposes that a directory lists names without a slash, as `QDir::entryList` does.
- Teardown.Display.Stop: a helper that does not exit in time is killed, and its exit is then a later, separate event.
- LoginRuns.BlockingStays: does not model that the daemon may itself kill the helper; that is the step in which the helper dies.

Not modelled:

- The regular expressions of `detectPrompt` and `handleInfo`: four plus one abstract predicates on the text. Local 8-bit conversion, `qPrintable` and `localeAwareCompare` are abstract functions, the last with the laws of a total preorder.
- The memory handling of `converse`: the slots of the response array, PAM_BUF_ERR and the terminating zero bytes. The result is the sequence of responses.
- Null strings and byte arrays are the same value as empty ones; both forms on the wire are read (`WireForms`). Sizes of 0xFFFFFFFE and above, which use an extended length, are not written.
- Values taken from a message that cannot be decoded: the stream status is not looked at, and default or partial values would be used. `ParseAll` ends at such a message.
- A write of a header that is not accepted whole, a write that returns zero for ever, and waiting for ever. A read returns what has arrived, at most what is asked for; a chunk is what has arrived by the time of a wait. The machine is taken to be little-endian.
- A re-entrant `readyRead` inside `waitForBytesWritten`.
- One daemon thread handles one event at a time, and the frames of an earlier helper are read until the next one's connection is accepted. HELLO is accepted with any id; the two checks of `handleNewConnection` are not modelled.
- A `Display` is started once, as the seat does, and gets no login after it stopped; the deleted object is gone. A helper process that cannot be started at all is not distinguished from one that dies at once; one that exits before it connects, on bad arguments or SIGTERM, is.
- Inside `startAuth`: the query for a session to reuse is a free choice, new virtual terminals and most environment variables are part of the session's environment.
- `Greeter`: its environment, its own requests (which the daemon's display never sees), the change of the socket's owner, and the counter of terminal failures that ends the daemon.
- Timers: the five-second stop of the greeter after a session start and the delayed retries.
- `HelperApp::displayServerStarted` has no caller; the model lets it happen at any time while a session is being opened.
- `UserSession`, `XAuth`, `VirtualTerminal`, `SeatManager`, `DisplayManager`, logind and its D-Bus types.
- Session labels in `SessionModel::data`, the readers of desktop files, and the rest of the settings module and its helper.
- Races on the file system during the ownership repair: each entry has one kind and one outcome per system call.
- The user interface, configuration, translations, scripts and build files.
