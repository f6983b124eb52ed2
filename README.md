# Voice interview bot, modelled in Dafny

This project models the session controller of a voice-driven mock
interview: the class `VoiceInterviewBot` in `app.py`. The bot runs in three
phases:

- **Introduction.** It greets the candidate and asks for their name and the
  position. Each question gets one re-prompt after a pause.
- **Main loop.** While time is left, it asks the language model for a
  question and speaks it, then listens. A pause is recorded as a sentinel
  entry. An answer gets the model's reaction.
- **Ending.** An exit command ends the session with a farewell. Running out
  of time or an interrupt leads to a closing exchange. Either way the
  transcript is then written to a file named after the candidate and the
  time.

The speech engines, the language model and the clock are the bot's
collaborators, and the model takes each of them as a script held in the
bot's constant fields:

- `utterances` holds what each listen hears. `None` is a pause. Past the end
  of the script the candidate stays silent.
- `replies` holds the outcome of each chat call. `None` is a failed call.
  Past the end every call fails.
- `clock` holds the successive time readings, each in microseconds together
  with its two formatted texts. Past the end the clock stays at its last
  reading.

The bot's mutable state is kept in fields that its methods update:

- the history replayed to the model;
- the candidate's name and position, and the start time;
- counters of how much of each script has been used;
- logs of the requests sent, the lines spoken and the files saved;
- a ghost sequence of the main loop's turns, and a ghost sequence giving,
  for each turn, the position in the request log of the request that asked
  its question.

The modules follow the controller's parts:

- `Text`: lower-casing, substring search and `strip` on ASCII text, and
  joining lines.
- `ExitDetector`: the exit-command check.
- `ConversationContext`: the bounded history and the prompt text built from
  it.
- `SessionClock`: the 45-minute budget and the 5-minute reminder.
- `Dialogue`: the prompts, the spoken lines, the turns, the transcript
  entries and the context string.
- `Introduction`: the name and position capture.
- `Persistence`: the saved record and its file name.
- `InterviewBot`: the class that composes all of the above.

A few behaviours of the code are easy to miss; the model keeps each of
them as written:

- The time reminder is spoken on every check that falls in the warning
  window, not just on the first (`app.py:168-169`).
  `SessionClock.RepeatedReminder` shows two checks a second apart giving
  two reminders.
- The clock starts before the name is asked for, so the introduction
  counts against the interview's time (`app.py:222`).
- An answered turn whose two chat calls both succeed adds four history
  lines: the question request and the reaction request each record a prompt
  and a reply (`app.py:281`, `app.py:299`). A failed call adds none. Once
  the history is at its cap of 20 lines, as many old lines are dropped as
  are added.
- No file is written when the introduction ends with an exit command
  (`app.py:266-268`).
- Two pauses in a row leave the name unset and the interview still goes on
  (`Introduction.ProceedsWithoutName`). The file name then cannot be formed,
  because `None.lower()` raises. The session ends there without writing
  anything, and the model reports this as `crashed`.
- The stage field is set to `"introduction"` and never changed, so the
  model has no stage.

## Model

| member | source | states |
|---|---|---|
| Text.Lower | app.py:52 | the lower-cased text has the same length and maps each character through the ASCII lower-casing |
| Text.Contains | app.py:54 | a pattern found is no longer than the text, and the empty pattern is always found |
| Text.ContainsIffSubstring | app.py:54 | the left-to-right search succeeds exactly when the pattern occurs in the text at some position |
| Text.StripEmptyIffBlank | app.py:334 | a string strips to nothing exactly when every character is whitespace |
| Text.Strip | app.py:334 | the stripped text is no longer than the text, and neither starts nor ends with whitespace |
| Text.StripIdempotent | app.py:71 | stripping an already stripped line changes nothing |
| ExitDetector.AnyCommandInIffSomeSubstring | app.py:53-55 | the loop over the commands returns true exactly when some command occurs in the text |
| ExitDetector.CheckForExit | app.py:49-56 | a pause is never an exit; any other answer is one exactly when one of the five commands occurs in its lower-cased text |
| ExitDetector.ExitIgnoresCase | app.py:52 | an answer and its lower-cased form are judged alike |
| ExitDetector.QuitInsideSentenceIsExit | app.py:34 | "I quit my last job" counts as an exit command |
| ExitDetector.ShoutedStopIsExit | app.py:52-54 | an upper-case "STOP" inside a sentence counts as an exit command |
| ConversationContext.RecordedLinesText | app.py:120-125 | the text of the history after an exchange ends with "User: " and the prompt, then "Assistant: " and the reply, after the text of the most recent old lines |
| ConversationContext.FullPrompt | app.py:112 | the text sent is the prompt alone when the history is empty, else the history lines joined by newlines, then a newline and the prompt |
| ConversationContext.Retain | app.py:124-125 | keeps min(n, 20) lines, and they are the last ones of the input, in order |
| ConversationContext.Record | app.py:120-125 | after an exchange the history has at most 20 lines: two more than before, or exactly 20 once the cap is reached |
| ConversationContext.RecordKeepsExchange | app.py:120-125 | the new history ends with the user prompt and the assistant reply, preceded by the most recent part of the old history |
| ConversationContext.RetainAbsorbs | app.py:124-125 | cutting the history back after every exchange keeps the same lines as cutting it once at the end |
| ConversationContext.RecordAllKeepsMostRecent | app.py:120-125 | after any number of exchanges the history is exactly the last 20 lines of everything recorded, in order; the oldest are dropped |
| SessionClock.WarningWindowPosition | app.py:168 | the reminder fires between 40 and 41 minutes after the start, and only while time is still left |
| SessionClock.ExpiryIsFinal | app.py:171 | once the time is up, no later clock reading brings it back |
| SessionClock.WarningCountAppend | app.py:168-169 | the reminders of two series of checks add up: each check counts on its own |
| SessionClock.SilentIffNoPollInWindow | app.py:168-169 | a series of checks speaks no reminder exactly when none of its checks falls inside the window |
| SessionClock.EveryPollInWindowWarns | app.py:168-169 | a series of checks speaks one reminder per check exactly when every check falls inside the window: there is no one-shot flag |
| SessionClock.RepeatedReminder | app.py:168-169 | two checks a second apart inside the window give two reminders |
| Dialogue.QuestionPrompt | app.py:175-194 | the opening form is chosen exactly when the context is empty; otherwise the follow-up form, carrying the context |
| Dialogue.Conversation | app.py:270-306 | the transcript has one entry per completed turn |
| Dialogue.EntryOf | app.py:291-306 | a turn's entry holds its question; an answered turn's holds the answer and the reaction, a pause's the two sentinel texts |
| Dialogue.ConversationEntries | app.py:291-306 | entry i holds turn i's question, with its answer and reaction, or the two fixed sentinel texts for a pause |
| Dialogue.ContextEmptyIffNoAnswer | app.py:277-301 | the context is empty exactly while no turn has been answered |
| Dialogue.ContextOfAppend | app.py:301 | the context after two runs of turns is the first run's context followed by the second's: each answered turn adds its own Q/A block |
| Dialogue.OpeningIffNoEarlierAnswer | app.py:175-187 | a turn asks the opening question exactly when every earlier turn was a pause |
| Dialogue.AppendTurn | app.py:291-306 | a pause appends its sentinel entry and leaves the context alone; an answer appends its entry and its Q/A block |
| Dialogue.AskedInOrderAppend | app.py:281-301 | a new turn asked with the current context keeps every turn's prompt consistent with the turns before it |
| Introduction.AskWithRetry | app.py:224-245 | one or two listens, two exactly after a pause; the value kept is the first answer or, after a pause, the second; the exit flag is the exit check of the value kept |
| Introduction.Introduce | app.py:224-262 | the position is asked exactly when the name's answer was not an exit command, using the utterances after the name's; one to four listens |
| Introduction.StopsIffExitHeard | app.py:226-245 | the introduction stops the session exactly when one of the utterances it heard was an exit command |
| Introduction.ProceedsWithoutName | app.py:229-262 | with a silent candidate the session goes on with neither name nor position, after four listens |
| Persistence.Slug | app.py:348 | the name part of the file name is as long as the name; each space becomes '_', no upper-case letter remains, and every other character is lower-cased |
| Persistence.FileName | app.py:348 | a file name exists exactly when there is a candidate name |
| Persistence.FileNameShape | app.py:348 | the file name starts with "interview_", then the name part, then '_', and ends with ".json"; it is as long as its parts together |
| Persistence.FileNameRoundTrip | app.py:348 | the file name gives back the name part and the time stamp it was made from |
| Persistence.FileNameDeterminesSlugAndStamp | app.py:348 | with stamps of one width, equal file names come from equal name parts and equal stamps |
| Persistence.CaseAndSpacesCollide | app.py:348 | "Alex Smith" and "alex_smith" saved in the same second get the same file name |
| InterviewBot.TranscriptAppend | app.py:291-306 | a turn asked with the running context and not answered with an exit command extends the record by its entry, and the context by its Q/A block when it was answered |
| InterviewBot.SubstantiveIffNotBlank | app.py:334 | a final answer gets a reply exactly when it is present and not all whitespace |
| InterviewBot.HeardInOrderAppend | app.py:284 | a turn that agrees with the next utterance keeps every turn in step with the utterance heard for it |
| InterviewBot.RecordedAnswers | app.py:291-306 | entry i of the saved transcript holds the i-th utterance the loop heard, or the pause sentinel when that was silence |
| InterviewBot.VoiceInterviewBot.CostIsRequests | app.py:281-299 | the requests one turn sends number `Cost` of it: the question alone for a pause or an exit command, the question and the analysis for an answer |
| InterviewBot.RemindersCounted | app.py:168-169 | the lines spoken by a series of checks are time reminders only, one per check in the warning window |
| InterviewBot.VoiceInterviewBot.constructor | app.py:11-47 | a fresh bot with empty logs and no name, position or start time; the persona has been sent once, and the history reflects its outcome |
| InterviewBot.VoiceInterviewBot.SendMessage | app.py:108-132 | one request, the old history followed by the prompt, is logged; a reply is returned and recorded in the capped history; a failed call (no reply in the script) returns the apology and leaves the history unchanged |
| InterviewBot.VoiceInterviewBot.Speak | app.py:68-77 | the line is appended to what was said |
| InterviewBot.VoiceInterviewBot.Listen | app.py:79-106 | returns the next utterance of the script and moves past it |
| InterviewBot.VoiceInterviewBot.ReadClock | app.py:165 | returns the next clock reading and moves past it |
| InterviewBot.VoiceInterviewBot.CheckTimeRemaining | app.py:163-171 | reads the clock once, speaks the reminder exactly when the time left is in the warning window, and reports whether time is left |
| InterviewBot.VoiceInterviewBot.GenerateQuestion | app.py:173-196 | sends the question prompt (opening or follow-up form) and returns the model's reply or the apology |
| InterviewBot.VoiceInterviewBot.AnalyzeResponse | app.py:198-215 | sends the analysis prompt for the question, answer and context, and returns the reply or the apology |
| InterviewBot.VoiceInterviewBot.Ask | app.py:223-245 | one introductory question: its outcome is the retry rule applied to the next two utterances; one or two listens; the question and, after a pause, the re-prompt are spoken |
| InterviewBot.VoiceInterviewBot.StartInterview | app.py:217-262 | starts the clock first; goes on exactly when the introduction heard no exit command; keeps the name and position heard; the welcome is requested and spoken only when it goes on |
| InterviewBot.VoiceInterviewBot.SaveInterviewRecord | app.py:346-351 | with a name, writes the record once, under the file name stamped with a fresh clock reading; without one, writes nothing and fails |
| InterviewBot.VoiceInterviewBot.HandleExit | app.py:58-66 | says the farewell, then saves the record as it stands |
| InterviewBot.VoiceInterviewBot.FinalExchange | app.py:333-337 | one more listen; only an answer that is present and not blank gets a model reply, which is spoken |
| InterviewBot.VoiceInterviewBot.Conclude | app.py:328-330 | the conclusion is requested and spoken |
| InterviewBot.VoiceInterviewBot.LastChance | app.py:332-338 | checks the time once; the final exchange happens exactly when time is still left |
| InterviewBot.VoiceInterviewBot.WrapUpInterview | app.py:316-339 | conclusion, then the last exchange if time is left, then the record is saved unchanged: the closing adds no transcript entry |
| InterviewBot.VoiceInterviewBot.HandleEarlyTermination | app.py:341-344 | an interrupt closes as the end of time does: the conclusion is requested and spoken with the check's reminder, the last exchange happens exactly when time is left, and the record is saved once when there is a name |
| InterviewBot.VoiceInterviewBot.NextTurn | app.py:280-309 | the question is requested with the prompt form the context calls for, and spoken; an exit command ends the turn; a pause is recorded without a reaction request; an answer gets a reaction request and the reaction is spoken |
| InterviewBot.VoiceInterviewBot.AskedByGrows | app.py:281-299 | requests sent later do not change which requests asked the earlier turns |
| InterviewBot.VoiceInterviewBot.AskedByAppend | app.py:281-306 | a turn whose question is the reply to the first new request, and whose reaction (when answered) is the reply to the next, extends the turns asked by the log, with that request as its own |
| InterviewBot.VoiceInterviewBot.AskedStep | app.py:280-306 | one pass of the loop keeps every turn tied to the request that asked it: a recorded turn is tied to the first request of the pass |
| InterviewBot.VoiceInterviewBot.AskedAfter | app.py:279-309 | the requests that asked the turns come in the turns' order |
| InterviewBot.VoiceInterviewBot.AskedEach | app.py:279-309 | each turn was asked by its own request of the loop, which carried the turn's prompt and whose reply is the turn's question, with the reaction of an answered turn the reply to the request after it; a later turn was asked after the requests of every earlier one |
| InterviewBot.VoiceInterviewBot.RecordedReplies | app.py:281-305 | entry i of the saved transcript holds as its question the model's reply to the request that asked turn i, and, for an answered turn, as its interviewer feedback the reply to the request after it |
| InterviewBot.VoiceInterviewBot.TakeTurn | app.py:280-306 | one listen per turn; a turn whose answer is not an exit command is appended to the turns, the record and (when answered) the context, and agrees with what was heard: a pause exactly for silence, an answer holding the words heard; its question is the model's reply to the turn's first request and an answer's reaction the reply to the second; an exit command appends nothing; the requests, history and spoken lines advance by the turn's, and every turn stays tied to the request that asked it |
| InterviewBot.VoiceInterviewBot.PolledExtend | app.py:279 | one more check that found time left extends the run of checks that all found time left |
| InterviewBot.VoiceInterviewBot.TimeLeftBeforeEnd | app.py:279 | when the clock script runs past the interview's end, a check that found time left was not made at its last reading, so the loop cannot run forever |
| InterviewBot.VoiceInterviewBot.CheckAfterTurn | app.py:279 | the check after a turn: the run of checks that found time left grows by one, the check's reminder is spoken and its verdict is returned |
| InterviewBot.VoiceInterviewBot.TurnThenCheck | app.py:279-309 | a turn is taken and, unless it heard an exit command, the time is checked again; the turns gain the turn, whose question and reaction are the model's replies to the pass's first two requests; the requests and history advance by the turn's, and the spoken lines by the turn's followed by the check's reminder |
| InterviewBot.VoiceInterviewBot.RunTurns | app.py:279-309 | the loop runs while the last check found time left: it ends by an interrupt at its turn, an exit command heard while no interrupt was due at or before its turn (the interrupt's test comes first), or a check that found no time left, every earlier check having found time left; every turn stays tied to the request that asked it |
| InterviewBot.VoiceInterviewBot.TakeTurns | app.py:277-309 | the loop checks the time once before each turn and once more; every check but the last found time left, and the loop ended by the end of time exactly when the last found none; otherwise by an exit command heard right after the turns, with no interrupt due at or before that turn, or by an interrupt at its turn; turn i agrees with the i-th utterance heard; the record holds every completed turn, each asked in order and none an exit command, and each turn was asked by its own request of the loop, whose reply is the turn's question |
| InterviewBot.VoiceInterviewBot.Close | app.py:287-314 | an exit command gets the farewell and no further request or listen; an interrupt or the end of time gets the conclusion, the check's reminder and, when time is left, the last exchange; either way the record is saved once when there is a name |
| InterviewBot.VoiceInterviewBot.MainLoop | app.py:270-314 | after the loop, whichever modelled way it ended, the record of its turns is written once, unless no name was captured; the time ran out exactly when the last check (`lastCheck`) found none, and every earlier check found time left; an exit ending follows an exit command heard right after the turns, with no interrupt due at or before that turn; each recorded turn was asked by its own request of the loop, whose reply is the turn's question |
| InterviewBot.VoiceInterviewBot.ConductInterview | app.py:264-314 | a session ending in the introduction writes nothing; any other writes its record once, unless no name was captured; the main loop's turns agree with the utterances after the introduction's; the loop's time checks start at the third clock reading, all but the last found time left, and the session ran out of time exactly when the last found none; an exit ending follows an exit command heard, with no interrupt due at or before its turn; an interrupt ending comes at its turn; the position is the one the introduction heard; each recorded turn was asked by its own request after the welcome's, whose reply is the turn's question |

## Left out

- Speech capture and synthesis are scripts and logs. `listen`'s recursive
  retry after unintelligible speech, its fallback to typed input, and
  `speak`'s fallback to printing are not modelled; nor are the console
  messages.
- The Ollama client, the model name and the voice-engine settings are left
  out. The language model is the `replies` script, and its input is logged
  as structured requests. `ConversationContext.FullPrompt` gives the text
  form of a request.
- The wording of the persona, the prompts and the fixed spoken lines is not
  modelled. Prompts and lines are datatypes that carry only the values
  filled into them.
- The random `natural_delay` pause has no effect on the modelled state and
  is left out.
- `datetime.now()`, `strftime` and the JSON file write are left out. Each
  clock reading carries its formatted date and stamp texts, and a save is an
  entry in the `saved` log.
- `main` and its error report are left out.
- Lower-casing and stripping handle ASCII only: `Text.Lower` maps A-Z, and
  `Text.Strip` removes the ten ASCII whitespace characters (space, tab,
  line feed, vertical tab, form feed, carriage return and the four
  separators 0x1C-0x1F). Python's Unicode case mapping and whitespace set
  are not modelled.
- InterviewBot.VoiceInterviewBot.SendMessage: a chat result without
  `['message']['content']` is not modelled. In the code the "User:" line is
  appended first (`app.py:120`), the lookup then raises (`app.py:121`), and
  the handler returns the apology (`app.py:129-132`): the unpaired line stays
  and the cut to 20 lines is skipped, so the history can hold 21 lines. The
  `replies` script has only a reply or a failure that leaves the history
  unchanged.
- InterviewBot.VoiceInterviewBot.Speak: logs the line as handed over, and
  the engine's `strip` of the text is not applied to the log. The wording of
  fixed lines is not modelled, and a generated line keeps its text as
  returned; `Text.StripIdempotent` shows a stripped text is said unchanged.
- InterviewBot.VoiceInterviewBot.RunTurns: an interrupt (`KeyboardInterrupt`)
  is modelled only at the start of a main-loop turn, given by
  `interruptAt`. An interrupt arriving in the middle of a turn is not
  modelled.
- An interrupt that arrives while the farewell's record is being saved
  (`app.py:288`), or during the closing after the time ran out
  (`app.py:311`), is caught by the same handler, which closes a second time
  and may save the record twice. Such interrupts are not modelled.
- InterviewBot.VoiceInterviewBot.TakeTurns: the requests, history and
  spoken lines of the whole loop are not stated as one function of all its
  turns; each pass's share is stated by `TurnThenCheck` and `TakeTurn`.
- InterviewBot.VoiceInterviewBot.MainLoop: does not state its requests,
  history and spoken lines; those of its loop are stated pass by pass by
  `TurnThenCheck`, and those of its closing by `Close`.
- InterviewBot.VoiceInterviewBot.ConductInterview: the requests, history and
  spoken lines of the session as a whole are stated part by part
  (`StartInterview`, `TurnThenCheck`, `Close`), not as one function.
- InterviewBot.VoiceInterviewBot.ConductInterview: requires the clock script
  to reach the end of the interview's time. A real clock always does; a
  clock that stopped short would keep the main loop running forever.
- The stage field (`interview_stage`) is left out: it is never changed after
  construction.
