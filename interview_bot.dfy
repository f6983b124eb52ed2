/** The interview controller. The speech engines, the language model and
    the clock are the bot's collaborators, given to it as scripts:
    - `utterances[k]` is what the k-th listen returns (None for a pause);
      once the script is used up the candidate stays silent, so every
      further listen is a pause;
    - `replies[k]` is the outcome of the k-th chat call (None when the call
      fails); once the script is used up every call fails;
    - `clock[k]` is the k-th reading of the current time, with its two
      formatted forms; once the script is used up the clock stays at its
      last reading.
    The counters `heard` and `clockReads` and the log `sent` of full prompts
    say how much of each script has been used; `spoken` and `saved` log what
    was said and written. */
module InterviewBot {
  import opened Wrappers
  import opened Text
  import opened ExitDetector
  import opened ConversationContext
  import opened SessionClock
  import opened Dialogue
  import opened Introduction
  import opened Persistence

  /** How a session ended. */
  datatype Ending = EndedInIntroduction | EndedByExitCommand | EndedByTimeUp | EndedByInterrupt

  /** One written transcript file. */
  datatype SavedFile = SavedFile(fileName: string, record: InterviewRecord)

  /** One reading of the clock: microseconds, the record's date text and the
      file name's time stamp. */
  datatype Reading = Reading(micros: int, date: string, stamp: string)

  /** The final answer gets a reply only when it is present and not blank. */
  predicate Substantive(u: Option<string>)
  {
    u.Some? && u.value != "" && Strip(u.value) != ""
  }

  /** The check before the final reply asks for exactly an answer that is
      not made of whitespace alone. */
  lemma SubstantiveIffNotBlank(u: Option<string>)
    ensures Substantive(u) <==> u.Some? && !Blank(u.value)
  {
    if u.Some? {
      StripEmptyIffBlank(u.value);
    }
  }

  class VoiceInterviewBot {
    const utterances: seq<Option<string>>
    const replies: seq<Option<string>>
    const clock: seq<Reading>

    var heard: nat
    var clockReads: nat
    var sent: seq<Request<Prompt>>

    var spoken: seq<Line>
    var saved: seq<SavedFile>

    var history: seq<Said<Prompt>>
    var candidateName: Option<string>
    var position: Option<string>
    var startTime: Option<int>

    /** The turns of the main loop so far. */
    ghost var turns: seq<Turn>
    /** The index in `sent` of the request that asked each turn's question. */
    ghost var asked: seq<nat>

    /** The outcome of the k-th chat call. */
    function ReplyAt(k: nat): Option<string>
    {
      if k < |replies| then replies[k] else None
    }

    /** The k-th clock reading. */
    function ClockAt(k: nat): Reading
      requires |clock| > 0
    {
      if k < |clock| then clock[k] else clock[|clock| - 1]
    }

    ghost predicate Valid()
      reads this
    {
      |history| <= HistoryCap && |clock| > 0
    }

    /** A fresh bot, which primes the language model with the interviewer's
        persona. */
    constructor (utterances: seq<Option<string>>, replies: seq<Option<string>>, clock: seq<Reading>)
      requires |clock| > 0
      ensures Valid()
      ensures this.utterances == utterances && this.replies == replies
      ensures this.clock == clock
      ensures heard == 0 && clockReads == 0 && sent == [Request([], Persona)]
      ensures spoken == [] && saved == [] && turns == [] && asked == []
      ensures candidateName.None? && position.None? && startTime.None?
      ensures history == HistoryAfter([], Persona, ReplyAt(0))
    {
      this.utterances, this.replies, this.clock := utterances, replies, clock;
      heard, clockReads, sent := 0, 0, [];
      spoken, saved, turns, asked := [], [], [], [];
      history := [];
      candidateName, position, startTime := None, None, None;
      new;
      var reply := SendMessage(Persona);
    }

    /** Sends the prompt, preceded by the retained history, to the language
        model. A reply is recorded in the history, which is then cut back to
        its most recent lines; a failed call leaves the history alone and
        yields the apology. */
    method SendMessage(prompt: Prompt) returns (reply: string)
      requires Valid()
      modifies this`history, this`sent
      ensures Valid()
      ensures sent == old(sent) + [Request(old(history), prompt)]
      ensures reply == ReplyOf(ReplyAt(|old(sent)|))
      ensures history == HistoryAfter(old(history), prompt, ReplyAt(|old(sent)|))
    {
      var answer := ReplyAt(|sent|);
      sent := sent + [Request(history, prompt)];
      match answer
      case None =>
        reply := Apology;
      case Some(text) =>
        history := history + [User(prompt)];
        history := history + [Assistant(text)];
        if |history| > HistoryCap {
          history := history[|history| - HistoryCap..];
        }
        reply := text;
    }

    /** Hands a line to the speech engine. The log keeps the line as
        handed over; the engine says its text with the surrounding
        whitespace removed (`Strip`). */
    method Speak(line: Line)
      modifies this`spoken
      ensures spoken == old(spoken) + [line]
    {
      spoken := spoken + [line];
    }

    /** Hears the next utterance of the script: the candidate's words, or
        None for a pause. */
    method Listen() returns (u: Option<string>)
      modifies this`heard
      ensures u == HeardAt(utterances, old(heard)) && heard == old(heard) + 1
      ensures u == HeardAt(utterances, heard - 1)
    {
      u := HeardAt(utterances, heard);
      heard := heard + 1;
    }

    /** Reads the current time. */
    method ReadClock() returns (t: Reading)
      requires |clock| > 0
      modifies this`clockReads
      ensures t == ClockAt(old(clockReads)) && clockReads == old(clockReads) + 1
    {
      t := ClockAt(clockReads);
      clockReads := clockReads + 1;
    }

    /** Reads the clock; speaks the reminder whenever the time left is in the
        warning window, on every such call; reports whether time is left. */
    method CheckTimeRemaining() returns (more: bool)
      requires |clock| > 0 && startTime.Some?
      modifies this`clockReads, this`spoken
      ensures clockReads == old(clockReads) + 1
      ensures more == HasTimeRemaining(startTime.value, ClockAt(old(clockReads)).micros)
      ensures more == HasTimeRemaining(startTime.value, ClockAt(clockReads - 1).micros)
      ensures spoken == old(spoken) +
        Reminder(startTime.value, ClockAt(old(clockReads)).micros)
      ensures spoken == old(spoken) + Reminder(startTime.value, ClockAt(clockReads - 1).micros)
    {
      var now := ReadClock();
      if InWarningWindow(startTime.value, now.micros) {
        Speak(TimeWarning);
      }
      more := HasTimeRemaining(startTime.value, now.micros);
    }

    /** Asks the model for the next question: the opening question while the
        context is empty, a follow-up on the context otherwise. */
    method GenerateQuestion(context: string) returns (question: string)
      requires Valid()
      modifies this`history, this`sent
      ensures Valid()
      ensures var prompt := QuestionPrompt(candidateName, position, context);
        && sent == old(sent) + [Request(old(history), prompt)]
        && question == ReplyOf(ReplyAt(|old(sent)|))
        && history == HistoryAfter(old(history), prompt, ReplyAt(|old(sent)|))
    {
      question := SendMessage(QuestionPrompt(candidateName, position, context));
    }

    /** Asks the model for the interviewer's reaction to an answer. */
    method AnalyzeResponse(question: string, response: string, context: string) returns (feedback: string)
      requires Valid()
      modifies this`history, this`sent
      ensures Valid()
      ensures var prompt := Analysis(candidateName, question, response, context);
        && sent == old(sent) + [Request(old(history), prompt)]
        && feedback == ReplyOf(ReplyAt(|old(sent)|))
        && history == HistoryAfter(old(history), prompt, ReplyAt(|old(sent)|))
    {
      feedback := SendMessage(Analysis(candidateName, question, response, context));
    }

    /** One introductory question: ask, listen, and after a pause ask once
        more and listen again. */
    method Ask(ask: Line, again: Line) returns (a: Answer)
      modifies this`heard, this`spoken
      ensures a == AskWithRetry(HeardAt(utterances, old(heard)), HeardAt(utterances, old(heard) + 1))
      ensures heard == old(heard) + a.listens
      ensures spoken == old(spoken) + AskLines(ask, again, a)
    {
      Speak(ask);
      var first := Listen();
      if CheckForExit(first) {
        return Answer(first, true, 1);
      }
      if first.None? {
        Speak(again);
        var second := Listen();
        return Answer(second, CheckForExit(second), 2);
      }
      a := Answer(first, false, 1);
    }

    /** The introduction. The clock is started before the name is asked for.
        Name and position each get one re-prompt after a pause; an exit
        command in any answer ends the session; otherwise the model's
        welcome is spoken and the session goes on, with or without a name
        and position. */
    method StartInterview() returns (proceed: bool)
      requires Valid()
      modifies this`clockReads, this`startTime, this`heard, this`spoken
      modifies this`candidateName, this`position, this`history, this`sent
      ensures Valid()
      ensures var r := Introduce(utterances, old(heard));
        && proceed == Proceeds(r)
        && heard == old(heard) + Listens(r)
        && candidateName == r.name.value
        && position == (if r.position.Some? then r.position.value.value else old(position))
        && spoken == old(spoken) + IntroLines(r) +
             (if proceed then [Generated(ReplyOf(ReplyAt(|old(sent)|)))] else [])
      ensures startTime == Some(ClockAt(old(clockReads)).micros) && clockReads == old(clockReads) + 1
      ensures !proceed ==> sent == old(sent) && history == old(history)
      ensures proceed ==>
        var prompt := Welcome(candidateName, position);
        && sent == old(sent) + [Request(old(history), prompt)]
        && history == HistoryAfter(old(history), prompt, ReplyAt(|old(sent)|))
    {
      var now := ReadClock();
      startTime := Some(now.micros);
      ghost var r := Introduce(utterances, heard);
      var name := Ask(AskName, AskNameAgain);
      assert name == r.name;
      candidateName := name.value;
      if name.exitRequested {
        return false;
      }
      var pos := Ask(AskPosition, AskPositionAgain);
      assert r == Outcome(name, Some(pos));
      position := pos.value;
      assert spoken == old(spoken) + IntroLines(Outcome(name, Some(pos))) by {
        var n, q := AskLines(AskName, AskNameAgain, name), AskLines(AskPosition, AskPositionAgain, pos);
        assert old(spoken) + (n + q) == (old(spoken) + n) + q;
      }
      if pos.exitRequested {
        return false;
      }
      var welcome := SendMessage(Welcome(candidateName, position));
      Speak(Generated(welcome));
      proceed := true;
    }

    /** Writes the record. With no candidate name the file name cannot be
        formed: nothing is written, the clock is not read, and the failure
        ends the session. */
    method SaveInterviewRecord(record: InterviewRecord) returns (ok: bool)
      requires |clock| > 0
      modifies this`clockReads, this`saved
      ensures ok == candidateName.Some?
      ensures clockReads == old(clockReads) + (if ok then 1 else 0)
      ensures saved == old(saved) +
        if ok then [SavedFile(FileName(candidateName, ClockAt(old(clockReads)).stamp).value, record)] else []
    {
      if candidateName.None? {
        return false;
      }
      var now := ReadClock();
      var fileName := FileName(candidateName, now.stamp).value;
      saved := saved + [SavedFile(fileName, record)];
      ok := true;
    }

    /** The exit command: say goodbye and save the record as it stands. */
    method HandleExit(record: InterviewRecord) returns (ok: bool)
      requires |clock| > 0
      modifies this`spoken, this`clockReads, this`saved
      ensures spoken == old(spoken) + [Farewell(candidateName)]
      ensures ok == candidateName.Some?
      ensures clockReads == old(clockReads) + (if ok then 1 else 0)
      ensures saved == old(saved) +
        if ok then [SavedFile(FileName(candidateName, ClockAt(old(clockReads)).stamp).value, record)] else []
    {
      Speak(Farewell(candidateName));
      ok := SaveInterviewRecord(record);
    }

    /** Whether the k-th heard utterance gets a reply in the closing. */
    function LastWordAnswered(k: nat): bool
    {
      Substantive(HeardAt(utterances, k))
    }

    /** The requests of the closing's last exchange, from history `h`, when
        the k-th utterance is heard. */
    function LastWordRequests(h: seq<Said<Prompt>>, k: nat): seq<Request<Prompt>>
    {
      if LastWordAnswered(k) then [Request(h, FinalReply(HeardAt(utterances, k).value))] else []
    }

    /** The history after the closing's last exchange, whose call is the n-th. */
    function LastWordHistory(h: seq<Said<Prompt>>, k: nat, n: nat): seq<Said<Prompt>>
    {
      if LastWordAnswered(k) then HistoryAfter(h, FinalReply(HeardAt(utterances, k).value), ReplyAt(n)) else h
    }

    /** What is said in the closing's last exchange, whose call is the n-th. */
    function LastWordLines(k: nat, n: nat): seq<Line>
    {
      if LastWordAnswered(k) then [Generated(ReplyOf(ReplyAt(n)))] else []
    }

    /** The candidate's last word: one more answer is heard and, when it is
        not blank, the model's reply to it is spoken. */
    method FinalExchange()
      requires Valid()
      modifies this`heard, this`history, this`sent, this`spoken
      ensures Valid()
      ensures heard == old(heard) + 1
      ensures sent == old(sent) + LastWordRequests(old(history), old(heard))
      ensures history == LastWordHistory(old(history), old(heard), |old(sent)|)
      ensures spoken == old(spoken) + LastWordLines(old(heard), |old(sent)|)
    {
      var finalResponse := Listen();
      if Substantive(finalResponse) {
        var finalFeedback := SendMessage(FinalReply(finalResponse.value));
        Speak(Generated(finalFeedback));
      }
    }

    /** The model's conclusion for the candidate, spoken. */
    method Conclude()
      requires Valid()
      modifies this`history, this`sent, this`spoken
      ensures Valid()
      ensures sent == old(sent) + [Request(old(history), Conclusion(candidateName))]
      ensures history == HistoryAfter(old(history), Conclusion(candidateName), ReplyAt(|old(sent)|))
      ensures spoken == old(spoken) + [Generated(ReplyOf(ReplyAt(|old(sent)|)))]
    {
      var conclusion := SendMessage(Conclusion(candidateName));
      Speak(Generated(conclusion));
    }

    /** After the conclusion: if time is still left, the candidate's last
        word. */
    method LastChance()
      requires Valid() && startTime.Some?
      modifies this`clockReads, this`heard, this`history, this`sent, this`spoken
      ensures Valid()
      ensures clockReads == old(clockReads) + 1
      ensures heard == old(heard) +
        if HasTimeRemaining(startTime.value, ClockAt(old(clockReads)).micros) then 1 else 0
      ensures sent == old(sent) +
        if HasTimeRemaining(startTime.value, ClockAt(old(clockReads)).micros)
        then LastWordRequests(old(history), old(heard)) else []
      ensures history ==
        if HasTimeRemaining(startTime.value, ClockAt(old(clockReads)).micros)
        then LastWordHistory(old(history), old(heard), |old(sent)|) else old(history)
      ensures spoken == old(spoken) +
        Reminder(startTime.value, ClockAt(old(clockReads)).micros) +
        (if HasTimeRemaining(startTime.value, ClockAt(old(clockReads)).micros)
         then LastWordLines(old(heard), |old(sent)|) else [])
    {
      var more := CheckTimeRemaining();
      if more {
        FinalExchange();
      }
    }

    /** The closing: the model's conclusion is spoken; if time is still left,
        one more answer is heard and, when it is not blank, the model's reply
        to it is spoken; then the record, unchanged, is saved. */
    method WrapUpInterview(record: InterviewRecord) returns (ok: bool)
      requires Valid() && startTime.Some?
      modifies this`history, this`sent, this`spoken, this`clockReads, this`heard, this`saved
      ensures Valid()
      ensures ok == candidateName.Some?
      ensures clockReads == old(clockReads) + 1 + (if ok then 1 else 0)
      ensures saved == old(saved) +
        if ok then [SavedFile(FileName(candidateName, ClockAt(old(clockReads) + 1).stamp).value, record)] else []
      ensures heard == old(heard) +
        if HasTimeRemaining(startTime.value, ClockAt(old(clockReads)).micros) then 1 else 0
      ensures var h1 := HistoryAfter(old(history), Conclusion(candidateName), ReplyAt(|old(sent)|));
        sent == old(sent) + [Request(old(history), Conclusion(candidateName))] +
          if HasTimeRemaining(startTime.value, ClockAt(old(clockReads)).micros)
          then LastWordRequests(h1, old(heard)) else []
      ensures var h1 := HistoryAfter(old(history), Conclusion(candidateName), ReplyAt(|old(sent)|));
        history ==
          if HasTimeRemaining(startTime.value, ClockAt(old(clockReads)).micros)
          then LastWordHistory(h1, old(heard), |old(sent)| + 1) else h1
      ensures spoken == old(spoken) + [Generated(ReplyOf(ReplyAt(|old(sent)|)))] +
        Reminder(startTime.value, ClockAt(old(clockReads)).micros) +
        (if HasTimeRemaining(startTime.value, ClockAt(old(clockReads)).micros)
         then LastWordLines(old(heard), |old(sent)| + 1) else [])
    {
      Conclude();
      LastChance();
      ok := SaveInterviewRecord(record);
    }

    /** An interrupt during the main loop: conclude as on time-out. */
    method HandleEarlyTermination(record: InterviewRecord) returns (ok: bool)
      requires Valid() && startTime.Some?
      modifies this`history, this`sent, this`spoken, this`clockReads, this`heard, this`saved
      ensures Valid()
      ensures ok == candidateName.Some?
      ensures clockReads == old(clockReads) + 1 + (if ok then 1 else 0)
      ensures saved == old(saved) +
        if ok then [SavedFile(FileName(candidateName, ClockAt(old(clockReads) + 1).stamp).value, record)] else []
      ensures heard == old(heard) +
        if HasTimeRemaining(startTime.value, ClockAt(old(clockReads)).micros) then 1 else 0
      ensures var h1 := HistoryAfter(old(history), Conclusion(candidateName), ReplyAt(|old(sent)|));
        sent == old(sent) + [Request(old(history), Conclusion(candidateName))] +
          if HasTimeRemaining(startTime.value, ClockAt(old(clockReads)).micros)
          then LastWordRequests(h1, old(heard)) else []
      ensures var h1 := HistoryAfter(old(history), Conclusion(candidateName), ReplyAt(|old(sent)|));
        history ==
          if HasTimeRemaining(startTime.value, ClockAt(old(clockReads)).micros)
          then LastWordHistory(h1, old(heard), |old(sent)| + 1) else h1
      ensures spoken == old(spoken) + [Generated(ReplyOf(ReplyAt(|old(sent)|)))] +
        Reminder(startTime.value, ClockAt(old(clockReads)).micros) +
        (if HasTimeRemaining(startTime.value, ClockAt(old(clockReads)).micros)
         then LastWordLines(old(heard), |old(sent)| + 1) else [])
    {
      ok := WrapUpInterview(record);
    }

    /** One turn of the main loop: the model's next question is spoken and
        an answer heard. An exit command ends the turn there (None); a pause
        is recorded as such; an answer gets the model's reaction, which is
        spoken. */
    method NextTurn(context: string) returns (turn: Option<Turn>)
      requires Valid()
      modifies this`heard, this`history, this`sent, this`spoken
      ensures Valid()
      ensures heard == old(heard) + 1
      ensures var u := HeardAt(utterances, heard - 1);
        && (turn.None? <==> CheckForExit(u))
        && (turn.Some? ==> (turn.value.Paused? <==> u.None?))
        && (turn.Some? && turn.value.Answered? ==> u == Some(turn.value.response))
      ensures turn.Some? ==>
        && turn.value.prompt == QuestionPrompt(candidateName, position, context)
        && turn.value.question == ReplyOf(ReplyAt(|old(sent)|))
      ensures sent == old(sent) + TurnRequests(candidateName, position, old(history), context, turn, |old(sent)|)
      ensures history == TurnHistory(candidateName, position, old(history), context, turn, |old(sent)|)
      ensures spoken == old(spoken) + TurnLines(turn, |old(sent)|)
      ensures turn.Some? && turn.value.Answered? ==> turn.value.feedback == ReplyOf(ReplyAt(|old(sent)| + 1))
    {
      var prompt := QuestionPrompt(candidateName, position, context);
      ghost var n := |sent|;
      var question := GenerateQuestion(context);
      Speak(Generated(question));
      ghost var asked, h1 := sent, history;
      assert asked == old(sent) + [Request(old(history), prompt)];
      assert h1 == HistoryAfter(old(history), prompt, ReplyAt(n));
      var response := Listen();
      if CheckForExit(response) {
        return None;
      }
      if response.None? {
        return Some(Paused(prompt, question));
      }
      var feedback := AnalyzeResponse(question, response.value, context);
      Speak(Generated(feedback));
      turn := Some(Answered(prompt, question, response.value, feedback));
      assert sent == asked + [Request(h1, Analysis(candidateName, question, response.value, context))];
    }

    /** What a session that got past the introduction writes when it ends:
        the record of its turns, dated `date`, under a file name stamped
        with the last clock reading; nothing when no name was captured. */
    ghost function Written(date: string): seq<SavedFile>
      reads this
      requires |clock| > 0 && clockReads > 0
    {
      if candidateName.None? then []
      else [SavedFile(FileName(candidateName, ClockAt(clockReads - 1).stamp).value,
                      InterviewRecord(candidateName, position, date, Conversation(turns)))]
    }

    /** How the main loop's ending is carried out: an exit command says
        goodbye and saves the record; an interrupt and the end of time both
        conclude the interview and save it. */
    method Close(ending: Ending, record: InterviewRecord) returns (ok: bool)
      requires Valid() && startTime.Some? && ending != EndedInIntroduction
      modifies this`history, this`sent, this`spoken, this`clockReads, this`heard, this`saved
      ensures Valid()
      ensures ok == candidateName.Some?
      ensures clockReads >= old(clockReads) + (if ok then 1 else 0)
      ensures saved == old(saved) +
        if ok then [SavedFile(FileName(candidateName, ClockAt(clockReads - 1).stamp).value, record)] else []
      ensures ending == EndedByExitCommand ==>
        && clockReads == old(clockReads) + (if ok then 1 else 0)
        && heard == old(heard)
        && spoken == old(spoken) + [Farewell(candidateName)]
        && sent == old(sent) && history == old(history)
      ensures ending != EndedByExitCommand ==>
        && clockReads == old(clockReads) + 1 + (if ok then 1 else 0)
        && heard == old(heard) + (if HasTimeRemaining(startTime.value, ClockAt(old(clockReads)).micros) then 1 else 0)
      ensures ending != EndedByExitCommand ==>
        var h1 := HistoryAfter(old(history), Conclusion(candidateName), ReplyAt(|old(sent)|));
        && sent == old(sent) + [Request(old(history), Conclusion(candidateName))] +
             (if HasTimeRemaining(startTime.value, ClockAt(old(clockReads)).micros)
              then LastWordRequests(h1, old(heard)) else [])
        && history ==
             (if HasTimeRemaining(startTime.value, ClockAt(old(clockReads)).micros)
              then LastWordHistory(h1, old(heard), |old(sent)| + 1) else h1)
      ensures ending != EndedByExitCommand ==>
        spoken == old(spoken) + [Generated(ReplyOf(ReplyAt(|old(sent)|)))] +
          Reminder(startTime.value, ClockAt(old(clockReads)).micros) +
          (if HasTimeRemaining(startTime.value, ClockAt(old(clockReads)).micros)
           then LastWordLines(old(heard), |old(sent)| + 1) else [])
    {
      match ending
      case EndedByExitCommand =>
        ok := HandleExit(record);
      case EndedByInterrupt =>
        ok := HandleEarlyTermination(record);
      case EndedByTimeUp =>
        ok := WrapUpInterview(record);
    }

    /** The main loop's turn-side state: its running context and record
        agree with its turns, which are in step with the utterances heard
        from the from-th on, one per turn; `exit` says whether one more
        utterance was heard, an exit command, that ended the loop. */
    ghost predicate TurnState(date: string, context: string, current: InterviewRecord, from: nat, exit: bool)
      reads this`turns, this`heard, this`candidateName, this`position
    {
      && Transcript(turns, candidateName, position, date, context, current)
      && HeardInOrder(turns, utterances, from)
      && heard == from + |turns| + (if exit then 1 else 0)
      && (exit ==> CheckForExit(HeardAt(utterances, from + |turns|)))
    }

    /** The main loop's clock-side state: it checked the time once before
        the first turn and once after each turn, from the c0-th reading on,
        and every check but perhaps the last found time left. */
    ghost predicate ClockState(start: int, c0: nat)
      reads this`clockReads, this`turns
    {
      clockReads == c0 + 1 + |turns| && PolledWhileTime(start, c0, clockReads - 1)
    }

    /** The main loop's time checks from the first-th clock reading up to,
        not including, the last-th all found time left. */
    ghost predicate PolledWhileTime(start: int, first: nat, last: nat)
    {
      && |clock| > 0 && first <= last
      && forall k :: first <= k < last ==> HasTimeRemaining(start, ClockAt(k).micros)
    }

    /** One more check that found time left extends the run. */
    lemma PolledExtend(start: int, first: nat, last: nat)
      requires PolledWhileTime(start, first, last)
      requires HasTimeRemaining(start, ClockAt(last).micros)
      ensures PolledWhileTime(start, first, last + 1)
    {
    }

    /** A check that finds time left was not made at the clock script's
        last reading, when that reading lies past the interview's end. */
    lemma TimeLeftBeforeEnd(start: int, k: nat)
      requires |clock| > 0 && start + InterviewDuration <= clock[|clock| - 1].micros
      requires HasTimeRemaining(start, ClockAt(k).micros)
      ensures k < |clock| - 1
    {
    }

    /** The requests of one turn, from history h, when its question is the
        n-th call: the question, and the analysis of an answer. */
    function TurnRequests(name: Option<string>, pos: Option<string>, h: seq<Said<Prompt>>, context: string,
                          next: Option<Turn>, n: nat): seq<Request<Prompt>>
    {
      var prompt := QuestionPrompt(name, pos, context);
      [Request(h, prompt)] +
      if next.Some? && next.value.Answered?
      then [Request(HistoryAfter(h, prompt, ReplyAt(n)), Analysis(name, next.value.question, next.value.response, context))]
      else []
    }

    /** A turn makes `Cost` requests: its question and, when answered, the
        analysis of its answer; an exit command makes the question alone. */
    lemma CostIsRequests(name: Option<string>, pos: Option<string>, h: seq<Said<Prompt>>, context: string,
                         next: Option<Turn>, n: nat)
      ensures |TurnRequests(name, pos, h, context, next, n)| == if next.Some? then Cost(next.value) else 1
    {
    }

    /** The history after one turn whose question is the n-th call. */
    function TurnHistory(name: Option<string>, pos: Option<string>, h: seq<Said<Prompt>>, context: string,
                         next: Option<Turn>, n: nat): seq<Said<Prompt>>
    {
      var prompt := QuestionPrompt(name, pos, context);
      var h1 := HistoryAfter(h, prompt, ReplyAt(n));
      if next.Some? && next.value.Answered?
      then HistoryAfter(h1, Analysis(name, next.value.question, next.value.response, context), ReplyAt(n + 1))
      else h1
    }

    /** What one turn says whose question is the n-th call: the question,
        and the reaction to an answer. */
    function TurnLines(next: Option<Turn>, n: nat): seq<Line>
    {
      [Generated(ReplyOf(ReplyAt(n)))] + if next.Some? && next.value.Answered? then [Generated(next.value.feedback)] else []
    }

    /** The requests and history after one turn asked with `context`,
        from the log `sent0` and the history `history0`. */
    ghost predicate Exchanged(sent0: seq<Request<Prompt>>, history0: seq<Said<Prompt>>, context: string,
                              next: Option<Turn>)
      reads this`sent, this`history, this`candidateName, this`position
    {
      && sent == sent0 + TurnRequests(candidateName, position, history0, context, next, |sent0|)
      && history == TurnHistory(candidateName, position, history0, context, next, |sent0|)
    }

    /** The turn's question is the model's reply to the n-th request, and
        an answered turn's reaction is the reply to the request after it. */
    predicate Replied(t: Turn, n: nat)
    {
      t.question == ReplyOf(ReplyAt(n)) && (t.Answered? ==> t.feedback == ReplyOf(ReplyAt(n + 1)))
    }

    /** Each turn of ts was asked by the request of the log that `calls`
        names for it, as `AskedAt` says. */
    ghost predicate AskedBy(ts: seq<Turn>, calls: seq<nat>, log: seq<Request<Prompt>>, from: nat)
    {
      |calls| == |ts| && forall i :: 0 <= i < |ts| ==> AskedAt(ts, calls, log, from, i)
    }

    /** Turn i of ts was asked by the calls[i]-th request of the log, made
        at or after the from-th and after the requests of the turn before
        it: that request carried the turn's prompt, the turn's question is
        the model's reply to it, and an answered turn's reaction is the
        reply to the request after it, which the log also holds. */
    ghost predicate AskedAt(ts: seq<Turn>, calls: seq<nat>, log: seq<Request<Prompt>>, from: nat, i: nat)
    {
      && i < |ts| && i < |calls|
      && (if i == 0 then from else calls[i - 1] + Cost(ts[i - 1])) <= calls[i]
      && calls[i] + Cost(ts[i]) <= |log|
      && log[calls[i]].prompt == ts[i].prompt
      && Replied(ts[i], calls[i])
    }

    /** A log that grows keeps the requests that asked the turns. */
    lemma AskedByGrows(ts: seq<Turn>, calls: seq<nat>, log: seq<Request<Prompt>>, more: seq<Request<Prompt>>,
                       from: nat)
      requires AskedBy(ts, calls, log, from)
      ensures AskedBy(ts, calls, log + more, from)
    {
      forall i | 0 <= i < |ts|
        ensures AskedAt(ts, calls, log + more, from, i)
      {
        assert AskedAt(ts, calls, log, from, i);
        assert (log + more)[calls[i]] == log[calls[i]];
      }
    }

    /** A turn asked by the first request after the log, whose answer is
        that request's reply, extends the turns asked by the log. */
    lemma AskedByAppend(ts: seq<Turn>, calls: seq<nat>, log: seq<Request<Prompt>>, more: seq<Request<Prompt>>,
                        from: nat, t: Turn)
      requires AskedBy(ts, calls, log, from) && from <= |log|
      requires Cost(t) <= |more| && more[0].prompt == t.prompt && Replied(t, |log|)
      ensures AskedBy(ts + [t], calls + [|log|], log + more, from)
    {
      AskedByGrows(ts, calls, log, more, from);
      var ts', calls' := ts + [t], calls + [|log|];
      forall i | 0 <= i < |ts'|
        ensures AskedAt(ts', calls', log + more, from, i)
      {
        if i < |ts| {
          assert AskedAt(ts, calls, log + more, from, i);
          assert ts'[i] == ts[i] && calls'[i] == calls[i];
          if i > 0 {
            assert ts'[i - 1] == ts[i - 1] && calls'[i - 1] == calls[i - 1];
          }
        } else if i > 0 {
          assert AskedAt(ts, calls, log, from, i - 1);
          assert ts'[i - 1] == ts[i - 1] && calls'[i - 1] == calls[i - 1];
        }
      }
    }

    /** One turn of the main loop keeps its turns in step with its requests:
        the turn, unless it heard an exit command, was asked by the first of
        the requests it made. */
    lemma AskedStep(ts: seq<Turn>, calls: seq<nat>, log: seq<Request<Prompt>>, from: nat,
                    name: Option<string>, pos: Option<string>, h: seq<Said<Prompt>>, context: string,
                    next: Option<Turn>, log': seq<Request<Prompt>>)
      requires AskedBy(ts, calls, log, from) && from <= |log|
      requires next.Some? ==> Replied(next.value, |log|) && next.value.prompt == QuestionPrompt(name, pos, context)
      requires log' == log + TurnRequests(name, pos, h, context, next, |log|)
      ensures from <= |log'|
      ensures AskedBy(ts + (if next.None? then [] else [next.value]),
                      calls + (if next.None? then [] else [|log|]), log', from)
    {
      var more := TurnRequests(name, pos, h, context, next, |log|);
      if next.None? {
        AskedByGrows(ts, calls, log, more, from);
        assert ts + [] == ts && calls + [] == calls;
      } else {
        AskedByAppend(ts, calls, log, more, from, next.value);
      }
    }

    /** Every turn's facts, one by one: the request that asked it lies at or
        after the from-th and within the log, carried the turn's prompt, and
        got the turn's question (and an answer's reaction) for reply; a
        turn was asked after the requests of every turn before it. */
    lemma AskedEach(ts: seq<Turn>, calls: seq<nat>, log: seq<Request<Prompt>>, from: nat)
      requires AskedBy(ts, calls, log, from)
      ensures forall i :: 0 <= i < |ts| ==>
        && from <= calls[i] && calls[i] + Cost(ts[i]) <= |log|
        && log[calls[i]].prompt == ts[i].prompt && Replied(ts[i], calls[i])
      ensures forall i, j :: 0 <= i < j < |ts| ==> calls[i] + Cost(ts[i]) <= calls[j]
    {
      forall i | 0 <= i < |ts|
        ensures from <= calls[i]
      {
        AskedAfter(ts, calls, log, from, 0, i);
        assert AskedAt(ts, calls, log, from, 0);
      }
      forall i | 0 <= i < |ts|
        ensures calls[i] + Cost(ts[i]) <= |log| && log[calls[i]].prompt == ts[i].prompt && Replied(ts[i], calls[i])
      {
        assert AskedAt(ts, calls, log, from, i);
      }
      forall i, j | 0 <= i < j < |ts|
        ensures calls[i] + Cost(ts[i]) <= calls[j]
      {
        AskedAfter(ts, calls, log, from, i + 1, j);
        assert AskedAt(ts, calls, log, from, i + 1);
      }
    }

    /** The requests that asked the turns come in the turns' order. */
    lemma {:induction false} AskedAfter(ts: seq<Turn>, calls: seq<nat>, log: seq<Request<Prompt>>, from: nat,
                                        i: nat, j: nat)
      requires AskedBy(ts, calls, log, from) && i <= j < |ts|
      ensures calls[i] <= calls[j]
      decreases j - i
    {
      if i < j {
        AskedAfter(ts, calls, log, from, i + 1, j);
        assert AskedAt(ts, calls, log, from, i + 1);
      }
    }

    /** The saved transcript holds what the model said: entry i's question
        is the reply to the request that asked turn i, and an answered
        entry's reaction is the reply to the request after it. */
    lemma RecordedReplies(ts: seq<Turn>, calls: seq<nat>, log: seq<Request<Prompt>>, from: nat)
      requires AskedBy(ts, calls, log, from)
      ensures forall i :: 0 <= i < |ts| ==>
        && Conversation(ts)[i].question == ReplyOf(ReplyAt(calls[i]))
        && (ts[i].Answered? ==> Conversation(ts)[i].interviewerFeedback == ReplyOf(ReplyAt(calls[i] + 1)))
    {
      ConversationEntries(ts);
      AskedEach(ts, calls, log, from);
    }

    /** One turn of the main loop, as the transcript sees it: the turn is
        taken and, unless its answer was an exit command, appended to the
        turns, to the record and (when answered) to the context; the turns
        stay in step with what was heard. */
    method TakeTurn(context: string, current: InterviewRecord, ghost date: string, ghost from: nat, ghost s0: nat)
      returns (exit: bool, context': string, current': InterviewRecord, ghost next: Option<Turn>)
      requires Valid()
      requires TurnState(date, context, current, from, false) && s0 <= |sent| && AskedBy(turns, asked, sent, s0)
      modifies this`heard, this`history, this`sent, this`spoken, this`turns, this`asked
      ensures Valid()
      ensures heard == old(heard) + 1
      ensures TurnState(date, context', current', from, exit) && s0 <= |sent| && AskedBy(turns, asked, sent, s0)
      ensures exit <==> next.None?
      ensures !exit ==> Replied(next.value, |old(sent)|)
      ensures exit <==> CheckForExit(HeardAt(utterances, heard - 1))
      ensures turns == old(turns) + (if exit then [] else [next.value])
      ensures asked == old(asked) + (if exit then [] else [|old(sent)|])
      ensures !exit ==> Matches(next.value, HeardAt(utterances, heard - 1))
      ensures Exchanged(old(sent), old(history), context, next)
      ensures spoken == old(spoken) + TurnLines(next, |old(sent)|)
    {
      ghost var k := heard;
      assert k == from + |turns|;
      var turn := NextTurn(context);
      next := turn;
      AskedStep(turns, asked, old(sent), s0, candidateName, position, old(history), context, turn, sent);
      assert heard - 1 == k;
      ghost var u := HeardAt(utterances, k);
      assert turn.None? <==> CheckForExit(u);
      if turn.None? {
        assert turns + [] == turns && asked + [] == asked;
        return true, context, current, next;
      }
      var t := turn.value;
      assert Matches(t, u);
      TranscriptAppend(turns, t, candidateName, position, date, context, current);
      HeardInOrderAppend(turns, t, utterances, from);
      context' := context;
      if t.Answered? {
        context' := context + QA(t.question, t.response);
      }
      current' := current.(conversation := current.conversation + [EntryOf(t)]);
      turns := turns + [t];
      asked := asked + [|old(sent)|];
      exit := false;
    }

    /** The check of the time after a turn, which the check before it
        found time left: the run of checks that found time left grows by
        one, and the new check's verdict is reported. */
    method CheckAfterTurn(ghost start: int, ghost c0: nat) returns (more: bool)
      requires |clock| > 0 && startTime == Some(start)
      requires 0 < |turns| && clockReads == c0 + |turns| && PolledWhileTime(start, c0, clockReads - 1)
      requires HasTimeRemaining(start, ClockAt(clockReads - 1).micros)
      modifies this`clockReads, this`spoken
      ensures ClockState(start, c0)
      ensures more == HasTimeRemaining(start, ClockAt(clockReads - 1).micros)
      ensures spoken == old(spoken) + Reminder(start, ClockAt(clockReads - 1).micros)
    {
      PolledExtend(start, c0, clockReads - 1);
      more := CheckTimeRemaining();
    }

    /** A pass of the main loop that no interrupt stops, entered while time
        is left: a turn is taken and, unless it heard an exit command, the
        time is checked again. The loop's checks run from the c0-th clock
        reading and its listens from the h0-th utterance. */
    method TurnThenCheck(date: string, taken: nat, context: string, current: InterviewRecord,
                         ghost start: int, ghost c0: nat, ghost h0: nat, ghost s0: nat)
      returns (exit: bool, more: bool, taken': nat, context': string, current': InterviewRecord,
               ghost next: Option<Turn>)
      requires Valid() && startTime == Some(start) && taken == |turns|
      requires TurnState(date, context, current, h0, false) && ClockState(start, c0) && s0 <= |sent| && AskedBy(turns, asked, sent, s0)
      requires HasTimeRemaining(start, ClockAt(clockReads - 1).micros)
      modifies this`clockReads, this`heard, this`history, this`sent, this`spoken, this`turns, this`asked
      ensures Valid() && startTime == Some(start) && taken' == |turns|
      ensures TurnState(date, context', current', h0, exit) && ClockState(start, c0) && s0 <= |sent| && AskedBy(turns, asked, sent, s0)
      ensures more == HasTimeRemaining(start, ClockAt(clockReads - 1).micros)
      ensures exit ==> more
      ensures exit <==> next.None?
      ensures !exit ==> Replied(next.value, |old(sent)|)
      ensures turns == old(turns) + (if exit then [] else [next.value])
      ensures asked == old(asked) + (if exit then [] else [|old(sent)|])
      ensures Exchanged(old(sent), old(history), context, next)
      ensures spoken == old(spoken) + TurnLines(next, |old(sent)|) +
        (if exit then [] else Reminder(start, ClockAt(clockReads - 1).micros))
    {
      exit, context', current', next := TakeTurn(context, current, date, h0, s0);
      if exit {
        return true, HasTimeRemaining(startTime.value, ClockAt(clockReads - 1).micros), taken, context', current', next;
      }
      assert clockReads == c0 + |turns| && PolledWhileTime(start, c0, clockReads - 1);
      ghost var spoken1 := spoken;
      more := CheckAfterTurn(start, c0);
      assert TurnState(date, context', current', h0, false);
      assert Exchanged(old(sent), old(history), context, next);
      assert spoken == spoken1 + Reminder(start, ClockAt(clockReads - 1).micros);
      taken' := taken + 1;
    }

    /** The main loop proper. While time is left, turns are taken; an
        interrupt at the start of a turn and an exit command in an answer
        end it early. The result is how it ended and the record as it then
        stands. */
    method TakeTurns(date: string, interruptAt: Option<nat>) returns (ending: Ending, current: InterviewRecord)
      requires Valid() && startTime.Some?
      requires startTime.value + InterviewDuration <= clock[|clock| - 1].micros
      modifies this`clockReads, this`heard, this`history, this`sent, this`spoken, this`turns, this`asked
      ensures Valid()
      ensures AskedBy(turns, asked, sent, |old(sent)|)
      ensures ending != EndedInIntroduction
      ensures current == InterviewRecord(candidateName, position, date, Conversation(turns))
      ensures AskedInOrder(turns, candidateName, position) && NoExitAnswers(turns)
      ensures clockReads == old(clockReads) + 1 + |turns|
      ensures PolledWhileTime(startTime.value, old(clockReads), clockReads - 1)
      ensures ending == EndedByTimeUp <==> !HasTimeRemaining(startTime.value, ClockAt(clockReads - 1).micros)
      ensures heard == old(heard) + |turns| + (if ending == EndedByExitCommand then 1 else 0)
      ensures HeardInOrder(turns, utterances, old(heard))
      ensures ending == EndedByExitCommand ==> CheckForExit(HeardAt(utterances, old(heard) + |turns|))
      ensures ending == EndedByInterrupt ==> interruptAt == Some(|turns|)
      ensures interruptAt.None? || interruptAt.value >= |turns|
      ensures ending == EndedByExitCommand ==> interruptAt.None? || interruptAt.value > |turns|
    {
      current := InterviewRecord(candidateName, position, date, []);
      turns, asked := [], [];
      ghost var start, c0, h0, s0 := startTime.value, clockReads, heard, |sent|;
      var more := CheckTimeRemaining();
      var context;
      ending, context, current := RunTurns(date, interruptAt, 0, "", current, more, start, c0, h0, s0);
    }

    /** The loop of the main loop, from its first check of the time on:
        while time is left and nothing ended it, an interrupt due at the
        start of the turn ends it, and otherwise a pass is made. On the way
        out the turn-side and clock-side states still hold, and the loop
        stopped for lack of time exactly when it ended by the time. */
    method RunTurns(date: string, interruptAt: Option<nat>, taken: nat, context: string, current: InterviewRecord,
                    more: bool,
                    ghost start: int, ghost c0: nat, ghost h0: nat, ghost s0: nat)
      returns (ending: Ending, context': string, current': InterviewRecord)
      requires Valid() && startTime == Some(start) && taken == |turns|
      requires start + InterviewDuration <= clock[|clock| - 1].micros
      requires TurnState(date, context, current, h0, false) && ClockState(start, c0) && s0 <= |sent| && AskedBy(turns, asked, sent, s0)
      requires interruptAt.None? || interruptAt.value >= |turns|
      requires more == HasTimeRemaining(start, ClockAt(clockReads - 1).micros)
      modifies this`clockReads, this`heard, this`history, this`sent, this`spoken, this`turns, this`asked
      ensures Valid() && startTime == Some(start)
      ensures TurnState(date, context', current', h0, ending == EndedByExitCommand) && ClockState(start, c0)
      ensures s0 <= |sent| && AskedBy(turns, asked, sent, s0)
      ensures interruptAt.None? || interruptAt.value >= |turns|
      ensures ending == EndedByExitCommand ==> interruptAt.None? || interruptAt.value > |turns|
      ensures ending != EndedInIntroduction
      ensures ending == EndedByInterrupt ==> interruptAt == Some(|turns|)
      ensures ending == EndedByTimeUp <==> !HasTimeRemaining(start, ClockAt(clockReads - 1).micros)
    {
      var taken', more' := taken, more;
      context', current' := context, current;
      ending := EndedByTimeUp;
      while more' && ending == EndedByTimeUp
        invariant Valid() && startTime == Some(start) && taken' == |turns|
        invariant TurnState(date, context', current', h0, ending == EndedByExitCommand) && ClockState(start, c0)
        invariant s0 <= |sent| && AskedBy(turns, asked, sent, s0)
        invariant interruptAt.None? || interruptAt.value >= |turns|
        invariant ending == EndedByExitCommand ==> interruptAt.None? || interruptAt.value > |turns|
        invariant ending != EndedInIntroduction
        invariant ending == EndedByInterrupt ==> interruptAt == Some(|turns|)
        invariant more' == HasTimeRemaining(start, ClockAt(clockReads - 1).micros)
        invariant ending != EndedByTimeUp ==> more'
        decreases if more' && ending == EndedByTimeUp then |clock| + 1 - clockReads else 0
      {
        TimeLeftBeforeEnd(start, clockReads - 1);
        if interruptAt == Some(taken') {
          ending := EndedByInterrupt;
          break;
        }
        ghost var next := None;
        var exit;
        exit, more', taken', context', current', next := TurnThenCheck(date, taken', context', current', start, c0, h0, s0);
        if exit {
          ending := EndedByExitCommand;
        }
      }
    }

    /** The main loop and the ending it leads to. Every way out writes the
        record as it stands, unless no name was captured. `lastCheck` is
        the clock reading at which the loop last checked the time: every
        earlier check found time left, and the loop ran out of time exactly
        when that last check found none. */
    method MainLoop(date: string, interruptAt: Option<nat>) returns (ending: Ending, crashed: bool, ghost lastCheck: nat)
      requires Valid() && startTime.Some?
      requires startTime.value + InterviewDuration <= clock[|clock| - 1].micros
      modifies this`clockReads, this`heard, this`history, this`sent, this`spoken, this`saved, this`turns, this`asked
      ensures Valid()
      ensures ending != EndedInIntroduction && clockReads > old(clockReads)
      ensures AskedBy(turns, asked, sent, |old(sent)|)
      ensures crashed == candidateName.None?
      ensures saved == old(saved) + Written(date)
      ensures AskedInOrder(turns, candidateName, position) && NoExitAnswers(turns)
      ensures HeardInOrder(turns, utterances, old(heard))
      ensures lastCheck == old(clockReads) + |turns| && PolledWhileTime(startTime.value, old(clockReads), lastCheck)
      ensures ending == EndedByTimeUp <==> !HasTimeRemaining(startTime.value, ClockAt(lastCheck).micros)
      ensures ending == EndedByExitCommand ==>
        heard == old(heard) + |turns| + 1 && CheckForExit(HeardAt(utterances, old(heard) + |turns|))
      ensures ending == EndedByInterrupt ==> interruptAt == Some(|turns|)
      ensures ending == EndedByTimeUp ==> interruptAt.None? || interruptAt.value >= |turns|
      ensures ending == EndedByExitCommand ==> interruptAt.None? || interruptAt.value > |turns|
    {
      var current;
      ending, current := TakeTurns(date, interruptAt);
      lastCheck := clockReads - 1;
      ghost var s1 := sent;
      var ok := Close(ending, current);
      crashed := !ok;
      AskedByGrows(turns, asked, s1, sent[|s1|..], |old(sent)|);
      assert s1 + sent[|s1|..] == sent;
    }

    /** The whole session. `interruptAt` is the turn, if any, at whose start
        an interrupt arrives. The clock script must run past the end of the
        interview's time. A session that gets past the introduction writes
        its record once, whichever of the modelled ways it ends, unless no
        name was captured; one that ends in the introduction writes nothing.
        The main loop hears the utterances from the `first`-th on (those
        that follow the introduction's), one per turn, and checks the time
        from the third clock reading on, the last time at `lastCheck`. */
    method ConductInterview(interruptAt: Option<nat>)
      returns (ending: Ending, crashed: bool, ghost first: nat, ghost lastCheck: nat)
      requires Valid()
      requires ClockAt(clockReads).micros + InterviewDuration <= clock[|clock| - 1].micros
      modifies this
      ensures Valid()
      ensures var r := Introduce(utterances, old(heard));
        (ending == EndedInIntroduction <==> !Proceeds(r)) && candidateName == r.name.value
      ensures var r := Introduce(utterances, old(heard));
        position == (if r.position.Some? then r.position.value.value else old(position))
      ensures startTime == Some(ClockAt(old(clockReads)).micros) && clockReads > old(clockReads)
      ensures ending == EndedInIntroduction ==> !crashed && saved == old(saved)
      ensures ending != EndedInIntroduction ==>
        && crashed == candidateName.None?
        && saved == old(saved) + Written(ClockAt(old(clockReads) + 1).date)
        && AskedInOrder(turns, candidateName, position)
        && NoExitAnswers(turns)
      ensures first == old(heard) + Listens(Introduce(utterances, old(heard)))
      ensures ending != EndedInIntroduction ==>
        AskedBy(turns, asked, sent, |old(sent)| + 1)
      ensures ending != EndedInIntroduction ==>
        && HeardInOrder(turns, utterances, first)
        && (ending == EndedByExitCommand ==> CheckForExit(HeardAt(utterances, first + |turns|)))
      ensures ending != EndedInIntroduction ==>
        && lastCheck == old(clockReads) + 2 + |turns|
        && PolledWhileTime(startTime.value, old(clockReads) + 2, lastCheck)
        && (ending == EndedByTimeUp <==> !HasTimeRemaining(startTime.value, ClockAt(lastCheck).micros))
      ensures ending == EndedByInterrupt ==> interruptAt == Some(|turns|)
      ensures ending == EndedByTimeUp ==> interruptAt.None? || interruptAt.value >= |turns|
      ensures ending == EndedByExitCommand ==> interruptAt.None? || interruptAt.value > |turns|
    {
      var proceed := StartInterview();
      ghost var p1 := position;
      first := heard;
      if !proceed {
        return EndedInIntroduction, false, first, 0;
      }
      var now := ReadClock();
      ghost var c1, s1 := clockReads, |sent|;
      assert c1 == old(clockReads) + 2 && s1 == |old(sent)| + 1;
      assert now.date == ClockAt(old(clockReads) + 1).date;
      ending, crashed, lastCheck := MainLoop(now.date, interruptAt);
      assert PolledWhileTime(startTime.value, c1, lastCheck) && AskedBy(turns, asked, sent, s1);
      assert position == p1;
    }
  }

  /** The main loop's running context and record agree with its turns,
      which were asked in order and never recorded an exit command. */
  ghost predicate Transcript(turns: seq<Turn>, name: Option<string>, position: Option<string>,
                             date: string, context: string, record: InterviewRecord)
  {
    && context == ContextOf(turns)
    && record == InterviewRecord(name, position, date, Conversation(turns))
    && AskedInOrder(turns, name, position) && NoExitAnswers(turns)
  }

  /** A turn asked with the running context, whose answer (if any) is not an
      exit command, extends the transcript: the record gains its entry and
      the context its question and answer when it was answered. */
  lemma TranscriptAppend(turns: seq<Turn>, t: Turn, name: Option<string>, position: Option<string>,
                         date: string, context: string, record: InterviewRecord)
    requires Transcript(turns, name, position, date, context, record)
    requires t.prompt == QuestionPrompt(name, position, context)
    requires t.Answered? ==> !CheckForExit(Some(t.response))
    ensures Transcript(turns + [t], name, position, date,
                       if t.Answered? then context + QA(t.question, t.response) else context,
                       record.(conversation := record.conversation + [EntryOf(t)]))
  {
    AppendTurn(turns, t);
    AskedInOrderAppend(turns, t, name, position);
    var ts := turns + [t];
    forall i | 0 <= i < |ts| && ts[i].Answered? ensures !CheckForExit(Some(ts[i].response)) {
      if i < |turns| { assert ts[i] == turns[i]; }
    }
  }

  /** The chat requests one turn makes: its question, and the analysis of
      its answer when it was answered. */
  function Cost(t: Turn): (r: nat)
    ensures r == 1 <==> !t.Answered?
  {
    if t.Answered? then 2 else 1
  }

  /** A recorded turn agrees with what was heard for it: a pause with
      silence, an answer with the very words heard. */
  predicate Matches(t: Turn, u: Option<string>)
  {
    (t.Paused? <==> u.None?) && (t.Answered? ==> u == Some(t.response))
  }

  /** Turn i agrees with the utterance heard (from + i)-th: the main loop
      listens exactly once per turn. */
  ghost predicate HeardInOrder(turns: seq<Turn>, script: seq<Option<string>>, from: nat)
  {
    forall i :: 0 <= i < |turns| ==> Matches(turns[i], HeardAt(script, from + i))
  }

  /** A turn that agrees with the next utterance keeps the turns in step
      with what was heard. */
  lemma HeardInOrderAppend(turns: seq<Turn>, t: Turn, script: seq<Option<string>>, from: nat)
    requires HeardInOrder(turns, script, from)
    requires Matches(t, HeardAt(script, from + |turns|))
    ensures HeardInOrder(turns + [t], script, from)
  {
    var ts := turns + [t];
    forall i | 0 <= i < |ts| ensures Matches(ts[i], HeardAt(script, from + i)) {
      if i < |turns| { assert ts[i] == turns[i]; }
    }
  }

  /** The saved transcript holds what was heard: entry i's response is the
      (from + i)-th utterance, or the pause sentinel when it was silence. */
  lemma {:induction false} RecordedAnswers(turns: seq<Turn>, script: seq<Option<string>>, from: nat)
    requires HeardInOrder(turns, script, from)
    ensures forall i :: 0 <= i < |turns| ==>
      Conversation(turns)[i].response == HeardAt(script, from + i).GetOr(PausedResponse)
  {
    ConversationEntries(turns);
    forall i | 0 <= i < |turns|
      ensures Conversation(turns)[i].response == HeardAt(script, from + i).GetOr(PausedResponse)
    {
      assert Matches(turns[i], HeardAt(script, from + i));
    }
  }

  /** What a check of the time says: the reminder inside the warning
      window, nothing otherwise. */
  function Reminder(start: int, now: int): seq<Line>
  {
    if InWarningWindow(start, now) then [TimeWarning] else []
  }

  /** What a series of time checks speaks, poll by poll. */
  function Reminders(start: int, polls: seq<int>): seq<Line>
  {
    if polls == [] then [] else Reminder(start, polls[0]) + Reminders(start, polls[1..])
  }

  /** A series of time checks speaks nothing but reminders, as many as
      the polls that fall in the warning window. */
  lemma {:induction false} RemindersCounted(start: int, polls: seq<int>)
    ensures |Reminders(start, polls)| == WarningCount(start, polls)
    ensures forall i :: 0 <= i < |Reminders(start, polls)| ==> Reminders(start, polls)[i] == TimeWarning
  {
    if polls != [] {
      RemindersCounted(start, polls[1..]);
    }
  }

  /** The lines the introduction asks, re-prompts included. */
  function IntroLines(r: Outcome): seq<Line>
  {
    AskLines(AskName, AskNameAgain, r.name) +
    if r.position.Some? then AskLines(AskPosition, AskPositionAgain, r.position.value) else []
  }
}
