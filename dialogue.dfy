/** What the interviewer asks the language model, what it says aloud, and
    the turns of the main loop with the transcript and context they build. */
module Dialogue {
  import opened Wrappers
  import opened ExitDetector

  /** The prompts sent to the language model, by kind and the values filled
      into them; their wording is not modelled. */
  datatype Prompt =
    | Persona
    | Welcome(name: Option<string>, position: Option<string>)
    | Opening(name: Option<string>, position: Option<string>)
    | FollowUp(position: Option<string>, context: string)
    | Analysis(name: Option<string>, question: string, response: string, context: string)
    | Conclusion(name: Option<string>)
    | FinalReply(utterance: string)

  /** What the interviewer says aloud: fixed lines, whose wording is not
      modelled, and text produced by the language model. */
  datatype Line =
    | AskName
    | AskNameAgain
    | AskPosition
    | AskPositionAgain
    | TimeWarning
    | Farewell(name: Option<string>)
    | Generated(text: string)

  /** The question prompt: the opening form while there is no context yet,
      the follow-up form, built on the context, afterwards. */
  function QuestionPrompt(name: Option<string>, position: Option<string>, context: string): (p: Prompt)
    ensures p.Opening? <==> context == ""
    ensures p.Opening? || p.FollowUp?
    ensures p.FollowUp? ==> p.context == context
  {
    if context == "" then Opening(name, position) else FollowUp(position, context)
  }

  /** The response and feedback recorded for a turn where the candidate
      paused. */
  const PausedResponse := "[Candidate paused]"
  const PauseFeedback := "Moving to next question due to pause"

  /** One entry of the saved transcript. */
  datatype Entry = Entry(question: string, response: string, interviewerFeedback: string)

  /** One completed turn of the main loop: the prompt chosen, the question
      the model produced, and either a pause or the candidate's answer with
      the interviewer's reaction. */
  datatype Turn =
    | Paused(prompt: Prompt, question: string)
    | Answered(prompt: Prompt, question: string, response: string, feedback: string)

  function EntryOf(t: Turn): (e: Entry)
    ensures e.question == t.question
    ensures t.Answered? ==> e.response == t.response && e.interviewerFeedback == t.feedback
    ensures t.Paused? ==> e.response == PausedResponse && e.interviewerFeedback == PauseFeedback
  {
    match t
    case Paused(_, q) => Entry(q, PausedResponse, PauseFeedback)
    case Answered(_, q, a, f) => Entry(q, a, f)
  }

  /** The transcript built by the loop: one entry per completed turn, in
      order; a pause is recorded with the fixed sentinel texts. */
  function Conversation(turns: seq<Turn>): (c: seq<Entry>)
    ensures |c| == |turns|
  {
    if turns == [] then []
    else Conversation(turns[..|turns| - 1]) + [EntryOf(turns[|turns| - 1])]
  }

  /** Entry i of the transcript is turn i: its question, and its answer and
      the interviewer's reaction, or the fixed sentinel texts for a pause. */
  lemma {:induction false} ConversationEntries(turns: seq<Turn>)
    ensures var c := Conversation(turns);
      && (forall i :: 0 <= i < |turns| ==> c[i].question == turns[i].question)
      && (forall i :: 0 <= i < |turns| && turns[i].Paused? ==>
            c[i].response == PausedResponse && c[i].interviewerFeedback == PauseFeedback)
      && (forall i :: 0 <= i < |turns| && turns[i].Answered? ==>
            c[i].response == turns[i].response && c[i].interviewerFeedback == turns[i].feedback)
  {
    if turns != [] {
      ConversationEntries(turns[..|turns| - 1]);
    }
  }

  /** The block one answered turn adds to the context string. */
  function QA(question: string, answer: string): string
  {
    "\nQ: " + question + "\nA: " + answer + "\n"
  }

  /** The context string built by the loop: answered turns contribute their
      question and answer, pauses contribute nothing. */
  function ContextOf(turns: seq<Turn>): string
  {
    if turns == [] then ""
    else
      var t := turns[|turns| - 1];
      ContextOf(turns[..|turns| - 1]) + (if t.Answered? then QA(t.question, t.response) else "")
  }

  /** The context is empty exactly while no turn has been answered. */
  lemma {:induction false} ContextEmptyIffNoAnswer(turns: seq<Turn>)
    ensures ContextOf(turns) == "" <==> forall i :: 0 <= i < |turns| ==> turns[i].Paused?
  {
    if turns != [] {
      var init := turns[..|turns| - 1];
      var t := turns[|turns| - 1];
      ContextEmptyIffNoAnswer(init);
      if t.Answered? {
        assert QA(t.question, t.response)[0] == '\n';
      }
      assert forall i :: 0 <= i < |init| ==> init[i] == turns[i];
    }
  }

  /** Each turn's prompt was chosen from the context of the turns before it. */
  ghost predicate AskedInOrder(turns: seq<Turn>, name: Option<string>, position: Option<string>)
  {
    forall i :: 0 <= i < |turns| ==> AskedAfterContext(turns, name, position, i)
  }

  /** Turn i's prompt was chosen from the context of the turns before it. */
  ghost predicate AskedAfterContext(turns: seq<Turn>, name: Option<string>, position: Option<string>, i: nat)
  {
    i < |turns| && turns[i].prompt == QuestionPrompt(name, position, ContextOf(turns[..i]))
  }

  /** No recorded answer contained an exit command (that answer ends the loop
      instead of being recorded). */
  ghost predicate NoExitAnswers(turns: seq<Turn>)
  {
    forall i :: 0 <= i < |turns| && turns[i].Answered? ==> !CheckForExit(Some(turns[i].response))
  }

  /** A turn asks the opening question exactly when every turn before it was
      a pause: a pause never moves the interview on to follow-up questions. */
  lemma OpeningIffNoEarlierAnswer(turns: seq<Turn>, name: Option<string>, position: Option<string>, i: nat)
    requires AskedInOrder(turns, name, position)
    requires i < |turns|
    ensures turns[i].prompt.Opening? <==> forall j :: 0 <= j < i ==> turns[j].Paused?
  {
    assert AskedAfterContext(turns, name, position, i);
    ContextEmptyIffNoAnswer(turns[..i]);
    assert forall j :: 0 <= j < i ==> turns[..i][j] == turns[j];
  }

  /** The loop's step: a pause appends its sentinel entry and leaves the
      context alone; an answer appends its entry and its Q/A block. */
  lemma AppendTurn(turns: seq<Turn>, t: Turn)
    ensures Conversation(turns + [t]) == Conversation(turns) + [EntryOf(t)]
    ensures t.Paused? ==> ContextOf(turns + [t]) == ContextOf(turns)
    ensures t.Answered? ==> ContextOf(turns + [t]) == ContextOf(turns) + QA(t.question, t.response)
  {
    assert (turns + [t])[..|turns|] == turns;
  }

  /** Appending a turn keeps the earlier turns' prompts consistent. */
  lemma AskedInOrderAppend(turns: seq<Turn>, t: Turn, name: Option<string>, position: Option<string>)
    requires AskedInOrder(turns, name, position)
    requires t.prompt == QuestionPrompt(name, position, ContextOf(turns))
    ensures AskedInOrder(turns + [t], name, position)
  {
    var ts := turns + [t];
    forall i | 0 <= i < |ts| ensures AskedAfterContext(ts, name, position, i) {
      if i < |turns| {
        assert AskedAfterContext(turns, name, position, i);
        assert ts[..i] == turns[..i];
      } else {
        assert ts[..i] == turns;
      }
    }
  }

  /** The context of a run of turns is the context of its first part
      followed by the context of the rest: blocks are only ever appended. */
  lemma {:induction false} ContextOfAppend(a: seq<Turn>, b: seq<Turn>)
    ensures ContextOf(a + b) == ContextOf(a) + ContextOf(b)
    decreases |b|
  {
    if b == [] {
      assert a + b == a;
    } else {
      var b', t := b[..|b| - 1], b[|b| - 1];
      assert b == b' + [t];
      assert a + b == (a + b') + [t];
      AppendTurn(a + b', t);
      AppendTurn(b', t);
      ContextOfAppend(a, b');
      var x, y := ContextOf(a), ContextOf(b');
      if t.Answered? {
        var q := QA(t.question, t.response);
        assert (x + y) + q == x + (y + q);
      }
    }
  }
}
