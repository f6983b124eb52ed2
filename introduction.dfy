/** The introduction: asking for the candidate's name and the position,
    each with one re-prompt after a pause. */
module Introduction {
  import opened Wrappers
  import opened ExitDetector
  import opened Dialogue

  /** The outcome of one introductory question: the value kept, whether it
      was an exit command, and how many times the bot listened. */
  datatype Answer = Answer(value: Option<string>, exitRequested: bool, listens: nat)

  /** One introductory question, given the first two things heard: an exit
      command ends it; a pause earns exactly one re-prompt, whose answer is
      kept even if it is another pause. */
  function AskWithRetry(first: Option<string>, second: Option<string>): (a: Answer)
    ensures a.listens == 1 || a.listens == 2
    ensures a.listens == 2 <==> first.None?
    ensures a.value == if first.None? then second else first
    ensures a.exitRequested <==> CheckForExit(a.value)
  {
    if CheckForExit(first) then Answer(first, true, 1)
    else if first.None? then Answer(second, CheckForExit(second), 2)
    else Answer(first, false, 1)
  }

  /** The question, followed by the re-prompt when there was one. */
  function AskLines(ask: Line, again: Line, a: Answer): seq<Line>
  {
    if a.listens == 2 then [ask, again] else [ask]
  }

  /** The name answer and, unless the name answer asked to exit, the
      position answer. */
  datatype Outcome = Outcome(name: Answer, position: Option<Answer>)

  /** The k-th utterance of a script; past its end the candidate is silent,
      and every listen is a pause. */
  function HeardAt(script: seq<Option<string>>, k: nat): Option<string>
  {
    if k < |script| then script[k] else None
  }

  /** The introduction run against a script of utterances, from its k-th on. */
  function Introduce(script: seq<Option<string>>, k: nat): (r: Outcome)
    ensures r.name == AskWithRetry(HeardAt(script, k), HeardAt(script, k + 1))
    ensures r.position.None? <==> r.name.exitRequested
    ensures r.position.Some? ==>
      r.position.value == AskWithRetry(HeardAt(script, k + r.name.listens), HeardAt(script, k + r.name.listens + 1))
    ensures 1 <= Listens(r) <= 4
  {
    var name := AskWithRetry(HeardAt(script, k), HeardAt(script, k + 1));
    if name.exitRequested then Outcome(name, None)
    else
      var j := k + name.listens;
      Outcome(name, Some(AskWithRetry(HeardAt(script, j), HeardAt(script, j + 1))))
  }

  /** The interview goes on past the introduction. */
  predicate Proceeds(r: Outcome)
  {
    r.position.Some? && !r.position.value.exitRequested
  }

  /** How many utterances the introduction consumed. */
  function Listens(r: Outcome): nat
  {
    r.name.listens + if r.position.Some? then r.position.value.listens else 0
  }

  /** The introduction stops the interview exactly when one of the utterances
      it heard contained an exit command. */
  lemma StopsIffExitHeard(script: seq<Option<string>>, k: nat)
    ensures var r := Introduce(script, k);
      !Proceeds(r) <==> exists i :: k <= i < k + Listens(r) && CheckForExit(HeardAt(script, i))
  {
    var r := Introduce(script, k);
    var n := r.name;
    if n.exitRequested {
      var i := if HeardAt(script, k).None? then k + 1 else k;
      assert CheckForExit(HeardAt(script, i));
    } else {
      var p := r.position.value;
      var j := k + n.listens;
      assert !CheckForExit(HeardAt(script, k));
      assert n.listens == 2 ==> !CheckForExit(HeardAt(script, k + 1));
      if p.exitRequested {
        var i := if HeardAt(script, j).None? then j + 1 else j;
        assert CheckForExit(HeardAt(script, i));
      } else {
        assert !CheckForExit(HeardAt(script, j));
        assert p.listens == 2 ==> !CheckForExit(HeardAt(script, j + 1));
        forall i | k <= i < k + Listens(r) ensures !CheckForExit(HeardAt(script, i)) {
        }
      }
    }
  }

  /** Getting past the introduction does not mean a name was captured: two
      pauses in a row leave it unset and the interview still goes on. */
  lemma ProceedsWithoutName()
    ensures var r := Introduce([], 0);
      Proceeds(r) && r.name.value.None? && r.position.value.value.None? && Listens(r) == 4
  {
  }
}
