/** Recognising a candidate's request to end the interview. */
module ExitDetector {
  import opened Wrappers
  import opened Text

  /** The exit commands. The code keeps them in a set, whose order of
      iteration is unspecified; `AnyCommandInIffSomeSubstring` shows the
      order does not matter. */
  const ExitCommands: seq<string> := ["stop", "exit", "quit", "end interview", "terminate"]

  /** The search over the commands, returning as soon as one matches. */
  function AnyCommandIn(commands: seq<string>, text: string): bool
  {
    if commands == [] then false
    else if Contains(text, commands[0]) then true
    else AnyCommandIn(commands[1..], text)
  }

  lemma {:induction false} AnyCommandInIffSomeSubstring(commands: seq<string>, text: string)
    ensures AnyCommandIn(commands, text) <==> exists c :: c in commands && IsSubstring(c, text)
  {
    if commands != [] {
      ContainsIffSubstring(text, commands[0]);
      AnyCommandInIffSomeSubstring(commands[1..], text);
      if exists c :: c in commands && IsSubstring(c, text) {
        var c :| c in commands && IsSubstring(c, text);
        if c != commands[0] { assert c in commands[1..]; }
      }
    }
  }

  /** A pause (None) and the empty answer never end the interview; any other
      answer does exactly when one of the exit commands occurs in its
      lower-cased text, anywhere, even inside an unrelated sentence. */
  function CheckForExit(text: Option<string>): (b: bool)
    ensures text.None? ==> !b
    ensures text.Some? ==> (b <==> exists c :: c in ExitCommands && IsSubstring(c, Lower(text.value)))
  {
    match text
    case None => false
    case Some(t) =>
      AnyCommandInIffSomeSubstring(ExitCommands, Lower(t));
      t != "" && AnyCommandIn(ExitCommands, Lower(t))
  }

  /** Matching ignores letter case: two answers that lower-case alike are
      treated alike. */
  lemma ExitIgnoresCase(s: string)
    ensures CheckForExit(Some(s)) == CheckForExit(Some(Lower(s)))
  {
    assert Lower(Lower(s)) == Lower(s);
  }

  /** The substring match also fires on ordinary speech that merely contains
      a command word. */
  lemma QuitInsideSentenceIsExit()
    ensures CheckForExit(Some("I quit my last job"))
  {
    var s := "I quit my last job";
    var t := Lower(s);
    assert t[2] == 'q' && t[3] == 'u' && t[4] == 'i' && t[5] == 't' by {
      assert s[2] == 'q' && s[3] == 'u' && s[4] == 'i' && s[5] == 't';
    }
    assert "quit" <= t[2..];
    assert "quit" in ExitCommands && IsSubstring("quit", t);
  }

  /** Shouted commands count too. */
  lemma ShoutedStopIsExit()
    ensures CheckForExit(Some("PLEASE STOP NOW"))
  {
    var s := "PLEASE STOP NOW";
    var t := Lower(s);
    assert t[7] == 's' && t[8] == 't' && t[9] == 'o' && t[10] == 'p' by {
      assert s[7] == 'S' && s[8] == 'T' && s[9] == 'O' && s[10] == 'P';
    }
    assert "stop" <= t[7..];
    assert "stop" in ExitCommands && IsSubstring("stop", t);
  }
}
