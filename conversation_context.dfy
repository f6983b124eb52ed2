/** The bounded conversation history that is replayed to the language model
    in front of every prompt. A history line is either the user's prompt or
    the assistant's reply; the prompt type is a parameter, so the same
    history serves prompts kept as text and prompts kept by kind. */
module ConversationContext {
  import opened Wrappers
  import opened Text

  /** At most this many history lines are kept (ten prompt/reply pairs). */
  const HistoryCap := 20

  /** What the bot says instead of a reply when the language model fails. */
  const Apology := "I apologize, but I'm having trouble processing that. Let's continue with the next question."

  /** One history line: the role that said it and what was said. */
  datatype Said<P> = User(prompt: P) | Assistant(reply: string)

  /** One call to the language model: the history in front, then the prompt. */
  datatype Request<P> = Request(history: seq<Said<P>>, prompt: P)

  /** A history line as text, with its role prefix. */
  function LineText(line: Said<string>): string
  {
    match line
    case User(p) => "User: " + p
    case Assistant(r) => "Assistant: " + r
  }

  function LinesText(history: seq<Said<string>>): (r: seq<string>)
    ensures |r| == |history|
    ensures forall i :: 0 <= i < |history| ==> r[i] == LineText(history[i])
  {
    seq(|history|, i requires 0 <= i < |history| => LineText(history[i]))
  }

  /** The text sent to the language model: the retained history lines
      followed by the new prompt, one per line. */
  function FullPrompt(request: Request<string>): (r: string)
    ensures request.history == [] ==> r == request.prompt
    ensures request.history != [] ==>
      r == Join(LinesText(request.history), "\n") + "\n" + request.prompt
  {
    JoinSnoc(LinesText(request.history), request.prompt, "\n");
    Join(LinesText(request.history) + [request.prompt], "\n")
  }

  /** The two history lines recorded for one successful exchange. */
  function ExchangeLines<P>(prompt: P, reply: string): seq<Said<P>>
  {
    [User(prompt), Assistant(reply)]
  }

  /** The last `HistoryCap` lines of `h` (all of them when there are fewer). */
  function Retain<T>(h: seq<T>): (r: seq<T>)
    ensures |r| == if |h| > HistoryCap then HistoryCap else |h|
    ensures forall i :: 0 <= i < |r| ==> r[i] == h[|h| - |r| + i]
  {
    if |h| > HistoryCap then h[|h| - HistoryCap..] else h
  }

  /** The history after a successful exchange: the two new lines are
      appended and, if the cap is then exceeded, the oldest lines are
      dropped. */
  function Record<P>(h: seq<Said<P>>, prompt: P, reply: string): (r: seq<Said<P>>)
    ensures |r| <= HistoryCap
    ensures |r| == if |h| + 2 > HistoryCap then HistoryCap else |h| + 2
  {
    Retain(h + ExchangeLines(prompt, reply))
  }

  /** The exchange just recorded is the newest pair of lines, and what
      precedes it is the most recent part of the earlier history. */
  lemma RecordKeepsExchange<P>(h: seq<Said<P>>, prompt: P, reply: string)
    ensures var r := Record(h, prompt, reply);
      && r[|r| - 2] == User(prompt) && r[|r| - 1] == Assistant(reply)
      && r[..|r| - 2] == h[|h| + 2 - |r|..]
  {
    var r := Record(h, prompt, reply);
    var all := h + ExchangeLines(prompt, reply);
    assert r == all[|all| - |r|..];
    assert r[..|r| - 2] == all[|all| - |r|..|h|];
  }

  /** The text of the history after an exchange ends with the prompt and
      the reply under their role prefixes, after the text of the most recent
      old lines. */
  lemma RecordedLinesText(h: seq<Said<string>>, prompt: string, reply: string)
    ensures var t := LinesText(Record(h, prompt, reply));
      && |t| >= 2
      && t[|t| - 2] == "User: " + prompt && t[|t| - 1] == "Assistant: " + reply
      && t[..|t| - 2] == LinesText(h)[|h| + 2 - |t|..]
  {
    RecordKeepsExchange(h, prompt, reply);
    ExchangeText(Record(h, prompt, reply), h, prompt, reply);
  }

  /** `RecordedLinesText` for any history r that ends with the exchange
      after a suffix of h. */
  lemma ExchangeText(r: seq<Said<string>>, h: seq<Said<string>>, prompt: string, reply: string)
    requires 2 <= |r| <= |h| + 2
    requires r[|r| - 2] == User(prompt) && r[|r| - 1] == Assistant(reply)
    requires r[..|r| - 2] == h[|h| + 2 - |r|..]
    ensures var t := LinesText(r);
      && t[|t| - 2] == "User: " + prompt && t[|t| - 1] == "Assistant: " + reply
      && t[..|t| - 2] == LinesText(h)[|h| + 2 - |t|..]
  {
    var t, u, k, m := LinesText(r), LinesText(h), |r| - 2, |h| + 2 - |r|;
    forall i | 0 <= i < k
      ensures t[i] == u[m + i]
    {
      assert r[i] == r[..k][i] == h[m..][i] == h[m + i];
    }
    assert t[..k] == u[m..];
  }

  /** The history after a call whose outcome was `answer`: a failed call
      (None) leaves it as it was. */
  function HistoryAfter<P>(h: seq<Said<P>>, prompt: P, answer: Option<string>): seq<Said<P>>
  {
    match answer
    case None => h
    case Some(reply) => Record(h, prompt, reply)
  }

  /** What the bot gets back from a call whose outcome was `answer`. */
  function ReplyOf(answer: Option<string>): string
  {
    answer.GetOr(Apology)
  }

  /** All lines recorded for a series of successful exchanges, oldest first. */
  function Flatten<P>(exchanges: seq<(P, string)>): seq<Said<P>>
  {
    if exchanges == [] then []
    else ExchangeLines(exchanges[0].0, exchanges[0].1) + Flatten(exchanges[1..])
  }

  /** The history after a series of successful exchanges, one at a time. */
  function RecordAll<P>(h: seq<Said<P>>, exchanges: seq<(P, string)>): seq<Said<P>>
    decreases exchanges
  {
    if exchanges == [] then h
    else RecordAll(Record(h, exchanges[0].0, exchanges[0].1), exchanges[1..])
  }

  /** Truncating early and truncating late keep the same lines. */
  lemma RetainAbsorbs<T>(x: seq<T>, y: seq<T>)
    ensures Retain(Retain(x) + y) == Retain(x + y)
  {
    var rx := Retain(x);
    var a, b := Retain(rx + y), Retain(x + y);
    assert |a| == |b|;
    forall i | 0 <= i < |a| ensures a[i] == b[i] {
      var k := |rx + y| - |a| + i;
      var j := |x| - |rx| + k;
      assert a[i] == (rx + y)[k];
      assert b[i] == (x + y)[j];
      if k < |rx| {
        assert (rx + y)[k] == rx[k] == x[j];
      } else {
        assert (rx + y)[k] == y[k - |rx|] == (x + y)[j];
      }
    }
    assert a == b;
  }

  /** However many exchanges are recorded, the history holds exactly the
      most recent `HistoryCap` lines of everything recorded, in order: the
      oldest lines are the ones dropped. */
  lemma {:induction false} RecordAllKeepsMostRecent<P>(h: seq<Said<P>>, exchanges: seq<(P, string)>)
    requires |h| <= HistoryCap
    ensures RecordAll(h, exchanges) == Retain(h + Flatten(exchanges))
    decreases exchanges
  {
    if exchanges == [] {
      assert h + [] == h;
    } else {
      var e, rest := exchanges[0], exchanges[1..];
      var lines := ExchangeLines(e.0, e.1);
      var h' := Record(h, e.0, e.1);
      assert RecordAll(h, exchanges) == RecordAll(h', rest);
      RecordAllKeepsMostRecent(h', rest);
      assert h' == Retain(h + lines);
      RetainAbsorbs(h + lines, Flatten(rest));
      assert Flatten(exchanges) == lines + Flatten(rest);
      assert h + (lines + Flatten(rest)) == (h + lines) + Flatten(rest);
    }
  }
}
