/** The interview's time budget. Times are whole microseconds, the
    resolution of Python's `datetime` and `timedelta`, so the arithmetic is
    exact. */
module SessionClock {

  const Second := 1_000_000
  const Minute := 60 * Second

  /** The fixed length of an interview. */
  const InterviewDuration := 45 * Minute

  /** Time left at `now` for an interview that started at `start`. */
  function Remaining(start: int, now: int): int
  {
    InterviewDuration - (now - start)
  }

  /** The loop's continuation test: some time is left. */
  predicate HasTimeRemaining(start: int, now: int)
  {
    Remaining(start, now) > 0
  }

  /** The reminder is spoken when more than four and at most five minutes
      are left. */
  predicate InWarningWindow(start: int, now: int)
  {
    4 * Minute < Remaining(start, now) <= 5 * Minute
  }

  /** The window lies strictly inside the interview: a poll that warns is
      always one that lets the interview go on, and it comes between forty
      and forty-one minutes after the start. */
  lemma WarningWindowPosition(start: int, now: int)
    ensures InWarningWindow(start, now) <==> 40 * Minute <= now - start < 41 * Minute
    ensures InWarningWindow(start, now) ==> HasTimeRemaining(start, now)
  {
  }

  /** Once the time is up it stays up, whatever the later clock readings. */
  lemma ExpiryIsFinal(start: int, t1: int, t2: int)
    requires t1 <= t2 && !HasTimeRemaining(start, t1)
    ensures !HasTimeRemaining(start, t2)
  {
  }

  /** How many reminders a series of polls speaks: one per poll in the
      window, since the controller keeps no record of having warned. */
  function WarningCount(start: int, polls: seq<int>): (n: nat)
    ensures n <= |polls|
  {
    if polls == [] then 0
    else (if InWarningWindow(start, polls[0]) then 1 else 0) + WarningCount(start, polls[1..])
  }

  /** The count over two series of polls is the sum of their counts. */
  lemma {:induction false} WarningCountAppend(start: int, a: seq<int>, b: seq<int>)
    ensures WarningCount(start, a + b) == WarningCount(start, a) + WarningCount(start, b)
  {
    if a == [] {
      assert a + b == b;
    } else {
      assert (a + b)[0] == a[0] && (a + b)[1..] == a[1..] + b;
      WarningCountAppend(start, a[1..], b);
    }
  }

  /** No reminder is spoken exactly when no poll falls in the window. */
  lemma {:induction false} SilentIffNoPollInWindow(start: int, polls: seq<int>)
    ensures WarningCount(start, polls) == 0 <==>
      forall i :: 0 <= i < |polls| ==> !InWarningWindow(start, polls[i])
  {
    if polls != [] {
      SilentIffNoPollInWindow(start, polls[1..]);
      assert forall i :: 1 <= i < |polls| ==> polls[i] == polls[1..][i - 1];
    }
  }

  /** Every poll speaks the reminder exactly when every poll falls in the
      window: there is no one-shot flag. */
  lemma {:induction false} EveryPollInWindowWarns(start: int, polls: seq<int>)
    ensures WarningCount(start, polls) == |polls| <==>
      forall i :: 0 <= i < |polls| ==> InWarningWindow(start, polls[i])
  {
    if polls != [] {
      EveryPollInWindowWarns(start, polls[1..]);
      assert forall i :: 1 <= i < |polls| ==> polls[i] == polls[1..][i - 1];
    }
  }

  /** Two polls a second apart inside the window give two reminders. */
  lemma RepeatedReminder()
    ensures WarningCount(0, [40 * Minute + Second, 40 * Minute + 2 * Second]) == 2
  {
    EveryPollInWindowWarns(0, [40 * Minute + Second, 40 * Minute + 2 * Second]);
  }
}
