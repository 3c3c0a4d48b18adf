/** The detector's own records over whole runs: each answer is the one that the calls before it require. */
module HangmanRuns {
  import opened WaitsFor
  import opened WaitsHistory
  import opened Hangman

  /** One call, after `calls` have returned. */
  method Perform(d: Detector, c: Call<Actor, Lockable>, ghost calls: seq<Call<Actor, Lockable>>) returns (r: Outcome)
    requires d.Valid() && d.View() == AfterRun(calls) && AllDone(calls) && c.a in d.actors && c.l in d.locks
    modifies c.a, c.l
    ensures d.Valid() && Answered(calls, c, r)
    ensures r == Done ==> AllDone(calls + [c]) && d.View() == AfterRun(calls + [c])
    ensures r != Done ==> d.View() == AfterRun(calls)
  {
    AnsweredByHistory(calls, c);
    if Answer(AfterRun(calls), c) == Done {
      OneMore(calls, c);
    }
    hide Answered, AllDone, AfterRun, Answer;
    match c {
      case Wait(a, l) => r := d.Wait(a, l);
      case Acquire(a, l) => r := d.Acquire(a, l);
      case Release(a, l) => r := d.Release(a, l);
    }
  }
}
