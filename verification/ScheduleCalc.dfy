/** When a schedule runs next. */
module ScheduleCalc {
  import opened Wrappers
  import opened Models

  /** The cron library: the next occurrence of an expression after an instant, if it finds one. */
  type CronLib = (string, Time) -> Option<Time>

  /** The calendar behind the library: all occurrences of a list of fields, the one for seconds first. */
  type Calendar = seq<string> -> iset<Time>

  /** What the library promises: an answer is the least occurrence strictly later than the instant. */
  ghost predicate LeastAfter(cron: CronLib, calendar: Calendar) {
    forall e: string, t: Time ::
      cron(e, t).Some? ==>
        && t < cron(e, t).value
        && cron(e, t).value in calendar(Fields(e))
        && forall m: Time :: m in calendar(Fields(e)) && t < m ==> cron(e, t).value <= m
  }

  /** The occurrences of a stored expression, which has no field for seconds: those at second 0. */
  ghost function Occurrences(calendar: Calendar, expression: string): iset<Time> {
    calendar(["0"] + Fields(expression))
  }

  /** The library wants a field for seconds in front of the stored expression. */
  function WithSeconds(expression: string): string {
    "0 " + expression
  }

  function CalculateNextRun(cron: CronLib, s: Schedule, lastRun: Option<Time>, now: Time): Result<Time, AppError> {
    if s.IsCron() then
      CalculateNextCronRun(cron, s, now)
    else if s.IsInterval() then
      CalculateNextIntervalRun(s, lastRun, now)
    else
      Err(InvalidCronExpression)
  }

  function CalculateNextCronRun(cron: CronLib, s: Schedule, now: Time): Result<Time, AppError> {
    match s.cronExpression
    case None => Err(InvalidCronExpression)
    case Some(expression) =>
      match cron(WithSeconds(expression), now)
      case None => Err(InvalidCronExpression)
      case Some(next) => Ok(next)
  }

  function CalculateNextIntervalRun(s: Schedule, lastRun: Option<Time>, now: Time): Result<Time, AppError> {
    match s.intervalSeconds
    case None => Err(InvalidInterval)
    case Some(seconds) =>
      if seconds <= 0 then
        Err(InvalidInterval)
      else
        Ok(lastRun.GetOr(now) + seconds * SECOND)
  }

  /** An interval schedule whose interval is usable. */
  predicate HasInterval(s: Schedule, seconds: int) {
    s.IsInterval() && s.intervalSeconds == Some(seconds) && seconds > 0
  }

  /** A cron schedule with an expression. */
  predicate HasCron(s: Schedule, expression: string) {
    s.IsCron() && s.cronExpression == Some(expression)
  }

  predicate IsDue(s: Schedule, now: Time) {
    s.nextRunAt.Some? ==> s.nextRunAt.value <= now
  }

  // ---------- the fields of an expression ----------

  /** The parts of a text between blanks. */
  function Fields(text: string): seq<string> {
    if text == "" then
      []
    else if text[0] == ' ' then
      Fields(text[1..])
    else
      [text[..WordEnd(text)]] + Fields(text[WordEnd(text)..])
  }

  /** Where the first word of a text ends. */
  function WordEnd(text: string): (n: nat)
    ensures n <= |text| && (forall k :: 0 <= k < n ==> text[k] != ' ') && (n < |text| ==> text[n] == ' ')
  {
    if text == "" || text[0] == ' ' then 0 else 1 + WordEnd(text[1..])
  }

  lemma FirstWord(a: string, b: string)
    ensures WordEnd(a + " " + b) == WordEnd(a)
    ensures ' ' !in a ==> WordEnd(a) == |a|
  {
    var text, m, n := a + " " + b, WordEnd(a + " " + b), WordEnd(a);
    assert text[n] == ' ';
    assert m < |a| ==> text[m] == a[m];
    assert forall k :: 0 <= k < n ==> text[k] == a[k];
  }

  lemma OneField(word: string)
    requires word != "" && ' ' !in word
    ensures Fields(word) == [word]
  {
    FirstWord(word, "");
    assert word[|word|..] == "" && word[..|word|] == word;
  }

  /** The fields of two texts with a blank between them are those of the one and then those of the other. */
  lemma {:induction false} FieldsSplit(a: string, b: string)
    ensures Fields(a + " " + b) == Fields(a) + Fields(b)
    decreases |a|
  {
    var text := a + " " + b;
    if a == "" {
      assert text[1..] == b;
    } else if a[0] == ' ' {
      assert text[1..] == a[1..] + " " + b;
      FieldsSplit(a[1..], b);
    } else {
      var n := WordEnd(a);
      FirstWord(a, b);
      assert text[..n] == a[..n] && text[n..] == a[n..] + " " + b;
      FieldsSplit(a[n..], b);
    }
  }

  /** What the library is asked about: the stored fields, and the field "0" in front. */
  lemma SecondsInFront(expression: string)
    ensures Fields(WithSeconds(expression)) == ["0"] + Fields(expression)
  {
    assert WithSeconds(expression) == "0" + " " + expression;
    FieldsSplit("0", expression);
    OneField("0");
  }

  // ---------- what the calculation answers ----------

  /**
   All answers. A cron schedule gets what the library answers to the stored expression with "0 " in front; an interval
   schedule is next due its seconds after the last run, or after now if there was none; every row that fits neither
   rule is an error of the rule's kind.
   */
  lemma CalculationAnswers(cron: CronLib, s: Schedule, lastRun: Option<Time>, now: Time)
    ensures var r := CalculateNextRun(cron, s, lastRun, now);
      match s.scheduleType
      case Cron =>
        && (r.Err? ==> r.error == InvalidCronExpression)
        && (r.Ok? <==> s.cronExpression.Some? && cron("0 " + s.cronExpression.value, now).Some?)
        && (r.Ok? ==> cron("0 " + s.cronExpression.value, now) == Some(r.value))
      case Interval =>
        && (r.Err? ==> r.error == InvalidInterval)
        && (r.Ok? <==> s.intervalSeconds.Some? && s.intervalSeconds.value >= 1)
        && (r.Ok? && lastRun.Some? ==> r.value - lastRun.value == s.intervalSeconds.value * 1_000_000_000)
        && (r.Ok? && lastRun.None? ==> r.value - now == s.intervalSeconds.value * 1_000_000_000)
      case Unknown(_) =>
        r == Err(InvalidCronExpression)
  {
  }

  /** The next time of a cron schedule is the first occurrence of its stored expression after now. */
  lemma CronAnswer(cron: CronLib, calendar: Calendar, s: Schedule, expression: string, lastRun: Option<Time>, now: Time)
    requires LeastAfter(cron, calendar) && HasCron(s, expression) && CalculateNextRun(cron, s, lastRun, now).Ok?
    ensures var next := CalculateNextRun(cron, s, lastRun, now).value;
      && now < next && next in Occurrences(calendar, expression)
      && forall m: Time :: m in Occurrences(calendar, expression) && now < m ==> next <= m
  {
    SecondsInFront(expression);
    assert cron(WithSeconds(expression), now).Some?;
  }

  /**
   A schedule without a next time is due always; one that a run at `last` has moved on is due from its next time on,
   and not before.
   */
  lemma DueFromNextOn(s: Schedule, last: Time, next: Time, now: Time)
    ensures IsDue(s.(nextRunAt := None), now)
    ensures IsDue(s.Moved(last, next), now) <==> next <= now
  {
  }
}
