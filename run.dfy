/** One run of the command: skip on weekends, otherwise fetch the active
    tasks, build the digest and send it to the chat. The network calls are
    recorded as effects; what the task API answered is a parameter. */
module DailyRun {
  import opened DailyDigest

  datatype Option<T> = None | Some(value: T)

  /** The command-line arguments, all four required. */
  datatype Args = Args(accountId: string, wrikeToken: string, telegramToken: string, telegramChat: string)

  /** The outbound calls a run makes, in order. */
  datatype Effect =
    | FetchTasks(accountId: string, wrikeToken: string)
    | SendMessage(telegramToken: string, chat: string, text: string)

  /** The guard in `main`: weekdays above 4 return before any call. */
  predicate IsWeekend(weekday: Weekday)
    ensures IsWeekend(weekday) <==> DayName[weekday] == "Saturday" || DayName[weekday] == "Sunday"
  {
    weekday > 4
  }

  /** The calls `main` makes. `fetched` is the task API's answer: `None` when
      the request failed and `raise_for_status` ended the run. */
  function Run(weekday: Weekday, args: Args, fetched: Option<seq<Task>>): (effects: seq<Effect>)
    ensures effects == [] <==> IsWeekend(weekday)
    ensures !IsWeekend(weekday) ==> effects[0] == FetchTasks(args.accountId, args.wrikeToken)
    ensures |effects| <= 2
  {
    if IsWeekend(weekday) then []
    else
      match fetched
      case None => [FetchTasks(args.accountId, args.wrikeToken)]
      case Some(tasks) =>
        [FetchTasks(args.accountId, args.wrikeToken),
         SendMessage(args.telegramToken, args.telegramChat, BuildDailyString(weekday, tasks))]
  }

  /** A message is sent exactly when it is a weekday and the fetch succeeded;
      it goes to the given chat, after the fetch, and its text is the digest
      of the fetched tasks. */
  lemma SendsDigestOnlyAfterFetch(weekday: Weekday, args: Args, fetched: Option<seq<Task>>, k: nat)
    requires k < |Run(weekday, args, fetched)| && Run(weekday, args, fetched)[k].SendMessage?
    ensures !IsWeekend(weekday) && fetched.Some? && k == 1
    ensures Run(weekday, args, fetched)[k]
         == SendMessage(args.telegramToken, args.telegramChat, BuildDailyString(weekday, fetched.value))
  {
  }

  /** On a weekday with a successful fetch the digest is sent to the chat. */
  lemma WeekdaySends(weekday: Weekday, args: Args, tasks: seq<Task>)
    requires !IsWeekend(weekday)
    ensures SendMessage(args.telegramToken, args.telegramChat, BuildDailyString(weekday, tasks))
            in Run(weekday, args, Some(tasks))
  {
  }
}
