# Daily to-do digest, modelled in Dafny

The program fetches the active tasks assigned to one account from the Wrike
task API. It turns them into a short daily digest and posts the digest to a
Telegram chat. On Saturdays and Sundays it does nothing. This project models
the part of that pipeline that is logic rather than I/O:

- `build_daily_string` (`DailyDigest.BuildDailyString`). The digest is the
  day name from the fixed table `DAY_NAME`, then `":\n"`, then the
  `"\n"`-join of one line `"⋆ " + title` per task. The tasks are taken in
  reverse input order, and only leaf tasks (empty `subTaskIds`) are kept.
  The weekday (0 = Monday … 6 = Sunday) is a parameter; the program reads it
  from the clock.
- The weekend guard and call order of `main` (`DailyRun.IsWeekend`,
  `DailyRun.Run`). The two HTTP calls are recorded as effect values, and the
  task API's answer is a parameter.

`Text.Join` is Python's `str.join`. Its partner `Text.Split` undoes it, which
lets `DigestReadBack` state the whole digest line by line.

`BuildDailyString` is a Dafny function of the weekday and the task list, so
formatting the same input twice gives the same string by construction.

`DailyDigest.DigestLines(tasks)` models the list comprehension at main.py:31.
It is `LeafLines(Reversed(tasks))`: `Reversed` is `reversed(tasks)`, and
`LeafLines` keeps the leaf tasks in order and formats each with `Line`. These
are the "digest lines" that the lemmas below talk about. `HeadedForm` states
for all inputs that the digest is the header line, then `"\n"`, then the
`"\n"`-join of the digest lines.

The formatter's lines are described by position. `LineIndex(tasks, i)` is the
number of leaf tasks after task `i`. The lemmas show four things. Every leaf
task `i` contributes `Line(tasks[i])` at position `LineIndex(tasks, i)`. Every
line comes from such a leaf. There are exactly `LeafCount(tasks)` lines. A later
leaf's line comes before an earlier leaf's line. Together these make the map
from leaf tasks to lines a bijection that reverses order.

The bullet is `⋆` (U+22C6), as the code writes it.

## Model

| member | source | states |
|---|---|---|
| Text.Join | main.py:31 | `"\n".join`: empty for no parts; begins with the first part and ends with the last, so there is no separator before the first line or after the last |
| Text.SplitJoin | main.py:31 | splitting a join on its one-character separator returns the parts, when there is at least one part and no part holds the separator (the join is lossless) |
| Text.JoinSnoc | main.py:31 | a join of two or more parts is the join of all but the last, then the separator, then the last part |
| Text.JoinThree | main.py:31 | three parts are joined as first, separator, second, separator, third |
| DailyDigest.LineTitle | main.py:31 | a task line identifies its title: two tasks give the same line iff their titles are equal |
| DailyDigest.Reversed | main.py:31 | `reversed(tasks)`: same length, element `k` is input element `n-1-k` |
| DailyDigest.BuildDailyString | main.py:28-33 | the digest starts with exactly `DAY_NAME[weekday] + ":\n"` (in bounds for every weekday 0..6), and it is exactly that header iff no task is a leaf |
| DailyDigest.DigestLinesLength | main.py:31 | the number of digest lines equals the number of leaf tasks |
| DailyDigest.DigestLineAt | main.py:31 | every leaf task contributes the line `"⋆ " + title` at position `LineIndex` |
| DailyDigest.LineSource | main.py:31 | every digest line is `"⋆ " + title` of a leaf task at that position; a task with subtasks contributes no line |
| DailyDigest.LeavesInReverseOrder | main.py:31 | if leaf i precedes leaf j in the input, j's line precedes i's line |
| DailyDigest.DigestLinesConcat | main.py:31 | the lines of `a + b` are the lines of `b` followed by the lines of `a` |
| DailyDigest.NonLeafIrrelevant | main.py:31 | inserting a task with subtasks anywhere in the input leaves the digest unchanged |
| DailyDigest.DigestReadBack | main.py:30-31 | when no title holds a line break, the digest split on `\n` is the header line then exactly the task lines, or one empty line when there is no leaf (no trailing newline) |
| DailyDigest.MondayExample | main.py:28-33 | on a Monday, a leaf "B" followed by a parent "A" gives `"Monday:\n⋆ B"` |
| DailyRun.IsWeekend | main.py:75-77 | the guard `weekday > 4` holds exactly on the days named Saturday and Sunday in `DAY_NAME` |
| DailyRun.Run | main.py:75-84 | a run makes no call iff it is a weekend; otherwise its first call fetches tasks for the given account and token; at most two calls |
| DailyRun.SendsDigestOnlyAfterFetch | main.py:76-84 | a message is sent only on a weekday, only after a successful fetch, as the second call, to the given chat, with the digest of the fetched tasks as text |
| DailyRun.WeekdaySends | main.py:78-84 | on a weekday with a successful fetch the digest of the fetched tasks is sent to the given chat |

## Left out

- `get_tasks` (main.py:13-25): the HTTP GET, the JSON decoding and `raise_for_status` are network I/O. The model keeps only the outcome, as the `fetched` parameter of `Run`: tasks, or `None` for a failed request.
- `send_telegram_message` (main.py:36-48): the HTTP POST is network I/O. It is recorded as the `SendMessage` effect, and its response is ignored, as `main` ignores it.
- Argument parsing in `main` (main.py:52-74): command-line glue. The parsed values are the `Args` record.
- `datetime.datetime.now()` (main.py:29, main.py:75): the clock read is replaced by the `weekday` parameter. Both reads are assumed to give the same day.
- Python formats `task['title']` with an f-string, so a title need not be a string; the model takes titles as strings.
- Missing fields (main.py:31): the comprehension reads `task["subTaskIds"]` for every task and `task['title']` only for tasks that pass the filter. So the program raises `KeyError` for any task without `subTaskIds`, and for a leaf task without `title`; a non-leaf task without a title is harmless. The model's `Task` always has both fields, so it has no such failure.
- After such a `KeyError` the program stops after the fetch (main.py:78-79) and sends nothing. `DailyRun.Run` never produces that trace for a successful fetch, because its tasks are always well-formed.
- Leaf test (main.py:31): `not task["subTaskIds"]` is a truthiness test, so a JSON `null` (Python `None`) counts as a leaf in the program. The model's `subTaskIds` is a sequence and cannot be null; `IsLeaf` covers only the empty list.
- main.py:31 has only the leaf filter. Nothing else is filtered and nothing else is rendered.
- DailyDigest.DigestReadBack: requires that no title holds a line break. Without that, the line-by-line reading is ambiguous; the digest string itself is still fully described by the other lemmas.
