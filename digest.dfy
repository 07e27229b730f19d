/** The daily digest: a day-name header followed by one bullet line per leaf
    task, newest task last in the input and first in the digest. */
module DailyDigest {
  import opened Text

  /** A task as the task API returns it, reduced to the fields the digest reads. */
  datatype Task = Task(title: string, subTaskIds: seq<string>)

  /** Python's `datetime.weekday()`: Monday is 0, Sunday is 6. */
  type Weekday = d: int | 0 <= d < 7

  /** The fixed table of day names, indexed by weekday. */
  const DayName: seq<string> := ["Monday", "Tuesday", "Wednesday", "Thursday", "Friday", "Saturday", "Sunday"]

  /** The bullet that starts every task line (U+22C6, STAR OPERATOR) and the
      space after it. */
  const Bullet: string := "\U{22C6} "

  /** A leaf task is one without subtasks; only leaves enter the digest. */
  predicate IsLeaf(t: Task) {
    |t.subTaskIds| == 0
  }

  /** The line a kept task contributes: the bullet, then the title verbatim. */
  function Line(t: Task): string {
    Bullet + t.title
  }

  /** A line identifies its title: two tasks give the same line exactly when
      their titles are equal. */
  lemma LineTitle(t: Task, u: Task)
    ensures Line(t) == Line(u) <==> t.title == u.title
  {
    assert Line(t)[|Bullet|..] == t.title;
    assert Line(u)[|Bullet|..] == u.title;
  }

  /** `reversed(tasks)`. */
  function Reversed(tasks: seq<Task>): (r: seq<Task>)
    ensures |r| == |tasks|
    ensures forall k :: 0 <= k < |tasks| ==> r[k] == tasks[|tasks| - 1 - k]
    decreases |tasks|
  {
    if tasks == [] then [] else [tasks[|tasks| - 1]] + Reversed(tasks[..|tasks| - 1])
  }

  /** The list comprehension's filter and format, in the order it is given. */
  function LeafLines(tasks: seq<Task>): seq<string>
    decreases |tasks|
  {
    if tasks == [] then []
    else (if IsLeaf(tasks[0]) then [Line(tasks[0])] else []) + LeafLines(tasks[1..])
  }

  /** The lines under the header: the leaf tasks of `reversed(tasks)`, formatted. */
  function DigestLines(tasks: seq<Task>): seq<string> {
    LeafLines(Reversed(tasks))
  }

  /** The number of leaf tasks, counted from the end of the list. */
  function LeafCount(tasks: seq<Task>): (n: nat)
    ensures n <= |tasks|
    decreases |tasks|
  {
    if tasks == [] then 0
    else LeafCount(tasks[..|tasks| - 1]) + (if IsLeaf(tasks[|tasks| - 1]) then 1 else 0)
  }

  /** Where the line of leaf task `i` stands among the digest lines: after
      the lines of every leaf that comes later in the input. */
  function LineIndex(tasks: seq<Task>, i: nat): nat
    requires i < |tasks|
  {
    LeafCount(tasks[i + 1..])
  }

  /** `build_daily_string`, with the weekday passed in instead of read from
      the clock. */
  function BuildDailyString(weekday: Weekday, tasks: seq<Task>): (r: string)
    ensures |r| >= |DayName[weekday]| + 2 && r[..|DayName[weekday]| + 2] == DayName[weekday] + ":\n"
    ensures r == DayName[weekday] + ":\n" <==> LeafCount(tasks) == 0
  {
    var lines := DigestLines(tasks);
    DigestLinesLength(tasks);
    var header := DayName[weekday] + ":\n";
    var body := Join("\n", lines);
    assert |lines| > 0 ==> |body| >= |Bullet| by {
      if |lines| > 0 {
        var i := LineSource(tasks, 0);
      }
    }
    header + body
  }

  // ---------------------------------------------------------------------
  // Lemmas about the lines

  /** Taking the last input task off: its line, if it is a leaf, comes first. */
  lemma DigestLinesSnoc(tasks: seq<Task>)
    requires |tasks| > 0
    ensures DigestLines(tasks)
         == (if IsLeaf(tasks[|tasks| - 1]) then [Line(tasks[|tasks| - 1])] else [])
          + DigestLines(tasks[..|tasks| - 1])
  {
  }

  lemma {:induction false} LeafCountConcat(a: seq<Task>, b: seq<Task>)
    ensures LeafCount(a + b) == LeafCount(a) + LeafCount(b)
    decreases |b|
  {
    if b == [] {
      assert a + b == a;
    } else {
      LeafCountConcat(a, b[..|b| - 1]);
      assert (a + b)[..|a + b| - 1] == a + b[..|b| - 1];
    }
  }

  /** Every leaf contributes one line and no other task contributes any. */
  lemma {:induction false} DigestLinesLength(tasks: seq<Task>)
    ensures |DigestLines(tasks)| == LeafCount(tasks)
    decreases |tasks|
  {
    if tasks != [] {
      DigestLinesSnoc(tasks);
      DigestLinesLength(tasks[..|tasks| - 1]);
    }
  }

  /** The line of leaf task `i` is `Line(tasks[i])`, at position `LineIndex(tasks, i)`. */
  lemma {:induction false} DigestLineAt(tasks: seq<Task>, i: nat)
    requires i < |tasks| && IsLeaf(tasks[i])
    ensures LineIndex(tasks, i) < |DigestLines(tasks)|
    ensures DigestLines(tasks)[LineIndex(tasks, i)] == Line(tasks[i])
    decreases |tasks|
  {
    var n := |tasks|;
    var init := tasks[..n - 1];
    DigestLinesSnoc(tasks);
    DigestLinesLength(tasks);
    if i == n - 1 {
      assert tasks[i + 1..] == [];
    } else {
      DigestLineAt(init, i);
      assert tasks[i + 1..] == init[i + 1..] + [tasks[n - 1]];
      assert (init[i + 1..] + [tasks[n - 1]])[..n - 1 - (i + 1)] == init[i + 1..];
    }
  }

  /** Every digest line comes from exactly such a leaf task. */
  lemma {:induction false} LineSource(tasks: seq<Task>, k: nat) returns (i: nat)
    requires k < |DigestLines(tasks)|
    ensures i < |tasks| && IsLeaf(tasks[i])
    ensures LineIndex(tasks, i) == k
    ensures DigestLines(tasks)[k] == Line(tasks[i])
    decreases |tasks|
  {
    var n := |tasks|;
    var init := tasks[..n - 1];
    DigestLinesSnoc(tasks);
    var b := if IsLeaf(tasks[n - 1]) then 1 else 0;
    if b == 1 && k == 0 {
      i := n - 1;
      assert tasks[i + 1..] == [];
    } else {
      i := LineSource(init, k - b);
      assert tasks[i + 1..] == init[i + 1..] + [tasks[n - 1]];
      assert (init[i + 1..] + [tasks[n - 1]])[..n - 1 - (i + 1)] == init[i + 1..];
    }
  }

  /** Kept tasks appear in reverse input order: a later leaf's line comes first. */
  lemma LeavesInReverseOrder(tasks: seq<Task>, i: nat, j: nat)
    requires i < j < |tasks| && IsLeaf(tasks[i]) && IsLeaf(tasks[j])
    ensures LineIndex(tasks, j) < LineIndex(tasks, i)
  {
    var tail := tasks[j + 1..];
    assert tasks[i + 1..] == tasks[i + 1..j] + [tasks[j]] + tail;
    LeafCountConcat(tasks[i + 1..j] + [tasks[j]], tail);
    LeafCountConcat(tasks[i + 1..j], [tasks[j]]);
    assert [tasks[j]][..0] == [];
  }

  /** The digest lines of a concatenation: those of the later part first. */
  lemma {:induction false} DigestLinesConcat(a: seq<Task>, b: seq<Task>)
    ensures DigestLines(a + b) == DigestLines(b) + DigestLines(a)
    decreases |b|
  {
    if b == [] {
      assert a + b == a;
      assert DigestLines(b) == [];
    } else {
      var ab := a + b;
      DigestLinesSnoc(ab);
      DigestLinesSnoc(b);
      assert ab[..|ab| - 1] == a + b[..|b| - 1];
      DigestLinesConcat(a, b[..|b| - 1]);
    }
  }

  /** A task with subtasks, wherever it stands, leaves the digest unchanged. */
  lemma NonLeafIrrelevant(weekday: Weekday, a: seq<Task>, t: Task, b: seq<Task>)
    requires !IsLeaf(t)
    ensures BuildDailyString(weekday, a + [t] + b) == BuildDailyString(weekday, a + b)
  {
    DigestLinesConcat(a + [t], b);
    DigestLinesConcat(a, [t]);
    DigestLinesSnoc([t]);
    assert [t][..0] == [];
    DigestLinesConcat(a, b);
    assert DigestLines([]) == [];
    assert DigestLines(a + [t] + b) == DigestLines(a + b);
  }

  lemma HeaderHasNoBreak(weekday: Weekday)
    ensures '\n' !in DayName[weekday] + ":"
  {
  }

  /** Unfolding helper for `DigestReadBack`: the header line, a line break,
      then the `"\n"`-join of the digest lines. */
  lemma HeadedForm(weekday: Weekday, tasks: seq<Task>)
    ensures BuildDailyString(weekday, tasks) == (DayName[weekday] + ":") + ['\n'] + Join("\n", DigestLines(tasks))
  {
  }

  lemma SplitHeaded(head: string, lines: seq<string>)
    requires '\n' !in head
    requires NoneContains(lines, '\n')
    ensures Split(head + ['\n'] + Join("\n", lines), '\n') == [head] + (if lines == [] then [""] else lines)
  {
    SplitAfterPiece(head, '\n', Join("\n", lines));
    if lines != [] {
      SplitJoin(lines, '\n');
    }
  }

  /** No task title holds a line break. */
  predicate NoBreakInTitles(tasks: seq<Task>) {
    forall i :: 0 <= i < |tasks| ==> '\n' !in tasks[i].title
  }

  /** No digest line holds a line break when no title does. */
  lemma LinesHaveNoBreak(tasks: seq<Task>)
    requires NoBreakInTitles(tasks)
    ensures NoneContains(DigestLines(tasks), '\n')
  {
    forall k | 0 <= k < |DigestLines(tasks)| ensures '\n' !in DigestLines(tasks)[k] {
      var i := LineSource(tasks, k);
      assert Line(tasks[i]) == Bullet + tasks[i].title;
    }
  }

  /** Read back line by line, the digest is the header and then exactly the
      digest lines, or one empty line when there are none; this holds when no
      title itself holds a line break. */
  lemma DigestReadBack(weekday: Weekday, tasks: seq<Task>)
    requires NoBreakInTitles(tasks)
    ensures Split(BuildDailyString(weekday, tasks), '\n')
         == [DayName[weekday] + ":"] + (if LeafCount(tasks) == 0 then [""] else DigestLines(tasks))
  {
    var lines := DigestLines(tasks);
    var head := DayName[weekday] + ":";
    HeaderHasNoBreak(weekday);
    HeadedForm(weekday, tasks);
    DigestLinesLength(tasks);
    LinesHaveNoBreak(tasks);
    SplitHeaded(head, lines);
  }

  /** A regression example rather than a property: on a Monday, a leaf "B"
      after a parent "A" gives the header and the single line for "B". */
  lemma MondayExample()
    ensures BuildDailyString(0, [Task("B", []), Task("A", ["x"])]) == "Monday:\n\U{22C6} B"
  {
  }
}
