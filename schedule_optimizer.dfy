/** `optimizeSchedule`: the demo "AI agent" copies the mock task list and
    rewrites its first task with a fixed later-in-the-day deadline and a
    fixed reason. No location matching happens; the outcome is hard-coded. */
module ScheduleOptimizer {
  import opened Wrappers
  import opened ApiTypes
  import opened MockData
  import opened ArrayFilter
  import opened LocalTime

  const NewDeadline := "2025-12-09T14:45:00"
  const SharedPlace := "Main St"
  const MeetingName := "Client Meeting"
  /** The fixed reason text, written around the two names it mentions. */
  const RescheduleReason := "Detected you are at '" + SharedPlace + "' for '" + MeetingName + "'. Rescheduled to save travel time."

  /** The object spread that replaces the first task: the old deadline is
      copied into `original_deadline` whatever that field held before. */
  function Rescheduled(t: Task): (r: Task)
    ensures SameExceptSchedule(t, r) && MarkedRescheduled(r)
    ensures r.originalDeadline == Present(t.deadline) && r.deadline == Some(NewDeadline)
    ensures r.rescheduleReason == Present(RescheduleReason)
  {
    t.(isRescheduled := Present(true),
       originalDeadline := Present(t.deadline),
       deadline := Some(NewDeadline),
       rescheduleReason := Present(RescheduleReason))
  }

  /** `a` and `b` agree on every field the optimisation does not write. */
  predicate SameExceptSchedule(a: Task, b: Task)
  {
    a.id == b.id && a.title == b.title && a.description == b.description &&
    a.summary == b.summary && a.locationName == b.locationName &&
    a.priority == b.priority && a.taskType == b.taskType &&
    a.sourceEmailId == b.sourceEmailId && a.completedAt == b.completedAt && a.cost == b.cost
  }

  /** The list `optimizeSchedule` returns for a given starting list. The
      source reads `optimizedTasks[0].deadline`, which throws on an empty
      list, so the list must have a first task. */
  function Optimized(tasks: seq<Task>): (r: seq<Task>)
    requires |tasks| > 0
    ensures |r| == |tasks|
    ensures forall i :: 1 <= i < |tasks| ==> r[i] == tasks[i]
    ensures SameExceptSchedule(tasks[0], r[0])
    ensures r[0].isRescheduled == Present(true)
    ensures r[0].originalDeadline == Present(tasks[0].deadline)
    ensures r[0].deadline == Some(NewDeadline)
    ensures r[0].rescheduleReason == Present(RescheduleReason)
  {
    tasks[0 := Rescheduled(tasks[0])]
  }

  /** The in-place step `optimizedTasks[0] = {...optimizedTasks[0], ...}`. */
  method RescheduleFirst(a: array<Task>)
    requires a.Length > 0
    modifies a
    ensures a[..] == Optimized(old(a[..]))
  {
    a[0] := Rescheduled(a[0]);
  }

  /** Copies the constant list into a fresh array (`[...MOCK_TASKS]`),
      rewrites its first element there and returns the copy. */
  method OptimizeSchedule() returns (optimized: seq<Task>)
    ensures optimized == Optimized(MockTasks)
    ensures |optimized| == |MockTasks| && optimized[0].id == "1"
    ensures optimized[0].originalDeadline == Present(Some("2025-12-09T17:00:00"))
  {
    var copy := new Task[|MockTasks|](i requires 0 <= i < |MockTasks| => MockTasks[i]);
    assert copy[..] == MockTasks;
    RescheduleFirst(copy);
    optimized := copy[..];
  }

  /** `t.is_rescheduled` is truthy: present and `true`. */
  predicate MarkedRescheduled(t: Task)
  {
    t.isRescheduled == Present(true)
  }

  /** The calendar page keeps the tasks of the result that were changed
      (`result.filter(t => t.is_rescheduled)`). */
  function ChangedTasks(tasks: seq<Task>): (r: seq<Task>)
    ensures forall t :: t in r ==> t in tasks && MarkedRescheduled(t)
  {
    Filter(tasks, MarkedRescheduled)
  }

  /** Starting from a list where no task is marked, exactly the rewritten
      first task is reported as changed. */
  lemma ChangedAfterOptimize(tasks: seq<Task>)
    requires |tasks| > 0
    requires forall t :: t in tasks ==> !MarkedRescheduled(t)
    ensures ChangedTasks(Optimized(tasks)) == [Rescheduled(tasks[0])]
  {
    var r := Optimized(tasks);
    assert r[1..] == tasks[1..];
    FilterEmpty(tasks[1..], MarkedRescheduled);
  }

  /** `original_deadline` is written unconditionally: a second pass over its
      own output records the first pass's deadline, losing the real original. */
  lemma SecondPassOverwritesOriginal(tasks: seq<Task>)
    requires |tasks| > 0 && tasks[0].deadline != Some(NewDeadline)
    ensures Optimized(Optimized(tasks))[0].originalDeadline == Present(Some(NewDeadline))
    ensures Optimized(Optimized(tasks))[0].originalDeadline != Present(tasks[0].deadline)
  {
  }

  /** A task carries an original deadline exactly when it is marked
      rescheduled. */
  predicate AnnotationsAgree(t: Task)
  {
    t.originalDeadline.Present? <==> MarkedRescheduled(t)
  }

  /** The rewrite keeps the agreement: the first task gets both annotations
      at once and the other tasks are untouched. */
  lemma {:induction false} OptimizedKeepsAnnotationsAgree(tasks: seq<Task>)
    requires |tasks| > 0
    requires forall t :: t in tasks ==> AnnotationsAgree(t)
    ensures forall t :: t in Optimized(tasks) ==> AnnotationsAgree(t)
  {
    var r := Optimized(tasks);
    forall t | t in r ensures AnnotationsAgree(t) {
      var i :| 0 <= i < |r| && r[i] == t;
      if i > 0 {
        assert tasks[i] == t;
      }
    }
  }

  /** The mock list carries no annotations, so the list `optimizeSchedule`
      returns keeps the agreement too. */
  lemma OptimizeScheduleAnnotationsAgree()
    ensures forall t :: t in MockTasks ==> AnnotationsAgree(t)
    ensures forall t :: t in Optimized(MockTasks) ==> AnnotationsAgree(t)
  {
    OptimizedKeepsAnnotationsAgree(MockTasks);
  }

  /** `sub` occurs in `s` starting at index `i`. */
  predicate OccursAt(s: string, sub: string, i: nat)
  {
    i + |sub| <= |s| && s[i..i + |sub|] == sub
  }

  /** `sub` occurs in `s` as a contiguous piece. */
  predicate Contains(s: string, sub: string)
  {
    exists i: nat | i <= |s| :: OccursAt(s, sub, i)
  }

  lemma ContainsMiddle(a: string, b: string, c: string)
    ensures Contains(a + b + c, b)
  {
    assert (a + b + c)[|a|..|a| + |b|] == b;
    assert OccursAt(a + b + c, b, |a|);
  }

  /** The mock list starts with no task marked, so the calendar page shows
      exactly one changed task: task `'1'`, moved off its 17:00 deadline. */
  lemma OptimizeScheduleChangesOnlyTaskOne()
    ensures var r := Optimized(MockTasks);
      ChangedTasks(r) == [r[0]] && r[0].id == "1" && r[0].title == "Return Amazon package" &&
      r[0].originalDeadline == Present(Some("2025-12-09T17:00:00"))
  {
    ChangedAfterOptimize(MockTasks);
  }

  /** The reason names the place the task and the meeting share and the
      meeting, and both really occur in the mock data: "Main St" in the
      task's and evt1's locations, "Client Meeting" in evt1's summary. */
  lemma ReasonMatchesMockData()
    ensures Contains(RescheduleReason, "Main St") && Contains(RescheduleReason, "Client Meeting")
    ensures MockTasks[0].locationName.Some? && Contains(MockTasks[0].locationName.value, "Main St")
    ensures MockCalendarEvents[0].location.Some? && Contains(MockCalendarEvents[0].location.value, "Main St")
    ensures Contains(MockCalendarEvents[0].summary, "Client Meeting")
  {
    var prefix := "Detected you are at '";
    var middle := "' for '";
    var suffix := "'. Rescheduled to save travel time.";
    assert RescheduleReason == prefix + SharedPlace + (middle + MeetingName + suffix);
    assert RescheduleReason == (prefix + SharedPlace + middle) + MeetingName + suffix;
    ContainsMiddle(prefix, SharedPlace, middle + MeetingName + suffix);
    ContainsMiddle(prefix + SharedPlace + middle, MeetingName, suffix);
    assert OccursAt(MockTasks[0].locationName.value, "Main St", 11);
    assert OccursAt(MockCalendarEvents[0].location.value, "Main St", 10);
    assert OccursAt(MockCalendarEvents[0].summary, "Client Meeting", 0);
  }

  lemma MeetingEndParses()
    ensures Parse(MockCalendarEvents[0].end) == Some(LocalDateTime(2025, 12, 9, 14, 30, 0))
  {
    var d := LocalDateTime(2025, 12, 9, 14, 30, 0);
    assert Format(d) == MockCalendarEvents[0].end;
    ParseFormat(d);
  }

  lemma NewDeadlineParses()
    ensures Parse(NewDeadline) == Some(LocalDateTime(2025, 12, 9, 14, 45, 0))
  {
    var d := LocalDateTime(2025, 12, 9, 14, 45, 0);
    assert Format(d) == NewDeadline;
    ParseFormat(d);
  }

  lemma OriginalDeadlineParses()
    ensures MockTasks[0].deadline == Some("2025-12-09T17:00:00")
    ensures Parse("2025-12-09T17:00:00") == Some(LocalDateTime(2025, 12, 9, 17, 0, 0))
  {
    var d := LocalDateTime(2025, 12, 9, 17, 0, 0);
    assert Format(d) == "2025-12-09T17:00:00";
    ParseFormat(d);
  }

  /** The new deadline is 15 minutes after evt1 ends, and 135 minutes
      earlier than the deadline it replaces, on the same day. */
  lemma NewDeadlineFollowsMeeting()
    ensures Parse(NewDeadline).Some? && Parse(MockCalendarEvents[0].end).Some?
    ensures MinutesLaterSameDay(Parse(MockCalendarEvents[0].end).value, Parse(NewDeadline).value, 15)
    ensures MockTasks[0].deadline.Some? && Parse(MockTasks[0].deadline.value).Some?
    ensures MinutesLaterSameDay(Parse(NewDeadline).value, Parse(MockTasks[0].deadline.value).value, 135)
  {
    MeetingEndParses();
    NewDeadlineParses();
    OriginalDeadlineParses();
  }

  /** Clicking "optimise" twice: the constant list is never changed, so
      both calls return the same list. */
  method OptimizeTwice() returns (first: seq<Task>, second: seq<Task>)
    ensures first == second && |second| == |MockTasks|
    ensures ChangedTasks(second) == [second[0]]
  {
    first := OptimizeSchedule();
    second := OptimizeSchedule();
    OptimizeScheduleChangesOnlyTaskOne();
  }
}
