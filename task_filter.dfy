/** The offline fallback of `getTasks`: the mock task list filtered by a
    type and a priority given as strings, where `"all"` switches a test off. */
module TaskFilter {
  import opened Wrappers
  import opened ApiTypes
  import opened MockData
  import opened ArrayFilter

  const All := "all"

  /** The filter predicate: the type test and the priority test, each
      passed by every task when its filter is `"all"`. Any other string is
      compared with the task's wire name, so an unknown string matches nothing. */
  predicate Matches(t: Task, typeFilter: string, priorityFilter: string)
  {
    (typeFilter == All || TaskTypeName(t.taskType) == typeFilter) &&
    (priorityFilter == All || PriorityName(t.priority) == priorityFilter)
  }

  function Matcher(typeFilter: string, priorityFilter: string): Task -> bool
  {
    t => Matches(t, typeFilter, priorityFilter)
  }

  /** The tasks of `tasks` that pass both tests, in their original order. */
  function FilterTasks(tasks: seq<Task>, typeFilter: string, priorityFilter: string): (r: seq<Task>)
    ensures forall t :: t in r ==> t in tasks && Matches(t, typeFilter, priorityFilter)
  {
    Filter(tasks, Matcher(typeFilter, priorityFilter))
  }

  /** `getTasks` when the backend cannot be reached; both filters default to `"all"`. */
  function GetTasksFallback(typeFilter: string := All, priorityFilter: string := All): (r: seq<Task>)
    ensures forall t :: t in r ==> t in MockTasks && Matches(t, typeFilter, priorityFilter)
    ensures forall t :: t in MockTasks && Matches(t, typeFilter, priorityFilter) ==> t in r
  {
    var r := FilterTasks(MockTasks, typeFilter, priorityFilter);
    assert forall t :: t in MockTasks && Matches(t, typeFilter, priorityFilter) ==> t in r by {
      forall t | t in MockTasks && Matches(t, typeFilter, priorityFilter) ensures t in r {
        FilterKeepsPassing(MockTasks, Matcher(typeFilter, priorityFilter), t);
      }
    }
    r
  }

  /** The result is an order-preserving subsequence of the input, and each
      task occurs in it as often as in the input if it matches, else never. */
  lemma {:induction false} FilterTasksExact(tasks: seq<Task>, typeFilter: string, priorityFilter: string, t: Task)
    ensures IsSubsequence(FilterTasks(tasks, typeFilter, priorityFilter), tasks)
    ensures multiset(FilterTasks(tasks, typeFilter, priorityFilter))[t] ==
            if Matches(t, typeFilter, priorityFilter) then multiset(tasks)[t] else 0
  {
    FilterIsSubsequence(tasks, Matcher(typeFilter, priorityFilter));
    FilterCount(tasks, Matcher(typeFilter, priorityFilter), t);
  }

  /** With both filters at `"all"` the list comes back unchanged. */
  lemma {:induction false} WildcardIsIdentity(tasks: seq<Task>)
    ensures FilterTasks(tasks, All, All) == tasks
  {
    FilterIdentity(tasks, Matcher(All, All));
  }

  /** Applying the same filter to its own output changes nothing. */
  lemma {:induction false} FilterTasksIdempotent(tasks: seq<Task>, typeFilter: string, priorityFilter: string)
    ensures var r := FilterTasks(tasks, typeFilter, priorityFilter);
            FilterTasks(r, typeFilter, priorityFilter) == r
  {
    FilterIdempotent(tasks, Matcher(typeFilter, priorityFilter));
  }

  /** The two tests are independent: filtering by both is filtering by type
      alone and then by priority alone, in either order. */
  lemma {:induction false} FilterTestsIndependent(tasks: seq<Task>, typeFilter: string, priorityFilter: string)
    ensures FilterTasks(tasks, typeFilter, priorityFilter) ==
            FilterTasks(FilterTasks(tasks, typeFilter, All), All, priorityFilter)
    ensures FilterTasks(tasks, typeFilter, priorityFilter) ==
            FilterTasks(FilterTasks(tasks, All, priorityFilter), typeFilter, All)
  {
    FilterConjunction(tasks, Matcher(typeFilter, All), Matcher(All, priorityFilter), Matcher(typeFilter, priorityFilter));
    FilterConjunction(tasks, Matcher(All, priorityFilter), Matcher(typeFilter, All), Matcher(typeFilter, priorityFilter));
  }

  /** A type filter that is neither `"all"` nor a task type's wire name
      selects no task; likewise for the priority filter. */
  lemma {:induction false} UnknownFilterSelectsNothing(tasks: seq<Task>, typeFilter: string, priorityFilter: string)
    requires (typeFilter != All && forall k :: TaskTypeName(k) != typeFilter) ||
             (priorityFilter != All && forall p :: PriorityName(p) != priorityFilter)
    ensures FilterTasks(tasks, typeFilter, priorityFilter) == []
  {
    FilterEmpty(tasks, Matcher(typeFilter, priorityFilter));
  }

  /** With no filters the fallback is the whole mock list. */
  lemma FallbackUnfiltered()
    ensures GetTasksFallback() == MockTasks
  {
    WildcardIsIdentity(MockTasks);
  }

  /** Filtering the mock list by type `"location_based"` keeps tasks 1 and 2. */
  lemma FallbackLocationBased()
    ensures GetTasksFallback("location_based") == MockTasks[..2]
  {
    var s, k := MockTasks, Matcher("location_based", All);
    assert Filter(s[3..], k) == [];
    assert Filter(s[2..], k) == [];
  }

  /** Filtering the mock list by priority `"medium"` keeps tasks 2 and 3. */
  lemma FallbackMediumPriority()
    ensures GetTasksFallback(All, "medium") == MockTasks[1..3]
  {
    var s, k := MockTasks, Matcher(All, "medium");
    assert Filter(s[3..], k) == [];
    assert Filter(s[1..], k) == [s[1]] + Filter(s[2..], k);
  }

  /** Both filters together: only the recurring task is low priority, and
      no time-based task is high priority. */
  lemma FallbackBothFilters()
    ensures GetTasksFallback("recurring", "low") == [MockTasks[3]]
    ensures GetTasksFallback("time_based", "high") == []
  {
    var s, k := MockTasks, Matcher("recurring", "low");
    assert Filter(s[3..], k) == [s[3]];
    assert Filter(s[1..], k) == Filter(s[2..], k);
    FilterEmpty(s, Matcher("time_based", "high"));
  }
}
