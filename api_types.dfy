/** The record shapes of context-aware-reminder/frontend/src/api.ts:
    `Task` and `CalendarEvent` with their string-literal union fields. */
module ApiTypes {
  import opened Wrappers

  /** `priority: 'low' | 'medium' | 'high'` */
  datatype Priority = Low | Medium | High

  /** `type: 'time_based' | 'location_based' | 'recurring'` */
  datatype TaskType = TimeBased | LocationBased | Recurring

  /** `type: 'work' | 'trip' | 'personal'` on a calendar event */
  datatype EventType = Work | Trip | Personal

  /** The string literal each priority carries on the wire. */
  function PriorityName(p: Priority): (name: string)
    ensures name != "all"
  {
    match p
    case Low => "low"
    case Medium => "medium"
    case High => "high"
  }

  /** The string literal each task type carries on the wire. */
  function TaskTypeName(k: TaskType): (name: string)
    ensures name != "all"
  {
    match k
    case TimeBased => "time_based"
    case LocationBased => "location_based"
    case Recurring => "recurring"
  }

  /** A reminder task. Field names follow the TypeScript ones in camel case
      (`location_name` is `locationName`, `type` is `taskType`, ...).
      The last six fields are optional properties: `original_deadline` is
      both optional and nullable, hence Optional<Option<string>>.
      `cost` is a JavaScript number, kept as a real; nothing computes with it. */
  datatype Task = Task(
    id: string,
    title: string,
    description: string,
    summary: string,
    deadline: Option<string>,
    locationName: Option<string>,
    priority: Priority,
    taskType: TaskType,
    isRescheduled: Optional<bool>,
    rescheduleReason: Optional<string>,
    originalDeadline: Optional<Option<string>>,
    sourceEmailId: Optional<string>,
    completedAt: Optional<string>,
    cost: Optional<real>)

  /** A calendar event; `start` and `end` are local ISO timestamps. */
  datatype CalendarEvent = CalendarEvent(
    id: string,
    summary: string,
    start: string,
    end: string,
    location: Option<string>,
    eventType: EventType)
}
