/** The fallback data the API returns when the backend is unreachable. */
module MockData {
  import opened Wrappers
  import opened ApiTypes

  /** `MOCK_TASKS`: four open tasks, none of them rescheduled yet. */
  const MockTasks: seq<Task> := [
    Task("1", "Return Amazon package", "Return the package to UPS.", "Return Amazon package",
         Some("2025-12-09T17:00:00"), Some("UPS Store, Main St"), High, LocationBased,
         Absent, Absent, Absent, Absent, Absent, Absent),
    Task("2", "Pick up prescription", "Pick up meds from CVS.", "Pick up prescription",
         Some("2025-12-10T14:00:00"), Some("CVS Pharmacy, Oak St"), Medium, LocationBased,
         Absent, Absent, Absent, Absent, Absent, Present(15.50)),
    Task("3", "Pay electricity bill", "Pay before Friday.", "Pay electricity bill",
         Some("2025-12-12T09:00:00"), None, Medium, TimeBased,
         Absent, Absent, Absent, Absent, Absent, Present(124.50)),
    Task("4", "Weekly team sync", "Sync with the engineering team.", "Weekly team sync",
         None, Some("Meeting Room A"), Low, Recurring,
         Absent, Absent, Absent, Absent, Absent, Absent)
  ]

  /** `MOCK_CALENDAR_EVENTS`: a meeting on Main St and a business trip. */
  const MockCalendarEvents: seq<CalendarEvent> := [
    CalendarEvent("evt1", "Client Meeting at TechPark", "2025-12-09T13:00:00", "2025-12-09T14:30:00",
                  Some("TechPark, Main St"), Work),
    CalendarEvent("evt2", "Business Trip to NYC", "2025-12-15T08:00:00", "2025-12-17T18:00:00",
                  Some("New York, NY"), Trip)
  ]

}
