# On-demand appointment loading for a scheduler page

A Dafny model of the view model behind a scheduler page that loads its
appointments on demand. The view model holds the full set of appointments
fetched once from a web service (`WebData`), the dates the scheduler currently
shows (`VisibleDates`) and the published visible subset (`Appointments`).
Whenever the data arrives or the visible dates change, `UpdateAppointments`
scans the full set in order and publishes a fresh collection of the
appointments whose start date or end date (time of day dropped) lies between
the first and the last visible date, both inclusive. When the fetch
completes, every fetched appointment is tagged in place with a colour drawn
from the first nine entries of an eleven-entry palette.

Modules:

- `Wrappers` (`wrappers.dfy`): `Option`, standing for a nullable reference.
- `Model` (`appointment.dfy`): `DateTime` as a tick count, `DateOf` (the
  `.Date` property), `Color`, and the `Appointment` class.
- `AppointmentFilter` (`appointment_filter.dfy`): the window test, the filter
  and `Published` (what `Appointments` holds after one update), with the
  lemmas about them.
- `ViewModel` (`scheduler_view_model.dfy`): the palette and the
  `SchedulerViewModel` class, whose methods are the property setters,
  `UpdateAppointments`, `InitializeEventColor` and the completion of the fetch.
- `Behavior` (`page_behavior.dfy`): the page's visible-dates-changed handler.

Modelling choices:

- A `DateTime` is a natural number of 100 ns ticks; `.Date` is truncation to
  the day's midnight. The visible dates are compared exactly as the code does:
  `First()` and `Last()` are not truncated, only the appointment's times are.
- `null` is `None`: for `WebData`, `VisibleDates` and the busy indicator. The
  busy indicator is reduced to its `IsBusy` flag and passed by value. In the
  code, the page and the view model share one indicator object, so clearing
  `IsBusy` also clears the page's indicator. In the model the caller keeps
  its own, possibly stale, flag. `Appointments` does not depend on it.
- `First` and `Last` are helpers for `First()` and `Last()` on a non-empty
  list. The empty list, on which `First()` throws, is handled by their callers.
- `Appointment` is a class. Only `color` is ever written after
  deserialisation, so the other fields are constants. The published subset
  holds the very objects of `WebData`. Tagging colours in place therefore also
  colours the published appointments, and `CompleteFetch` states this.
- `random.Next(9)` is a nondeterministic choice of a slot below nine.
- `First()` on an empty visible-dates list throws. `UpdateAppointments`
  reports that case as `threw == true` and leaves `Appointments` as it was,
  which is what the code leaves behind. The handlers pass this flag on.
- The filter's boundary policy is kept as written. An appointment that starts
  before the first visible date and ends after the last one is not published,
  although it covers every visible date (`SpanningAppointmentMissed`).

## Model

| member | source | states |
|---|---|---|
| `Model.DateOf` | OnDemandLoading_Scheduler/OnDemandLoading_Scheduler/ViewModel/SchedulerViewModel.cs:119-120 | `.Date` is the midnight that starts the instant's day: a multiple of a day's ticks, at most the instant and less than one day before it |
| `Model.DateOnlyComparison` | OnDemandLoading_Scheduler/OnDemandLoading_Scheduler/ViewModel/SchedulerViewModel.cs:119-120 | for a window whose first date is a midnight, the date-only test admits exactly the instants from the first date up to the end of the last date's day |
| `Model.Appointment.constructor` | OnDemandLoading_Scheduler/OnDemandLoading_Scheduler/Model/Appointment.cs:11-47 | a deserialised appointment carries the given subject, id, times, all-day flag and recurrence rule, and no colour yet |
| `AppointmentFilter.InWindow` | OnDemandLoading_Scheduler/OnDemandLoading_Scheduler/ViewModel/SchedulerViewModel.cs:119-120 | the start date or the end date, time of day dropped, lies in [first, last], both ends inclusive: a passing instant is never before the first date and lies on a day no later than the last; when the first date is a midnight, every start or end instant in [first, last] passes |
| `AppointmentFilter.Filter` | OnDemandLoading_Scheduler/OnDemandLoading_Scheduler/ViewModel/SchedulerViewModel.cs:115-124 | the filtered list is no longer than the data and holds only appointments of the data that pass the window test |
| `AppointmentFilter.FilterMembership` | OnDemandLoading_Scheduler/OnDemandLoading_Scheduler/ViewModel/SchedulerViewModel.cs:117-124 | an appointment is in the filtered list if and only if it is in the data and its start date or end date lies in [first, last] |
| `AppointmentFilter.FilterMultiplicity` | OnDemandLoading_Scheduler/OnDemandLoading_Scheduler/ViewModel/SchedulerViewModel.cs:115-124 | each appointment occurs in the result exactly as often as in the data when it passes the test, and never otherwise: no duplicates beyond the data's own |
| `AppointmentFilter.FilterIsSubsequence` | OnDemandLoading_Scheduler/OnDemandLoading_Scheduler/ViewModel/SchedulerViewModel.cs:115-124 | the result is an order-preserving subsequence of the data, given by strictly increasing positions that include every position that passes the test |
| `AppointmentFilter.FilterIdempotent` | OnDemandLoading_Scheduler/OnDemandLoading_Scheduler/ViewModel/SchedulerViewModel.cs:115-126 | filtering a filtered list again with the same window changes nothing |
| `AppointmentFilter.SpanningAppointmentMissed` | OnDemandLoading_Scheduler/OnDemandLoading_Scheduler/ViewModel/SchedulerViewModel.cs:119-120 | an appointment whose start date is before the first visible date and whose end date is after the last one is never published |
| `AppointmentFilter.Published` | OnDemandLoading_Scheduler/OnDemandLoading_Scheduler/ViewModel/SchedulerViewModel.cs:101-127 | a null window, null or empty data, or an empty window leave the prior collection; otherwise the published collection holds exactly the data's appointments that pass the test against the window's first and last dates |
| `AppointmentFilter.PublishedIdempotent` | OnDemandLoading_Scheduler/OnDemandLoading_Scheduler/ViewModel/SchedulerViewModel.cs:115-126 | updating twice with the same window and data publishes what updating once does |
| `AppointmentFilter.PublishedDependsOnEndsOnly` | OnDemandLoading_Scheduler/OnDemandLoading_Scheduler/ViewModel/SchedulerViewModel.cs:119-120 | two windows with the same first and last dates publish the same collection |
| `AppointmentFilter.SingleDayScenario` | OnDemandLoading_Scheduler/OnDemandLoading_Scheduler/ViewModel/SchedulerViewModel.cs:117-124 | an appointment on day 10 is published for the window of days 9 to 11 and not for the window of days 32 to 36 |
| `ViewModel.PaletteColorsAllDrawable` | OnDemandLoading_Scheduler/OnDemandLoading_Scheduler/ViewModel/SchedulerViewModel.cs:129-143 | the palette has 11 entries holding 6 distinct colours, and the first nine slots, the only ones drawn, already hold every one of them |
| `ViewModel.SchedulerViewModel.constructor` | OnDemandLoading_Scheduler/OnDemandLoading_Scheduler/ViewModel/SchedulerViewModel.cs:72-78 | a new view model has empty `Appointments`, the eleven-colour palette, and no data, window or busy indicator |
| `ViewModel.SchedulerViewModel.InitializeEventColor` | OnDemandLoading_Scheduler/OnDemandLoading_Scheduler/ViewModel/SchedulerViewModel.cs:129-143 | the palette becomes exactly the eleven colours in the order they are added |
| `ViewModel.SchedulerViewModel.SetVisibleDates` | OnDemandLoading_Scheduler/OnDemandLoading_Scheduler/ViewModel/SchedulerViewModel.cs:26-37 | the `VisibleDates` setter stores the window and changes nothing else |
| `ViewModel.SchedulerViewModel.UpdateAppointments` | OnDemandLoading_Scheduler/OnDemandLoading_Scheduler/ViewModel/SchedulerViewModel.cs:101-127 | the new `Appointments` is `Published` of the window, the data and the old collection; data, window and appointment objects are untouched; a busy indicator is cleared once a window exists; the exception is raised exactly for data with an empty window |
| `ViewModel.SchedulerViewModel.SetWebData` | OnDemandLoading_Scheduler/OnDemandLoading_Scheduler/ViewModel/SchedulerViewModel.cs:42-54 | assigning `WebData` stores it and republishes `Appointments` as `Published` of the current window and the new data |
| `ViewModel.SchedulerViewModel.CompleteFetch` | OnDemandLoading_Scheduler/OnDemandLoading_Scheduler/ViewModel/SchedulerViewModel.cs:80-96 | after the fetch, `WebData` is the result and `Appointments` is republished; every fetched appointment, and so every published one, has a colour from the first nine palette slots; only fetched objects are recoloured |
| `Behavior.OnVisibleDatesChanged` | OnDemandLoading_Scheduler/OnDemandLoading_Scheduler/Behavior/SchedulerPageBehavior.cs:30-39 | with no binding context nothing changes; otherwise the window becomes the new dates, the indicator is handed over and cleared if busy, and `Appointments` is republished from the unchanged data |
| `Behavior.RepeatedWindowChange` | OnDemandLoading_Scheduler/OnDemandLoading_Scheduler/Behavior/SchedulerPageBehavior.cs:36-38 | two window changes to the same dates leave `Appointments` as one change does |

## Left out

- The HTTP GET and the JSON deserialisation of `WebAPIService.RefreshDataAsync`
  are network I/O and a foreign library; their outcome is the parameter of
  `CompleteFetch`: `None` for a failed request or swallowed exception, or a
  sequence of appointments, possibly empty.
- The `async` fetch is not modelled as concurrent: its completion is one
  atomic `CompleteFetch`, so window changes racing with the fetch are not
  captured.
- The five-second `Task.Delay` before the busy indicator is cleared is a
  timed UI delay; the model clears the flag at once and does not capture
  state changes that could interleave during the delay. In the code, when
  the indicator is busy, `UpdateAppointments` returns to its caller at the
  `await`, so the `WebData` setter and the page handler return before
  anything is published. The filter then runs five seconds later, on the
  data and window current at that time. `SetWebData`, `CompleteFetch` and
  `OnVisibleDatesChanged` state the state after that deferred publication,
  assuming nothing else changes in between.
- `PropertyChanged` notifications are event plumbing and are not recorded.
- `Color.FromHex` parsing is a library call; palette entries are given
  directly by their ARGB codes.
- The `Random` generator is a nondeterministic choice of a slot below nine.
- `null` elements inside a fetched list are not modelled: the sequence holds
  non-null appointments only.
- An exception thrown by the `async void` update is reported as a flag. Its
  propagation to the UI thread's synchronisation context is not modelled.
- Wiring and unwiring the handler, and the scheduler and busy-indicator
  widgets themselves, are UI plumbing.
- `DateTime` is an unbounded tick count. The .NET upper bound on ticks and
  `DateTimeKind` are not modelled.
