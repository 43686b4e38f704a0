/**
 * What `SchedulerPageBehavior` does when the scheduler reports new visible
 * dates: hand the page's busy indicator to the view model, store the dates,
 * then republish the appointments.
 */
module Behavior {
  import opened Wrappers
  import opened Model
  import opened AppointmentFilter
  import opened ViewModel

  /**
   * The visible-dates-changed handler. `viewModel` is the scheduler's binding
   * context (`null` when there is none, and then nothing happens), `indicator`
   * the page's busy indicator and `dates` the new visible dates.
   */
  method OnVisibleDatesChanged(viewModel: SchedulerViewModel?, indicator: Option<bool>, dates: seq<DateTime>)
    returns (threw: bool)
    modifies viewModel
    ensures viewModel == null ==> !threw
    ensures viewModel != null ==>
              && viewModel.visibleDates == Some(dates)
              && viewModel.webData == old(viewModel.webData)
              && viewModel.colorCollection == old(viewModel.colorCollection)
              && viewModel.busyIndicator == (if indicator == Some(true) then Some(false) else indicator)
              && (threw <==> viewModel.webData.Some? && viewModel.webData.value != [] && dates == [])
              && viewModel.appointments == Published(Some(dates), viewModel.webData, old(viewModel.appointments))
  {
    threw := false;
    if viewModel == null {
      return;
    }
    viewModel.busyIndicator := indicator;
    viewModel.SetVisibleDates(Some(dates));
    threw := viewModel.UpdateAppointments();
  }

  /**
   * A window change followed by a second change to the same dates publishes
   * the same subset again: the handler is idempotent on an unchanged window.
   */
  method RepeatedWindowChange(viewModel: SchedulerViewModel, indicator: Option<bool>, dates: seq<DateTime>)
    modifies viewModel
    ensures viewModel.appointments == Published(Some(dates), old(viewModel.webData), old(viewModel.appointments))
  {
    var _ := OnVisibleDatesChanged(viewModel, indicator, dates);
    ghost var once := viewModel.appointments;
    var _ := OnVisibleDatesChanged(viewModel, indicator, dates);
    assert viewModel.appointments == once by {
      PublishedIdempotent(Some(dates), viewModel.webData, old(viewModel.appointments));
    }
  }
}
