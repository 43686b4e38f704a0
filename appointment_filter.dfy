/**
 * The on-demand filter of `SchedulerViewModel.UpdateAppointments` as pure
 * functions: the window test applied to one appointment, the filter over the
 * fetched sequence, and what `Appointments` holds after one update.
 */
module AppointmentFilter {
  import opened Wrappers
  import opened Model

  /**
   * The window test of the filter loop: the start date or the end date (time
   * of day dropped) lies in [first, last], both ends inclusive. Only the
   * window's two ends are consulted, never the dates in between. The instant
   * that passes is never before `first` and lies on a day no later than `last`;
   * when `first` is a midnight, every start or end instant in [first, last]
   * passes.
   */
  predicate InWindow(a: Appointment, first: DateTime, last: DateTime): (b: bool)
    ensures b ==> (first <= a.startTime && DateOf(a.startTime) <= last) ||
                  (first <= a.endTime && DateOf(a.endTime) <= last)
    ensures first % TicksPerDay == 0 && (first <= a.startTime <= last || first <= a.endTime <= last) ==> b
  {
    (first <= DateOf(a.startTime) && last >= DateOf(a.startTime)) ||
    (first <= DateOf(a.endTime) && last >= DateOf(a.endTime))
  }

  /**
   * The appointments of `data` that pass the window test, in the order of
   * `data`, as the filter loop adds them one by one.
   */
  function Filter(data: seq<Appointment>, first: DateTime, last: DateTime): (r: seq<Appointment>)
    ensures |r| <= |data|
    ensures forall a :: a in r ==> a in data && InWindow(a, first, last)
  {
    if data == [] then []
    else
      var kept := Filter(data[..|data| - 1], first, last);
      var a := data[|data| - 1];
      if InWindow(a, first, last) then kept + [a] else kept
  }

  /** The filter keeps exactly the appointments of the data that pass the window test. */
  lemma {:induction false} FilterMembership(data: seq<Appointment>, first: DateTime, last: DateTime, a: Appointment)
    ensures a in Filter(data, first, last) <==> a in data && InWindow(a, first, last)
  {
    if data != [] {
      var init := data[..|data| - 1];
      FilterMembership(init, first, last, a);
      assert data == init + [data[|data| - 1]];
    }
  }

  /**
   * Each appointment occurs in the result as often as in the data when it
   * passes the window test, and not at all otherwise: the filter drops
   * nothing that passes and duplicates nothing.
   */
  lemma {:induction false} FilterMultiplicity(data: seq<Appointment>, first: DateTime, last: DateTime, a: Appointment)
    ensures multiset(Filter(data, first, last))[a] ==
            if InWindow(a, first, last) then multiset(data)[a] else 0
  {
    if data != [] {
      var init := data[..|data| - 1];
      FilterMultiplicity(init, first, last, a);
      assert data == init + [data[|data| - 1]];
    }
  }

  /**
   * The result is an order-preserving subsequence of the data: `idx` gives,
   * for each kept appointment, its strictly increasing position in the data,
   * and every position whose appointment passes the test is among them.
   */
  lemma {:induction false} FilterIsSubsequence(data: seq<Appointment>, first: DateTime, last: DateTime)
    returns (idx: seq<nat>)
    ensures |idx| == |Filter(data, first, last)|
    ensures forall k :: 0 <= k < |idx| ==> idx[k] < |data| && Filter(data, first, last)[k] == data[idx[k]]
    ensures forall k, m :: 0 <= k < m < |idx| ==> idx[k] < idx[m]
    ensures forall j :: 0 <= j < |data| && InWindow(data[j], first, last) ==> j in idx
  {
    if data == [] {
      idx := [];
    } else {
      var initIdx := FilterIsSubsequence(data[..|data| - 1], first, last);
      idx := FilterIndicesStep(data, first, last, initIdx);
    }
  }

  /**
   * One step of `FilterIsSubsequence`: the positions for the data without its
   * last element, extended by the last position when that element passes.
   */
  lemma FilterIndicesStep(data: seq<Appointment>, first: DateTime, last: DateTime, initIdx: seq<nat>)
    returns (idx: seq<nat>)
    requires data != []
    requires |initIdx| == |Filter(data[..|data| - 1], first, last)|
    requires forall k :: 0 <= k < |initIdx| ==>
               initIdx[k] < |data| - 1 && Filter(data[..|data| - 1], first, last)[k] == data[..|data| - 1][initIdx[k]]
    requires forall k, m :: 0 <= k < m < |initIdx| ==> initIdx[k] < initIdx[m]
    requires forall j :: 0 <= j < |data| - 1 && InWindow(data[..|data| - 1][j], first, last) ==> j in initIdx
    ensures |idx| == |Filter(data, first, last)|
    ensures forall k :: 0 <= k < |idx| ==> idx[k] < |data| && Filter(data, first, last)[k] == data[idx[k]]
    ensures forall k, m :: 0 <= k < m < |idx| ==> idx[k] < idx[m]
    ensures forall j :: 0 <= j < |data| && InWindow(data[j], first, last) ==> j in idx
  {
    var n := |data| - 1;
    var init := data[..n];
    var kept := Filter(init, first, last);
    if InWindow(data[n], first, last) {
      idx := initIdx + [n];
      assert Filter(data, first, last) == kept + [data[n]];
    } else {
      idx := initIdx;
      assert Filter(data, first, last) == kept;
    }
    assert forall k :: 0 <= k < |initIdx| ==> kept[k] == data[initIdx[k]] by {
      forall k | 0 <= k < |initIdx| ensures kept[k] == data[initIdx[k]] {
        assert kept[k] == init[initIdx[k]];
      }
    }
    assert forall j :: 0 <= j < n ==> init[j] == data[j];
  }

  /** Filtering an already filtered sequence with the same window changes nothing. */
  lemma {:induction false} FilterIdempotent(data: seq<Appointment>, first: DateTime, last: DateTime)
    ensures Filter(Filter(data, first, last), first, last) == Filter(data, first, last)
  {
    if data != [] {
      var init := data[..|data| - 1];
      var a := data[|data| - 1];
      FilterIdempotent(init, first, last);
      if InWindow(a, first, last) {
        var kept := Filter(init, first, last);
        assert (kept + [a])[..|kept + [a]| - 1] == kept;
      }
    }
  }

  /**
   * The gap the first/last test leaves: an appointment that starts before the
   * window's first date and ends after its last date covers every date the
   * window shows, yet it is never published.
   */
  lemma SpanningAppointmentMissed(data: seq<Appointment>, first: DateTime, last: DateTime, a: Appointment)
    requires DateOf(a.startTime) < first && last < DateOf(a.endTime)
    ensures a !in Filter(data, first, last)
  {
  }

  /** The two ends of a non-empty visible-dates list, `First()` and `Last()`. */
  function First(window: seq<DateTime>): (d: DateTime)
    requires window != []
  {
    window[0]
  }

  function Last(window: seq<DateTime>): (d: DateTime)
    requires window != []
  {
    window[|window| - 1]
  }

  /**
   * What `Appointments` holds after one `UpdateAppointments`, given the window
   * (`None` when the visible dates are null), the fetched data (`None` when
   * null) and what it held before. A null window, null or empty data, and an
   * empty window (whose `First()` throws before anything is published) all
   * leave the prior collection in place.
   */
  function Published(window: Option<seq<DateTime>>, data: Option<seq<Appointment>>, prior: seq<Appointment>)
    : (r: seq<Appointment>)
    ensures window.None? || data.None? || data.value == [] || window.value == [] ==> r == prior
    ensures window.Some? && data.Some? && data.value != [] && window.value != [] ==>
              (forall a :: a in r ==> a in data.value && InWindow(a, First(window.value), Last(window.value))) &&
              (forall a :: a in data.value && InWindow(a, First(window.value), Last(window.value)) ==> a in r)
  {
    if window.None? || data.None? || data.value == [] || window.value == [] then prior
    else
      var first, last := First(window.value), Last(window.value);
      assert forall a :: a in data.value && InWindow(a, first, last) ==> a in Filter(data.value, first, last) by {
        forall a | a in data.value && InWindow(a, first, last) { FilterMembership(data.value, first, last, a); }
      }
      Filter(data.value, first, last)
  }

  /** Publishing twice from the same window and data gives the same collection as publishing once. */
  lemma PublishedIdempotent(window: Option<seq<DateTime>>, data: Option<seq<Appointment>>, prior: seq<Appointment>)
    ensures Published(window, data, Published(window, data, prior)) == Published(window, data, prior)
  {
  }

  /** Two windows with the same first and last dates publish the same collection, whatever lies between. */
  lemma PublishedDependsOnEndsOnly(w1: seq<DateTime>, w2: seq<DateTime>, data: Option<seq<Appointment>>, prior: seq<Appointment>)
    requires w1 != [] && w2 != []
    requires First(w1) == First(w2) && Last(w1) == Last(w2)
    ensures Published(Some(w1), data, prior) == Published(Some(w2), data, prior)
  {
  }

  /**
   * A worked case: an appointment on day 10 is shown in the window of days
   * 9 to 11 and not in the window of days 32 to 36.
   */
  lemma SingleDayScenario(a: Appointment, prior: seq<Appointment>)
    requires a.startTime == 10 * TicksPerDay + 9 * 36_000_000_000
    requires a.endTime == 10 * TicksPerDay + 10 * 36_000_000_000
    ensures Published(Some([9 * TicksPerDay, 10 * TicksPerDay, 11 * TicksPerDay]), Some([a]), prior) == [a]
    ensures Published(Some([32 * TicksPerDay, 33 * TicksPerDay, 34 * TicksPerDay, 35 * TicksPerDay, 36 * TicksPerDay]),
                      Some([a]), prior) == []
  {
  }
}
