/**
 * `SchedulerViewModel`: the object the scheduler page binds to. It holds the
 * full fetched data set, the visible dates and the published visible subset,
 * and republishes the subset whenever the data or the window changes.
 */
module ViewModel {
  import opened Wrappers
  import opened Model
  import opened AppointmentFilter

  /** The eleven colours `InitializeEventColor` adds, in order, as ARGB codes. */
  const EventPalette: seq<Color> := [
    Argb(0xFF339933), Argb(0xFF00ABA9), Argb(0xFFE671B8), Argb(0xFF1BA1E2),
    Argb(0xFFD80073), Argb(0xFFA2C139), Argb(0xFFA2C139), Argb(0xFFD80073),
    Argb(0xFF339933), Argb(0xFFE671B8), Argb(0xFF00ABA9)
  ]

  /** The number of palette slots the colour loop draws from (`random.Next(9)`). */
  const DrawnSlots: nat := 9

  /**
   * The palette has eleven entries but only six distinct colours, and the
   * nine slots the colour loop draws from already hold all six: the two
   * slots it never draws add no colour of their own.
   */
  lemma PaletteColorsAllDrawable()
    ensures |EventPalette| == 11
    ensures DrawnSlots <= |EventPalette|
    ensures forall c :: c in EventPalette ==> c in EventPalette[..DrawnSlots]
    ensures |set c | c in EventPalette| == 6
  {
    var distinct := set c | c in EventPalette;
    assert distinct == {Argb(0xFF339933), Argb(0xFF00ABA9), Argb(0xFFE671B8),
                        Argb(0xFF1BA1E2), Argb(0xFFD80073), Argb(0xFFA2C139)};
    assert EventPalette[9] == EventPalette[2] && EventPalette[10] == EventPalette[1];
  }

  /** The objects a fetch result holds: the ones the colour loop may recolour. */
  function Fetched(data: Option<seq<Appointment>>): (s: set<Appointment>)
  {
    if data.None? then {} else set a | a in data.value
  }

  class SchedulerViewModel {
    /** The published visible subset (`Appointments`). */
    var appointments: seq<Appointment>
    /** The full fetched data set (`WebData`); `None` while it is null. */
    var webData: Option<seq<Appointment>>
    /** The colour palette (`colorCollection`). */
    var colorCollection: seq<Color>
    /** The visible dates (`VisibleDates`); `None` while they are null. */
    var visibleDates: Option<seq<DateTime>>
    /** The busy indicator: `None` while it is null, otherwise its `IsBusy` flag. */
    var busyIndicator: Option<bool>

    /** The palette is filled once by the constructor and never changed. */
    ghost predicate Valid()
      reads this
    {
      colorCollection == EventPalette
    }

    /**
     * The synchronous part of the constructor: an empty `Appointments`, the
     * palette, and no data, window or indicator yet. The fetch it starts
     * completes later, as `CompleteFetch`.
     */
    constructor ()
      ensures Valid()
      ensures appointments == []
      ensures webData == None && visibleDates == None && busyIndicator == None
    {
      appointments := [];
      webData := None;
      visibleDates := None;
      busyIndicator := None;
      colorCollection := [];
      new;
      InitializeEventColor();
    }

    /** Fills the palette by adding its eleven colours one after another. */
    method InitializeEventColor()
      modifies this`colorCollection
      ensures colorCollection == EventPalette
    {
      colorCollection := [];
      colorCollection := colorCollection + [Argb(0xFF339933)];
      colorCollection := colorCollection + [Argb(0xFF00ABA9)];
      colorCollection := colorCollection + [Argb(0xFFE671B8)];
      colorCollection := colorCollection + [Argb(0xFF1BA1E2)];
      colorCollection := colorCollection + [Argb(0xFFD80073)];
      colorCollection := colorCollection + [Argb(0xFFA2C139)];
      colorCollection := colorCollection + [Argb(0xFFA2C139)];
      colorCollection := colorCollection + [Argb(0xFFD80073)];
      colorCollection := colorCollection + [Argb(0xFF339933)];
      colorCollection := colorCollection + [Argb(0xFFE671B8)];
      colorCollection := colorCollection + [Argb(0xFF00ABA9)];
    }

    /** The `VisibleDates` setter: stores the window and nothing else. */
    method SetVisibleDates(dates: Option<seq<DateTime>>)
      modifies this`visibleDates
      ensures visibleDates == dates
    {
      visibleDates := dates;
    }

    /**
     * Republishes `Appointments` for the current window and data.
     *
     * A null window returns at once. Otherwise a busy indicator that is busy
     * is cleared (after a display delay that is not modelled); null or empty
     * data then returns without publishing. Otherwise the data is scanned in
     * order and a fresh sequence of the appointments that pass the window
     * test replaces `Appointments`. `threw` is true when `First()` throws on
     * an empty window, which leaves `Appointments` as it was. Neither the
     * data, nor the window, nor any appointment object is changed.
     */
    method UpdateAppointments() returns (threw: bool)
      modifies this`appointments, this`busyIndicator
      ensures webData == old(webData) && visibleDates == old(visibleDates)
      ensures busyIndicator ==
                if visibleDates.Some? && old(busyIndicator) == Some(true) then Some(false)
                else old(busyIndicator)
      ensures threw <==> visibleDates.Some? && webData.Some? && webData.value != [] && visibleDates.value == []
      ensures appointments == Published(visibleDates, webData, old(appointments))
    {
      threw := false;
      if visibleDates.None? {
        return;
      }
      if busyIndicator == Some(true) {
        busyIndicator := Some(false);
      }
      if webData.None? || |webData.value| == 0 {
        return;
      }
      var data, dates := webData.value, visibleDates.value;
      if dates == [] {
        // `First()` on the empty window throws in the first iteration.
        threw := true;
        return;
      }
      var first, last := First(dates), Last(dates);
      var filtered: seq<Appointment> := [];
      var i := 0;
      while i < |data|
        invariant 0 <= i <= |data|
        invariant filtered == Filter(data[..i], first, last)
      {
        var app := data[i];
        assert data[..i + 1][..i] == data[..i];
        if InWindow(app, first, last) {
          filtered := filtered + [app];
        }
        i := i + 1;
      }
      assert data[..i] == data;
      appointments := filtered;
    }

    /** The `WebData` setter: stores the data, then republishes `Appointments`. */
    method SetWebData(value: Option<seq<Appointment>>) returns (threw: bool)
      modifies this`webData, this`appointments, this`busyIndicator
      ensures webData == value && visibleDates == old(visibleDates)
      ensures busyIndicator ==
                if visibleDates.Some? && old(busyIndicator) == Some(true) then Some(false)
                else old(busyIndicator)
      ensures threw <==> visibleDates.Some? && value.Some? && value.value != [] && visibleDates.value == []
      ensures appointments == Published(visibleDates, value, old(appointments))
    {
      webData := value;
      threw := UpdateAppointments();
    }

    /**
     * The rest of `GetDataFromWebAPI` once the fetch has returned `fetched`:
     * assigns `WebData` (which republishes), then tags every fetched
     * appointment in place with a palette colour drawn from the first nine
     * slots. A null result skips the tagging. Because the published subset
     * holds the same objects, its appointments carry those colours too.
     */
    method CompleteFetch(fetched: Option<seq<Appointment>>) returns (threw: bool)
      requires Valid()
      modifies this`webData, this`appointments, this`busyIndicator, Fetched(fetched)
      ensures Valid()
      ensures webData == fetched && visibleDates == old(visibleDates)
      ensures busyIndicator ==
                if visibleDates.Some? && old(busyIndicator) == Some(true) then Some(false)
                else old(busyIndicator)
      ensures threw <==> visibleDates.Some? && fetched.Some? && fetched.value != [] && visibleDates.value == []
      ensures appointments == Published(visibleDates, fetched, old(appointments))
      ensures fetched.Some? ==> forall a :: a in fetched.value ==> a.color in colorCollection[..DrawnSlots]
      ensures visibleDates.Some? && visibleDates.value != [] && fetched.Some? && fetched.value != [] ==>
                forall a :: a in appointments ==> a.color in colorCollection[..DrawnSlots]
    {
      threw := SetWebData(fetched);
      if fetched.None? {
        return;
      }
      var data := fetched.value;
      ghost var published, busy := appointments, busyIndicator;
      var i := 0;
      while i < |data|
        invariant 0 <= i <= |data|
        invariant webData == fetched && appointments == published && busyIndicator == busy
        invariant forall j :: 0 <= j < i ==> data[j].color in colorCollection[..DrawnSlots]
      {
        var k :| 0 <= k < DrawnSlots;
        data[i].color := colorCollection[k];
        i := i + 1;
      }
    }
  }
}
