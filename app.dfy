/** The page shell (src/components/App.tsx): which of the three views is
    shown, and the system the detail view is about. */
module Navigation {
  import opened Common
  import opened Types

  datatype View = FleetView | SystemView | ReportingView

  /** What `renderCurrentView` returns: one of the three pages, or `null`. */
  datatype Screen = FleetScreen | SystemScreen(system: InspectionSystem) | ReportingScreen | Blank

  /** The two state fields of the component; the handlers update them. */
  class App {
    var view: View
    var selected: Option<InspectionSystem>

    /** The detail view is only ever shown with a system selected. */
    ghost predicate Valid()
      reads this
    {
      view == SystemView ==> selected.Some?
    }

    /** `useState('fleet')` and `useState(null)`. */
    constructor ()
      ensures Valid()
      ensures view == FleetView && selected == None
    {
      view := FleetView;
      selected := None;
    }

    /** `handleSystemSelect(system)`. */
    method SystemSelect(system: InspectionSystem)
      requires Valid()
      modifies this
      ensures Valid()
      ensures view == SystemView && selected == Some(system)
    {
      selected := Some(system);
      view := SystemView;
    }

    /** `handleBackToFleet()`. */
    method BackToFleet()
      requires Valid()
      modifies this
      ensures Valid()
      ensures view == FleetView && selected == None
    {
      view := FleetView;
      selected := None;
    }

    /** `handleShowReporting()`: the selection stays as it was. */
    method ShowReporting()
      requires Valid()
      modifies this
      ensures Valid()
      ensures view == ReportingView && selected == old(selected)
    {
      view := ReportingView;
    }

    /** `renderCurrentView()`: in a valid state the `null` branch is never
        taken, and the detail page shows the selected system. */
    function Render(): (screen: Screen)
      reads this
      ensures Valid() ==> screen != Blank
      ensures Valid() && view == SystemView ==> screen == SystemScreen(selected.value)
      ensures view == FleetView <==> screen == FleetScreen
      ensures view == ReportingView <==> screen == ReportingScreen
    {
      match view
      case FleetView => FleetScreen
      case SystemView => if selected.Some? then SystemScreen(selected.value) else Blank
      case ReportingView => ReportingScreen
    }
  }
}
