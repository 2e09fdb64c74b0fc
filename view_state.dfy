/** The view switch of src/components/TimelineChart.jsx: which chart is shown
    and the time range each chart remembers. */
module ViewState {
  import opened Timeline

  datatype View = SessionsView | CumulativeView | DailyView | LeaderboardView

  /** The remembered range of each of the four views. */
  datatype Ranges = Ranges(sessions: Range, cumulative: Range, daily: Range, leaderboard: Range)
  {
    function Get(v: View): Range
    {
      match v
      case SessionsView => sessions
      case CumulativeView => cumulative
      case DailyView => daily
      case LeaderboardView => leaderboard
    }

    /** The ranges with the one of `v` replaced. */
    function Set(v: View, r: Range): (u: Ranges)
      ensures u.Get(v) == r
      ensures forall w :: w != v ==> u.Get(w) == Get(w)
    {
      match v
      case SessionsView => this.(sessions := r)
      case CumulativeView => this.(cumulative := r)
      case DailyView => this.(daily := r)
      case LeaderboardView => this.(leaderboard := r)
    }
  }

  /** The range buttons drawn for a view: the daily view has no 24h button. */
  predicate Offered(v: View, r: Range)
  {
    v != DailyView || r != Today
  }

  class RangeSelector {
    var viewType: View
    var timeRanges: Ranges

    /** The daily chart is never drawn over a 24h window. */
    ghost predicate DailyNeverToday()
      reads this
    {
      viewType == DailyView ==> timeRanges.daily != Today
    }

    /** The sessions view, with every view on 7 days. */
    constructor ()
      ensures DailyNeverToday()
      ensures viewType == SessionsView
      ensures forall v :: timeRanges.Get(v) == Week
    {
      viewType := SessionsView;
      timeRanges := Ranges(Week, Week, Week, Week);
    }

    /** The range of the view on screen. */
    function TimeRange(): Range
      reads this
    {
      timeRanges.Get(viewType)
    }

    /** A range button changes the range of the view on screen and of no
        other view. */
    method SetTimeRange(newTimeRange: Range)
      modifies this
      ensures viewType == old(viewType)
      ensures TimeRange() == newTimeRange
      ensures forall v :: v != viewType ==> timeRanges.Get(v) == old(timeRanges.Get(v))
      ensures Offered(viewType, newTimeRange) && old(DailyNeverToday()) ==> DailyNeverToday()
    {
      timeRanges := timeRanges.Set(viewType, newTimeRange);
    }

    /** Switching views keeps every remembered range, except that the daily
        view is moved from 24h to 7 days. */
    method HandleViewTypeChange(newViewType: View)
      modifies this
      ensures DailyNeverToday()
      ensures viewType == newViewType
      ensures forall v :: v != DailyView ==> timeRanges.Get(v) == old(timeRanges.Get(v))
      ensures timeRanges.daily
        == if newViewType == DailyView && old(timeRanges.daily) == Today then Week
           else old(timeRanges.daily)
    {
      viewType := newViewType;
      if newViewType == DailyView && timeRanges.Get(newViewType) == Today {
        timeRanges := timeRanges.Set(newViewType, Week);
      }
    }
  }
}
