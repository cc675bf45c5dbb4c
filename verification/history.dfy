/** The donation-history screen: a fixed list of past donations, a status
    filter chosen with four buttons, counts over the whole list, and the
    colour and icon shown for each status. */
module History {
  import opened Wrappers

  // ---------------------------------------------------------------------
  // Donations
  // ---------------------------------------------------------------------

  /** One past donation. Volunteer details and impact are present only on
      some records, and only a cancelled one carries a reason. */
  datatype Donation = Donation(
    id: string,
    foodName: string,
    quantity: string,
    category: string,
    date: string,
    time: string,
    status: string,
    recipient: string,
    address: string,
    volunteerName: Option<string>,
    volunteerPhone: Option<string>,
    impact: Option<string>,
    reason: Option<string>)

  const Collected := "Collected"
  const Pending := "Pending"
  const Cancelled := "Cancelled"
  const All := "All"

  /** The statuses the screen draws with their own colour and icon. */
  predicate KnownStatus(s: string) {
    s == Collected || s == Pending || s == Cancelled
  }

  /** The sample history the screen shows. */
  const SeedHistory: seq<Donation> := [
    Donation("1", "Rice & Curry", "10 plates", "Vegetarian", "2025-08-28", "2:30 PM", Collected,
             "Hope Foundation NGO", "MG Road, Bangalore", Some("Arjun Kumar"), Some("+91 9876543210"),
             Some("15 people fed"), None),
    Donation("2", "Sandwiches & Juice", "25 pieces", "Vegetarian", "2025-08-30", "6:45 PM", Pending,
             "Street Children Shelter", "HSR Layout, Bangalore", None, None,
             Some("20+ people to be fed"), None),
    Donation("3", "Biryani", "8 kg", "Non-Vegetarian", "2025-08-26", "1:15 PM", Collected,
             "Elder Care Home", "Koramangala, Bangalore", Some("Priya Sharma"), Some("+91 9123456789"),
             Some("30 elderly people fed"), None),
    Donation("4", "Fresh Vegetables", "15 kg", "Raw Ingredients", "2025-08-25", "4:20 PM", Cancelled,
             "Community Kitchen", "Whitefield, Bangalore", None, None,
             None, Some("Donor cancelled due to emergency"))
  ]

  // ---------------------------------------------------------------------
  // Filtering
  // ---------------------------------------------------------------------

  /** `a` is `b` with some elements removed and the rest kept in order. */
  predicate IsSubsequence<T(==)>(a: seq<T>, b: seq<T>)
    decreases |b|
  {
    a == [] || (b != [] && (IsSubsequence(a, b[1..]) || (a[0] == b[0] && IsSubsequence(a[1..], b[1..]))))
  }

  /** `history.filter(item => item.status === status)`: the result holds
      each donation of that status as often as the history does, and
      nothing else. */
  function WithStatus(history: seq<Donation>, status: string): (r: seq<Donation>)
    ensures |r| <= |history|
    ensures forall d :: d in r <==> d in history && d.status == status
    ensures forall d :: multiset(r)[d] == if d.status == status then multiset(history)[d] else 0
  {
    if history == [] then []
    else
      var rest := WithStatus(history[1..], status);
      assert history == [history[0]] + history[1..];
      if history[0].status == status then [history[0]] + rest else rest
  }

  /** The filtered list keeps the history's order. */
  lemma {:induction false} WithStatusIsSubsequence(history: seq<Donation>, status: string)
    ensures IsSubsequence(WithStatus(history, status), history)
  {
    if history != [] {
      WithStatusIsSubsequence(history[1..], status);
      var rest := WithStatus(history[1..], status);
      if history[0].status == status {
        assert ([history[0]] + rest)[1..] == rest;
      }
    }
  }

  /** The list the screen shows for a filter: the whole history for "All",
      otherwise the donations whose status equals the filter. */
  function FilteredData(history: seq<Donation>, filter: string): (r: seq<Donation>)
    ensures filter == All ==> r == history
    ensures filter != All ==> forall d :: d in r <==> d in history && d.status == filter
  {
    if filter == All then history else WithStatus(history, filter)
  }

  /** Whatever the filter, the shown list is the history with some entries
      left out and the others in their original order. */
  lemma FilteredDataIsSubsequence(history: seq<Donation>, filter: string)
    ensures IsSubsequence(FilteredData(history, filter), history)
  {
    if filter == All {
      SubsequenceReflexive(history);
    } else {
      WithStatusIsSubsequence(history, filter);
    }
  }

  lemma {:induction false} SubsequenceReflexive<T>(a: seq<T>)
    ensures IsSubsequence(a, a)
    decreases |a|
  {
    if a != [] {
      SubsequenceReflexive(a[1..]);
    }
  }

  // ---------------------------------------------------------------------
  // Statistics
  // ---------------------------------------------------------------------

  datatype Stats = Stats(total: nat, collected: nat, pending: nat)

  /** The three counts shown above the list. They are taken over the whole
      history, so the active filter plays no part. */
  function RenderStats(history: seq<Donation>): (s: Stats)
    ensures s.total == |history|
    ensures s.collected + s.pending <= s.total
  {
    DisjointFiltersFit(history, Collected, Pending);
    Stats(|history|, |WithStatus(history, Collected)|, |WithStatus(history, Pending)|)
  }

  /** Filters for two different statuses pick disjoint parts of the
      history, so together they pick at most all of it. */
  lemma {:induction false} DisjointFiltersFit(history: seq<Donation>, a: string, b: string)
    requires a != b
    ensures |WithStatus(history, a)| + |WithStatus(history, b)| <= |history|
  {
    if history != [] {
      DisjointFiltersFit(history[1..], a, b);
    }
  }

  /** When every status is one of the three known ones, the three status
      filters split the history exactly. */
  lemma {:induction false} StatusFiltersPartition(history: seq<Donation>)
    requires forall i :: 0 <= i < |history| ==> KnownStatus(history[i].status)
    ensures |WithStatus(history, Collected)| + |WithStatus(history, Pending)|
            + |WithStatus(history, Cancelled)| == |history|
  {
    if history != [] {
      assert KnownStatus(history[0].status);
      StatusFiltersPartition(history[1..]);
    }
  }

  /** The status filters on a four-entry history whose statuses are
      collected, pending, collected and cancelled. */
  lemma FiltersOfFour(h: seq<Donation>)
    requires |h| == 4
    requires h[0].status == Collected && h[1].status == Pending
    requires h[2].status == Collected && h[3].status == Cancelled
    ensures WithStatus(h, Collected) == [h[0], h[2]]
    ensures WithStatus(h, Pending) == [h[1]]
  {
    assert WithStatus(h[3..], Collected) == [];
    assert WithStatus(h[2..], Collected) == [h[2]];
    assert WithStatus(h[1..], Collected) == [h[2]];
    assert WithStatus(h[3..], Pending) == [];
    assert WithStatus(h[2..], Pending) == [];
    assert WithStatus(h[1..], Pending) == [h[1]];
  }

  /** The sample data's statuses, in order. */
  lemma SeedStatuses()
    ensures |SeedHistory| == 4
    ensures SeedHistory[0].status == Collected && SeedHistory[1].status == Pending
    ensures SeedHistory[2].status == Collected && SeedHistory[3].status == Cancelled
    ensures SeedHistory[1].id == "2"
  {
  }

  /** The sample data gives 4 donations, 2 collected and 1 pending. */
  lemma SeedStats()
    ensures RenderStats(SeedHistory) == Stats(4, 2, 1)
  {
    SeedStatuses();
    FiltersOfFour(SeedHistory);
  }

  // ---------------------------------------------------------------------
  // Status styling
  // ---------------------------------------------------------------------

  const DefaultColor := "#757575"
  const DefaultIcon := "help"

  /** The badge colour: green, orange and red for the three known
      statuses, grey for anything else. */
  function StatusColor(status: string): (r: string)
    ensures !KnownStatus(status) <==> r == DefaultColor
  {
    if status == Collected then "#4CAF50"
    else if status == Pending then "#FF9800"
    else if status == Cancelled then "#F44336"
    else DefaultColor
  }

  /** The badge icon, with the question-mark icon for anything unknown. */
  function StatusIcon(status: string): (r: string)
    ensures !KnownStatus(status) <==> r == DefaultIcon
  {
    if status == Collected then "check-circle"
    else if status == Pending then "schedule"
    else if status == Cancelled then "cancel"
    else DefaultIcon
  }

  /** Colour and icon both tell the three known statuses apart. */
  lemma StatusStylesDistinguish(a: string, b: string)
    requires KnownStatus(a) && KnownStatus(b) && a != b
    ensures StatusColor(a) != StatusColor(b)
    ensures StatusIcon(a) != StatusIcon(b)
  {
  }

  // ---------------------------------------------------------------------
  // The screen
  // ---------------------------------------------------------------------

  /** The labels of the four filter buttons, each of which sets the filter
      to its own label. */
  const FilterButtons := [All, Collected, Pending, Cancelled]

  class HistoryScreen {
    const history: seq<Donation>
    var filter: string

    ghost predicate Valid()
      reads this
    {
      filter in FilterButtons
    }

    /** The sample history, shown unfiltered. */
    constructor ()
      ensures Valid()
      ensures history == SeedHistory && filter == All
    {
      history := SeedHistory;
      filter := All;
    }

    /** A filter button stores its label; the history is untouched. */
    method SetFilter(button: string)
      requires Valid() && button in FilterButtons
      modifies this
      ensures Valid()
      ensures filter == button
    {
      filter := button;
    }

    /** What the list shows under the current filter. */
    function Shown(): seq<Donation>
      reads this
    {
      FilteredData(history, filter)
    }
  }

  /** Pressing "Pending" on the fresh screen shows the one pending
      donation, and the counts stay those of the whole history. */
  method PendingOnFreshScreen() returns (shown: seq<Donation>, stats: Stats)
    ensures |shown| == 1 && shown[0].id == "2" && shown[0].status == Pending
    ensures stats == Stats(4, 2, 1)
  {
    var screen := new HistoryScreen();
    screen.SetFilter(Pending);
    SeedStatuses();
    FiltersOfFour(screen.history);
    SeedStats();
    shown := screen.Shown();
    stats := RenderStats(screen.history);
  }
}
