/**
 * The invitation analytics dashboard: per-invitation event lists, the view
 * and click totals of its table, and the seven daily buckets of its chart.
 *
 * The clock and the calendar are parameters: `today` is the number of the
 * current local day and `isoDate(n)` is the date-only ISO string
 * (`YYYY-MM-DD`) that the page derives for local day `n`.
 */
module Analytics {
  import opened Seqs
  import opened JsText

  datatype EventType = View | Click

  /** One row of the `invitation_analytics` table. */
  datatype AnalyticsEvent = AnalyticsEvent(
    id: string,
    inviteId: string,
    timestamp: string,
    location: string,
    device: string,
    referral: string,
    kind: EventType)

  /** One bar of the chart. */
  datatype DailyBucket = DailyBucket(date: string, views: nat, clicks: nat)

  /** One invitation as the dashboard lists it. */
  datatype InviteSummary = InviteSummary(
    id: string,
    title: string,
    inviteUrl: string,
    analytics: seq<AnalyticsEvent>)

  /** One row of the `invitations` query: its id and title. */
  datatype InviteRow = InviteRow(id: string, title: string)

  const WindowDays := 7

  ghost predicate Injective(isoDate: int -> string) {
    forall a, b :: isoDate(a) == isoDate(b) ==> a == b
  }

  // ---------------------------------------------------------------------------
  // The window of days

  /** The seven day keys ending today, oldest first. */
  function Window(today: int, isoDate: int -> string): (r: seq<string>)
    ensures |r| == WindowDays
    ensures r[0] == isoDate(today - 6) && r[WindowDays - 1] == isoDate(today)
    ensures forall k :: 0 < k < WindowDays ==> r[k] == isoDate(today - 6 + k)
  {
    seq(WindowDays, k => isoDate(today - (WindowDays - 1) + k))
  }

  /** The day keys of the window, pushed one per iteration as `getLast7Days` does. */
  method GetLast7Days(today: int, isoDate: int -> string) returns (days: seq<string>)
    ensures |days| == WindowDays
    ensures forall k :: 0 <= k < WindowDays ==> days[k] == isoDate(today - (WindowDays - 1) + k)
    ensures days == Window(today, isoDate)
  {
    days := [];
    var i := WindowDays - 1;
    while i >= 0
      invariant -1 <= i <= WindowDays - 1
      invariant |days| == WindowDays - 1 - i
      invariant forall k :: 0 <= k < |days| ==> days[k] == isoDate(today - (WindowDays - 1) + k)
    {
      days := days + [isoDate(today - i)];
      i := i - 1;
    }
  }

  /**
   * With a calendar that gives each day its own key, the window holds seven
   * different keys, the last is today's, the first is six days earlier's, and
   * a day's key is in the window exactly when the day is in the last week.
   */
  lemma WindowShape(today: int, isoDate: int -> string)
    requires Injective(isoDate)
    ensures Distinct(Window(today, isoDate))
    ensures Window(today, isoDate)[WindowDays - 1] == isoDate(today)
    ensures Window(today, isoDate)[0] == isoDate(today - (WindowDays - 1))
    ensures forall n :: isoDate(n) in Window(today, isoDate) <==> today - (WindowDays - 1) <= n <= today
  {
    var w := Window(today, isoDate);
    forall n | today - (WindowDays - 1) <= n <= today
      ensures isoDate(n) in w
    {
      assert w[n - today + (WindowDays - 1)] == isoDate(n);
    }
  }

  // ---------------------------------------------------------------------------
  // Bucketing

  /** `event.timestamp.slice(0, 10)`: the date-only part of the timestamp. */
  function DayOf(e: AnalyticsEvent): (d: string)
    ensures |d| <= 10 && |d| <= |e.timestamp| && d == e.timestamp[..|d|]
    ensures |e.timestamp| >= 10 ==> |d| == 10
    ensures |e.timestamp| < 10 ==> d == e.timestamp
  {
    Prefix(e.timestamp, 10)
  }

  /** `days.map(date => ({ date, views: 0, clicks: 0 }))`. */
  function ZeroFilled(days: seq<string>): (r: seq<DailyBucket>)
    ensures |r| == |days|
    ensures forall k :: 0 <= k < |r| ==> r[k] == DailyBucket(days[k], 0, 0)
  {
    seq(|days|, k requires 0 <= k < |days| => DailyBucket(days[k], 0, 0))
  }

  /** `views += 1` for a view, `clicks += 1` for a click, on one bucket. */
  function Bump(b: DailyBucket, kind: EventType): (r: DailyBucket)
    ensures r.date == b.date
    ensures r.views == b.views + (if kind == View then 1 else 0)
    ensures r.clicks == b.clicks + (if kind == Click then 1 else 0)
  {
    match kind
    case View => b.(views := b.views + 1)
    case Click => b.(clicks := b.clicks + 1)
  }

  /** The effect of one event of the `forEach`: bump the bucket of its day, if any. */
  function Record(buckets: seq<DailyBucket>, days: seq<string>, e: AnalyticsEvent): (r: seq<DailyBucket>)
    requires |buckets| == |days|
    ensures |r| == |buckets|
    ensures DayOf(e) !in days ==> r == buckets
    ensures DayOf(e) in days ==> var idx := IndexOf(days, DayOf(e));
      && days[idx] == DayOf(e)
      && r[idx] == Bump(buckets[idx], e.kind)
      && forall k :: 0 <= k < |r| && k != idx ==> r[k] == buckets[k]
  {
    var idx := IndexOf(days, DayOf(e));
    if idx == -1 then buckets else buckets[idx := Bump(buckets[idx], e.kind)]
  }

  /** The buckets after the `forEach` has visited every event of `events`, in order. */
  function Tally(days: seq<string>, events: seq<AnalyticsEvent>): (r: seq<DailyBucket>)
    ensures |r| == |days|
    ensures forall k :: 0 <= k < |r| ==> r[k].date == days[k]
    decreases |events|
  {
    if events == [] then ZeroFilled(days)
    else Record(Tally(days, events[..|events| - 1]), days, events[|events| - 1])
  }

  /** What `getChartData` returns for the day keys `days`: zero-filled for absent analytics. */
  function Chart(analytics: Option<seq<AnalyticsEvent>>, days: seq<string>): (r: seq<DailyBucket>)
    ensures |r| == |days|
    ensures forall k :: 0 <= k < |r| ==> r[k].date == days[k]
    ensures analytics == None || analytics == Some([]) ==>
              forall k :: 0 <= k < |r| ==> r[k].views == 0 && r[k].clicks == 0
  {
    match analytics
    case None => ZeroFilled(days)
    case Some(events) => Tally(days, events)
  }

  /** `getChartData`: zero-fill the seven buckets, then bump one bucket per in-window event. */
  method GetChartData(analytics: Option<seq<AnalyticsEvent>>, today: int, isoDate: int -> string)
    returns (data: array<DailyBucket>)
    ensures fresh(data)
    ensures data.Length == WindowDays
    ensures data[..] == Chart(analytics, Window(today, isoDate))
  {
    var days := GetLast7Days(today, isoDate);
    data := new DailyBucket[WindowDays](k requires 0 <= k < WindowDays => DailyBucket(days[k], 0, 0));
    assert data[..] == ZeroFilled(days);
    if analytics.Some? {
      CountEvents(data, days, analytics.value);
    }
  }

  /** The `forEach` of `getChartData`, over zero-filled buckets. */
  method CountEvents(data: array<DailyBucket>, days: seq<string>, events: seq<AnalyticsEvent>)
    requires data.Length == |days| && data[..] == ZeroFilled(days)
    modifies data
    ensures data[..] == Tally(days, events)
  {
    var i := 0;
    while i < |events|
      invariant 0 <= i <= |events|
      invariant data[..] == Tally(days, events[..i])
    {
      var e := events[i];
      TallyStep(days, events, i);
      var idx := IndexOf(days, DayOf(e));
      if idx != -1 {
        // `views += 1` for a view, `clicks += 1` for a click
        data[idx] := Bump(data[idx], e.kind);
      }
      i := i + 1;
    }
    assert events[..i] == events;
  }

  /** One turn of the `forEach`: the tally of one more event records that event. */
  lemma TallyStep(days: seq<string>, events: seq<AnalyticsEvent>, i: nat)
    requires i < |events|
    ensures Tally(days, events[..i + 1]) == Record(Tally(days, events[..i]), days, events[i])
  {
    assert events[..i + 1][..i] == events[..i];
  }

  /** An event whose day is not a window key leaves every bucket as it was. */
  lemma OutOfWindowIgnored(days: seq<string>, events: seq<AnalyticsEvent>, e: AnalyticsEvent)
    requires DayOf(e) !in days
    ensures Tally(days, events + [e]) == Tally(days, events)
  {
    assert (events + [e])[..|events|] == events;
  }

  /**
   * An event whose day is a window key bumps by one the counter of its type
   * in the bucket of its day, and changes nothing else; with distinct keys
   * that bucket is the only one whose date is the event's day.
   */
  lemma InWindowCountsOnce(days: seq<string>, events: seq<AnalyticsEvent>, e: AnalyticsEvent)
    requires DayOf(e) in days
    ensures var before, after, idx := Tally(days, events), Tally(days, events + [e]), IndexOf(days, DayOf(e));
      && days[idx] == DayOf(e)
      && after[idx].views == before[idx].views + (if e.kind == View then 1 else 0)
      && after[idx].clicks == before[idx].clicks + (if e.kind == Click then 1 else 0)
      && forall k :: 0 <= k < |days| && k != idx ==> after[k] == before[k]
    ensures Distinct(days) ==> forall k :: 0 <= k < |days| ==> (days[k] == DayOf(e) <==> k == IndexOf(days, DayOf(e)))
  {
    assert (events + [e])[..|events|] == events;
  }

  // ---------------------------------------------------------------------------
  // Count conservation

  predicate CountsIn(e: AnalyticsEvent, days: seq<string>, kind: EventType) {
    e.kind == kind && DayOf(e) in days
  }

  /** The number of events of type `kind` whose day is a key of `days`. */
  function CountInWindow(events: seq<AnalyticsEvent>, days: seq<string>, kind: EventType): nat
    decreases |events|
  {
    if events == [] then 0
    else
      var e := events[|events| - 1];
      CountInWindow(events[..|events| - 1], days, kind) + (if CountsIn(e, days, kind) then 1 else 0)
  }

  function Counter(b: DailyBucket, kind: EventType): nat {
    match kind
    case View => b.views
    case Click => b.clicks
  }

  /** The sum over the buckets of the counter of `kind`. */
  function Total(buckets: seq<DailyBucket>, kind: EventType): nat
    decreases |buckets|
  {
    if buckets == [] then 0 else Counter(buckets[0], kind) + Total(buckets[1..], kind)
  }

  lemma {:induction false} TotalUpdate(buckets: seq<DailyBucket>, k: nat, b: DailyBucket, kind: EventType)
    requires k < |buckets|
    ensures Total(buckets[k := b], kind) + Counter(buckets[k], kind) == Total(buckets, kind) + Counter(b, kind)
    decreases |buckets|
  {
    if k > 0 {
      assert buckets[k := b][1..] == buckets[1..][k - 1 := b];
      TotalUpdate(buckets[1..], k - 1, b, kind);
    }
  }

  lemma {:induction false} TotalZero(days: seq<string>, kind: EventType)
    ensures Total(ZeroFilled(days), kind) == 0
    decreases |days|
  {
    if days != [] {
      assert ZeroFilled(days)[1..] == ZeroFilled(days[1..]);
      TotalZero(days[1..], kind);
    }
  }

  /**
   * Summed over the buckets, the views are the view events whose day is in the
   * window, and the clicks are the click events whose day is in the window.
   */
  lemma {:induction false} TallyConserves(days: seq<string>, events: seq<AnalyticsEvent>, kind: EventType)
    ensures Total(Tally(days, events), kind) == CountInWindow(events, days, kind)
    decreases |events|
  {
    if events == [] {
      TotalZero(days, kind);
    } else {
      var init, e := events[..|events| - 1], events[|events| - 1];
      TallyConserves(days, init, kind);
      var before := Tally(days, init);
      var idx := IndexOf(days, DayOf(e));
      if idx != -1 {
        TotalUpdate(before, idx, Bump(before[idx], e.kind), kind);
      }
    }
  }

  /** The same count bucket by bucket: the reference definition of one bar. */
  function CountOnDay(events: seq<AnalyticsEvent>, days: seq<string>, k: int, kind: EventType): nat
    decreases |events|
  {
    if events == [] then 0
    else
      var e := events[|events| - 1];
      CountOnDay(events[..|events| - 1], days, k, kind)
        + (if e.kind == kind && IndexOf(days, DayOf(e)) == k then 1 else 0)
  }

  /** Each bar holds exactly the events of its type that the first matching key claims. */
  lemma {:induction false} TallyClosedForm(days: seq<string>, events: seq<AnalyticsEvent>, k: nat)
    requires k < |days|
    ensures Tally(days, events)[k] == DailyBucket(days[k], CountOnDay(events, days, k, View), CountOnDay(events, days, k, Click))
    decreases |events|
  {
    if events != [] {
      TallyClosedForm(days, events[..|events| - 1], k);
    }
  }

  // ---------------------------------------------------------------------------
  // Per-invitation lists and the table's counts

  /** `analytics.filter(a => a.invite_id === inviteId)`. */
  function EventsFor(analytics: seq<AnalyticsEvent>, inviteId: string): (r: seq<AnalyticsEvent>)
    ensures IsSubsequence(r, analytics)
    ensures forall e :: e in r <==> e in analytics && e.inviteId == inviteId
    ensures forall e: AnalyticsEvent :: e.inviteId == inviteId ==> multiset(r)[e] == multiset(analytics)[e]
  {
    Filter(analytics, (e: AnalyticsEvent) => e.inviteId == inviteId)
  }

  predicate IsView(e: AnalyticsEvent) { e.kind == View }
  predicate IsClick(e: AnalyticsEvent) { e.kind == Click }

  /** The table's Views cell: `analytics.filter(a => a.type === 'view').length`. */
  function ViewCount(analytics: seq<AnalyticsEvent>): (n: nat)
    ensures n <= |analytics|
    ensures n == 0 <==> forall e :: e in analytics ==> !IsView(e)
  {
    |Filter(analytics, IsView)|
  }

  /** The table's Clicks cell: `analytics.filter(a => a.type === 'click').length`. */
  function ClickCount(analytics: seq<AnalyticsEvent>): (n: nat)
    ensures n <= |analytics|
    ensures n == 0 <==> forall e :: e in analytics ==> !IsClick(e)
  {
    |Filter(analytics, IsClick)|
  }

  /** Every event is a view or a click, so the two cells add up to the number of events. */
  lemma {:induction false} CountsPartition(analytics: seq<AnalyticsEvent>)
    ensures ViewCount(analytics) + ClickCount(analytics) == |analytics|
    decreases |analytics|
  {
    if analytics != [] {
      CountsPartition(analytics[1..]);
    }
  }

  function KindCount(analytics: seq<AnalyticsEvent>, kind: EventType): nat {
    match kind
    case View => ViewCount(analytics)
    case Click => ClickCount(analytics)
  }

  /** The chart of an invitation never shows more views or clicks than its table row. */
  lemma {:induction false} ChartWithinTable(days: seq<string>, analytics: seq<AnalyticsEvent>, kind: EventType)
    ensures Total(Tally(days, analytics), kind) <= KindCount(analytics, kind)
    decreases |analytics|
  {
    TallyConserves(days, analytics, kind);
    WindowCountBound(days, analytics, kind);
  }

  lemma {:induction false} WindowCountBound(days: seq<string>, analytics: seq<AnalyticsEvent>, kind: EventType)
    ensures CountInWindow(analytics, days, kind) <= KindCount(analytics, kind)
    decreases |analytics|
  {
    if analytics != [] {
      var init, e := analytics[..|analytics| - 1], analytics[|analytics| - 1];
      WindowCountBound(days, init, kind);
      assert analytics == init + [e];
      assert CountInWindow(analytics, days, kind) == CountInWindow(init, days, kind) + (if CountsIn(e, days, kind) then 1 else 0);
      match kind
      case View =>
        FilterConcat(init, [e], IsView);
        assert |Filter(analytics, IsView)| >= |Filter(init, IsView)| + (if IsView(e) then 1 else 0);
      case Click =>
        FilterConcat(init, [e], IsClick);
        assert |Filter(analytics, IsClick)| >= |Filter(init, IsClick)| + (if IsClick(e) then 1 else 0);
    }
  }

  /** `${window.location.origin}/invite/${id}`. */
  function InviteUrl(origin: string, id: string): (url: string)
    ensures |url| == |origin| + 8 + |id|
    ensures url[..|origin|] == origin && url[|url| - |id|..] == id
    ensures url[|origin|..|origin| + 8] == "/invite/"
  {
    origin + "/invite/" + id
  }

  /**
   * The list the dashboard builds after its two queries: nothing when the
   * invitation query failed, else one entry per invitation, in query order,
   * holding exactly the fetched events of that invitation. No invitation,
   * or a failed event query, means no events.
   */
  function Summaries(invites: Option<seq<InviteRow>>, fetched: Option<seq<AnalyticsEvent>>, origin: string)
    : (r: seq<InviteSummary>)
    ensures invites == None ==> r == []
    ensures invites.Some? ==> |r| == |invites.value|
    ensures invites.Some? ==> forall i :: 0 <= i < |r| ==>
              && r[i].id == invites.value[i].id
              && r[i].title == invites.value[i].title
              && r[i].inviteUrl == InviteUrl(origin, invites.value[i].id)
              && r[i].analytics == EventsFor(if fetched.Some? then fetched.value else [], invites.value[i].id)
  {
    match invites
    case None => []
    case Some(rows) =>
      var analytics := if |rows| > 0 then fetched.GetOr([]) else [];
      seq(|rows|, i requires 0 <= i < |rows| =>
        InviteSummary(rows[i].id, rows[i].title, InviteUrl(origin, rows[i].id), EventsFor(analytics, rows[i].id)))
  }
}
