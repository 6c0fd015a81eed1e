/**
 * Campaign reports: one scan over events, imports and conversions into counters, and the conservation laws the
 * counters obey. A selection of campaigns is a set of ids; `day` maps a time to its calendar day.
 */
module CampaignMetrics {
  import opened Common
  import opened Attribution
  import opened CampaignEvents
  import Conversions

  type Day = nat

  datatype Window = Window(from: int, to: int)

  predicate Within(w: Window, t: int) {
    w.from <= t < w.to
  }

  datatype Metric = Impressions | Clicks | OtherMetric
  datatype Aggregate = Aggregate(metric: Metric, campaign: CampaignId, provider: string, value: nat, start: int, end: int,
                                 active: bool)

  datatype Counters = Counters(clicks: nat, starts: nat, starters: set<Identity>, joins: nat, joiners: set<Identity>,
                               alerts: nat, alerters: set<Identity>, leads: nat, customers: nat, clients: set<Identity>,
                               impressions: Option<nat>, included: nat, partial: nat, other: nat, providers: set<string>)

  datatype DayRow = DayRow(clicks: nat, starts: nat, leads: nat, customers: nat)

  const NOTHING := Counters(0, 0, {}, 0, {}, 0, {}, 0, 0, {}, None, 0, 0, 0, {})
  const QUIET_DAY := DayRow(0, 0, 0, 0)

  function With(ids: set<Identity>, id: Option<Identity>): set<Identity> {
    if id.Some? then ids + {id.value} else ids
  }

  // --- one row at a time -------------------------------------------------------------------------------------------

  function AddEvent(x: Counters, e: Event): Counters {
    match e.stage
    case Click => x.(clicks := x.clicks + 1)
    case Start => x.(starts := x.starts + 1, starters := With(x.starters, e.identity))
    case ChannelJoin => x.(joins := x.joins + 1, joiners := With(x.joiners, e.identity))
    case AlertCreated => x.(alerts := x.alerts + 1, alerters := With(x.alerters, e.identity))
  }

  /** An aggregate counts only when its whole period lies in the window; nothing is prorated. */
  function AddAggregate(x: Counters, a: Aggregate, w: Window): Counters {
    if a.metric == OtherMetric then x.(other := x.other + 1)
    else if a.start < w.from || a.end >= w.to then x.(partial := x.partial + 1)
    else
      var counted := x.(included := x.included + 1, providers := x.providers + {a.provider});
      if a.metric == Impressions
      then counted.(impressions := Some((if x.impressions.Some? then x.impressions.value else 0) + a.value))
      else counted.(clicks := x.clicks + a.value)
  }

  function AddConversion(x: Counters, row: Conversions.Conversion): Counters {
    var counted := x.(clients := x.clients + {row.identity});
    if row.kind == Conversions.Lead then counted.(leads := x.leads + 1) else counted.(customers := x.customers + 1)
  }

  // --- what one campaign, one day, one bucket gets from all rows -----------------------------------------------------

  predicate Concerns(e: Event, w: Window, c: CampaignId) {
    e.campaign == Some(c) && Within(w, e.at)
  }

  function EventsOf(events: seq<Event>, w: Window, c: CampaignId): Counters {
    if events == [] then NOTHING
    else
      var before, last := EventsOf(events[..|events| - 1], w, c), events[|events| - 1];
      if Concerns(last, w, c) then AddEvent(before, last) else before
  }

  function AggregatesOf(x: Counters, imports: seq<Aggregate>, w: Window, c: CampaignId): Counters {
    if imports == [] then x
    else
      var before, last := AggregatesOf(x, imports[..|imports| - 1], w, c), imports[|imports| - 1];
      if last.active && last.campaign == c then AddAggregate(before, last, w) else before
  }

  predicate Straddles(a: Aggregate, w: Window) {
    a.metric != OtherMetric && (a.start < w.from || a.end >= w.to)
  }

  function Excluded(imports: seq<Aggregate>, w: Window, selected: set<CampaignId>): nat {
    if imports == [] then 0
    else
      var last := imports[|imports| - 1];
      Excluded(imports[..|imports| - 1], w, selected) +
      if last.active && last.campaign in selected && Straddles(last, w) then 1 else 0
  }

  predicate Counts(row: Conversions.Conversion, w: Window) {
    row.status == Conversions.Active && Within(w, row.at)
  }

  function ConversionsOf(x: Counters, rows: seq<Conversions.Conversion>, w: Window, c: CampaignId): Counters {
    if rows == [] then x
    else
      var before, last := ConversionsOf(x, rows[..|rows| - 1], w, c), rows[|rows| - 1];
      if Counts(last, w) && last.campaign == Some(c) then AddConversion(before, last) else before
  }

  function CountersOf(events: seq<Event>, imports: seq<Aggregate>, rows: seq<Conversions.Conversion>, w: Window,
                      c: CampaignId): Counters {
    ConversionsOf(AggregatesOf(EventsOf(events, w, c), imports, w, c), rows, w, c)
  }

  /** Credited to a campaign that the report selects. */
  predicate Credited(row: Conversions.Conversion, selected: set<CampaignId>) {
    row.campaign.Some? && row.campaign.value in selected
  }

  /** A conversion whose campaign is not selected is left in its bucket, be that bucket InCampaign. */
  function Unattributed(rows: seq<Conversions.Conversion>, w: Window, selected: set<CampaignId>, b: Bucket): nat {
    if rows == [] then 0
    else
      var last := rows[|rows| - 1];
      Unattributed(rows[..|rows| - 1], w, selected, b) +
      if Counts(last, w) && !Credited(last, selected) && last.bucket == b then 1 else 0
  }

  predicate Selected(e: Event, w: Window, selected: set<CampaignId>) {
    e.campaign.Some? && e.campaign.value in selected && Within(w, e.at)
  }

  function DayOfEvents(events: seq<Event>, w: Window, selected: set<CampaignId>, day: int -> Day, d: Day): DayRow {
    if events == [] then QUIET_DAY
    else
      var before, last := DayOfEvents(events[..|events| - 1], w, selected, day, d), events[|events| - 1];
      if !Selected(last, w, selected) || day(last.at) != d then before
      else if last.stage == Click then before.(clicks := before.clicks + 1)
      else if last.stage == Start then before.(starts := before.starts + 1)
      else before
  }

  function DayOfConversions(x: DayRow, rows: seq<Conversions.Conversion>, w: Window, selected: set<CampaignId>,
                            day: int -> Day, d: Day): DayRow {
    if rows == [] then x
    else
      var before, last := DayOfConversions(x, rows[..|rows| - 1], w, selected, day, d), rows[|rows| - 1];
      if !Counts(last, w) || !Credited(last, selected) || day(last.at) != d then before
      else if last.kind == Conversions.Lead then before.(leads := before.leads + 1)
      else before.(customers := before.customers + 1)
  }

  // --- the scan --------------------------------------------------------------------------------------------------------

  function Get<K, V>(m: map<K, V>, k: K, default: V): V {
    if k in m then m[k] else default
  }

  datatype Report = Report(counters: map<CampaignId, Counters>, unattributed: map<Bucket, nat>, days: map<Day, DayRow>,
                           excluded: nat)

  method ScanEvents(events: seq<Event>, w: Window, selected: set<CampaignId>, day: int -> Day)
      returns (counters: map<CampaignId, Counters>, days: map<Day, DayRow>)
    ensures forall c :: Get(counters, c, NOTHING) == if c in selected then EventsOf(events, w, c) else NOTHING
    ensures forall d :: Get(days, d, QUIET_DAY) == DayOfEvents(events, w, selected, day, d)
  {
    counters, days := map[], map[];
    for i := 0 to |events|
      invariant forall c :: Get(counters, c, NOTHING) == if c in selected then EventsOf(events[..i], w, c) else NOTHING
      invariant forall d :: Get(days, d, QUIET_DAY) == DayOfEvents(events[..i], w, selected, day, d)
    {
      assert events[..i + 1][..i] == events[..i];
      var e := events[i];
      if Selected(e, w, selected) {
        var c, d := e.campaign.value, day(e.at);
        counters := counters[c := AddEvent(Get(counters, c, NOTHING), e)];
        if e.stage == Click {
          days := days[d := Get(days, d, QUIET_DAY).(clicks := Get(days, d, QUIET_DAY).clicks + 1)];
        } else if e.stage == Start {
          days := days[d := Get(days, d, QUIET_DAY).(starts := Get(days, d, QUIET_DAY).starts + 1)];
        }
      }
    }
    assert events[..|events|] == events;
  }

  method ScanImports(counters0: map<CampaignId, Counters>, imports: seq<Aggregate>, w: Window, selected: set<CampaignId>)
      returns (counters: map<CampaignId, Counters>, excluded: nat)
    ensures forall c :: Get(counters, c, NOTHING) ==
              if c in selected then AggregatesOf(Get(counters0, c, NOTHING), imports, w, c) else Get(counters0, c, NOTHING)
    ensures excluded == Excluded(imports, w, selected)
  {
    counters, excluded := counters0, 0;
    for i := 0 to |imports|
      invariant forall c :: Get(counters, c, NOTHING) ==
                  if c in selected then AggregatesOf(Get(counters0, c, NOTHING), imports[..i], w, c)
                  else Get(counters0, c, NOTHING)
      invariant excluded == Excluded(imports[..i], w, selected)
    {
      assert imports[..i + 1][..i] == imports[..i];
      var a := imports[i];
      if a.active && a.campaign in selected {
        if a.metric != OtherMetric && (a.start < w.from || a.end >= w.to) {
          excluded := excluded + 1;
        }
        counters := counters[a.campaign := AddAggregate(Get(counters, a.campaign, NOTHING), a, w)];
      }
    }
    assert imports[..|imports|] == imports;
  }

  method ScanConversions(counters0: map<CampaignId, Counters>, days0: map<Day, DayRow>, rows: seq<Conversions.Conversion>,
                         w: Window, selected: set<CampaignId>, day: int -> Day)
      returns (counters: map<CampaignId, Counters>, unattributed: map<Bucket, nat>, days: map<Day, DayRow>)
    ensures forall c :: Get(counters, c, NOTHING) ==
              if c in selected then ConversionsOf(Get(counters0, c, NOTHING), rows, w, c) else Get(counters0, c, NOTHING)
    ensures forall b :: Get(unattributed, b, 0) == Unattributed(rows, w, selected, b)
    ensures forall d :: Get(days, d, QUIET_DAY) == DayOfConversions(Get(days0, d, QUIET_DAY), rows, w, selected, day, d)
  {
    counters, unattributed, days := counters0, map[], days0;
    for i := 0 to |rows|
      invariant forall c :: Get(counters, c, NOTHING) ==
                  if c in selected then ConversionsOf(Get(counters0, c, NOTHING), rows[..i], w, c)
                  else Get(counters0, c, NOTHING)
      invariant forall b :: Get(unattributed, b, 0) == Unattributed(rows[..i], w, selected, b)
      invariant forall d :: Get(days, d, QUIET_DAY) == DayOfConversions(Get(days0, d, QUIET_DAY), rows[..i], w, selected, day, d)
    {
      assert rows[..i + 1][..i] == rows[..i];
      var row := rows[i];
      if Counts(row, w) {
        if Credited(row, selected) {
          var c, d := row.campaign.value, day(row.at);
          counters := counters[c := AddConversion(Get(counters, c, NOTHING), row)];
          var bucket := Get(days, d, QUIET_DAY);
          days := days[d := if row.kind == Conversions.Lead then bucket.(leads := bucket.leads + 1)
                            else bucket.(customers := bucket.customers + 1)];
        } else {
          unattributed := unattributed[row.bucket := Get(unattributed, row.bucket, 0) + 1];
        }
      }
    }
    assert rows[..|rows|] == rows;
  }

  ghost predicate CampaignPart(report: Report, events: seq<Event>, imports: seq<Aggregate>,
                               rows: seq<Conversions.Conversion>, w: Window, selected: set<CampaignId>, c: CampaignId) {
    Get(report.counters, c, NOTHING) == if c in selected then CountersOf(events, imports, rows, w, c) else NOTHING
  }

  ghost predicate BucketPart(report: Report, rows: seq<Conversions.Conversion>, w: Window, selected: set<CampaignId>, b: Bucket) {
    Get(report.unattributed, b, 0) == Unattributed(rows, w, selected, b)
  }

  ghost predicate DayPart(report: Report, events: seq<Event>, rows: seq<Conversions.Conversion>, w: Window,
                          selected: set<CampaignId>, day: int -> Day, d: Day) {
    Get(report.days, d, QUIET_DAY) ==
    DayOfConversions(DayOfEvents(events, w, selected, day, d), rows, w, selected, day, d)
  }

  ghost predicate IsReport(report: Report, events: seq<Event>, imports: seq<Aggregate>, rows: seq<Conversions.Conversion>,
                           w: Window, selected: set<CampaignId>, day: int -> Day) {
    && (forall c :: CampaignPart(report, events, imports, rows, w, selected, c))
    && (forall b :: BucketPart(report, rows, w, selected, b))
    && report.excluded == Excluded(imports, w, selected)
    && forall d :: DayPart(report, events, rows, w, selected, day, d)
  }

  /** The whole report, campaign by campaign, bucket by bucket and day by day. */
  method Scan(events: seq<Event>, imports: seq<Aggregate>, rows: seq<Conversions.Conversion>, w: Window,
              selected: set<CampaignId>, day: int -> Day)
      returns (report: Report)
    ensures IsReport(report, events, imports, rows, w, selected, day)
  {
    var counters, days := ScanEvents(events, w, selected, day);
    var imported, excluded := ScanImports(counters, imports, w, selected);
    var all, unattributed, allDays := ScanConversions(imported, days, rows, w, selected, day);
    report := Report(all, unattributed, allDays, excluded);
  }

  // --- totals ------------------------------------------------------------------------------------------------------------

  function Plus(x: Option<nat>, y: Option<nat>): Option<nat> {
    if y.None? then x else Some((if x.Some? then x.value else 0) + y.value)
  }

  /** Identities are united, numbers added; clients are not carried over. */
  function AddCounters(target: Counters, source: Counters): Counters {
    Counters(target.clicks + source.clicks, target.starts + source.starts, target.starters + source.starters,
             target.joins + source.joins, target.joiners + source.joiners,
             target.alerts + source.alerts, target.alerters + source.alerters,
             target.leads + source.leads, target.customers + source.customers, target.clients,
             Plus(target.impressions, source.impressions), target.included + source.included,
             target.partial + source.partial, target.other + source.other, target.providers + source.providers)
  }

  /** The numbers and the sets of the counters; impressions that were never imported are no impressions. */
  datatype Number = Clicking | Starting | Joining | Alerting | Leading | Buying | Viewing | Including | Splitting | Skipping
  datatype Group = Starters | Joiners | Alerters | Providers

  function NumberIn(x: Counters, n: Number): nat {
    match n
    case Clicking => x.clicks
    case Starting => x.starts
    case Joining => x.joins
    case Alerting => x.alerts
    case Leading => x.leads
    case Buying => x.customers
    case Viewing => if x.impressions.Some? then x.impressions.value else 0
    case Including => x.included
    case Splitting => x.partial
    case Skipping => x.other
  }

  function GroupIn(x: Counters, g: Group): set<string> {
    match g
    case Starters => x.starters
    case Joiners => x.joiners
    case Alerters => x.alerters
    case Providers => x.providers
  }

  /** The sum of a number, the union of a group and the sum of its sizes over a list of campaigns. */
  function SumOver(campaigns: seq<CampaignId>, counters: map<CampaignId, Counters>, n: Number): nat {
    if campaigns == [] then 0
    else SumOver(campaigns[..|campaigns| - 1], counters, n) + NumberIn(Get(counters, campaigns[|campaigns| - 1], NOTHING), n)
  }

  function UnionOver(campaigns: seq<CampaignId>, counters: map<CampaignId, Counters>, g: Group): set<string> {
    if campaigns == [] then {}
    else UnionOver(campaigns[..|campaigns| - 1], counters, g) + GroupIn(Get(counters, campaigns[|campaigns| - 1], NOTHING), g)
  }

  function SizesOver(campaigns: seq<CampaignId>, counters: map<CampaignId, Counters>, g: Group): nat {
    if campaigns == [] then 0
    else SizesOver(campaigns[..|campaigns| - 1], counters, g) + |GroupIn(Get(counters, campaigns[|campaigns| - 1], NOTHING), g)|
  }

  predicate SomeViews(campaigns: seq<CampaignId>, counters: map<CampaignId, Counters>) {
    exists i :: 0 <= i < |campaigns| && Get(counters, campaigns[i], NOTHING).impressions.Some?
  }

  /** Every number is a sum, every group a union; clients are not carried over. */
  ghost predicate IsTotal(totals: Counters, campaigns: seq<CampaignId>, counters: map<CampaignId, Counters>) {
    && (forall n :: NumberIn(totals, n) == SumOver(campaigns, counters, n))
    && (forall g :: GroupIn(totals, g) == UnionOver(campaigns, counters, g))
    && (totals.impressions.Some? <==> SomeViews(campaigns, counters))
    && totals.clients == {}
  }

  lemma CountersAdded(target: Counters, source: Counters)
    ensures forall n :: NumberIn(AddCounters(target, source), n) == NumberIn(target, n) + NumberIn(source, n)
    ensures forall g :: GroupIn(AddCounters(target, source), g) == GroupIn(target, g) + GroupIn(source, g)
  {
    forall n: Number ensures NumberIn(AddCounters(target, source), n) == NumberIn(target, n) + NumberIn(source, n) {
    }
    forall g: Group ensures GroupIn(AddCounters(target, source), g) == GroupIn(target, g) + GroupIn(source, g) {
    }
  }

  lemma NothingAdded()
    ensures forall n :: NumberIn(NOTHING, n) == 0
    ensures forall g :: GroupIn(NOTHING, g) == {}
  {
    forall n: Number ensures NumberIn(NOTHING, n) == 0 {
    }
    forall g: Group ensures GroupIn(NOTHING, g) == {} {
    }
  }

  /** One more campaign, with counters or without. */
  lemma TotalNext(totals: Counters, campaigns: seq<CampaignId>, counters: map<CampaignId, Counters>)
    requires campaigns != [] && IsTotal(totals, campaigns[..|campaigns| - 1], counters)
    ensures var c := campaigns[|campaigns| - 1];
            IsTotal(if c in counters then AddCounters(totals, counters[c]) else totals, campaigns, counters)
  {
    var k := |campaigns| - 1;
    CountersAdded(totals, Get(counters, campaigns[k], NOTHING));
    NothingAdded();
    if SomeViews(campaigns, counters) {
      var i :| 0 <= i < |campaigns| && Get(counters, campaigns[i], NOTHING).impressions.Some?;
      if i < k { assert campaigns[..k][i] == campaigns[i]; }
    }
    if SomeViews(campaigns[..k], counters) {
      var i :| 0 <= i < k && Get(counters, campaigns[..k][i], NOTHING).impressions.Some?;
      assert campaigns[..k][i] == campaigns[i];
    }
  }

  method Totals(campaigns: seq<CampaignId>, counters: map<CampaignId, Counters>) returns (totals: Counters)
    ensures IsTotal(totals, campaigns, counters)
  {
    totals := NOTHING;
    NothingAdded();
    for i := 0 to |campaigns|
      invariant IsTotal(totals, campaigns[..i], counters)
    {
      assert campaigns[..i + 1][..i] == campaigns[..i];
      TotalNext(totals, campaigns[..i + 1], counters);
      if campaigns[i] in counters {
        totals := AddCounters(totals, counters[campaigns[i]]);
      }
    }
    assert campaigns[..|campaigns|] == campaigns;
  }

  lemma UnionSize<T>(a: set<T>, b: set<T>)
    ensures |a + b| <= |a| + |b|
  {
    assert a + b == a + (b - a);
    assert b == (b - a) + (b * a);
  }

  /** Distinct members of the totals are a union, hence at most the sum over the campaigns. */
  lemma {:induction false} UnionAtMostSum(campaigns: seq<CampaignId>, counters: map<CampaignId, Counters>, g: Group)
    ensures |UnionOver(campaigns, counters, g)| <= SizesOver(campaigns, counters, g)
    ensures forall i :: 0 <= i < |campaigns| ==> GroupIn(Get(counters, campaigns[i], NOTHING), g) <= UnionOver(campaigns, counters, g)
    decreases |campaigns|
  {
    if campaigns != [] {
      var n := |campaigns| - 1;
      UnionAtMostSum(campaigns[..n], counters, g);
      UnionSize(UnionOver(campaigns[..n], counters, g), GroupIn(Get(counters, campaigns[n], NOTHING), g));
      forall i | 0 <= i < |campaigns|
        ensures GroupIn(Get(counters, campaigns[i], NOTHING), g) <= UnionOver(campaigns, counters, g)
      {
        if i < n { assert campaigns[..n][i] == campaigns[i]; }
      }
    }
  }
}
