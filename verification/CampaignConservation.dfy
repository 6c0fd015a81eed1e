/** What a campaign report conserves: nothing is counted twice, lost, or split differently by campaign and by day. */
module CampaignConservation {
  import opened Common
  import opened Attribution
  import opened CampaignEvents
  import opened CampaignMetrics
  import CampaignTracking
  import Conversions

  // --- plain counts -----------------------------------------------------------------------------------

  /** Native events of one stage and campaign in the window. */
  function Native(events: seq<Event>, w: Window, stage: Stage, c: CampaignId): nat {
    if events == [] then 0
    else
      var last := events[|events| - 1];
      Native(events[..|events| - 1], w, stage, c) + if Concerns(last, w, c) && last.stage == stage then 1 else 0
  }

  function NativeOn(events: seq<Event>, w: Window, selected: set<CampaignId>, stage: Stage, day: int -> Day, d: Day): nat {
    if events == [] then 0
    else
      var last := events[|events| - 1];
      NativeOn(events[..|events| - 1], w, selected, stage, day, d) +
      if Selected(last, w, selected) && last.stage == stage && day(last.at) == d then 1 else 0
  }

  function SelectedEvents(events: seq<Event>, w: Window, selected: set<CampaignId>, stage: Stage): nat {
    if events == [] then 0
    else
      var last := events[|events| - 1];
      SelectedEvents(events[..|events| - 1], w, selected, stage) +
      if Selected(last, w, selected) && last.stage == stage then 1 else 0
  }

  function ImportedClicks(imports: seq<Aggregate>, w: Window, c: CampaignId): nat {
    if imports == [] then 0
    else
      var last := imports[|imports| - 1];
      ImportedClicks(imports[..|imports| - 1], w, c) +
      if last.active && last.campaign == c && last.metric == Clicks && w.from <= last.start && last.end < w.to
      then last.value else 0
  }

  /** What becomes of an import: it lies in the window, it does not quite, or it is of a metric that is not reported. */
  datatype Fate = Whole | Straddling | Foreign

  predicate Meets(a: Aggregate, w: Window, fate: Fate) {
    match fate
    case Whole => (a.metric == Impressions || a.metric == Clicks) && w.from <= a.start && a.end < w.to
    case Straddling => (a.metric == Impressions || a.metric == Clicks) && !(w.from <= a.start && a.end < w.to)
    case Foreign => a.metric != Impressions && a.metric != Clicks
  }

  /** Counted imports of one campaign and fate. */
  function Imported(imports: seq<Aggregate>, w: Window, fate: Fate, c: CampaignId): nat {
    if imports == [] then 0
    else
      var last := imports[|imports| - 1];
      Imported(imports[..|imports| - 1], w, fate, c) + if last.active && last.campaign == c && Meets(last, w, fate) then 1 else 0
  }

  predicate IsView(a: Aggregate, w: Window, c: CampaignId) {
    a.active && a.campaign == c && a.metric == Impressions && Meets(a, w, Whole)
  }

  function ImportedViews(imports: seq<Aggregate>, w: Window, c: CampaignId): nat {
    if imports == [] then 0
    else
      var last := imports[|imports| - 1];
      ImportedViews(imports[..|imports| - 1], w, c) + if IsView(last, w, c) then last.value else 0
  }

  /** The identities of the events of one stage and campaign in the window. */
  function IdentitiesOf(events: seq<Event>, w: Window, stage: Stage, c: CampaignId): set<Identity> {
    set i | 0 <= i < |events| && events[i].stage == stage && events[i].campaign == Some(c) && w.from <= events[i].at < w.to
            && events[i].identity.Some? :: events[i].identity.value
  }

  predicate IsActive(row: Conversions.Conversion, w: Window) {
    row.status == Conversions.Active && w.from <= row.at < w.to
  }

  function Credits(rows: seq<Conversions.Conversion>, w: Window, kind: Conversions.Kind, c: CampaignId): nat {
    if rows == [] then 0
    else
      var last := rows[|rows| - 1];
      Credits(rows[..|rows| - 1], w, kind, c) + if IsActive(last, w) && last.campaign == Some(c) && last.kind == kind then 1 else 0
  }

  function CreditsOn(rows: seq<Conversions.Conversion>, w: Window, selected: set<CampaignId>, kind: Conversions.Kind, day: int -> Day, d: Day): nat {
    if rows == [] then 0
    else
      var last := rows[|rows| - 1];
      CreditsOn(rows[..|rows| - 1], w, selected, kind, day, d) +
      if IsActive(last, w) && Credited(last, selected) && last.kind == kind && day(last.at) == d then 1 else 0
  }

  function SelectedCredits(rows: seq<Conversions.Conversion>, w: Window, selected: set<CampaignId>, kind: Conversions.Kind): nat {
    if rows == [] then 0
    else
      var last := rows[|rows| - 1];
      SelectedCredits(rows[..|rows| - 1], w, selected, kind) +
      if IsActive(last, w) && Credited(last, selected) && last.kind == kind then 1 else 0
  }

  /** ACTIVE conversions in the window. */
  function Total(rows: seq<Conversions.Conversion>, w: Window): nat {
    if rows == [] then 0
    else Total(rows[..|rows| - 1], w) + if IsActive(rows[|rows| - 1], w) then 1 else 0
  }

  // --- columns of numbers -----------------------------------------------------------------------------

  /** A number for each campaign, or for each day: from the rows, or from a report. */
  datatype Column =
    | NativeBy(events: seq<Event>, w: Window, stage: Stage)
    | NativeByDay(events: seq<Event>, w: Window, selected: set<CampaignId>, stage: Stage, day: int -> Day)
    | CreditsBy(rows: seq<Conversions.Conversion>, w: Window, kind: Conversions.Kind)
    | CreditsByDay(rows: seq<Conversions.Conversion>, w: Window, selected: set<CampaignId>, kind: Conversions.Kind, day: int -> Day)
    | StraddlingBy(imports: seq<Aggregate>, w: Window)
    | Starts(report: Report) | Leads(report: Report) | Customers(report: Report)
    | DailyStarts(report: Report) | DailyClicks(report: Report) | DailyLeads(report: Report) | DailyCustomers(report: Report)

  function Cell(column: Column, x: nat): nat {
    match column
    case NativeBy(events, w, stage) => Native(events, w, stage, x)
    case NativeByDay(events, w, selected, stage, day) => NativeOn(events, w, selected, stage, day, x)
    case CreditsBy(rows, w, kind) => Credits(rows, w, kind, x)
    case CreditsByDay(rows, w, selected, kind, day) => CreditsOn(rows, w, selected, kind, day, x)
    case StraddlingBy(imports, w) => Imported(imports, w, Straddling, x)
    case Starts(report) => Get(report.counters, x, NOTHING).starts
    case Leads(report) => Get(report.counters, x, NOTHING).leads
    case Customers(report) => Get(report.counters, x, NOTHING).customers
    case DailyStarts(report) => Get(report.days, x, QUIET_DAY).starts
    case DailyClicks(report) => Get(report.days, x, QUIET_DAY).clicks
    case DailyLeads(report) => Get(report.days, x, QUIET_DAY).leads
    case DailyCustomers(report) => Get(report.days, x, QUIET_DAY).customers
  }

  // --- sums over lists without repetition -------------------------------------------------------------

  function Sum(s: seq<nat>, f: Column): nat {
    if s == [] then 0 else Sum(s[..|s| - 1], f) + Cell(f, s[|s| - 1])
  }

  /** `s` lists the members of `all`, each once. */
  ghost predicate Lists(s: seq<nat>, all: set<nat>) {
    && (forall i, k :: 0 <= i < k < |s| ==> s[i] != s[k])
    && forall x :: x in s <==> x in all
  }

  lemma {:induction false} SumSame(s: seq<nat>, f: Column, g: Column)
    requires forall i :: 0 <= i < |s| ==> Cell(f, s[i]) == Cell(g, s[i])
    ensures Sum(s, f) == Sum(s, g)
    decreases |s|
  {
    if s != [] {
      SumSame(s[..|s| - 1], f, g);
    }
  }

  lemma {:induction false} SumZero(s: seq<nat>, f: Column)
    requires forall i :: 0 <= i < |s| ==> Cell(f, s[i]) == 0
    ensures Sum(s, f) == 0
    decreases |s|
  {
    if s != [] {
      SumZero(s[..|s| - 1], f);
    }
  }

  /** One entry grows by one, the others stay. */
  lemma {:induction false} SumBump(s: seq<nat>, at: nat, f: Column, g: Column)
    requires at < |s| && forall i, k :: 0 <= i < k < |s| ==> s[i] != s[k]
    requires Cell(g, s[at]) == Cell(f, s[at]) + 1 && forall i :: 0 <= i < |s| && i != at ==> Cell(g, s[i]) == Cell(f, s[i])
    ensures Sum(s, g) == Sum(s, f) + 1
    decreases |s|
  {
    var n := |s| - 1;
    if at < n {
      SumBump(s[..n], at, f, g);
    } else {
      SumSame(s[..n], f, g);
    }
  }

  // --- the counters are these counts ------------------------------------------------------------------

  lemma {:induction false} EventCounters(events: seq<Event>, w: Window, c: CampaignId)
    ensures var x := EventsOf(events, w, c);
            && x.clicks == Native(events, w, Click, c) && x.starts == Native(events, w, Start, c)
            && x.joins == Native(events, w, ChannelJoin, c) && x.alerts == Native(events, w, AlertCreated, c)
            && x.leads == 0 && x.customers == 0 && x.impressions.None? && x.included == x.partial == x.other == 0
    decreases |events|
  {
    if events != [] {
      EventCounters(events[..|events| - 1], w, c);
    }
  }

  lemma IdentitiesNext(events: seq<Event>, w: Window, stage: Stage, c: CampaignId)
    requires events != []
    ensures var n := |events| - 1;
            IdentitiesOf(events, w, stage, c) ==
            if Concerns(events[n], w, c) && events[n].stage == stage
            then With(IdentitiesOf(events[..n], w, stage, c), events[n].identity) else IdentitiesOf(events[..n], w, stage, c)
  {
    var n := |events| - 1;
    forall id | id in IdentitiesOf(events, w, stage, c)
                && !(Concerns(events[n], w, c) && events[n].stage == stage && events[n].identity == Some(id))
      ensures id in IdentitiesOf(events[..n], w, stage, c)
    {
      var i :| 0 <= i < |events| && events[i].stage == stage && events[i].campaign == Some(c) && w.from <= events[i].at < w.to
               && events[i].identity == Some(id);
      assert events[..n][i] == events[i];
    }
    forall id | id in IdentitiesOf(events[..n], w, stage, c) ensures id in IdentitiesOf(events, w, stage, c) {
      var i :| 0 <= i < n && events[..n][i].stage == stage && events[..n][i].campaign == Some(c)
               && w.from <= events[..n][i].at < w.to && events[..n][i].identity == Some(id);
      assert events[i] == events[..n][i];
    }
  }

  lemma {:induction false} EventIdentities(events: seq<Event>, w: Window, c: CampaignId)
    ensures var x := EventsOf(events, w, c);
            && x.starters == IdentitiesOf(events, w, Start, c) && x.joiners == IdentitiesOf(events, w, ChannelJoin, c)
            && x.alerters == IdentitiesOf(events, w, AlertCreated, c)
    decreases |events|
  {
    if events != [] {
      EventIdentities(events[..|events| - 1], w, c);
      IdentitiesNext(events, w, Start, c);
      IdentitiesNext(events, w, ChannelJoin, c);
      IdentitiesNext(events, w, AlertCreated, c);
    }
  }

  /** Who has the counted imports, and who the conversions. */
  function ProvidersOf(imports: seq<Aggregate>, w: Window, c: CampaignId): set<string> {
    set i | 0 <= i < |imports| && imports[i].active && imports[i].campaign == c && Meets(imports[i], w, Whole)
      :: imports[i].provider
  }

  function ClientsOf(rows: seq<Conversions.Conversion>, w: Window, c: CampaignId): set<Identity> {
    set i | 0 <= i < |rows| && IsActive(rows[i], w) && rows[i].campaign == Some(c) :: rows[i].identity
  }

  lemma {:induction false} AggregateProviders(x: Counters, imports: seq<Aggregate>, w: Window, c: CampaignId)
    ensures AggregatesOf(x, imports, w, c).providers == x.providers + ProvidersOf(imports, w, c)
    ensures AggregatesOf(x, imports, w, c).clients == x.clients
    decreases |imports|
  {
    if imports != [] {
      var n := |imports| - 1;
      AggregateProviders(x, imports[..n], w, c);
      assert forall i :: 0 <= i < n ==> imports[..n][i] == imports[i];
      var last := if imports[n].active && imports[n].campaign == c && Meets(imports[n], w, Whole) then {imports[n].provider} else {};
      assert ProvidersOf(imports, w, c) == ProvidersOf(imports[..n], w, c) + last by {
        forall p | p in ProvidersOf(imports[..n], w, c) ensures p in ProvidersOf(imports, w, c) {
          var i :| 0 <= i < n && imports[..n][i].active && imports[..n][i].campaign == c && Meets(imports[..n][i], w, Whole)
                   && imports[..n][i].provider == p;
          assert imports[i] == imports[..n][i];
        }
      }
    }
  }

  lemma {:induction false} ConversionClients(x: Counters, rows: seq<Conversions.Conversion>, w: Window, c: CampaignId)
    ensures ConversionsOf(x, rows, w, c).clients == x.clients + ClientsOf(rows, w, c)
    ensures ConversionsOf(x, rows, w, c).providers == x.providers
    decreases |rows|
  {
    if rows != [] {
      var n := |rows| - 1;
      ConversionClients(x, rows[..n], w, c);
      assert forall i :: 0 <= i < n ==> rows[..n][i] == rows[i];
      var last := if IsActive(rows[n], w) && rows[n].campaign == Some(c) then {rows[n].identity} else {};
      assert ClientsOf(rows, w, c) == ClientsOf(rows[..n], w, c) + last by {
        forall p | p in ClientsOf(rows[..n], w, c) ensures p in ClientsOf(rows, w, c) {
          var i :| 0 <= i < n && IsActive(rows[..n][i], w) && rows[..n][i].campaign == Some(c) && rows[..n][i].identity == p;
          assert rows[i] == rows[..n][i];
        }
      }
    }
  }

  lemma {:induction false} NothingYet(events: seq<Event>, w: Window, c: CampaignId)
    ensures EventsOf(events, w, c).providers == {} && EventsOf(events, w, c).clients == {}
    decreases |events|
  {
    if events != [] {
      NothingYet(events[..|events| - 1], w, c);
    }
  }

  lemma {:induction false} ViewsNeeded(imports: seq<Aggregate>, w: Window, c: CampaignId)
    requires forall i :: 0 <= i < |imports| ==> !IsView(imports[i], w, c)
    ensures ImportedViews(imports, w, c) == 0
    decreases |imports|
  {
    if imports != [] {
      ViewsNeeded(imports[..|imports| - 1], w, c);
    }
  }

  /** Impressions are reported exactly when some import has them. */
  lemma {:induction false} AggregateFates(x: Counters, imports: seq<Aggregate>, w: Window, c: CampaignId)
    ensures var y := AggregatesOf(x, imports, w, c);
            && y.included == x.included + Imported(imports, w, Whole, c)
            && y.partial == x.partial + Imported(imports, w, Straddling, c)
            && y.other == x.other + Imported(imports, w, Foreign, c)
            && (y.impressions.Some? <==> x.impressions.Some? || exists i :: 0 <= i < |imports| && IsView(imports[i], w, c))
            && (y.impressions.Some? ==>
                  y.impressions.value == (if x.impressions.Some? then x.impressions.value else 0) + ImportedViews(imports, w, c))
            && y.starters == x.starters && y.joiners == x.joiners && y.alerters == x.alerters
    decreases |imports|
  {
    if imports != [] {
      var n := |imports| - 1;
      AggregateFates(x, imports[..n], w, c);
      assert forall i :: 0 <= i < n ==> imports[..n][i] == imports[i];
      if AggregatesOf(x, imports[..n], w, c).impressions.None? {
        ViewsNeeded(imports[..n], w, c);
      }
      if i :| 0 <= i < |imports| && IsView(imports[i], w, c) {
        assert i < n ==> IsView(imports[..n][i], w, c);
      }
      if i :| 0 <= i < n && IsView(imports[..n][i], w, c) {
        assert IsView(imports[i], w, c);
      }
    }
  }

  /** Imported clicks go into the raw click number, nothing else of the funnel changes. */
  lemma {:induction false} AggregateCounters(x: Counters, imports: seq<Aggregate>, w: Window, c: CampaignId)
    ensures var y := AggregatesOf(x, imports, w, c);
            && y.clicks == x.clicks + ImportedClicks(imports, w, c) && y.starts == x.starts
            && y.joins == x.joins && y.alerts == x.alerts && y.leads == x.leads && y.customers == x.customers
    decreases |imports|
  {
    if imports != [] {
      AggregateCounters(x, imports[..|imports| - 1], w, c);
    }
  }

  lemma {:induction false} ConversionCounters(x: Counters, rows: seq<Conversions.Conversion>, w: Window, c: CampaignId)
    ensures var y := ConversionsOf(x, rows, w, c);
            && y.leads == x.leads + Credits(rows, w, Conversions.Lead, c)
            && y.customers == x.customers + Credits(rows, w, Conversions.Customer, c)
            && y == x.(leads := y.leads, customers := y.customers, clients := y.clients)
    decreases |rows|
  {
    if rows != [] {
      ConversionCounters(x, rows[..|rows| - 1], w, c);
    }
  }

  /** A campaign's numbers in a report, from the rows; raw clicks are native plus imported. */
  lemma CampaignNumbers(events: seq<Event>, imports: seq<Aggregate>, rows: seq<Conversions.Conversion>, w: Window, c: CampaignId)
    ensures var x := CountersOf(events, imports, rows, w, c);
            && x.clicks == Native(events, w, Click, c) + ImportedClicks(imports, w, c)
            && x.starts == Native(events, w, Start, c) && x.joins == Native(events, w, ChannelJoin, c)
            && x.alerts == Native(events, w, AlertCreated, c)
            && x.leads == Credits(rows, w, Conversions.Lead, c) && x.customers == Credits(rows, w, Conversions.Customer, c)
  {
    EventCounters(events, w, c);
    assert forall row: Conversions.Conversion :: IsActive(row, w) <==> Counts(row, w);
    AggregateCounters(EventsOf(events, w, c), imports, w, c);
    ConversionCounters(AggregatesOf(EventsOf(events, w, c), imports, w, c), rows, w, c);
  }

  /** And its sets and its imports: who started, joined and set alerts, what was imported, what was not, and why. */
  lemma CampaignSets(events: seq<Event>, imports: seq<Aggregate>, rows: seq<Conversions.Conversion>, w: Window, c: CampaignId)
    ensures var x := CountersOf(events, imports, rows, w, c);
            && x.starters == IdentitiesOf(events, w, Start, c) && x.joiners == IdentitiesOf(events, w, ChannelJoin, c)
            && x.alerters == IdentitiesOf(events, w, AlertCreated, c)
            && x.included == Imported(imports, w, Whole, c) && x.partial == Imported(imports, w, Straddling, c)
            && x.other == Imported(imports, w, Foreign, c)
            && (x.impressions.Some? <==> exists i :: 0 <= i < |imports| && IsView(imports[i], w, c))
            && (x.impressions.Some? ==> x.impressions.value == ImportedViews(imports, w, c))
            && x.providers == ProvidersOf(imports, w, c) && x.clients == ClientsOf(rows, w, c)
  {
    EventCounters(events, w, c);
    NothingYet(events, w, c);
    AggregateProviders(EventsOf(events, w, c), imports, w, c);
    ConversionClients(AggregatesOf(EventsOf(events, w, c), imports, w, c), rows, w, c);
    EventIdentities(events, w, c);
    AggregateFates(EventsOf(events, w, c), imports, w, c);
    ConversionCounters(AggregatesOf(EventsOf(events, w, c), imports, w, c), rows, w, c);
  }

  lemma {:induction false} DayEventNumbers(events: seq<Event>, w: Window, selected: set<CampaignId>, day: int -> Day, d: Day)
    ensures var x := DayOfEvents(events, w, selected, day, d);
            && x.clicks == NativeOn(events, w, selected, Click, day, d) && x.starts == NativeOn(events, w, selected, Start, day, d)
            && x.leads == 0 && x.customers == 0
    decreases |events|
  {
    if events != [] {
      DayEventNumbers(events[..|events| - 1], w, selected, day, d);
    }
  }

  lemma {:induction false} DayConversionNumbers(x: DayRow, rows: seq<Conversions.Conversion>, w: Window,
                                                selected: set<CampaignId>, day: int -> Day, d: Day)
    ensures var y := DayOfConversions(x, rows, w, selected, day, d);
            && y.leads == x.leads + CreditsOn(rows, w, selected, Conversions.Lead, day, d)
            && y.customers == x.customers + CreditsOn(rows, w, selected, Conversions.Customer, day, d)
            && y.clicks == x.clicks && y.starts == x.starts
    decreases |rows|
  {
    if rows != [] {
      DayConversionNumbers(x, rows[..|rows| - 1], w, selected, day, d);
    }
  }

  // --- every row is counted once ----------------------------------------------------------------------

  lemma {:induction false} EventsOverCampaigns(events: seq<Event>, w: Window, selected: set<CampaignId>,
                                                stage: Stage, campaigns: seq<CampaignId>)
    requires Lists(campaigns, selected)
    ensures Sum(campaigns, NativeBy(events, w, stage)) == SelectedEvents(events, w, selected, stage)
    decreases |events|
  {
    var f := NativeBy(events, w, stage);
    if events == [] {
      SumZero(campaigns, f);
    } else {
      var n := |events| - 1;
      var g := NativeBy(events[..n], w, stage);
      EventsOverCampaigns(events[..n], w, selected, stage, campaigns);
      if Selected(events[n], w, selected) && events[n].stage == stage {
        var at :| 0 <= at < |campaigns| && campaigns[at] == events[n].campaign.value;
        SumBump(campaigns, at, g, f);
      } else {
        SumSame(campaigns, g, f);
      }
    }
  }

  /** The imports that a report excludes are those that its campaigns could not count as a whole. */
  lemma {:induction false} ExcludedAddsUp(imports: seq<Aggregate>, w: Window, selected: set<CampaignId>, campaigns: seq<CampaignId>)
    requires Lists(campaigns, selected)
    ensures Sum(campaigns, StraddlingBy(imports, w)) == Excluded(imports, w, selected)
    decreases |imports|
  {
    var f := StraddlingBy(imports, w);
    if imports == [] {
      SumZero(campaigns, f);
    } else {
      var n := |imports| - 1;
      var g := StraddlingBy(imports[..n], w);
      ExcludedAddsUp(imports[..n], w, selected, campaigns);
      if imports[n].active && imports[n].campaign in selected && Meets(imports[n], w, Straddling) {
        var at :| 0 <= at < |campaigns| && campaigns[at] == imports[n].campaign;
        SumBump(campaigns, at, g, f);
      } else {
        SumSame(campaigns, g, f);
      }
    }
  }

  lemma {:induction false} EventsOverDays(events: seq<Event>, w: Window, selected: set<CampaignId>, stage: Stage, day: int -> Day,
                                          days: seq<Day>)
    requires forall i, k :: 0 <= i < k < |days| ==> days[i] != days[k]
    requires forall i :: 0 <= i < |events| && Selected(events[i], w, selected) && events[i].stage == stage ==>
               day(events[i].at) in days
    ensures Sum(days, NativeByDay(events, w, selected, stage, day)) == SelectedEvents(events, w, selected, stage)
    decreases |events|
  {
    var f := NativeByDay(events, w, selected, stage, day);
    if events == [] {
      SumZero(days, f);
    } else {
      var n := |events| - 1;
      var g := NativeByDay(events[..n], w, selected, stage, day);
      EventsOverDays(events[..n], w, selected, stage, day, days);
      if Selected(events[n], w, selected) && events[n].stage == stage {
        var at :| 0 <= at < |days| && days[at] == day(events[n].at);
        SumBump(days, at, g, f);
      } else {
        SumSame(days, g, f);
      }
    }
  }

  lemma {:induction false} CreditsOverCampaigns(rows: seq<Conversions.Conversion>, w: Window, selected: set<CampaignId>,
                                                kind: Conversions.Kind, campaigns: seq<CampaignId>)
    requires Lists(campaigns, selected)
    ensures Sum(campaigns, CreditsBy(rows, w, kind)) == SelectedCredits(rows, w, selected, kind)
    decreases |rows|
  {
    var f := CreditsBy(rows, w, kind);
    if rows == [] {
      SumZero(campaigns, f);
    } else {
      var n := |rows| - 1;
      var g := CreditsBy(rows[..n], w, kind);
      CreditsOverCampaigns(rows[..n], w, selected, kind, campaigns);
      if Counts(rows[n], w) && Credited(rows[n], selected) && rows[n].kind == kind {
        var at :| 0 <= at < |campaigns| && campaigns[at] == rows[n].campaign.value;
        SumBump(campaigns, at, g, f);
      } else {
        SumSame(campaigns, g, f);
      }
    }
  }

  lemma {:induction false} CreditsOverDays(rows: seq<Conversions.Conversion>, w: Window, selected: set<CampaignId>,
                                           kind: Conversions.Kind, day: int -> Day, days: seq<Day>)
    requires forall i, k :: 0 <= i < k < |days| ==> days[i] != days[k]
    requires forall i :: 0 <= i < |rows| && Counts(rows[i], w) && Credited(rows[i], selected) ==> day(rows[i].at) in days
    ensures Sum(days, CreditsByDay(rows, w, selected, kind, day)) == SelectedCredits(rows, w, selected, kind)
    decreases |rows|
  {
    var f := CreditsByDay(rows, w, selected, kind, day);
    if rows == [] {
      SumZero(days, f);
    } else {
      var n := |rows| - 1;
      var g := CreditsByDay(rows[..n], w, selected, kind, day);
      CreditsOverDays(rows[..n], w, selected, kind, day, days);
      if Counts(rows[n], w) && Credited(rows[n], selected) && rows[n].kind == kind {
        var at :| 0 <= at < |days| && days[at] == day(rows[n].at);
        SumBump(days, at, g, f);
      } else {
        SumSame(days, g, f);
      }
    }
  }

  lemma {:induction false} CreditedOrBucketed(rows: seq<Conversions.Conversion>, w: Window, selected: set<CampaignId>)
    ensures Total(rows, w) ==
            SelectedCredits(rows, w, selected, Conversions.Lead) + SelectedCredits(rows, w, selected, Conversions.Customer)
            + Unattributed(rows, w, selected, NoTouch) + Unattributed(rows, w, selected, ExpiredWindow)
            + Unattributed(rows, w, selected, TouchAfterConversion) + Unattributed(rows, w, selected, InCampaign)
    decreases |rows|
  {
    if rows != [] {
      CreditedOrBucketed(rows[..|rows| - 1], w, selected);
    }
  }

  // --- the report -------------------------------------------------------------------------------------

  /** One campaign's entry of a report is made of these counts. */
  ghost predicate EntryOk(report: Report, events: seq<Event>, rows: seq<Conversions.Conversion>, w: Window, c: CampaignId) {
    && Get(report.counters, c, NOTHING).leads == Credits(rows, w, Conversions.Lead, c)
    && Get(report.counters, c, NOTHING).customers == Credits(rows, w, Conversions.Customer, c)
    && Get(report.counters, c, NOTHING).starts == Native(events, w, Start, c)
  }

  lemma CampaignEntry(report: Report, events: seq<Event>, imports: seq<Aggregate>, rows: seq<Conversions.Conversion>,
                      w: Window, selected: set<CampaignId>, day: int -> Day, c: CampaignId)
    requires IsReport(report, events, imports, rows, w, selected, day) && c in selected
    ensures EntryOk(report, events, rows, w, c)
  {
    assert CampaignPart(report, events, imports, rows, w, selected, c);
    CampaignNumbers(events, imports, rows, w, c);
  }

  lemma BucketEntry(report: Report, events: seq<Event>, imports: seq<Aggregate>, rows: seq<Conversions.Conversion>,
                    w: Window, selected: set<CampaignId>, day: int -> Day, b: Bucket)
    requires IsReport(report, events, imports, rows, w, selected, day)
    ensures Get(report.unattributed, b, 0) == Unattributed(rows, w, selected, b)
  {
    assert BucketPart(report, rows, w, selected, b);
  }

  ghost predicate DayOk(report: Report, events: seq<Event>, rows: seq<Conversions.Conversion>, w: Window,
                        selected: set<CampaignId>, day: int -> Day, d: Day) {
    && Get(report.days, d, QUIET_DAY).starts == NativeOn(events, w, selected, Start, day, d)
    && Get(report.days, d, QUIET_DAY).clicks == NativeOn(events, w, selected, Click, day, d)
    && Get(report.days, d, QUIET_DAY).leads == CreditsOn(rows, w, selected, Conversions.Lead, day, d)
    && Get(report.days, d, QUIET_DAY).customers == CreditsOn(rows, w, selected, Conversions.Customer, day, d)
  }

  lemma DayEntry(report: Report, events: seq<Event>, imports: seq<Aggregate>, rows: seq<Conversions.Conversion>,
                 w: Window, selected: set<CampaignId>, day: int -> Day, d: Day)
    requires IsReport(report, events, imports, rows, w, selected, day)
    ensures DayOk(report, events, rows, w, selected, day, d)
  {
    assert DayPart(report, events, rows, w, selected, day, d);
    DayEventNumbers(events, w, selected, day, d);
    DayConversionNumbers(DayOfEvents(events, w, selected, day, d), rows, w, selected, day, d);
  }

  lemma ColumnsOfEntries(report: Report, events: seq<Event>, rows: seq<Conversions.Conversion>, w: Window,
                         selected: set<CampaignId>, campaigns: seq<CampaignId>)
    requires Lists(campaigns, selected) && forall c :: c in selected ==> EntryOk(report, events, rows, w, c)
    ensures Sum(campaigns, Leads(report)) == SelectedCredits(rows, w, selected, Conversions.Lead)
    ensures Sum(campaigns, Customers(report)) == SelectedCredits(rows, w, selected, Conversions.Customer)
    ensures Sum(campaigns, Starts(report)) == SelectedEvents(events, w, selected, Start)
  {
    forall i | 0 <= i < |campaigns| ensures EntryOk(report, events, rows, w, campaigns[i]) {
      assert campaigns[i] in campaigns;
    }
    SumSame(campaigns, Leads(report), CreditsBy(rows, w, Conversions.Lead));
    SumSame(campaigns, Customers(report), CreditsBy(rows, w, Conversions.Customer));
    SumSame(campaigns, Starts(report), NativeBy(events, w, Start));
    CreditsOverCampaigns(rows, w, selected, Conversions.Lead, campaigns);
    CreditsOverCampaigns(rows, w, selected, Conversions.Customer, campaigns);
    EventsOverCampaigns(events, w, selected, Start, campaigns);
  }

  lemma EntriesOk(report: Report, events: seq<Event>, imports: seq<Aggregate>, rows: seq<Conversions.Conversion>,
                  w: Window, selected: set<CampaignId>, day: int -> Day)
    requires IsReport(report, events, imports, rows, w, selected, day)
    ensures forall c :: c in selected ==> EntryOk(report, events, rows, w, c)
    ensures forall d :: DayOk(report, events, rows, w, selected, day, d)
  {
    forall c | c in selected ensures EntryOk(report, events, rows, w, c) {
      CampaignEntry(report, events, imports, rows, w, selected, day, c);
    }
    forall d ensures DayOk(report, events, rows, w, selected, day, d) {
      DayEntry(report, events, imports, rows, w, selected, day, d);
    }
  }

  /** Unattributed conversions of a report, over its four buckets. */
  function InBuckets(report: Report): nat {
    Get(report.unattributed, NoTouch, 0) + Get(report.unattributed, ExpiredWindow, 0)
    + Get(report.unattributed, TouchAfterConversion, 0) + Get(report.unattributed, InCampaign, 0)
  }

  lemma BucketsOf(report: Report, events: seq<Event>, imports: seq<Aggregate>, rows: seq<Conversions.Conversion>,
                  w: Window, selected: set<CampaignId>, day: int -> Day)
    requires IsReport(report, events, imports, rows, w, selected, day)
    ensures InBuckets(report) ==
            Unattributed(rows, w, selected, NoTouch) + Unattributed(rows, w, selected, ExpiredWindow)
            + Unattributed(rows, w, selected, TouchAfterConversion) + Unattributed(rows, w, selected, InCampaign)
  {
    BucketEntry(report, events, imports, rows, w, selected, day, NoTouch);
    BucketEntry(report, events, imports, rows, w, selected, day, ExpiredWindow);
    BucketEntry(report, events, imports, rows, w, selected, day, TouchAfterConversion);
    BucketEntry(report, events, imports, rows, w, selected, day, InCampaign);
  }

  /**
   * Every ACTIVE conversion in the window is counted exactly once: by one selected campaign, or in one
   * unattributed bucket; that bucket is InCampaign when its campaign is filtered out of the report.
   */
  lemma ConversionsConserved(report: Report, events: seq<Event>, imports: seq<Aggregate>, rows: seq<Conversions.Conversion>,
                             w: Window, selected: set<CampaignId>, day: int -> Day, campaigns: seq<CampaignId>)
    requires IsReport(report, events, imports, rows, w, selected, day) && Lists(campaigns, selected)
    ensures Total(rows, w) == Sum(campaigns, Leads(report)) + Sum(campaigns, Customers(report)) + InBuckets(report)
  {
    CreditedOrBucketed(rows, w, selected);
    BucketsOf(report, events, imports, rows, w, selected, day);
    EntriesOk(report, events, imports, rows, w, selected, day);
    ColumnsOfEntries(report, events, rows, w, selected, campaigns);
  }

  lemma EventDayShown(report: Report, events: seq<Event>, rows: seq<Conversions.Conversion>, w: Window,
                      selected: set<CampaignId>, day: int -> Day, i: nat)
    requires i < |events| && Selected(events[i], w, selected) && (events[i].stage == Start || events[i].stage == Click)
    requires DayOk(report, events, rows, w, selected, day, day(events[i].at))
    ensures day(events[i].at) in report.days
  {
    EventShows(events, w, selected, day, i);
  }

  lemma CreditDayShown(report: Report, events: seq<Event>, rows: seq<Conversions.Conversion>, w: Window,
                       selected: set<CampaignId>, day: int -> Day, i: nat)
    requires i < |rows| && Counts(rows[i], w) && Credited(rows[i], selected)
    requires DayOk(report, events, rows, w, selected, day, day(rows[i].at))
    ensures day(rows[i].at) in report.days
  {
    CreditShows(rows, w, selected, day, i);
    var shown := Get(report.days, day(rows[i].at), QUIET_DAY);
    assert if rows[i].kind == Conversions.Lead then shown.leads > 0 else shown.customers > 0;
  }

  lemma {:induction false} EventShows(events: seq<Event>, w: Window, selected: set<CampaignId>, day: int -> Day, i: nat)
    requires i < |events| && Selected(events[i], w, selected)
    ensures NativeOn(events, w, selected, events[i].stage, day, day(events[i].at)) > 0
    decreases |events|
  {
    if i < |events| - 1 {
      EventShows(events[..|events| - 1], w, selected, day, i);
    }
  }

  lemma {:induction false} CreditShows(rows: seq<Conversions.Conversion>, w: Window, selected: set<CampaignId>, day: int -> Day,
                                       i: nat)
    requires i < |rows| && Counts(rows[i], w) && Credited(rows[i], selected)
    ensures CreditsOn(rows, w, selected, rows[i].kind, day, day(rows[i].at)) > 0
    decreases |rows|
  {
    if i < |rows| - 1 {
      CreditShows(rows[..|rows| - 1], w, selected, day, i);
    }
  }

  lemma DayEventColumns(report: Report, events: seq<Event>, rows: seq<Conversions.Conversion>, w: Window,
                        selected: set<CampaignId>, day: int -> Day, days: seq<Day>)
    requires Lists(days, report.days.Keys) && forall d :: DayOk(report, events, rows, w, selected, day, d)
    ensures Sum(days, DailyStarts(report)) == SelectedEvents(events, w, selected, Start)
    ensures Sum(days, DailyClicks(report)) == SelectedEvents(events, w, selected, Click)
  {
    forall i | 0 <= i < |events| && Selected(events[i], w, selected) && (events[i].stage == Start || events[i].stage == Click)
      ensures day(events[i].at) in days
    {
      EventDayShown(report, events, rows, w, selected, day, i);
    }
    forall i | 0 <= i < |days| ensures DayOk(report, events, rows, w, selected, day, days[i]) {
    }
    SumSame(days, DailyStarts(report), NativeByDay(events, w, selected, Start, day));
    SumSame(days, DailyClicks(report), NativeByDay(events, w, selected, Click, day));
    EventsOverDays(events, w, selected, Start, day, days);
    EventsOverDays(events, w, selected, Click, day, days);
  }

  lemma DayCreditColumns(report: Report, events: seq<Event>, rows: seq<Conversions.Conversion>, w: Window,
                         selected: set<CampaignId>, day: int -> Day, days: seq<Day>)
    requires Lists(days, report.days.Keys) && forall d :: DayOk(report, events, rows, w, selected, day, d)
    ensures Sum(days, DailyLeads(report)) == SelectedCredits(rows, w, selected, Conversions.Lead)
    ensures Sum(days, DailyCustomers(report)) == SelectedCredits(rows, w, selected, Conversions.Customer)
  {
    forall i | 0 <= i < |rows| && Counts(rows[i], w) && Credited(rows[i], selected) ensures day(rows[i].at) in days {
      CreditDayShown(report, events, rows, w, selected, day, i);
    }
    forall i | 0 <= i < |days| ensures DayOk(report, events, rows, w, selected, day, days[i]) {
    }
    SumSame(days, DailyLeads(report), CreditsByDay(rows, w, selected, Conversions.Lead, day));
    SumSame(days, DailyCustomers(report), CreditsByDay(rows, w, selected, Conversions.Customer, day));
    CreditsOverDays(rows, w, selected, Conversions.Lead, day, days);
    CreditsOverDays(rows, w, selected, Conversions.Customer, day, days);
  }

  /** By day and by campaign the report adds up to the same starts, leads, customers and native clicks. */
  lemma DaysAddUp(report: Report, events: seq<Event>, imports: seq<Aggregate>, rows: seq<Conversions.Conversion>,
                  w: Window, selected: set<CampaignId>, day: int -> Day, campaigns: seq<CampaignId>, days: seq<Day>)
    requires IsReport(report, events, imports, rows, w, selected, day)
    requires Lists(campaigns, selected) && Lists(days, report.days.Keys)
    ensures Sum(days, DailyStarts(report)) == Sum(campaigns, Starts(report))
    ensures Sum(days, DailyLeads(report)) == Sum(campaigns, Leads(report))
    ensures Sum(days, DailyCustomers(report)) == Sum(campaigns, Customers(report))
    ensures Sum(days, DailyClicks(report)) == Sum(campaigns, NativeBy(events, w, Click))
  {
    EntriesOk(report, events, imports, rows, w, selected, day);
    DayEventColumns(report, events, rows, w, selected, day, days);
    DayCreditColumns(report, events, rows, w, selected, day, days);
    ColumnsOfEntries(report, events, rows, w, selected, campaigns);
    EventsOverCampaigns(events, w, selected, Click, campaigns);
  }

  // --- new starts -------------------------------------------------------------------------------------

  lemma {:induction false} StarterStarted(events: seq<Event>, w: Window, c: CampaignId, id: Identity)
    requires id in EventsOf(events, w, c).starters
    ensures exists i :: 0 <= i < |events| && events[i].stage == Start && events[i].campaign == Some(c) &&
                        events[i].identity == Some(id)
    decreases |events|
  {
    var n := |events| - 1;
    if id in EventsOf(events[..n], w, c).starters {
      StarterStarted(events[..n], w, c, id);
      var i :| 0 <= i < n && events[..n][i].stage == Start && events[..n][i].campaign == Some(c) &&
               events[..n][i].identity == Some(id);
      assert events[i].identity == Some(id);
    }
  }

  lemma {:induction false} StartsAreStarters(events: seq<Event>, nextId: EventId, w: Window, c: CampaignId)
    requires CampaignTracking.EventsOk(events, nextId)
    ensures EventsOf(events, w, c).starts == |EventsOf(events, w, c).starters|
    decreases |events|
  {
    if events != [] {
      var n := |events| - 1;
      var last := events[n];
      StartsAreStarters(events[..n], nextId, w, c);
      assert CampaignTracking.KeyFits(last);
      if Concerns(last, w, c) && last.stage == Start {
        NewStarter(events, nextId, w, c);
      }
    }
  }

  lemma NewStarter(events: seq<Event>, nextId: EventId, w: Window, c: CampaignId)
    requires CampaignTracking.EventsOk(events, nextId) && events != []
    requires var last := events[|events| - 1]; last.stage == Start && last.campaign == Some(c) && last.identity.Some?
    ensures events[|events| - 1].identity.value !in EventsOf(events[..|events| - 1], w, c).starters
  {
    var n := |events| - 1;
    assert CampaignTracking.KeyFits(events[n]);
    forall i | 0 <= i < n && events[i].stage == Start && events[i].campaign == Some(c)
      ensures events[i].identity != events[n].identity
    {
      assert CampaignTracking.KeyFits(events[i]) && events[i].key != events[n].key;
    }
    if events[n].identity.value in EventsOf(events[..n], w, c).starters {
      StarterStarted(events[..n], w, c, events[n].identity.value);
    }
  }

  /** In every reachable log a campaign's total starts are its new starts, in every window. */
  lemma TotalStartsAreNewStarts(actions: seq<CampaignTracking.Action>, w: Window, c: CampaignId)
    requires CampaignTracking.Valid(CampaignTracking.Empty(), actions)
    ensures var events := CampaignTracking.Run(CampaignTracking.Empty(), actions).events;
            EventsOf(events, w, c).starts == |EventsOf(events, w, c).starters|
  {
    CampaignTracking.RunKeeps(CampaignTracking.Empty(), actions);
    var log := CampaignTracking.Run(CampaignTracking.Empty(), actions);
    StartsAreStarters(log.events, log.nextId, w, c);
  }

  // --- splitting the window ---------------------------------------------------------------------------

  /**
   * A window split in two: native events, credits and buckets are additive; imported clicks are not, because an
   * aggregate that spans the split counts in neither half.
   */
  lemma {:induction false} SplitEvents(events: seq<Event>, from: int, mid: int, to: int, stage: Stage, c: CampaignId)
    requires from <= mid <= to
    ensures Native(events, Window(from, to), stage, c) ==
            Native(events, Window(from, mid), stage, c) + Native(events, Window(mid, to), stage, c)
    decreases |events|
  {
    if events != [] {
      SplitEvents(events[..|events| - 1], from, mid, to, stage, c);
    }
  }

  lemma {:induction false} SplitConversions(rows: seq<Conversions.Conversion>, from: int, mid: int, to: int,
                                            kind: Conversions.Kind, c: CampaignId, selected: set<CampaignId>, b: Bucket)
    requires from <= mid <= to
    ensures Credits(rows, Window(from, to), kind, c) ==
            Credits(rows, Window(from, mid), kind, c) + Credits(rows, Window(mid, to), kind, c)
    ensures Unattributed(rows, Window(from, to), selected, b) ==
            Unattributed(rows, Window(from, mid), selected, b) + Unattributed(rows, Window(mid, to), selected, b)
    decreases |rows|
  {
    if rows != [] {
      SplitConversions(rows[..|rows| - 1], from, mid, to, kind, c, selected, b);
    }
  }

  /** Aggregates with an ordered period, as the import checks it. */
  lemma {:induction false} SplitImports(imports: seq<Aggregate>, from: int, mid: int, to: int, c: CampaignId)
    requires from <= mid <= to && forall i :: 0 <= i < |imports| ==> imports[i].start <= imports[i].end
    ensures ImportedClicks(imports, Window(from, to), c) >=
            ImportedClicks(imports, Window(from, mid), c) + ImportedClicks(imports, Window(mid, to), c)
    decreases |imports|
  {
    if imports != [] {
      SplitImports(imports[..|imports| - 1], from, mid, to, c);
    }
  }

  /** Distinct starters of the whole are the union of the halves. */
  lemma {:induction false} SplitStarters(events: seq<Event>, from: int, mid: int, to: int, c: CampaignId)
    requires from <= mid <= to
    ensures EventsOf(events, Window(from, to), c).starters ==
            EventsOf(events, Window(from, mid), c).starters + EventsOf(events, Window(mid, to), c).starters
    decreases |events|
  {
    if events != [] {
      SplitStarters(events[..|events| - 1], from, mid, to, c);
    }
  }
}
