/**
 * Attribution of a conversion to a campaign touch: pure rules over one identity's touches. Times are integers
 * (milliseconds); event ids are numbers in the order in which they are handed out, and are compared as texts.
 */
module Attribution {
  import opened Common
  import Texts

  type CampaignId = nat
  type EventId = nat

  datatype Touch = Touch(campaign: CampaignId, at: int, recordedAt: int, eventId: EventId)
  datatype Query = Query(at: int, window: nat)

  datatype Model = FirstTouch | LastTouch
  datatype Bucket = InCampaign | NoTouch | ExpiredWindow | TouchAfterConversion
  datatype Decision = Decision(model: Model, campaign: Option<CampaignId>, bucket: Bucket, touch: Option<Touch>)

  predicate IsEligible(t: Touch, q: Query) {
    0 <= q.at - t.at <= q.window
  }

  // --- the order -------------------------------------------------------------------------------------------------

  /** By business time, then ingestion time, then the text of the event id. */
  predicate NotAfter(x: Touch, y: Touch) {
    x.at < y.at ||
    (x.at == y.at && (x.recordedAt < y.recordedAt || (x.recordedAt == y.recordedAt && Texts.IdNotAfter(x.eventId, y.eventId))))
  }

  lemma TouchTotal(x: Touch, y: Touch)
    ensures NotAfter(x, y) || NotAfter(y, x)
  {
    Texts.IdTotal(x.eventId, y.eventId);
  }

  lemma TouchTransitive(x: Touch, y: Touch, z: Touch)
    requires NotAfter(x, y) && NotAfter(y, z)
    ensures NotAfter(x, z)
  {
    if x.at == y.at == z.at && x.recordedAt == y.recordedAt == z.recordedAt {
      Texts.IdTransitive(x.eventId, y.eventId, z.eventId);
    }
  }

  lemma SameEventId(x: Touch, y: Touch)
    requires NotAfter(x, y) && NotAfter(y, x)
    ensures x.eventId == y.eventId
  {
    Texts.IdAntisymmetric(x.eventId, y.eventId);
  }

  function Insert(x: Touch, s: seq<Touch>): seq<Touch> {
    if s == [] then [x] else if NotAfter(x, s[0]) then [x] + s else [s[0]] + Insert(x, s[1..])
  }

  function SortTouches(s: seq<Touch>): seq<Touch> {
    if s == [] then [] else Insert(s[0], SortTouches(s[1..]))
  }

  ghost predicate Sorted(s: seq<Touch>) {
    forall i, k :: 0 <= i < k < |s| ==> NotAfter(s[i], s[k])
  }

  lemma {:induction false} InsertSorts(x: Touch, s: seq<Touch>)
    requires Sorted(s)
    ensures Sorted(Insert(x, s)) && multiset(Insert(x, s)) == multiset(s) + multiset{x}
  {
    if s == [] {
    } else if NotAfter(x, s[0]) {
      forall k | 0 <= k < |s| ensures NotAfter(x, s[k]) {
        if k > 0 { TouchTransitive(x, s[0], s[k]); }
      }
    } else {
      TouchTotal(x, s[0]);
      InsertSorts(x, s[1..]);
      assert s == [s[0]] + s[1..];
      var inner := Insert(x, s[1..]);
      forall k | 0 <= k < |inner| ensures NotAfter(s[0], inner[k]) {
        assert inner[k] in multiset(inner);
        assert inner[k] == x || inner[k] in s[1..];
      }
    }
  }

  lemma {:induction false} SortTouchesSorts(s: seq<Touch>)
    ensures Sorted(SortTouches(s)) && multiset(SortTouches(s)) == multiset(s)
  {
    if s != [] {
      SortTouchesSorts(s[1..]);
      InsertSorts(s[0], SortTouches(s[1..]));
      assert s == [s[0]] + s[1..];
    }
  }

  lemma SameMembers(s: seq<Touch>)
    ensures forall t :: t in SortTouches(s) <==> t in s
  {
    SortTouchesSorts(s);
    forall t ensures t in SortTouches(s) <==> t in s {
      assert t in SortTouches(s) <==> t in multiset(SortTouches(s));
      assert t in s <==> t in multiset(s);
    }
  }

  // --- decisions -------------------------------------------------------------------------------------------------

  function OnlyEligible(s: seq<Touch>, q: Query): seq<Touch> {
    if s == [] then []
    else if IsEligible(s[0], q) then [s[0]] + OnlyEligible(s[1..], q) else OnlyEligible(s[1..], q)
  }

  predicate SomeEarlier(s: seq<Touch>, q: Query) {
    exists i :: 0 <= i < |s| && s[i].at <= q.at
  }

  function IneligibleBucket(touches: seq<Touch>, q: Query): Bucket {
    if touches == [] then NoTouch else if !SomeEarlier(touches, q) then TouchAfterConversion else ExpiredWindow
  }

  function DecideAttribution(model: Model, touches: seq<Touch>, q: Query): Decision {
    if touches == [] then Decision(model, None, IneligibleBucket(touches, q), None)
    else
      var ordered := SortTouches(touches);
      var eligible := OnlyEligible(ordered, q);
      if eligible == [] then Decision(model, None, IneligibleBucket(ordered, q), None)
      else
        var chosen := if model == FirstTouch then eligible[0] else eligible[|eligible| - 1];
        Decision(model, Some(chosen.campaign), InCampaign, Some(chosen))
  }

  function DecideBothModels(touches: seq<Touch>, q: Query): seq<Decision> {
    [DecideAttribution(FirstTouch, touches, q), DecideAttribution(LastTouch, touches, q)]
  }

  /** The first decision of a model in a list. */
  function Find(decisions: seq<Decision>, model: Model): Option<Decision> {
    if decisions == [] then None
    else if decisions[0].model == model then Some(decisions[0]) else Find(decisions[1..], model)
  }

  function CreditedCampaign(decisions: seq<Decision>): Decision {
    var last := Find(decisions, LastTouch);
    if last.Some? && last.value.campaign.Some? then last.value
    else
      var first := Find(decisions, FirstTouch);
      if first.Some? && first.value.campaign.Some? then first.value
      else if last.Some? then last.value
      else if first.Some? then first.value
      else Decision(LastTouch, None, NoTouch, None)
  }

  // --- what is decided ---------------------------------------------------------------------------------------------

  lemma {:induction false} EligibleMembers(s: seq<Touch>, q: Query)
    requires Sorted(s)
    ensures forall t :: t in OnlyEligible(s, q) <==> t in s && IsEligible(t, q)
    ensures Sorted(OnlyEligible(s, q))
  {
    if s != [] {
      EligibleMembers(s[1..], q);
      assert s == [s[0]] + s[1..];
      var rest := OnlyEligible(s[1..], q);
      forall k | 0 <= k < |rest| ensures NotAfter(s[0], rest[k]) {
        assert rest[k] in rest;
        var i :| 0 <= i < |s[1..]| && s[1..][i] == rest[k];
        assert s[i + 1] == rest[k];
      }
    }
  }

  /** The best eligible touch of a model: the least one in the order, or the greatest. */
  ghost predicate IsChoice(model: Model, touches: seq<Touch>, q: Query, t: Touch) {
    && t in touches && IsEligible(t, q)
    && forall u :: u in touches && IsEligible(u, q) ==> if model == FirstTouch then NotAfter(t, u) else NotAfter(u, t)
  }

  /**
   * A touch is credited exactly when some touch lies within the window before the conversion, and then it is the
   * lexicographic minimum (FIRST_TOUCH) or maximum (LAST_TOUCH) of all of them.
   */
  lemma DecidesByExtreme(model: Model, touches: seq<Touch>, q: Query)
    ensures var d := DecideAttribution(model, touches, q);
            && (d.bucket == InCampaign <==> exists t :: t in touches && IsEligible(t, q))
            && (d.bucket == InCampaign ==>
                  d.touch.Some? && IsChoice(model, touches, q, d.touch.value) && d.campaign == Some(d.touch.value.campaign))
            && (d.bucket != InCampaign ==> d.touch == None && d.campaign == None)
  {
    var ordered := SortTouches(touches);
    SortTouchesSorts(touches);
    SameMembers(touches);
    EligibleMembers(ordered, q);
    var eligible := OnlyEligible(ordered, q);
    if touches != [] && eligible != [] {
      var chosen := if model == FirstTouch then eligible[0] else eligible[|eligible| - 1];
      assert chosen in eligible;
      forall u | u in touches && IsEligible(u, q)
        ensures if model == FirstTouch then NotAfter(chosen, u) else NotAfter(u, chosen)
      {
        assert u in eligible;
        var k :| 0 <= k < |eligible| && eligible[k] == u;
        TouchTotal(chosen, chosen);
      }
    } else {
      forall t | t in touches ensures !IsEligible(t, q) {
        assert t in ordered;
        assert t !in eligible;
      }
    }
  }

  /** The four buckets partition all inputs. */
  lemma BucketsPartition(model: Model, touches: seq<Touch>, q: Query)
    ensures var b := DecideAttribution(model, touches, q).bucket;
            && (b == NoTouch <==> touches == [])
            && (b == TouchAfterConversion <==> touches != [] && forall t :: t in touches ==> t.at > q.at)
            && (b == ExpiredWindow <==>
                  (exists t :: t in touches && t.at <= q.at) && forall t :: t in touches && t.at <= q.at ==> q.at - t.at > q.window)
            && (b == InCampaign <==> exists t :: t in touches && 0 <= q.at - t.at <= q.window)
  {
    DecidesByExtreme(model, touches, q);
    var ordered := SortTouches(touches);
    SortTouchesSorts(touches);
    SameMembers(touches);
    if touches != [] {
      assert touches[0] in ordered;
      if t :| t in touches && t.at <= q.at {
        assert t in ordered;
        var i :| 0 <= i < |ordered| && ordered[i] == t;
        assert SomeEarlier(ordered, q);
      }
      if SomeEarlier(ordered, q) {
        var i :| 0 <= i < |ordered| && ordered[i].at <= q.at;
        assert ordered[i] in touches;
      }
      assert (exists t :: t in touches && 0 <= q.at - t.at <= q.window) <==> (exists t :: t in touches && IsEligible(t, q)) by {
        assert forall t :: IsEligible(t, q) <==> 0 <= q.at - t.at <= q.window;
      }
    }
  }

  // --- order, late touches, credit ---------------------------------------------------------------------------------

  ghost predicate DistinctIds(touches: seq<Touch>) {
    forall x, y | x in touches && y in touches :: x.eventId == y.eventId ==> x == y
  }

  lemma ChoiceIsUnique(model: Model, a: seq<Touch>, b: seq<Touch>, q: Query, x: Touch, y: Touch)
    requires DistinctIds(a) && (forall t :: t in a <==> t in b)
    requires IsChoice(model, a, q, x) && IsChoice(model, b, q, y)
    ensures x == y
  {
    SameEventId(x, y);
  }

  /** The decision depends only on which touches there are, not on the order the store lists them in. */
  lemma OrderFree(model: Model, a: seq<Touch>, b: seq<Touch>, q: Query)
    requires DistinctIds(a) && forall t :: t in a <==> t in b
    ensures DecideAttribution(model, a, q) == DecideAttribution(model, b, q)
  {
    DecidesByExtreme(model, a, q);
    DecidesByExtreme(model, b, q);
    BucketsPartition(model, a, q);
    BucketsPartition(model, b, q);
    var da, db := DecideAttribution(model, a, q), DecideAttribution(model, b, q);
    if a != [] { assert a[0] in b; }
    if b != [] { assert b[0] in a; }
    assert da.bucket == db.bucket;
    if da.bucket == InCampaign {
      ChoiceIsUnique(model, a, b, q, da.touch.value, db.touch.value);
    }
  }

  /** A touch after the conversion never changes a credit or an expiry, whenever it is ingested. */
  lemma LaterTouchIgnored(model: Model, touches: seq<Touch>, q: Query, late: Touch)
    requires late.at > q.at && DistinctIds(touches + [late])
    ensures var before := DecideAttribution(model, touches, q);
            var after := DecideAttribution(model, touches + [late], q);
            if before.bucket == NoTouch then after.bucket == TouchAfterConversion else after == before
  {
    var more := touches + [late];
    DecidesByExtreme(model, touches, q);
    DecidesByExtreme(model, more, q);
    BucketsPartition(model, touches, q);
    BucketsPartition(model, more, q);
    assert late in more && forall t :: t in touches ==> t in more;
    var before, after := DecideAttribution(model, touches, q), DecideAttribution(model, more, q);
    if before.bucket == InCampaign {
      assert before.touch.value in more;
      assert IsChoice(model, touches, q, after.touch.value);
      assert DistinctIds(touches);
      ChoiceIsUnique(model, touches, touches, q, before.touch.value, after.touch.value);
    }
  }

  /** Both models credit together, so what a conversion is credited to is always the LAST_TOUCH decision. */
  lemma CreditIsLastTouch(touches: seq<Touch>, q: Query)
    ensures CreditedCampaign(DecideBothModels(touches, q)) == DecideAttribution(LastTouch, touches, q)
    ensures DecideAttribution(FirstTouch, touches, q).campaign.Some? <==> DecideAttribution(LastTouch, touches, q).campaign.Some?
  {
    DecidesByExtreme(FirstTouch, touches, q);
    DecidesByExtreme(LastTouch, touches, q);
    var both := DecideBothModels(touches, q);
    assert both[1..] == [DecideAttribution(LastTouch, touches, q)];
    assert both[1..][1..] == [];
    assert Find(both, FirstTouch) == Some(both[0]) && Find(both, LastTouch) == Some(both[1]);
  }

  /** Of two touches of one time the later handed out need not be the last: `evt_10` sorts before `evt_9`. */
  lemma NinthIsLast(ninth: CampaignId, tenth: CampaignId, at: int)
    ensures var touches := [Touch(ninth, at, at, 8), Touch(tenth, at, at, 9)];
            DecideAttribution(LastTouch, touches, Query(at, 0)).campaign == Some(ninth)
  {
    var touches := [Touch(ninth, at, at, 8), Touch(tenth, at, at, 9)];
    DecidesByExtreme(LastTouch, touches, Query(at, 0));
    assert touches[0] in touches && IsEligible(touches[0], Query(at, 0));
    Texts.TenthFirst();
  }
}
