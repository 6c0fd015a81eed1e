/** The pure trigger rules, and what they mean over whole price paths. Prices are reals, so always finite. */
module AlertEvaluator {
  import opened Common
  import opened AlertModel

  datatype Observation = Observation(symbol: Symbol, current: real, previous: Option<real>)

  datatype Evaluation = Evaluation(reason: Option<Kind>, change: Option<real>)

  const QUIET := Evaluation(None, None)

  function EvaluateAbove(alert: Alert, o: Observation): Evaluation {
    if alert.target.price.None? || o.previous.None? then QUIET
    else if o.previous.value < alert.target.price.value <= o.current then Evaluation(Some(PriceAbove), None)
    else QUIET
  }

  function EvaluateBelow(alert: Alert, o: Observation): Evaluation {
    if alert.target.price.None? || o.previous.None? then QUIET
    else if o.previous.value > alert.target.price.value >= o.current then Evaluation(Some(PriceBelow), None)
    else QUIET
  }

  function EvaluatePercentage(alert: Alert, o: Observation): Evaluation {
    if alert.target.percent.None? || alert.target.percent.value <= 0.0 || alert.baseline.None? || alert.baseline.value <= 0.0
    then QUIET
    else
      var change := (o.current - alert.baseline.value) / alert.baseline.value * 100.0;
      if alert.target.kind == PercentIncrease && change >= alert.target.percent.value
      then Evaluation(Some(PercentIncrease), Some(change))
      else if alert.target.kind == PercentDecrease && change <= -alert.target.percent.value
      then Evaluation(Some(PercentDecrease), Some(change))
      else Evaluation(None, Some(change))
  }

  /** A corrupt record, a foreign symbol, an inactive alert or a price that is not positive never fires. */
  function Evaluate(alert: Alert, o: Observation): Evaluation {
    if alert.target.symbol != o.symbol || alert.status != Active || o.current <= 0.0 then QUIET
    else
      match alert.target.kind
      case PriceAbove => EvaluateAbove(alert, o)
      case PriceBelow => EvaluateBelow(alert, o)
      case _ => EvaluatePercentage(alert, o)
  }

  predicate Fires(alert: Alert, o: Observation) {
    Evaluate(alert, o).reason.Some?
  }

  /** Whatever fires carries the kind of its alert as the reason, and only an ACTIVE alert fires. */
  lemma ReasonIsKind(alert: Alert, o: Observation)
    requires Fires(alert, o)
    ensures Evaluate(alert, o).reason == Some(alert.target.kind) && alert.status == Active
  {
  }

  // --- the percentage rule ---------------------------------------------------------------------------------------

  predicate WellFormedPercent(alert: Alert) {
    && (alert.target.kind == PercentIncrease || alert.target.kind == PercentDecrease) && alert.status == Active
    && alert.target.percent.Some? && alert.target.percent.value > 0.0
    && alert.baseline.Some? && alert.baseline.value > 0.0
  }

  /** An increase fires exactly from `baseline * (1 + p%)` on, a decrease exactly down from `baseline * (1 - p%)`. */
  lemma PercentThreshold(alert: Alert, o: Observation)
    requires WellFormedPercent(alert) && o.symbol == alert.target.symbol && o.current > 0.0
    ensures var b := alert.baseline.value;
            var p := alert.target.percent.value;
            Fires(alert, o) <==>
            if alert.target.kind == PercentIncrease then o.current >= b + b * p / 100.0
            else o.current <= b - b * p / 100.0
  {
    var b, p := alert.baseline.value, alert.target.percent.value;
    var change := (o.current - b) / b * 100.0;
    ScaledBy(o.current - b, b);
    if change >= p {
      Times(b, p, change);
    } else {
      TimesStrict(b, change, p);
    }
    if change <= -p {
      Times(b, change, -p);
    } else {
      TimesStrict(b, -p, change);
    }
    assert b * -p == -(b * p);
  }

  lemma ScaledBy(x: real, b: real)
    requires b > 0.0
    ensures b * (x / b * 100.0) == x * 100.0
  {
    assert b * (x / b) == x;
    assert b * (x / b * 100.0) == b * (x / b) * 100.0;
  }

  lemma Times(b: real, x: real, y: real)
    requires b > 0.0 && x <= y
    ensures b * x <= b * y
  {
  }

  lemma TimesStrict(b: real, x: real, y: real)
    requires b > 0.0 && x < y
    ensures b * x < b * y
  {
  }

  // --- the rules by themselves -------------------------------------------------------------------------------------

  /** When an observation is to trigger an alert: a crossing of the target, or the distance from the baseline. */
  predicate Meets(alert: Alert, o: Observation) {
    && alert.status == Active && alert.target.symbol == o.symbol && o.current > 0.0
    && match alert.target.kind
       case PriceAbove =>
         && alert.target.price.Some? && o.previous.Some?
         && o.previous.value < alert.target.price.value && o.current >= alert.target.price.value
       case PriceBelow =>
         && alert.target.price.Some? && o.previous.Some?
         && o.previous.value > alert.target.price.value && o.current <= alert.target.price.value
       case PercentIncrease => Measurable(alert) && o.current >= alert.baseline.value * (1.0 + alert.target.percent.value / 100.0)
       case PercentDecrease => Measurable(alert) && o.current <= alert.baseline.value * (1.0 - alert.target.percent.value / 100.0)
  }

  predicate Measurable(alert: Alert) {
    alert.target.percent.Some? && alert.target.percent.value > 0.0 && alert.baseline.Some? && alert.baseline.value > 0.0
  }

  /** The evaluation fires exactly then. */
  lemma FiresExactly(alert: Alert, o: Observation)
    ensures Fires(alert, o) <==> Meets(alert, o)
  {
    if WellFormedPercent(alert) && o.symbol == alert.target.symbol && o.current > 0.0 {
      PercentThreshold(alert, o);
      Scaled(alert.baseline.value, alert.target.percent.value);
    }
  }

  lemma Scaled(b: real, p: real)
    ensures b * (1.0 + p / 100.0) == b + b * p / 100.0 && b * (1.0 - p / 100.0) == b - b * p / 100.0
  {
    assert b * (p / 100.0) == b * p / 100.0;
  }

  /** Without a price before it no crossing is established: the first accepted price of a symbol triggers no price alert. */
  lemma WaitsForSecond(alert: Alert, o: Observation)
    requires IsPriceAlert(alert) && o.previous.None?
    ensures !Fires(alert, o)
  {
    FiresExactly(alert, o);
  }

  // --- crossings over price paths ----------------------------------------------------------------------------------

  predicate IsPriceAlert(alert: Alert) {
    && (alert.target.kind == PriceAbove || alert.target.kind == PriceBelow)
    && alert.target.price.Some? && alert.status == Active
  }

  /** Strictly on the side the alert waits on. */
  predicate Near(alert: Alert, price: real)
    requires IsPriceAlert(alert)
  {
    if alert.target.kind == PriceAbove then price < alert.target.price.value else price > alert.target.price.value
  }

  ghost predicate Positive(path: seq<real>) {
    forall i :: 0 <= i < |path| ==> path[i] > 0.0
  }

  /** The first price has no price before it. */
  function Observed(alert: Alert, path: seq<real>, i: nat): Observation
    requires i < |path|
  {
    Observation(alert.target.symbol, path[i], if i == 0 then None else Some(path[i - 1]))
  }

  /** The alert after the path: a firing makes it TRIGGERED. */
  function After(alert: Alert, path: seq<real>): Alert {
    if path == [] then alert
    else
      var before := After(alert, path[..|path| - 1]);
      if Fires(before, Observed(alert, path, |path| - 1)) then before.(status := Triggered) else before
  }

  /** The observations at which the alert fires. */
  function Firings(alert: Alert, path: seq<real>): seq<nat> {
    if path == [] then []
    else
      var before := Firings(alert, path[..|path| - 1]);
      if Fires(After(alert, path[..|path| - 1]), Observed(alert, path, |path| - 1)) then before + [|path| - 1] else before
  }

  /** A price at or past the target at `b` with some earlier price strictly on the near side. */
  ghost predicate Reached(alert: Alert, path: seq<real>, b: nat)
    requires IsPriceAlert(alert)
  {
    b < |path| && !Near(alert, path[b]) && exists a :: 0 <= a < b && Near(alert, path[a])
  }

  lemma ReachedPrefix(alert: Alert, path: seq<real>, n: nat, b: nat)
    requires IsPriceAlert(alert) && n <= |path| && b < n
    ensures Reached(alert, path[..n], b) <==> Reached(alert, path, b)
  {
    if Reached(alert, path, b) {
      var a :| 0 <= a < b && Near(alert, path[a]);
      assert Near(alert, path[..n][a]);
    }
    if Reached(alert, path[..n], b) {
      var a :| 0 <= a < b && Near(alert, path[..n][a]);
      assert Near(alert, path[a]);
    }
  }

  /** When nothing was reached before the last price, a near price stays near up to the end. */
  lemma NearStays(alert: Alert, path: seq<real>, a: nat)
    requires IsPriceAlert(alert) && a < |path| && Near(alert, path[a])
    requires forall b: nat :: b < |path| ==> !Reached(alert, path, b)
    ensures Near(alert, path[|path| - 1])
  {
    if !Near(alert, path[|path| - 1]) {
      assert Reached(alert, path, |path| - 1);
    }
  }

  /** One more price for an alert that has not fired: it fires exactly when it crosses from the price just before. */
  lemma NextPrice(alert: Alert, path: seq<real>)
    requires IsPriceAlert(alert) && path != [] && Positive(path)
    requires var before := path[..|path| - 1]; After(alert, before) == alert && Firings(alert, before) == []
    ensures var n := |path| - 1;
            var crosses := n > 0 && Near(alert, path[n - 1]) && !Near(alert, path[n]);
            && Firings(alert, path) == (if crosses then [n] else [])
            && After(alert, path) == (if crosses then alert.(status := Triggered) else alert)
  {
    var n := |path| - 1;
    FiresExactly(alert, Observed(alert, path, n));
    assert path[n] > 0.0;
  }

  lemma NoMorePrices(alert: Alert, path: seq<real>)
    requires path != [] && After(alert, path[..|path| - 1]).status == Triggered
    ensures After(alert, path) == After(alert, path[..|path| - 1]) && Firings(alert, path) == Firings(alert, path[..|path| - 1])
  {
  }

  /**
   * The alert fires exactly once, at the first price at or past the target that has any earlier price strictly on
   * the near side, however far the price jumped and wherever it wandered before; without such a price it never
   * fires and stays ACTIVE.
   */
  lemma {:induction false} FiresOnceAtFirstCrossing(alert: Alert, path: seq<real>)
    requires IsPriceAlert(alert) && Positive(path)
    ensures (forall b: nat :: !Reached(alert, path, b)) ==> Firings(alert, path) == [] && After(alert, path) == alert
    ensures (exists b: nat :: Reached(alert, path, b)) ==>
              && |Firings(alert, path)| == 1 && Reached(alert, path, Firings(alert, path)[0])
              && (forall b: nat :: Reached(alert, path, b) ==> Firings(alert, path)[0] <= b)
              && After(alert, path) == alert.(status := Triggered)
    decreases |path|
  {
    if path != [] {
      var n := |path| - 1;
      var before := path[..n];
      FiresOnceAtFirstCrossing(alert, before);
      forall b: nat | b < n ensures Reached(alert, before, b) <==> Reached(alert, path, b) {
        ReachedPrefix(alert, path, n, b);
      }
      if b: nat :| Reached(alert, before, b) {
        assert Reached(alert, path, b);
        NoMorePrices(alert, path);
      } else {
        LastPrice(alert, path, before);
        NextPrice(alert, path);
      }
    }
  }

  /** With nothing reached before it, the last price is reached exactly when the price just before it is near. */
  lemma LastPrice(alert: Alert, path: seq<real>, before: seq<real>)
    requires IsPriceAlert(alert) && path != [] && before == path[..|path| - 1]
    requires forall b: nat :: !Reached(alert, before, b)
    ensures var n := |path| - 1;
            Reached(alert, path, n) <==> n > 0 && Near(alert, path[n - 1]) && !Near(alert, path[n])
  {
    var n := |path| - 1;
    if Reached(alert, path, n) {
      var a :| 0 <= a < n && Near(alert, path[a]);
      NearStays(alert, before, a);
    }
  }

  /** A path from the near side to the target or past it always fires, jumps included. */
  lemma JumpFires(alert: Alert, path: seq<real>)
    requires IsPriceAlert(alert) && Positive(path) && |path| > 1
    requires Near(alert, path[0]) && !Near(alert, path[|path| - 1])
    ensures |Firings(alert, path)| == 1
  {
    assert Reached(alert, path, |path| - 1);
    FiresOnceAtFirstCrossing(alert, path);
  }
}
