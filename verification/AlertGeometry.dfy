/** Targets of technical alerts - fixed prices, lines and channels - and when market evidence meets them.
    Prices and times are reals; the logarithm and its inverse, used by "log" lines, are parameters. */
module AlertGeometry {
  import opened Reals
  import opened Options
  import opened Texts

  datatype Curves = Curves(log: real -> real, exp: real -> real)

  datatype Anchor = Anchor(time: real, price: real)

  datatype Line = Line(version: int, kind: string, a: Anchor, b: Anchor, domain: string, interpolation: string)

  /** The persisted union; which fields belong to it depends on `kind`. */
  datatype Target = Target(
    version: int,
    kind: string,
    price: Option<real>,
    a: Option<Anchor>,
    b: Option<Anchor>,
    domain: string,
    interpolation: string,
    boundaryA: Option<Line>,
    boundaryB: Option<Line>,
    operator: string)

  datatype Evidence = Evidence(price: real, timestamp: real)

  predicate ValidPrice(price: real) {
    price > 0.0
  }

  // ----- Validation -----

  predicate LineForm(line: Line) {
    && line.a.time > 0.0 && line.b.time > 0.0 && line.a.time != line.b.time
    && ValidPrice(line.a.price) && ValidPrice(line.b.price)
    && line.domain in {"segment", "ray", "infinite"}
    && line.interpolation in {"linear", "log"}
  }

  /** validateDynamicLineTarget: the line with its texts trimmed, or nothing. */
  function ValidatedLine(line: Line): (r: Option<Line>)
    ensures r.Some? ==> LineForm(r.value) && r.value.kind == "dynamic-line" && r.value.version == 1
  {
    var trimmed :=
        line.(kind := "dynamic-line", domain := Trim(line.domain), interpolation := Trim(line.interpolation));
    if line.version == 1 && Trim(line.kind) == "dynamic-line" && LineForm(trimmed) then Some(trimmed) else None
  }

  function Slope(line: Line, curves: Curves): real
    requires LineForm(line)
  {
    var p, q := line.a.price, line.b.price;
    var rise := if line.interpolation == "log" then curves.log(q) - curves.log(p) else q - p;
    rise / (line.b.time - line.a.time)
  }

  const EPSILON := 0.0000000000000002220446049250313

  predicate ParallelChannelSlopes(a: Line, b: Line, curves: Curves)
    requires LineForm(a) && LineForm(b)
  {
    var s, t := Slope(a, curves), Slope(b, curves);
    Absolute(s - t) <= EPSILON * 64.0 * Larger(1.0, Larger(Absolute(s), Absolute(t)))
  }

  predicate ValidChannelOperator(operator: string) {
    operator in {"cross-upper-up", "cross-upper-down", "cross-lower-up", "cross-lower-down", "enter", "exit", "inside",
                 "outside"}
  }

  function ValidatedChannel(target: Target, curves: Curves): Option<Target> {
    if target.price.Some? || target.a.Some? || target.b.Some? || target.domain != "" || target.interpolation != ""
       || target.boundaryA.None? || target.boundaryB.None? || !ValidChannelOperator(target.operator)
    then None
    else
      var a, b := ValidatedLine(target.boundaryA.value), ValidatedLine(target.boundaryB.value);
      if a.None? || b.None? then None
      else if a.value.domain != b.value.domain || a.value.interpolation != b.value.interpolation then None
      else if a.value.a.time != b.value.a.time || a.value.b.time != b.value.b.time
              || !ParallelChannelSlopes(a.value, b.value, curves) then None
      else Some(target.(boundaryA := a, boundaryB := b))
  }

  /** validateTechnicalTarget on a target that is present: the target with its texts trimmed, or nothing. */
  function Validated(given: Target, curves: Curves): Option<Target> {
    var target := given.(kind := Trim(given.kind), domain := Trim(given.domain),
                         interpolation := Trim(given.interpolation), operator := Trim(given.operator));
    if target.version != 1 then None
    else if target.kind == "fixed-price" then
      if target.price.None? || !ValidPrice(target.price.value) || target.a.Some? || target.b.Some?
         || target.domain != "" || target.interpolation != "" || target.boundaryA.Some? || target.boundaryB.Some?
            || target.operator != ""
      then None else Some(target)
    else if target.kind == "dynamic-line" then
      if target.price.Some? || target.a.None? || target.b.None? || target.boundaryA.Some? || target.boundaryB.Some?
         || target.operator != ""
      then None
      else
        var line := ValidatedLine(OwnLine(target));
        if line.None? then None
        else Some(target.(domain := line.value.domain, interpolation := line.value.interpolation))
    else if target.kind == "dynamic-channel" then ValidatedChannel(target, curves)
    else None
  }

  function OwnLine(target: Target): Line
    requires target.a.Some? && target.b.Some?
  {
    Line(target.version, target.kind, target.a.value, target.b.value, target.domain, target.interpolation)
  }

  /** A stored target validates again to itself. */
  lemma {:induction false} ValidationIsStable(given: Target, curves: Curves)
    ensures var once := Validated(given, curves); once.Some? ==> Validated(once.value, curves) == once
  {
    hide Trim, LineForm, ParallelChannelSlopes, ValidChannelOperator;
    var once := Validated(given, curves);
    if once.Some? {
      assert Trim("dynamic-line") == "dynamic-line";
    }
  }

  // ----- Where a target is at a time -----

  datatype Reason = BeforeDomain | Expired | Invalid

  datatype Place = Active(lower: real, upper: real) | Inactive(reason: Reason)

  /** Times from 100 000 000 000 on are milliseconds. */
  function NormalizeEpochSeconds(value: real): real {
    if value >= 100000000000.0 then value / 1000.0 else value
  }

  /** A time normalized twice is the time normalized once exactly below 100 000 000 000 000. */
  lemma {:induction false} NormalizedOnceWhen(value: real)
    ensures NormalizeEpochSeconds(NormalizeEpochSeconds(value)) == NormalizeEpochSeconds(value)
            <==> value < 100000000000000.0
  {
  }

  function LinePrice(line: Line, timestamp: real, curves: Curves): real
    requires line.a.time != line.b.time
  {
    var ratio := (timestamp - line.a.time) / (line.b.time - line.a.time);
    if line.interpolation == "log" then
      curves.exp(curves.log(line.a.price) + (curves.log(line.b.price) - curves.log(line.a.price)) * ratio)
    else line.a.price + (line.b.price - line.a.price) * ratio
  }

  function LineTargetAt(line: Line, marketTime: real, curves: Curves): Place {
    var timestamp, start, end := NormalizeEpochSeconds(marketTime), line.a.time, line.b.time;
    if !ValidPrice(line.a.price) || !ValidPrice(line.b.price) || start == end then Inactive(Invalid)
    else if line.domain == "segment" && timestamp < Smaller(start, end) then Inactive(BeforeDomain)
    else if line.domain == "segment" && timestamp > Larger(start, end) then Inactive(Expired)
    else if line.domain == "ray" && start < end && timestamp < start then Inactive(BeforeDomain)
    else if line.domain == "ray" && start > end && timestamp > start then Inactive(Expired)
    else
      var price := LinePrice(line, timestamp, curves);
      if ValidPrice(price) then Active(price, price) else Inactive(Invalid)
  }

  function TargetAt(target: Target, marketTime: real, curves: Curves): Place {
    if target.kind == "fixed-price" then
      if target.price.None? || !ValidPrice(target.price.value) then Inactive(Invalid)
      else Active(target.price.value, target.price.value)
    else if target.kind == "dynamic-line" then
      if target.a.None? || target.b.None? then Inactive(Invalid) else LineTargetAt(OwnLine(target), marketTime, curves)
    else if target.kind != "dynamic-channel" || target.boundaryA.None? then Inactive(Invalid)
    else
      var a := LineTargetAt(target.boundaryA.value, marketTime, curves);
      if a.Inactive? then a
      else if target.boundaryB.None? then Inactive(Invalid)
      else
        var b := LineTargetAt(target.boundaryB.value, marketTime, curves);
        if b.Inactive? then b else Active(Smaller(a.lower, b.lower), Larger(a.upper, b.upper))
  }

  // ----- Geometry of linear lines -----

  predicate Linear(line: Line) {
    LineForm(line) && line.interpolation == "linear"
  }

  lemma {:induction false} DivideProduct(x: real, y: real, d: real)
    requires d != 0.0
    ensures x * (y / d) == x / d * y
  {
  }

  lemma {:induction false} SlopeForm(line: Line, t: real, curves: Curves)
    requires Linear(line)
    ensures LinePrice(line, t, curves) == line.a.price + Slope(line, curves) * (t - line.a.time)
  {
    DivideProduct(line.b.price - line.a.price, t - line.a.time, line.b.time - line.a.time);
  }

  lemma {:induction false} Distribute(s: real, u: real, x: real, y: real)
    ensures (s - u) * (y - x) == s * y - s * x - (u * y - u * x)
  {
  }

  /** How far apart two lines over the same anchor times move: by the difference of their slopes. */
  lemma {:induction false} GapDrift(a: Line, b: Line, t: real, u: real, curves: Curves)
    requires Linear(a) && Linear(b) && a.a.time == b.a.time && a.b.time == b.b.time
    ensures (LinePrice(a, u, curves) - LinePrice(b, u, curves)) - (LinePrice(a, t, curves) - LinePrice(b, t, curves))
            == (Slope(a, curves) - Slope(b, curves)) * (u - t)
  {
    SlopeForm(a, t, curves);
    SlopeForm(a, u, curves);
    SlopeForm(b, t, curves);
    SlopeForm(b, u, curves);
    Distribute(Slope(a, curves), Slope(b, curves), t - a.a.time, u - a.a.time);
  }

  predicate ExactChannel(target: Target, curves: Curves) {
    && target.kind == "dynamic-channel" && target.boundaryA.Some? && target.boundaryB.Some?
    && Linear(target.boundaryA.value) && Linear(target.boundaryB.value)
    && target.boundaryA.value.a.time == target.boundaryB.value.a.time
    && target.boundaryA.value.b.time == target.boundaryB.value.b.time
    && Slope(target.boundaryA.value, curves) == Slope(target.boundaryB.value, curves)
  }

  /** Validation leaves equal slopes as the only thing an exact linear channel still needs. */
  lemma {:induction false} ValidatedChannelIsExactWhen(given: Target, curves: Curves)
    requires Validated(given, curves).Some? && Validated(given, curves).value.kind == "dynamic-channel"
    ensures var target := Validated(given, curves).value;
            && target.boundaryA.Some? && target.boundaryB.Some?
            && LineForm(target.boundaryA.value) && LineForm(target.boundaryB.value)
            && (ExactChannel(target, curves)
                <==> target.boundaryA.value.interpolation == "linear"
                     && Slope(target.boundaryA.value, curves) == Slope(target.boundaryB.value, curves))
  {
    hide Trim, Slope, ParallelChannelSlopes;
  }

  /** Which of the two stored lines is the upper one: the one that starts higher. */
  predicate AIsUpper(target: Target)
    requires target.boundaryA.Some? && target.boundaryB.Some?
  {
    target.boundaryA.value.a.price >= target.boundaryB.value.a.price
  }

  lemma {:induction false} GapAtStart(a: Line, b: Line, t: real, curves: Curves)
    requires Linear(a) && Linear(b) && a.a.time == b.a.time && a.b.time == b.b.time
             && Slope(a, curves) == Slope(b, curves)
    ensures LinePrice(a, t, curves) - LinePrice(b, t, curves) == a.a.price - b.a.price
  {
    SlopeForm(a, t, curves);
    SlopeForm(b, t, curves);
  }

  /** At every active time the channel is equally wide, and upper and lower are the same stored lines. */
  lemma {:induction false} ChannelKeepsItsWidth(target: Target, t: real, curves: Curves)
    requires ExactChannel(target, curves) && TargetAt(target, t, curves).Active?
    ensures var a, b, place := target.boundaryA.value, target.boundaryB.value, TargetAt(target, t, curves);
            var u := NormalizeEpochSeconds(t);
            && place.upper - place.lower == Absolute(a.a.price - b.a.price)
            && place.upper == LinePrice(if AIsUpper(target) then a else b, u, curves)
            && place.lower == LinePrice(if AIsUpper(target) then b else a, u, curves)
  {
    hide LinePrice, Slope;
    GapAtStart(target.boundaryA.value, target.boundaryB.value, NormalizeEpochSeconds(t), curves);
  }

  lemma {:induction false} PartBetween(d: real, part: real, whole: real)
    requires whole != 0.0 && (0.0 <= part <= whole || whole <= part <= 0.0)
    ensures 0.0 <= part / whole <= 1.0
    ensures d >= 0.0 ==> 0.0 <= d * (part / whole) <= d
    ensures d <= 0.0 ==> d <= d * (part / whole) <= 0.0
  {
    var r := part / whole;
    assert r * whole == part;
    RatioInUnit(r, whole, part);
    ScaleBetween(d, r);
  }

  lemma {:induction false} SignOfProduct(r: real, w: real)
    requires w > 0.0
    ensures r < 0.0 ==> r * w < 0.0
    ensures r > 0.0 ==> r * w > 0.0
  {
  }

  lemma {:induction false} ShiftProduct(r: real, w: real)
    ensures (r - 1.0) * w == r * w - w
    ensures r * -w == -(r * w)
  {
  }

  lemma {:induction false} RatioInUnit(r: real, whole: real, part: real)
    requires whole != 0.0 && r * whole == part && (0.0 <= part <= whole || whole <= part <= 0.0)
    ensures 0.0 <= r <= 1.0
  {
    var w := if whole > 0.0 then whole else -whole;
    ShiftProduct(r, whole);
    ShiftProduct(r, w);
    SignOfProduct(r, w);
    SignOfProduct(r - 1.0, w);
  }

  /** A segment stays between the prices of its anchors. */
  lemma {:induction false} SegmentBetweenAnchors(line: Line, t: real, curves: Curves)
    requires Linear(line) && line.domain == "segment" && LineTargetAt(line, t, curves).Active?
    ensures var price := LineTargetAt(line, t, curves).lower;
            Smaller(line.a.price, line.b.price) <= price <= Larger(line.a.price, line.b.price)
  {
    var u := NormalizeEpochSeconds(t);
    var d, part, whole := line.b.price - line.a.price, u - line.a.time, line.b.time - line.a.time;
    PartBetween(d, part, whole);
    var step := d * (part / whole);
    assert LinePrice(line, u, curves) == line.a.price + step;
    assert LineTargetAt(line, t, curves).lower == line.a.price + step;
  }

  lemma {:induction false} SameLine(line: Line, t: real, curves: Curves)
    requires Linear(line)
    ensures LinePrice(line.(a := line.b, b := line.a), t, curves) == LinePrice(line, t, curves)
  {
    var a, b := line.a, line.b;
    var d, w := b.time - a.time, b.price - a.price;
    var r := (t - a.time) / d;
    assert (t - b.time) / (a.time - b.time) == 1.0 - r by {
      FlipRatio(t, a.time, b.time);
    }
    assert b.price + (a.price - b.price) * (1.0 - r) == a.price + w * r by {
      FlipScale(a.price, b.price, r);
    }
  }

  lemma {:induction false} QuotientIs(x: real, y: real, q: real)
    requires y != 0.0 && q * y == x
    ensures x / y == q
  {
  }

  lemma {:induction false} FlipRatio(t: real, x: real, y: real)
    requires x != y
    ensures (t - y) / (x - y) == 1.0 - (t - x) / (y - x)
  {
    var r := (t - x) / (y - x);
    ShiftProduct(r, y - x);
    assert (1.0 - r) * (x - y) == t - y by {
      assert (1.0 - r) * (x - y) == (r - 1.0) * (y - x);
      assert r * (y - x) == t - x;
    }
    QuotientIs(t - y, x - y, 1.0 - r);
  }

  lemma {:induction false} FlipScale(p: real, q: real, r: real)
    ensures q + (p - q) * (1.0 - r) == p + (q - p) * r
  {
  }

  /** Swapping the anchors of a line changes nothing, except that a ray turns around. */
  lemma {:induction false} AnchorsMaySwap(line: Line, t: real, curves: Curves)
    requires Linear(line) && line.domain != "ray"
    ensures LineTargetAt(line.(a := line.b, b := line.a), t, curves) == LineTargetAt(line, t, curves)
  {
    hide LinePrice;
    SameLine(line, NormalizeEpochSeconds(t), curves);
  }

  // ----- Evaluation -----

  datatype Location = Below | Inside | Above

  function ChannelLocation(price: real, lower: real, upper: real): Location {
    if price < lower then Below else if price > upper then Above else Inside
  }

  function NormalizeEvidence(point: Evidence): Option<Evidence> {
    var timestamp := NormalizeEpochSeconds(point.timestamp);
    if !ValidPrice(point.price) || timestamp <= 0.0 || timestamp > 253402300799.0 then None
    else Some(point.(timestamp := timestamp))
  }

  function BoundaryForChannel(target: Target, lower: real, upper: real, price: real): real {
    if target.operator == "cross-upper-up" || target.operator == "cross-upper-down" then upper
    else if target.operator == "cross-lower-up" || target.operator == "cross-lower-down" then lower
    else if Absolute(price - lower) <= Absolute(price - upper) then lower
    else upper
  }

  datatype Evaluation = NotActive(reason: Reason) | Evaluated(triggered: bool, targetPrice: real)

  /** The earlier observation, when it is usable and the target was active then. */
  datatype Earlier = NoEarlier | Earlier(price: real, lower: real, upper: real)

  function EarlierPlace(target: Target, previous: Option<Evidence>, curves: Curves): Earlier {
    if previous.None? then NoEarlier
    else
      var before := NormalizeEvidence(previous.value);
      if before.None? then NoEarlier
      else
        match TargetAt(target, before.value.timestamp, curves)
        case Active(lower, upper) => Earlier(before.value.price, lower, upper)
        case Inactive(_) => NoEarlier
  }

  predicate CrossesUp(before: real, now: real) {
    before < 0.0 && now >= 0.0
  }

  predicate CrossesDown(before: real, now: real) {
    before > 0.0 && now <= 0.0
  }

  function EvaluateTechnicalAlert(condition: string, target: Target, previous: Option<Evidence>, observed: Evidence,
          curves: Curves): Evaluation {
    var normalized := NormalizeEvidence(observed);
    if normalized.None? then NotActive(Invalid)
    else
      var current := normalized.value;
      match TargetAt(target, current.timestamp, curves)
      case Inactive(reason) => NotActive(reason)
      case Active(lower, upper) =>
        var earlier := EarlierPlace(target, previous, curves);
        if target.kind != "dynamic-channel" then
          if condition == "above" then Evaluated(current.price >= lower, lower)
          else if condition == "below" then Evaluated(current.price <= lower, lower)
          else if earlier.NoEarlier? then Evaluated(false, lower)
          else
            var before, now := earlier.price - earlier.lower, current.price - lower;
            Evaluated(if condition == "crossDown" then CrossesDown(before, now)
                      else condition == "crossUp" && CrossesUp(before, now), lower)
        else
          var nearest := BoundaryForChannel(target, lower, upper, current.price);
          var location := ChannelLocation(current.price, lower, upper);
          if target.operator == "inside" then Evaluated(location == Inside, nearest)
          else if target.operator == "outside" then Evaluated(location != Inside, nearest)
          else if earlier.NoEarlier? then Evaluated(false, nearest)
          else
            var was := ChannelLocation(earlier.price, earlier.lower, earlier.upper);
            if target.operator == "enter" then Evaluated(was != Inside && location == Inside, nearest)
            else if target.operator == "exit" then Evaluated(was == Inside && location != Inside, nearest)
            else
              var isUpper := target.operator == "cross-upper-up" || target.operator == "cross-upper-down";
              var before := earlier.price - if isUpper then earlier.upper else earlier.lower;
              var now := current.price - if isUpper then upper else lower;
              Evaluated(if target.operator == "cross-upper-down" || target.operator == "cross-lower-down"
                        then CrossesDown(before, now)
                        else
                          (target.operator == "cross-upper-up" || target.operator == "cross-lower-up")
                          && CrossesUp(before, now),
                        if isUpper then upper else lower)
  }

  // ----- Runs of ticks -----

  /** Every tick is usable and finds the target active. */
  predicate ActiveRun(target: Target, ticks: seq<Evidence>, curves: Curves) {
    forall k | 0 <= k < |ticks| :: NormalizeEvidence(ticks[k]).Some?
                                   && TargetAt(target, NormalizeEvidence(ticks[k]).value.timestamp, curves).Active?
  }

  predicate Fires(condition: string, target: Target, ticks: seq<Evidence>, k: nat, curves: Curves)
    requires k < |ticks|
  {
    var previous := if k == 0 then None else Some(ticks[k - 1]);
    var e := EvaluateTechnicalAlert(condition, target, previous, ticks[k], curves);
    e.Evaluated? && e.triggered
  }

  predicate InsideAt(target: Target, ticks: seq<Evidence>, k: nat, curves: Curves)
    requires k < |ticks| && ActiveRun(target, ticks, curves)
  {
    var tick := NormalizeEvidence(ticks[k]).value;
    var place := TargetAt(target, tick.timestamp, curves);
    ChannelLocation(tick.price, place.lower, place.upper) == Inside
  }

  function With(target: Target, operator: string): Target {
    target.(operator := operator)
  }

  lemma {:induction false} EnterExitAt(condition: string, target: Target, ticks: seq<Evidence>, k: nat, curves: Curves)
    requires target.kind == "dynamic-channel" && ActiveRun(target, ticks, curves) && k < |ticks|
    ensures Fires(condition, With(target, "enter"), ticks, k, curves)
            <==> k > 0 && !InsideAt(target, ticks, k - 1, curves) && InsideAt(target, ticks, k, curves)
    ensures Fires(condition, With(target, "exit"), ticks, k, curves)
            <==> k > 0 && InsideAt(target, ticks, k - 1, curves) && !InsideAt(target, ticks, k, curves)
  {
    hide LineTargetAt;
    assert forall operator: string, t: real ::
           TargetAt(With(target, operator), t, curves) == TargetAt(target, t, curves);
  }

  /** Going from outside to inside, there is a tick that enters. */
  lemma {:induction false} SomeTickChanges(target: Target, ticks: seq<Evidence>, i: nat, j: nat, inside: bool,
          curves: Curves) returns (k: nat)
    requires ActiveRun(target, ticks, curves) && i < j < |ticks|
    requires InsideAt(target, ticks, i, curves) == inside && InsideAt(target, ticks, j, curves) != inside
    ensures i < k <= j && InsideAt(target, ticks, k - 1, curves) == inside
            && InsideAt(target, ticks, k, curves) != inside
  {
    hide InsideAt, ActiveRun;
    k := j;
    while InsideAt(target, ticks, k - 1, curves) != inside
      invariant i < k <= j && InsideAt(target, ticks, k, curves) != inside
      decreases k
    {
      k := k - 1;
    }
  }

  /** Between two firings of `enter` there is one of `exit`, and the other way round. */
  lemma {:induction false} EnterAndExitAlternate(condition: string, target: Target, ticks: seq<Evidence>, i: nat,
          j: nat, curves: Curves) returns (k: nat)
    requires target.kind == "dynamic-channel" && ActiveRun(target, ticks, curves) && i < j < |ticks|
    requires || (Fires(condition, With(target, "enter"), ticks, i, curves)
                 && Fires(condition, With(target, "enter"), ticks, j, curves))
             || (Fires(condition, With(target, "exit"), ticks, i, curves)
                 && Fires(condition, With(target, "exit"), ticks, j, curves))
    ensures i < k < j
    ensures Fires(condition, With(target, "enter"), ticks, i, curves)
            ==> Fires(condition, With(target, "exit"), ticks, k, curves)
    ensures Fires(condition, With(target, "exit"), ticks, i, curves)
            ==> Fires(condition, With(target, "enter"), ticks, k, curves)
  {
    hide InsideAt, ActiveRun, Fires;
    EnterExitAt(condition, target, ticks, i, curves);
    EnterExitAt(condition, target, ticks, j, curves);
    k := SomeTickChanges(target, ticks, i, j - 1, InsideAt(target, ticks, i, curves), curves);
    EnterExitAt(condition, target, ticks, k, curves);
  }

  /** The distance from a line or fixed price at a tick. */
  function DistanceAt(target: Target, ticks: seq<Evidence>, k: nat, curves: Curves): real
    requires k < |ticks| && ActiveRun(target, ticks, curves)
  {
    var tick := NormalizeEvidence(ticks[k]).value;
    tick.price - TargetAt(target, tick.timestamp, curves).lower
  }

  lemma {:induction false} CrossAt(target: Target, ticks: seq<Evidence>, k: nat, curves: Curves)
    requires target.kind != "dynamic-channel" && ActiveRun(target, ticks, curves) && k < |ticks|
    ensures Fires("crossUp", target, ticks, k, curves)
            <==> k > 0 && CrossesUp(DistanceAt(target, ticks, k - 1, curves), DistanceAt(target, ticks, k, curves))
    ensures Fires("crossDown", target, ticks, k, curves)
            <==> k > 0 && CrossesDown(DistanceAt(target, ticks, k - 1, curves), DistanceAt(target, ticks, k, curves))
  {
    hide LineTargetAt;
  }

  // ----- Sequences of signed distances -----

  predicate RisesAt(d: seq<real>, k: nat) {
    0 < k < |d| && CrossesUp(d[k - 1], d[k])
  }

  predicate FallsAt(d: seq<real>, k: nat) {
    0 < k < |d| && CrossesDown(d[k - 1], d[k])
  }

  /** Between two rises there is a fall exactly when something between them is above. */
  lemma {:induction false} FallBetweenRisesWhen(d: seq<real>, i: nat, j: nat)
    requires i < j && RisesAt(d, i) && RisesAt(d, j)
    ensures (exists k | i < k < j :: FallsAt(d, k)) <==> (exists m | i <= m < j :: d[m] > 0.0)
  {
    if m :| i <= m < j && d[m] > 0.0 {
      var k := m + 1;
      while d[k] > 0.0
        invariant m < k < j && d[k - 1] > 0.0
        decreases j - k
      {
        k := k + 1;
      }
      assert FallsAt(d, k);
    }
    if k :| i < k < j && FallsAt(d, k) {
      assert d[k - 1] > 0.0;
    }
  }

  function Mirrored(d: seq<real>): seq<real> {
    seq(|d|, k requires 0 <= k < |d| => -d[k])
  }

  lemma {:induction false} MirrorTurns(d: seq<real>, k: nat)
    ensures RisesAt(Mirrored(d), k) == FallsAt(d, k) && FallsAt(Mirrored(d), k) == RisesAt(d, k)
  {
  }

  /** Between two falls there is a rise exactly when something between them is below. */
  lemma {:induction false} RiseBetweenFallsWhen(d: seq<real>, i: nat, j: nat)
    requires i < j && FallsAt(d, i) && FallsAt(d, j)
    ensures (exists k | i < k < j :: RisesAt(d, k)) <==> (exists m | i <= m < j :: d[m] < 0.0)
  {
    var e := Mirrored(d);
    forall k: nat
      ensures RisesAt(e, k) == FallsAt(d, k) && FallsAt(e, k) == RisesAt(d, k)
    {
      MirrorTurns(d, k);
    }
    FallBetweenRisesWhen(e, i, j);
    assert forall m | i <= m < j :: e[m] > 0.0 <==> d[m] < 0.0;
    if m :| i <= m < j && d[m] < 0.0 {
      assert e[m] > 0.0;
    }
    if k :| i < k < j && RisesAt(d, k) {
      assert FallsAt(e, k);
    }
  }

  function Distances(target: Target, ticks: seq<Evidence>, curves: Curves): seq<real>
    requires ActiveRun(target, ticks, curves)
  {
    seq(|ticks|, k requires 0 <= k < |ticks| => DistanceAt(target, ticks, k, curves))
  }

  /** Between two firings of crossUp there is one of crossDown exactly when a tick between them is above the line,
      and the other way round: ticks on the line can make two crossings of one kind follow each other. */
  lemma {:induction false} CrossingsAlternateWhen(target: Target, ticks: seq<Evidence>, i: nat, j: nat, curves: Curves)
    requires target.kind != "dynamic-channel" && ActiveRun(target, ticks, curves) && i < j < |ticks|
    ensures Fires("crossUp", target, ticks, i, curves) && Fires("crossUp", target, ticks, j, curves) ==>
              ((exists k | i < k < j :: Fires("crossDown", target, ticks, k, curves))
               <==> exists m | i <= m < j :: DistanceAt(target, ticks, m, curves) > 0.0)
    ensures Fires("crossDown", target, ticks, i, curves) && Fires("crossDown", target, ticks, j, curves) ==>
              ((exists k | i < k < j :: Fires("crossUp", target, ticks, k, curves))
               <==> exists m | i <= m < j :: DistanceAt(target, ticks, m, curves) < 0.0)
  {
    hide DistanceAt, ActiveRun, Fires;
    var d := Distances(target, ticks, curves);
    forall k | 0 <= k < |ticks|
      ensures Fires("crossUp", target, ticks, k, curves) == RisesAt(d, k)
      ensures Fires("crossDown", target, ticks, k, curves) == FallsAt(d, k)
    {
      CrossAt(target, ticks, k, curves);
    }
    hide CrossesUp, CrossesDown, RisesAt, FallsAt;
    assert forall k | i < k < j :: Fires("crossUp", target, ticks, k, curves) == RisesAt(d, k);
    if Fires("crossUp", target, ticks, i, curves) && Fires("crossUp", target, ticks, j, curves) {
      FallBetweenRisesWhen(d, i, j);
      assert forall m | i <= m < j :: d[m] == DistanceAt(target, ticks, m, curves);
    }
    if Fires("crossDown", target, ticks, i, curves) && Fires("crossDown", target, ticks, j, curves) {
      RiseBetweenFallsWhen(d, i, j);
      assert forall m | i <= m < j :: d[m] == DistanceAt(target, ticks, m, curves);
    }
  }

  /** The distance from one boundary of a channel at a tick. */
  function BoundaryDistanceAt(target: Target, ticks: seq<Evidence>, k: nat, upper: bool, curves: Curves): real
    requires k < |ticks| && ActiveRun(target, ticks, curves)
  {
    var tick := NormalizeEvidence(ticks[k]).value;
    var place := TargetAt(target, tick.timestamp, curves);
    tick.price - if upper then place.upper else place.lower
  }

  function BoundaryDistances(target: Target, ticks: seq<Evidence>, upper: bool, curves: Curves): seq<real>
    requires ActiveRun(target, ticks, curves)
  {
    seq(|ticks|, k requires 0 <= k < |ticks| => BoundaryDistanceAt(target, ticks, k, upper, curves))
  }

  function UpOperator(upper: bool): string {
    if upper then "cross-upper-up" else "cross-lower-up"
  }

  function DownOperator(upper: bool): string {
    if upper then "cross-upper-down" else "cross-lower-down"
  }

  lemma {:induction false} BoundaryCrossAt(condition: string, target: Target, ticks: seq<Evidence>, k: nat,
          upper: bool, curves: Curves)
    requires target.kind == "dynamic-channel" && ActiveRun(target, ticks, curves) && k < |ticks|
    ensures Fires(condition, With(target, UpOperator(upper)), ticks, k, curves)
            <==> k > 0 && CrossesUp(BoundaryDistanceAt(target, ticks, k - 1, upper, curves),
                                    BoundaryDistanceAt(target, ticks, k, upper, curves))
    ensures Fires(condition, With(target, DownOperator(upper)), ticks, k, curves)
            <==> k > 0 && CrossesDown(BoundaryDistanceAt(target, ticks, k - 1, upper, curves),
                                      BoundaryDistanceAt(target, ticks, k, upper, curves))
  {
    hide LineTargetAt;
    assert forall operator: string, t: real ::
           TargetAt(With(target, operator), t, curves) == TargetAt(target, t, curves);
  }

  /** The same for either boundary of a channel. */
  lemma {:induction false} BoundaryCrossingsAlternateWhen(condition: string, target: Target, ticks: seq<Evidence>,
          i: nat, j: nat, upper: bool, curves: Curves)
    requires target.kind == "dynamic-channel" && ActiveRun(target, ticks, curves) && i < j < |ticks|
    ensures var up, down := With(target, UpOperator(upper)), With(target, DownOperator(upper));
            && (Fires(condition, up, ticks, i, curves) && Fires(condition, up, ticks, j, curves) ==>
                  ((exists k | i < k < j :: Fires(condition, down, ticks, k, curves))
                   <==> exists m | i <= m < j :: BoundaryDistanceAt(target, ticks, m, upper, curves) > 0.0))
            && (Fires(condition, down, ticks, i, curves) && Fires(condition, down, ticks, j, curves) ==>
                  ((exists k | i < k < j :: Fires(condition, up, ticks, k, curves))
                   <==> exists m | i <= m < j :: BoundaryDistanceAt(target, ticks, m, upper, curves) < 0.0))
  {
    hide BoundaryDistanceAt, ActiveRun, Fires, With;
    var d, up, down := BoundaryDistances(target, ticks, upper, curves), With(target, UpOperator(upper)),
        With(target, DownOperator(upper));
    forall k | 0 <= k < |ticks|
      ensures Fires(condition, up, ticks, k, curves) == RisesAt(d, k)
      ensures Fires(condition, down, ticks, k, curves) == FallsAt(d, k)
    {
      BoundaryCrossAt(condition, target, ticks, k, upper, curves);
    }
    hide CrossesUp, CrossesDown, RisesAt, FallsAt;
    assert forall m | i <= m < j :: d[m] == BoundaryDistanceAt(target, ticks, m, upper, curves);
    if Fires(condition, up, ticks, i, curves) && Fires(condition, up, ticks, j, curves) {
      FallBetweenRisesWhen(d, i, j);
    }
    if Fires(condition, down, ticks, i, curves) && Fires(condition, down, ticks, j, curves) {
      RiseBetweenFallsWhen(d, i, j);
    }
  }

  /** A price that touches the target and falls back crosses up twice without ever crossing down. */
  lemma {:induction false} TouchingBreaksAlternation(target: Target, ticks: seq<Evidence>, curves: Curves)
    requires target.kind == "fixed-price" && target.price.Some? && |ticks| == 4
    requires ActiveRun(target, ticks, curves)
    requires ticks[0].price < target.price.value && ticks[1].price == target.price.value
    requires ticks[2].price < target.price.value && ticks[3].price >= target.price.value
    ensures Fires("crossUp", target, ticks, 1, curves) && Fires("crossUp", target, ticks, 3, curves)
    ensures forall k | 0 <= k < 4 :: !Fires("crossDown", target, ticks, k, curves)
  {
    hide LineTargetAt;
    forall k | 0 <= k < 4
      ensures DistanceAt(target, ticks, k, curves) == ticks[k].price - target.price.value
      ensures Fires("crossUp", target, ticks, k, curves)
              <==> k > 0 && CrossesUp(DistanceAt(target, ticks, k - 1, curves), DistanceAt(target, ticks, k, curves))
      ensures Fires("crossDown", target, ticks, k, curves)
              <==> k > 0 && CrossesDown(DistanceAt(target, ticks, k - 1, curves), DistanceAt(target, ticks, k, curves))
    {
      CrossAt(target, ticks, k, curves);
    }
  }
}
