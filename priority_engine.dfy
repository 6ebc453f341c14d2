/** Lead priority: an ordered cascade of tiers 4, 3 and 2 over the yearly
    consumption (CONSUMO_MWH) and service flag columns, defaulting to 1.
    The rule set is data; Python's `float()` on text is a parameter. */
module PriorityEngine {
  import opened Wrappers
  import opened Text
  import opened Frames

  /** A Python float: finite, infinite or NaN. */
  datatype PyFloat = Finite(r: real) | PosInf | NegInf | NotANumber

  /** A consumption threshold; `None` is the `float("inf")` default. */
  type Threshold = Option<real>

  /** Python `x < t`; every comparison with NaN is false. */
  predicate Below(x: PyFloat, t: Threshold) {
    match x
    case NotANumber => false
    case PosInf => false
    case NegInf => true
    case Finite(r) => t.None? || r < t.value
  }

  /** Python `lo <= x <= hi` for finite bounds. */
  predicate Within(lo: real, x: PyFloat, hi: real) {
    x.Finite? && lo <= x.r <= hi
  }

  /** A `conditions` mapping: `consumo_min` and `requires_services`. */
  datatype Condition = Condition(consumoMin: Threshold, requiresServices: seq<string>)

  /** `priority_3.conditions`: a list, or a single mapping taken as a one-element list. */
  datatype Tier3Rule = Conditions(list: seq<Condition>) | Single(c: Condition)
  {
    function AsList(): (l: seq<Condition>)
      ensures Single? ==> l == [c]
      ensures Conditions? ==> l == list
    {
      match this
      case Conditions(l) => l
      case Single(c) => [c]
    }
  }

  /** `priority_2.conditions`; `None` bounds read as 70 and 99. */
  datatype Tier2Rule = Tier2Rule(consumoMin: Option<real>, consumoMax: Option<real>)

  /** The rule set: an absent tier-4 section has no minimum (+inf) and an
      absent tier-3 section has no conditions. */
  datatype Rules = Rules(tier4: Condition, tier3: Tier3Rule, tier2: Tier2Rule)

  const DefaultRules: Rules := Rules(Condition(None, []), Conditions([]), Tier2Rule(None, None))

  const ConsumptionColumn: string := "CONSUMO_MWH"

  /** Python `float(v)` for a cell that is neither missing nor "": text goes
      through `parse`, which answers `None` where `float()` raises. */
  function ToFloat(v: Value, parse: string -> Option<PyFloat>): (x: Option<PyFloat>)
    ensures v.Int? ==> x == Some(Finite(v.i as real))
    ensures v.Float? ==> x == Some(Finite(v.r))
    ensures v.Str? ==> x == parse(v.s)
  {
    match v
    case Null => None
    case NaN => Some(NotANumber)
    case Bool(b) => Some(Finite(if b then 1.0 else 0.0))
    case NpBool(b) => Some(Finite(if b then 1.0 else 0.0))
    case Int(i) => Some(Finite(i as real))
    case Float(r) => Some(Finite(r))
    case Str(s) => parse(s)
  }

  /** The consumption every tier reads: absent when missing, NaN, "" or
      unparseable. */
  function Consumption(row: Row, parse: string -> Option<PyFloat>): (x: Option<PyFloat>)
    ensures IsNa(Get(row, ConsumptionColumn)) || Get(row, ConsumptionColumn) == Str("") ==> x == None
    ensures var v := Get(row, ConsumptionColumn); v.Int? ==> x == Some(Finite(v.i as real))
    ensures var v := Get(row, ConsumptionColumn); v.Float? ==> x == Some(Finite(v.r))
    ensures var v := Get(row, ConsumptionColumn); v.Bool? ==> x == Some(Finite(if v.b then 1.0 else 0.0))
    ensures var v := Get(row, ConsumptionColumn); v.NpBool? ==> x == Some(Finite(if v.nb then 1.0 else 0.0))
    ensures var v := Get(row, ConsumptionColumn); v.Str? && v.s != [] ==> x == parse(v.s)
  {
    var v := Get(row, ConsumptionColumn);
    if IsNa(v) || v == Str("") then None else ToFloat(v, parse)
  }

  /** A service counts when its upper-cased column exists and holds neither
      NaN/None, "", nor a value equal to `False` (False, 0, 0.0). */
  predicate ServicePresent(row: Row, service: string) {
    var col := Upper(service);
    col in row && !IsNa(row[col]) && row[col] != Str("") && !EqualsFalse(row[col])
  }

  /** `_check_services`: the loop returns False at the first missing service. */
  function CheckServices(row: Row, services: seq<string>): (ok: bool)
    ensures ok <==> forall i :: 0 <= i < |services| ==> ServicePresent(row, services[i])
  {
    if services == [] then true
    else if !ServicePresent(row, services[0]) then false
    else CheckServices(row, services[1..])
  }

  /** One condition for a parsed consumption: not below the minimum, and the
      required services (if any) present. */
  predicate ConditionHolds(c: Condition, x: PyFloat, row: Row) {
    !Below(x, c.consumoMin) && (c.requiresServices == [] || CheckServices(row, c.requiresServices))
  }

  /** `_check_priority_4`: a parsed consumption not below the minimum and
      every required service present. */
  predicate Tier4(rules: Rules, row: Row, parse: string -> Option<PyFloat>): (ok: bool)
    ensures ok <==>
      Consumption(row, parse).Some?
      && !Below(Consumption(row, parse).value, rules.tier4.consumoMin)
      && forall i :: 0 <= i < |rules.tier4.requiresServices| ==> ServicePresent(row, rules.tier4.requiresServices[i])
  {
    var x := Consumption(row, parse);
    x.Some? && ConditionHolds(rules.tier4, x.value, row)
  }

  /** The tier-3 loop: `continue` past failing conditions, `True` at the first that holds. */
  function AnyConditionHolds(conds: seq<Condition>, x: PyFloat, row: Row): (ok: bool)
    ensures ok <==> exists i :: 0 <= i < |conds| && ConditionHolds(conds[i], x, row)
  {
    if conds == [] then false
    else if ConditionHolds(conds[0], x, row) then true
    else
      var rest := AnyConditionHolds(conds[1..], x, row);
      assert forall i :: 1 <= i < |conds| ==> conds[i] == conds[1..][i - 1];
      rest
  }

  /** `_check_priority_3`: a parsed consumption for which some listed
      condition holds; a single mapping is its only condition. */
  predicate Tier3(rules: Rules, row: Row, parse: string -> Option<PyFloat>): (ok: bool)
    ensures ok <==> (Consumption(row, parse).Some?
      && exists i :: 0 <= i < |rules.tier3.AsList()| && ConditionHolds(rules.tier3.AsList()[i], Consumption(row, parse).value, row))
    ensures rules.tier3.Single? ==>
      (ok <==> Consumption(row, parse).Some? && ConditionHolds(rules.tier3.c, Consumption(row, parse).value, row))
    ensures rules.tier3 == Conditions([]) ==> !ok
  {
    var x := Consumption(row, parse);
    x.Some? && AnyConditionHolds(rules.tier3.AsList(), x.value, row)
  }

  /** `_check_priority_2`: a finite consumption within the bounds, 70 and 99
      when they are not configured; NaN and the infinities never qualify. */
  predicate Tier2(rules: Rules, row: Row, parse: string -> Option<PyFloat>): (ok: bool)
    ensures ok ==> Consumption(row, parse).Some? && Consumption(row, parse).value.Finite?
    ensures ok <==> Consumption(row, parse).Some? && Consumption(row, parse).value.Finite?
                    && rules.tier2.consumoMin.GetOr(70.0) <= Consumption(row, parse).value.r <= rules.tier2.consumoMax.GetOr(99.0)
  {
    var x := Consumption(row, parse);
    x.Some? && Within(rules.tier2.consumoMin.GetOr(70.0), x.value, rules.tier2.consumoMax.GetOr(99.0))
  }

  /** `calculate_priority`: tiers checked from 4 down, 1 by default. */
  function CalculatePriority(rules: Rules, row: Row, parse: string -> Option<PyFloat>): (p: int)
    ensures 1 <= p <= 4
    ensures p == 4 <==> Tier4(rules, row, parse)
    ensures p == 3 <==> !Tier4(rules, row, parse) && Tier3(rules, row, parse)
    ensures p == 2 <==> !Tier4(rules, row, parse) && !Tier3(rules, row, parse) && Tier2(rules, row, parse)
  {
    if Tier4(rules, row, parse) then 4
    else if Tier3(rules, row, parse) then 3
    else if Tier2(rules, row, parse) then 2
    else 1
  }

  /** `calculate_priorities`: one priority per row, in row order. */
  function CalculatePriorities(rules: Rules, rows: seq<Row>, parse: string -> Option<PyFloat>): (ps: seq<int>)
    ensures |ps| == |rows|
    ensures forall i :: 0 <= i < |rows| ==> ps[i] == CalculatePriority(rules, rows[i], parse)
  {
    seq(|rows|, i requires 0 <= i < |rows| => CalculatePriority(rules, rows[i], parse))
  }

  // ---------------------------------------------------------------------
  // Properties
  // ---------------------------------------------------------------------

  /** Without a usable consumption no tier matches and the priority is 1. */
  lemma NoConsumptionIsPriority1(rules: Rules, row: Row, parse: string -> Option<PyFloat>)
    requires Consumption(row, parse) == None
    ensures CalculatePriority(rules, row, parse) == 1
  {
  }

  /** A missing, NaN or empty consumption cell is one such case. */
  lemma MissingConsumptionIsPriority1(rules: Rules, row: Row, parse: string -> Option<PyFloat>)
    requires ConsumptionColumn !in row || IsNa(row[ConsumptionColumn]) || row[ConsumptionColumn] == Str("")
    ensures CalculatePriority(rules, row, parse) == 1
  {
    NoConsumptionIsPriority1(rules, row, parse);
  }

  /** The order of finite consumptions, with infinities at the ends. */
  predicate AtLeast(y: PyFloat, x: PyFloat) {
    match (x, y)
    case (NegInf, _) => !y.NotANumber?
    case (_, PosInf) => !x.NotANumber?
    case (Finite(a), Finite(b)) => a <= b
    case _ => false
  }

  /** A condition that holds for one consumption holds for any larger one. */
  lemma ConditionUpwardClosed(c: Condition, x: PyFloat, y: PyFloat, row: Row)
    requires ConditionHolds(c, x, row) && AtLeast(y, x)
    ensures ConditionHolds(c, y, row)
  {
  }

  /** Tier 3 is upward closed in the consumption for fixed services. */
  lemma Tier3UpwardClosed(conds: seq<Condition>, x: PyFloat, y: PyFloat, row: Row)
    requires AnyConditionHolds(conds, x, row) && AtLeast(y, x)
    ensures AnyConditionHolds(conds, y, row)
  {
    var i :| 0 <= i < |conds| && ConditionHolds(conds[i], x, row);
    ConditionUpwardClosed(conds[i], x, y, row);
  }

  /** The overall priority is not monotone: under the default rules 80 MWh
      is priority 2 while 150 MWh falls through to 1. */
  lemma PriorityNotMonotone(parse: string -> Option<PyFloat>)
    ensures CalculatePriority(DefaultRules, map[ConsumptionColumn := Int(80)], parse) == 2
    ensures CalculatePriority(DefaultRules, map[ConsumptionColumn := Int(150)], parse) == 1
  {
  }

  /** Text that `float()` reads as NaN or +inf is never below the default
      +inf minimum, so under the default rules it reaches tier 4. */
  lemma NanTextReachesTier4(parse: string -> Option<PyFloat>, s: string)
    requires parse(s) == Some(NotANumber) || parse(s) == Some(PosInf)
    requires s != []
    ensures CalculatePriority(DefaultRules, map[ConsumptionColumn := Str(s)], parse) == 4
  {
  }

  /** The presence test reads Python equality: 0 and False are absent, while
      the text "NO" counts as present. */
  lemma ServicePresenceExamples()
    ensures !ServicePresent(map["LUZ" := Int(0)], "luz")
    ensures !ServicePresent(map["LUZ" := Bool(false)], "LUZ")
    ensures ServicePresent(map["LUZ" := Str("NO")], "luz")
    ensures !ServicePresent(map[], "luz")
  {
    assert Upper("luz") == "LUZ";
  }
}
