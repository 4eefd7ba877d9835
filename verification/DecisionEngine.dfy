/**
 * Hard constraints, the three buckets, preference resolution and the ranking of eligible offers. Parsing of
 * numbers, text normalisation and product text search are inputs (`Reading`).
 */
module DecisionEngine {
  import opened Common
  import opened Sorting

  datatype Operator = Lte | Gte | Equals | NotEquals | Contains | NotContains

  datatype Value = Text(text: string) | Number(number: real)

  datatype Constraint = Constraint(id: string, field: string, operator: Operator, value: Value, unit: Option<string>)

  /** `values` holds the product evidence for each constraint field, in evidence order. */
  datatype Offer = Offer(
    itemId: string, platform: string, title: string, landed: real, etaDays: int, values: map<string, seq<Value>>)

  datatype Reading = Reading(
    numeric: (Value, Option<string>) -> Option<real>,  // the number in a value, in the constraint's unit
    normal: Value -> string,                           // whitespace-free lower-case text
    shown: Value -> string,                            // a constraint value as text
    comparison: string -> string,                      // a preference as it is compared
    term: string -> (string, bool),                    // a preference without its negation prefix, and whether it had none
    blank: string -> bool,
    mentions: (Offer, string) -> bool,                 // some product text contains the term
    quality: Offer -> real,                            // evidence quality score
    relevance: Offer -> real,                          // rerank score, clamped to [0, 1]
    round4: real -> real)

  datatype Status = Satisfied | Violated | Unknown

  function Facts(offer: Offer, c: Constraint): seq<Value> {
    if c.field == "budget_cny" then [Number(offer.landed)]
    else if c.field in offer.values then offer.values[c.field]
    else []
  }

  function Judge(satisfied: bool): Status {
    if satisfied then Satisfied else Violated
  }

  function Numbers(rd: Reading, facts: seq<Value>, unit: Option<string>): (numbers: seq<real>)
    ensures forall x :: x in numbers <==> exists v :: v in facts && rd.numeric(v, unit) == Some(x)
  {
    if facts == [] then []
    else
      var rest := Numbers(rd, facts[1..], unit);
      assert facts == [facts[0]] + facts[1..];
      match rd.numeric(facts[0], unit)
      case Some(x) => [x] + rest
      case None => rest
  }

  function EvaluateNumeric(rd: Reading, c: Constraint, facts: seq<Value>): Status {
    var expected := rd.numeric(c.value, c.unit);
    var actuals := Numbers(rd, facts, c.unit);
    if expected.None? || actuals == [] then Unknown
    else
      match c.operator
      case Lte => Judge(exists x :: x in actuals && x <= expected.value)
      case Gte => Judge(exists x :: x in actuals && x >= expected.value)
      case Equals => Judge(exists x :: x in actuals && x == expected.value)
      case NotEquals => Judge(forall x :: x in actuals ==> x != expected.value)
      case _ => Unknown
  }

  predicate OccursAt(needle: string, text: string, i: nat) {
    i + |needle| <= |text| && text[i..i + |needle|] == needle
  }

  predicate Occurs(needle: string, text: string) {
    exists i :: 0 <= i <= |text| && OccursAt(needle, text, i)
  }

  const TITLE_FIELDS: set<string> := {"material", "color", "style", "specification"}

  function Texts(rd: Reading, offer: Offer, c: Constraint, facts: seq<Value>): seq<string> {
    var title := rd.normal(Text(offer.title));
    if facts != [] then seq(|facts|, i requires 0 <= i < |facts| => rd.normal(facts[i]))
    else if c.field in TITLE_FIELDS && (c.operator.Contains? || c.operator.NotContains?) && Occurs(rd.normal(c.value), title) then [title]
    else []
  }

  function EvaluateText(rd: Reading, offer: Offer, c: Constraint, facts: seq<Value>): Status {
    var expected := rd.normal(c.value);
    var values := Texts(rd, offer, c, facts);
    if values == [] then Unknown
    else
      match c.operator
      case Contains => Judge(exists v :: v in values && Occurs(expected, v))
      case NotContains => Judge(!exists v :: v in values && Occurs(expected, v))
      case Equals => Judge(exists v :: v in values && v == expected)
      case NotEquals => Judge(forall v :: v in values ==> v != expected)
      case _ => Unknown
  }

  function Evaluate(rd: Reading, offer: Offer, c: Constraint): Status {
    var facts := Facts(offer, c);
    if c.field == "budget_cny" || c.operator.Lte? || c.operator.Gte? then EvaluateNumeric(rd, c, facts)
    else if (c.operator.Equals? || c.operator.NotEquals?) && (exists v :: v in facts && rd.numeric(v, c.unit).Some?) then
      EvaluateNumeric(rd, c, facts)
    else EvaluateText(rd, offer, c, facts)
  }

  // ----- laws of evaluation -----------------------------------------------------------------------

  function Opposite(op: Operator): Operator
    requires !op.Lte? && !op.Gte?
  {
    match op
    case Equals => NotEquals
    case NotEquals => Equals
    case Contains => NotContains
    case NotContains => Contains
  }

  function Flipped(s: Status): Status {
    match s
    case Satisfied => Violated
    case Violated => Satisfied
    case Unknown => Unknown
  }

  /** The evidence a constraint speaks about: the landed cost for a budget, the product's values otherwise. */
  ghost predicate Evidence(offer: Offer, c: Constraint, v: Value) {
    if c.field == "budget_cny" then v == Number(offer.landed)
    else c.field in offer.values && v in offer.values[c.field]
  }

  ghost predicate HasNumber(rd: Reading, offer: Offer, c: Constraint) {
    exists v :: Evidence(offer, c, v) && rd.numeric(v, c.unit).Some?
  }

  /** A constraint is compared numerically for a budget, a bound, or an equality with numeric evidence. */
  ghost predicate ComparedAsNumber(rd: Reading, offer: Offer, c: Constraint) {
    || c.field == "budget_cny" || c.operator.Lte? || c.operator.Gte?
    || ((c.operator.Equals? || c.operator.NotEquals?) && HasNumber(rd, offer, c))
  }

  lemma EvidenceIsFacts(offer: Offer, c: Constraint, v: Value)
    ensures Evidence(offer, c, v) <==> v in Facts(offer, c)
  {
  }

  /** What one number has to be to meet the constraint. */
  predicate Holds(op: Operator, x: real, expected: real)
    requires !op.Contains? && !op.NotContains?
  {
    match op
    case Lte => x <= expected
    case Gte => x >= expected
    case Equals => x == expected
    case NotEquals => x != expected
  }

  /**
   * The verdict of a numeric comparison, over the evidence: unknown without numbers on both sides; a bound or an
   * equality is satisfied iff some value meets it, an inequality iff every value does; violated otherwise.
   */
  lemma NumericVerdict(rd: Reading, offer: Offer, c: Constraint)
    requires ComparedAsNumber(rd, offer, c)
    ensures var expected := rd.numeric(c.value, c.unit);
      if expected.None? || !HasNumber(rd, offer, c) || c.operator.Contains? || c.operator.NotContains? then Evaluate(rd, offer, c).Unknown?
      else if c.operator.NotEquals? then
        if forall v :: Evidence(offer, c, v) && rd.numeric(v, c.unit).Some? ==> rd.numeric(v, c.unit).value != expected.value
        then Evaluate(rd, offer, c).Satisfied? else Evaluate(rd, offer, c).Violated?
      else
        if exists v :: Evidence(offer, c, v) && rd.numeric(v, c.unit).Some? && Holds(c.operator, rd.numeric(v, c.unit).value, expected.value)
        then Evaluate(rd, offer, c).Satisfied? else Evaluate(rd, offer, c).Violated?
  {
    var facts := Facts(offer, c);
    var numbers := Numbers(rd, facts, c.unit);
    forall v ensures Evidence(offer, c, v) <==> v in facts {
      EvidenceIsFacts(offer, c, v);
    }
    forall v | v in facts && rd.numeric(v, c.unit).Some? ensures rd.numeric(v, c.unit).value in numbers {
    }
    if numbers != [] {
      assert numbers[0] in numbers;
    }
    hide Facts, Numbers, Evidence;
  }

  /**
   * The verdict of a text comparison, over the evidence: a text is required or forbidden in some value, an
   * equality holds of some value, an inequality of every one. Without evidence only the title can decide, for
   * four fields, and only if the text occurs there.
   */
  lemma TextVerdict(rd: Reading, offer: Offer, c: Constraint)
    requires !ComparedAsNumber(rd, offer, c)
    ensures var expected := rd.normal(c.value);
      if exists v :: Evidence(offer, c, v) then
        match c.operator
        case Contains =>
          if exists v :: Evidence(offer, c, v) && Occurs(expected, rd.normal(v))
          then Evaluate(rd, offer, c).Satisfied? else Evaluate(rd, offer, c).Violated?
        case NotContains =>
          if exists v :: Evidence(offer, c, v) && Occurs(expected, rd.normal(v))
          then Evaluate(rd, offer, c).Violated? else Evaluate(rd, offer, c).Satisfied?
        case Equals =>
          if exists v :: Evidence(offer, c, v) && rd.normal(v) == expected
          then Evaluate(rd, offer, c).Satisfied? else Evaluate(rd, offer, c).Violated?
        case NotEquals =>
          if exists v :: Evidence(offer, c, v) && rd.normal(v) == expected
          then Evaluate(rd, offer, c).Violated? else Evaluate(rd, offer, c).Satisfied?
        case _ => false
      else if c.field in {"material", "color", "style", "specification"} && Occurs(expected, rd.normal(Text(offer.title))) then
        match c.operator
        case Contains => Evaluate(rd, offer, c).Satisfied?
        case NotContains => Evaluate(rd, offer, c).Violated?
        case _ => Evaluate(rd, offer, c).Unknown?
      else Evaluate(rd, offer, c).Unknown?
  {
    var facts := Facts(offer, c);
    forall v ensures Evidence(offer, c, v) <==> v in facts {
      EvidenceIsFacts(offer, c, v);
    }
    if facts != [] {
      assert Evidence(offer, c, facts[0]);
      TextsAreFacts(rd, offer, c, facts);
    }
    assert Evaluate(rd, offer, c) == EvaluateText(rd, offer, c, facts);
    hide Facts, Evidence, Occurs, Evaluate;
    if facts != [] {
      hide Texts;
    }
  }

  lemma TextsAreFacts(rd: Reading, offer: Offer, c: Constraint, facts: seq<Value>)
    requires facts != []
    ensures Texts(rd, offer, c, facts) != []
    ensures forall t :: t in Texts(rd, offer, c, facts) <==> exists v :: v in facts && rd.normal(v) == t
    ensures forall v :: v in facts ==> rd.normal(v) in Texts(rd, offer, c, facts)
  {
    var texts := Texts(rd, offer, c, facts);
    forall v | v in facts ensures rd.normal(v) in texts {
      var i :| 0 <= i < |facts| && facts[i] == v;
      assert texts[i] == rd.normal(v);
    }
  }

  /** A negated constraint is satisfied exactly where the original is violated, on the same evidence. */
  lemma NegationFlipsVerdict(rd: Reading, offer: Offer, c: Constraint)
    requires !c.operator.Lte? && !c.operator.Gte?
    ensures Evaluate(rd, offer, c.(operator := Opposite(c.operator))) == Flipped(Evaluate(rd, offer, c))
  {
    var d := c.(operator := Opposite(c.operator));
    assert Texts(rd, offer, c, Facts(offer, c)) == Texts(rd, offer, d, Facts(offer, d));
  }

  /** Loosening the bound of a numeric constraint never turns a satisfied offer away. */
  lemma LooserBoundKeepsOffer(rd: Reading, offer: Offer, c: Constraint, d: Constraint)
    requires c.operator.Lte? || c.operator.Gte?
    requires d == c.(value := d.value) && Evaluate(rd, offer, c).Satisfied?
    requires rd.numeric(d.value, d.unit).Some? && rd.numeric(c.value, c.unit).Some?
    requires var old_, new_ := rd.numeric(c.value, c.unit).value, rd.numeric(d.value, d.unit).value;
      if c.operator.Lte? then old_ <= new_ else new_ <= old_
    ensures Evaluate(rd, offer, d).Satisfied?
  {
    var actuals := Numbers(rd, Facts(offer, c), c.unit);
    var limit := rd.numeric(c.value, c.unit).value;
    if c.operator.Lte? {
      var x :| x in actuals && x <= limit;
      assert x <= rd.numeric(d.value, d.unit).value;
    } else {
      var x :| x in actuals && x >= limit;
      assert x >= rd.numeric(d.value, d.unit).value;
    }
  }

  // ----- buckets --------------------------------------------------------------------------------------

  datatype Bucket = Eligible | Unverified | Excluded

  predicate AnyStatus(rd: Reading, offer: Offer, constraints: seq<Constraint>, s: Status) {
    exists i :: 0 <= i < |constraints| && Evaluate(rd, offer, constraints[i]) == s
  }

  function BucketOf(rd: Reading, offer: Offer, constraints: seq<Constraint>): Bucket {
    if AnyStatus(rd, offer, constraints, Unknown) then Unverified
    else if AnyStatus(rd, offer, constraints, Violated) then Excluded
    else Eligible
  }

  predicate AllSatisfied(rd: Reading, offer: Offer, constraints: seq<Constraint>) {
    forall i :: 0 <= i < |constraints| ==> Evaluate(rd, offer, constraints[i]).Satisfied?
  }

  lemma EligibleIffAllSatisfied(rd: Reading, offer: Offer, constraints: seq<Constraint>)
    ensures BucketOf(rd, offer, constraints).Eligible? <==> AllSatisfied(rd, offer, constraints)
  {
    hide Evaluate;
    if BucketOf(rd, offer, constraints).Eligible? {
      forall i | 0 <= i < |constraints| ensures Evaluate(rd, offer, constraints[i]).Satisfied? {
        var s := Evaluate(rd, offer, constraints[i]);
        assert s.Unknown? ==> AnyStatus(rd, offer, constraints, Unknown);
        assert s.Violated? ==> AnyStatus(rd, offer, constraints, Violated);
      }
    }
  }

  /** What meeting a constraint means, over the evidence alone. */
  ghost predicate Meets(rd: Reading, offer: Offer, c: Constraint) {
    var expected := rd.normal(c.value);
    if ComparedAsNumber(rd, offer, c) then
      && !c.operator.Contains? && !c.operator.NotContains? && HasNumber(rd, offer, c) && rd.numeric(c.value, c.unit).Some?
      && var limit := rd.numeric(c.value, c.unit).value;
         if c.operator.NotEquals? then
           forall v :: Evidence(offer, c, v) && rd.numeric(v, c.unit).Some? ==> rd.numeric(v, c.unit).value != limit
         else
           exists v :: Evidence(offer, c, v) && rd.numeric(v, c.unit).Some? && Holds(c.operator, rd.numeric(v, c.unit).value, limit)
    else if exists v :: Evidence(offer, c, v) then
      match c.operator
      case Contains => exists v :: Evidence(offer, c, v) && Occurs(expected, rd.normal(v))
      case NotContains => forall v :: Evidence(offer, c, v) ==> !Occurs(expected, rd.normal(v))
      case Equals => exists v :: Evidence(offer, c, v) && rd.normal(v) == expected
      case NotEquals => forall v :: Evidence(offer, c, v) ==> rd.normal(v) != expected
      case _ => false
    else
      && c.operator.Contains? && c.field in {"material", "color", "style", "specification"}
      && Occurs(expected, rd.normal(Text(offer.title)))
  }

  lemma MeetsIffSatisfied(rd: Reading, offer: Offer, c: Constraint)
    ensures Evaluate(rd, offer, c).Satisfied? <==> Meets(rd, offer, c)
  {
    if ComparedAsNumber(rd, offer, c) {
      NumericVerdict(rd, offer, c);
    } else {
      TextVerdict(rd, offer, c);
    }
    hide Evaluate, Evidence, Occurs, HasNumber, ComparedAsNumber, Holds;
  }

  /** An offer is recommended iff its evidence meets every constraint. */
  lemma EligibleIffMeetsAll(rd: Reading, offer: Offer, constraints: seq<Constraint>)
    ensures BucketOf(rd, offer, constraints).Eligible? <==> forall c :: c in constraints ==> Meets(rd, offer, c)
  {
    EligibleIffAllSatisfied(rd, offer, constraints);
    forall c ensures Evaluate(rd, offer, c).Satisfied? <==> Meets(rd, offer, c) {
      MeetsIffSatisfied(rd, offer, c);
    }
    hide BucketOf, Meets, Evaluate;
  }

  /** The other two buckets: something cannot be verified, or all can and something is violated. */
  lemma OtherBuckets(rd: Reading, offer: Offer, constraints: seq<Constraint>)
    ensures BucketOf(rd, offer, constraints).Unverified? <==>
            exists i :: 0 <= i < |constraints| && Evaluate(rd, offer, constraints[i]).Unknown?
    ensures BucketOf(rd, offer, constraints).Excluded? <==>
            (forall i :: 0 <= i < |constraints| ==> !Evaluate(rd, offer, constraints[i]).Unknown?)
            && exists i :: 0 <= i < |constraints| && Evaluate(rd, offer, constraints[i]).Violated?
  {
    hide Evaluate;
    if i :| 0 <= i < |constraints| && Evaluate(rd, offer, constraints[i]).Unknown? {
      assert AnyStatus(rd, offer, constraints, Unknown);
    }
    if i :| 0 <= i < |constraints| && Evaluate(rd, offer, constraints[i]).Violated? {
      assert AnyStatus(rd, offer, constraints, Violated);
    }
  }

  // ----- preferences ----------------------------------------------------------------------------------

  datatype Preferences = Preferences(material: seq<string>, style: seq<string>, soft: seq<string>, avoid: seq<string>)

  datatype Dimension = LandedCost | PreferenceMatch | EvidenceQuality | DeliveryTime

  datatype Plan = Plan(constraints: seq<Constraint>, material: seq<string>, style: seq<string>, soft: seq<string>, priority: seq<Dimension>)

  /** A constraint that speaks about material preferences. */
  predicate Material(c: Constraint) {
    c.field == "material" && (c.operator.Contains? || c.operator.NotContains?)
  }

  function ConstraintValues(rd: Reading, constraints: seq<Constraint>, op: Operator): seq<string> {
    if constraints == [] then []
    else
      var c := constraints[0];
      (if c.field == "material" && c.operator == op then [rd.shown(c.value)] else []) + ConstraintValues(rd, constraints[1..], op)
  }

  /** The first occurrence of every value, as `dict.fromkeys` keeps it. */
  function FirstOccurrences<T(==)>(values: seq<T>): seq<T> {
    if values == [] then []
    else
      var init := FirstOccurrences(values[..|values| - 1]);
      var last := values[|values| - 1];
      if last in init then init else init + [last]
  }

  /** What the current request states, including its material constraints. */
  function CurrentPreferences(rd: Reading, plan: Plan): Preferences {
    Preferences(
      FirstOccurrences(plan.material + ConstraintValues(rd, plan.constraints, Contains)),
      FirstOccurrences(plan.style),
      FirstOccurrences(plan.soft),
      FirstOccurrences(ConstraintValues(rd, plan.constraints, NotContains)))
  }

  lemma {:induction false} ConstraintValuesIff(rd: Reading, constraints: seq<Constraint>, op: Operator, v: string)
    ensures v in ConstraintValues(rd, constraints, op) <==>
            exists c :: c in constraints && c.field == "material" && c.operator == op && rd.shown(c.value) == v
  {
    if constraints != [] {
      ConstraintValuesIff(rd, constraints[1..], op, v);
      assert constraints == [constraints[0]] + constraints[1..];
    }
  }

  lemma {:induction false} FirstOccurrencesIff<T>(values: seq<T>)
    ensures forall v :: v in FirstOccurrences(values) <==> v in values
    ensures forall i, j :: 0 <= i < j < |FirstOccurrences(values)| ==> FirstOccurrences(values)[i] != FirstOccurrences(values)[j]
  {
    if values != [] {
      FirstOccurrencesIff(values[..|values| - 1]);
      assert values == values[..|values| - 1] + [values[|values| - 1]];
    }
  }

  /** Values keep the order in which they first occur: the list of a prefix is a prefix of the list. */
  lemma {:induction false} FirstOccurrencesGrow<T>(values: seq<T>, n: nat)
    requires n <= |values|
    ensures FirstOccurrences(values[..n]) <= FirstOccurrences(values)
  {
    if n < |values| {
      FirstOccurrencesGrow(values[..|values| - 1], n);
      assert values[..|values| - 1][..n] == values[..n];
    } else {
      assert values[..n] == values;
    }
  }

  /** What the request says: its lists, and what its material constraints require or forbid. */
  lemma CurrentPreferencesIff(rd: Reading, plan: Plan, v: string)
    ensures var current := CurrentPreferences(rd, plan);
      && (v in current.material <==>
            v in plan.material
            || exists c :: c in plan.constraints && c.field == "material" && c.operator == Contains && rd.shown(c.value) == v)
      && (v in current.avoid <==>
            exists c :: c in plan.constraints && c.field == "material" && c.operator == NotContains && rd.shown(c.value) == v)
      && (v in current.style <==> v in plan.style) && (v in current.soft <==> v in plan.soft)
  {
    ConstraintValuesIff(rd, plan.constraints, Contains, v);
    ConstraintValuesIff(rd, plan.constraints, NotContains, v);
    FirstOccurrencesIff(plan.material + ConstraintValues(rd, plan.constraints, Contains));
    FirstOccurrencesIff(plan.style);
    FirstOccurrencesIff(plan.soft);
    FirstOccurrencesIff(ConstraintValues(rd, plan.constraints, NotContains));
    hide ConstraintValues, FirstOccurrences;
  }

  /** The remembered values of one field that the current request neither repeats nor conflicts with. */
  function StillApplied(rd: Reading, remembered: seq<string>, current: seq<string>, conflicts: seq<string>): seq<string> {
    if remembered == [] || current != [] then []
    else
      var v := remembered[0];
      (if exists w :: w in conflicts && rd.comparison(w) == rd.comparison(v) then [] else [v])
      + StillApplied(rd, remembered[1..], current, conflicts)
  }

  function EffectiveRemembered(rd: Reading, plan: Plan, remembered: Preferences): Preferences {
    var current := CurrentPreferences(rd, plan);
    var conflicts := current.material + current.avoid;
    Preferences(
      StillApplied(rd, remembered.material, current.material, conflicts),
      StillApplied(rd, remembered.style, current.style, []),
      StillApplied(rd, remembered.soft, current.soft, []),
      StillApplied(rd, remembered.avoid, current.avoid, conflicts))
  }

  /** Preference terms with the polarity they are wanted in. */
  function Terms(rd: Reading, values: seq<string>): seq<(string, bool)> {
    if values == [] then []
    else (if rd.blank(values[0]) then [] else [rd.term(values[0])]) + Terms(rd, values[1..])
  }

  function Avoided(rd: Reading, values: seq<string>): seq<(string, bool)> {
    if values == [] then []
    else (if rd.blank(values[0]) then [] else [(values[0], false)]) + Avoided(rd, values[1..])
  }

  function PreferenceTerms(rd: Reading, plan: Plan, effective: Preferences): seq<(string, bool)> {
    FirstOccurrences(Terms(rd, plan.style + plan.soft + effective.material + effective.style + effective.soft)
                     + Avoided(rd, effective.avoid))
  }

  function MatchedTerms(rd: Reading, offer: Offer, terms: seq<(string, bool)>): nat {
    if terms == [] then 0
    else (if rd.mentions(offer, terms[0].0) == terms[0].1 then 1 else 0) + MatchedTerms(rd, offer, terms[1..])
  }

  function PreferenceScore(rd: Reading, offer: Offer, plan: Plan, remembered: Preferences): real {
    var terms := PreferenceTerms(rd, plan, EffectiveRemembered(rd, plan, remembered));
    if terms == [] then 0.5 else rd.round4(MatchedTerms(rd, offer, terms) as real / |terms| as real)
  }

  /** A value remembered from earlier tasks counts exactly if the current request is silent on its field and does not speak about it. */
  lemma RememberedAppliesIff(rd: Reading, plan: Plan, remembered: Preferences, v: string)
    ensures var current, effective := CurrentPreferences(rd, plan), EffectiveRemembered(rd, plan, remembered);
      && (v in effective.material <==> v in remembered.material && current.material == [] && !SpokenOf(rd, v, current.avoid))
      && (v in effective.avoid <==> v in remembered.avoid && current.avoid == [] && !SpokenOf(rd, v, current.material))
      && (v in effective.style <==> v in remembered.style && current.style == [])
      && (v in effective.soft <==> v in remembered.soft && current.soft == [])
  {
    var current := CurrentPreferences(rd, plan);
    var conflicts := current.material + current.avoid;
    hide CurrentPreferences;
    StillAppliedIff(rd, remembered.material, current.material, conflicts, v);
    StillAppliedIff(rd, remembered.style, current.style, [], v);
    StillAppliedIff(rd, remembered.soft, current.soft, [], v);
    StillAppliedIff(rd, remembered.avoid, current.avoid, conflicts, v);
  }

  ghost predicate SpokenOf(rd: Reading, v: string, values: seq<string>) {
    exists w :: w in values && rd.comparison(w) == rd.comparison(v)
  }

  lemma {:induction false} StillAppliedIff(rd: Reading, remembered: seq<string>, current: seq<string>, conflicts: seq<string>, v: string)
    ensures v in StillApplied(rd, remembered, current, conflicts) <==> v in remembered && current == [] && !SpokenOf(rd, v, conflicts)
  {
    if remembered != [] {
      StillAppliedIff(rd, remembered[1..], current, conflicts, v);
      assert remembered == [remembered[0]] + remembered[1..];
    }
  }

  /** The score counts terms that are present as wanted or absent as wanted. */
  lemma {:induction false} MatchedTermsBounds(rd: Reading, offer: Offer, terms: seq<(string, bool)>)
    ensures MatchedTerms(rd, offer, terms) <= |terms|
    ensures MatchedTerms(rd, offer, terms) == |terms| <==>
            forall i :: 0 <= i < |terms| ==> (rd.mentions(offer, terms[i].0) <==> terms[i].1)
    ensures MatchedTerms(rd, offer, terms) == 0 <==>
            forall i :: 0 <= i < |terms| ==> (rd.mentions(offer, terms[i].0) <==> !terms[i].1)
  {
    if terms != [] {
      MatchedTermsBounds(rd, offer, terms[1..]);
    }
  }

  lemma {:induction false} TermsIff(rd: Reading, values: seq<string>, t: (string, bool))
    ensures t in Terms(rd, values) <==> exists v :: v in values && !rd.blank(v) && rd.term(v) == t
    ensures t in Avoided(rd, values) <==> t.0 in values && !rd.blank(t.0) && !t.1
  {
    if values != [] {
      TermsIff(rd, values[1..], t);
      assert values == [values[0]] + values[1..];
    }
  }

  /**
   * The terms that count: what the request and the applied memory ask for, with the polarity they are written
   * in, and what memory avoids, wanted absent. Each counts once.
   */
  lemma PreferenceTermsIff(rd: Reading, plan: Plan, effective: Preferences, t: (string, bool))
    ensures t in PreferenceTerms(rd, plan, effective) <==>
            || (exists v :: (v in plan.style || v in plan.soft || v in effective.material || v in effective.style || v in effective.soft)
                            && !rd.blank(v) && rd.term(v) == t)
            || (t.0 in effective.avoid && !rd.blank(t.0) && !t.1)
    ensures var terms := PreferenceTerms(rd, plan, effective);
      forall i, j :: 0 <= i < j < |terms| ==> terms[i] != terms[j]
  {
    var values := plan.style + plan.soft + effective.material + effective.style + effective.soft;
    TermsIff(rd, values, t);
    TermsIff(rd, effective.avoid, t);
    FirstOccurrencesIff(Terms(rd, values) + Avoided(rd, effective.avoid));
    hide Terms, Avoided, FirstOccurrences;
  }

  /** The places of the terms an offer matches: present as wanted, or absent as wanted. */
  function MatchedPlaces(rd: Reading, offer: Offer, terms: seq<(string, bool)>, from: nat): set<nat> {
    set i: nat | from <= i < |terms| && rd.mentions(offer, terms[i].0) == terms[i].1
  }

  lemma {:induction false} MatchedIsCount(rd: Reading, offer: Offer, terms: seq<(string, bool)>, from: nat)
    requires from <= |terms|
    ensures MatchedTerms(rd, offer, terms[from..]) == |MatchedPlaces(rd, offer, terms, from)|
    decreases |terms| - from
  {
    if from < |terms| {
      MatchedIsCount(rd, offer, terms, from + 1);
      assert terms[from..][1..] == terms[from + 1..];
      assert MatchedPlaces(rd, offer, terms, from)
          == MatchedPlaces(rd, offer, terms, from + 1) + if rd.mentions(offer, terms[from].0) == terms[from].1 then {from} else {};
    }
  }

  /** The preference score is the rounded share of matched terms, or one half without any term. */
  lemma PreferenceScoreIs(rd: Reading, offer: Offer, plan: Plan, remembered: Preferences)
    ensures var terms := PreferenceTerms(rd, plan, EffectiveRemembered(rd, plan, remembered));
      PreferenceScore(rd, offer, plan, remembered) ==
        if terms == [] then 0.5 else rd.round4(|MatchedPlaces(rd, offer, terms, 0)| as real / |terms| as real)
  {
    var terms := PreferenceTerms(rd, plan, EffectiveRemembered(rd, plan, remembered));
    MatchedIsCount(rd, offer, terms, 0);
    assert terms[0..] == terms;
  }

  // ----- the sort key -----------------------------------------------------------------------------------

  datatype Order = Less | Same | More

  function CompareReals(a: seq<real>, b: seq<real>): Order {
    if a == [] then (if b == [] then Same else Less)
    else if b == [] then More
    else if a[0] < b[0] then Less
    else if a[0] > b[0] then More
    else CompareReals(a[1..], b[1..])
  }

  function CompareStrings(a: string, b: string): Order {
    if a == [] then (if b == [] then Same else Less)
    else if b == [] then More
    else if a[0] < b[0] then Less
    else if a[0] > b[0] then More
    else CompareStrings(a[1..], b[1..])
  }

  /** An offer with its sort key: scores and costs first, then platform and item id. */
  datatype Ranked = Ranked(offer: Offer, numbers: seq<real>)

  predicate RankedLe(x: Ranked, y: Ranked) {
    match CompareReals(x.numbers, y.numbers)
    case Less => true
    case More => false
    case Same =>
      match CompareStrings(x.offer.platform, y.offer.platform)
      case Less => true
      case More => false
      case Same => CompareStrings(x.offer.itemId, y.offer.itemId) != More
  }

  lemma {:induction false} CompareRealsLaws(a: seq<real>, b: seq<real>, c: seq<real>)
    ensures CompareReals(a, b).Less? <==> CompareReals(b, a).More?
    ensures CompareReals(a, b).Same? <==> a == b
    ensures !CompareReals(a, b).More? && !CompareReals(b, c).More? ==>
              !CompareReals(a, c).More? && (CompareReals(a, c).Same? ==> a == b == c)
  {
    if a != [] && b != [] {
      CompareRealsLaws(a[1..], b[1..], if c == [] then [] else c[1..]);
      assert a == [a[0]] + a[1..] && b == [b[0]] + b[1..];
      if c != [] {
        assert c == [c[0]] + c[1..];
      }
    }
  }

  lemma {:induction false} CompareStringsLaws(a: string, b: string, c: string)
    ensures CompareStrings(a, b).Less? <==> CompareStrings(b, a).More?
    ensures CompareStrings(a, b).Same? <==> a == b
    ensures !CompareStrings(a, b).More? && !CompareStrings(b, c).More? ==>
              !CompareStrings(a, c).More? && (CompareStrings(a, c).Same? ==> a == b == c)
  {
    if a != [] && b != [] {
      CompareStringsLaws(a[1..], b[1..], if c == [] then [] else c[1..]);
      assert a == [a[0]] + a[1..] && b == [b[0]] + b[1..];
      if c != [] {
        assert c == [c[0]] + c[1..];
      }
    }
  }

  /** Texts are compared like a dictionary: by the first differing character, a prefix coming first. */
  lemma {:induction false} DictionaryOrder(a: string, b: string, m: nat)
    requires m <= |a| && m <= |b| && a[..m] == b[..m]
    ensures m < |a| && m < |b| && a[m] < b[m] ==> CompareStrings(a, b).Less?
    ensures m == |a| < |b| ==> CompareStrings(a, b).Less?
  {
    if m > 0 {
      assert a[0] == a[..m][0] == b[..m][0] == b[0];
      assert a[1..][..m - 1] == a[..m][1..] && b[1..][..m - 1] == b[..m][1..];
      DictionaryOrder(a[1..], b[1..], m - 1);
    }
  }

  lemma RankedLeIsTotalPreorder()
    ensures TotalPreorder(RankedLe)
  {
    forall x: Ranked, y: Ranked ensures RankedLe(x, y) || RankedLe(y, x) {
      CompareRealsLaws(x.numbers, y.numbers, []);
      CompareRealsLaws(y.numbers, x.numbers, []);
      CompareStringsLaws(x.offer.platform, y.offer.platform, "");
      CompareStringsLaws(y.offer.platform, x.offer.platform, "");
      CompareStringsLaws(x.offer.itemId, y.offer.itemId, "");
    }
    forall x: Ranked, y: Ranked, z: Ranked | RankedLe(x, y) && RankedLe(y, z) ensures RankedLe(x, z) {
      CompareRealsLaws(x.numbers, y.numbers, z.numbers);
      CompareRealsLaws(y.numbers, z.numbers, []);
      CompareStringsLaws(x.offer.platform, y.offer.platform, z.offer.platform);
      CompareStringsLaws(y.offer.platform, z.offer.platform, "");
      CompareStringsLaws(x.offer.itemId, y.offer.itemId, z.offer.itemId);
    }
  }

  function DimensionValue(rd: Reading, offer: Offer, score: real, dimension: Dimension): real {
    match dimension
    case LandedCost => offer.landed
    case DeliveryTime => offer.etaDays as real
    case PreferenceMatch => -score
    case EvidenceQuality => -rd.quality(offer)
  }

  function Rank(rd: Reading, plan: Plan, remembered: Preferences, offer: Offer): Ranked {
    var score := PreferenceScore(rd, offer, plan, remembered);
    Ranked(offer,
           [-rd.relevance(offer)]
           + seq(|plan.priority|, i requires 0 <= i < |plan.priority| => DimensionValue(rd, offer, score, plan.priority[i]))
           + [offer.landed, offer.etaDays as real])
  }

  // ----- the decision -----------------------------------------------------------------------------------

  function InBucket(rd: Reading, constraints: seq<Constraint>, offers: seq<Offer>, bucket: Bucket): seq<Offer> {
    if offers == [] then []
    else
      var n := |offers| - 1;
      InBucket(rd, constraints, offers[..n], bucket)
      + if BucketOf(rd, offers[n], constraints) == bucket then [offers[n]] else []
  }

  function RankAll(rd: Reading, plan: Plan, remembered: Preferences, offers: seq<Offer>): seq<Ranked> {
    seq(|offers|, i requires 0 <= i < |offers| => Rank(rd, plan, remembered, offers[i]))
  }

  /** All eligible offers in ranking order. */
  function Ranking(rd: Reading, plan: Plan, remembered: Preferences, offers: seq<Offer>): seq<Ranked> {
    Sort(RankedLe, RankAll(rd, plan, remembered, InBucket(rd, plan.constraints, offers, Eligible)))
  }

  datatype Decision = Decision(picks: seq<Offer>, unverified: seq<Offer>, excluded: seq<Offer>)

  /** `offers` are the offers left after identity matching. */
  method Decide(rd: Reading, plan: Plan, remembered: Preferences, offers: seq<Offer>, maxItems: int) returns (d: Decision)
    ensures var ranking := Ranking(rd, plan, remembered, offers);
      var limit := if maxItems >= 3 then 3 else if maxItems >= 1 then maxItems else 1;
      && |d.picks| == (if |ranking| < limit then |ranking| else limit)
      && forall i :: 0 <= i < |d.picks| ==> d.picks[i] == ranking[i].offer
    ensures d.unverified == InBucket(rd, plan.constraints, offers, Unverified)
    ensures d.excluded == InBucket(rd, plan.constraints, offers, Excluded)
  {
    hide BucketOf, Rank;
    var recommendations, unverified, exclusions: seq<Offer> := [], [], [];
    for i := 0 to |offers|
      invariant recommendations == InBucket(rd, plan.constraints, offers[..i], Eligible)
      invariant unverified == InBucket(rd, plan.constraints, offers[..i], Unverified)
      invariant exclusions == InBucket(rd, plan.constraints, offers[..i], Excluded)
    {
      assert offers[..i + 1][..i] == offers[..i];
      match BucketOf(rd, offers[i], plan.constraints)
      case Unverified => unverified := unverified + [offers[i]];
      case Excluded => exclusions := exclusions + [offers[i]];
      case Eligible => recommendations := recommendations + [offers[i]];
    }
    assert offers[..|offers|] == offers;
    var scored := Sort(RankedLe, RankAll(rd, plan, remembered, recommendations));
    var least := if maxItems < 3 then maxItems else 3;
    var limit := if least > 1 then least else 1;
    var top := if limit < |scored| then scored[..limit] else scored;
    d := Decision(seq(|top|, i requires 0 <= i < |top| => top[i].offer), unverified, exclusions);
  }

  // ----- what the ranking means ------------------------------------------------------------------

  /** `x` is no worse than `y` in one dimension of the ranking profile. */
  ghost predicate NoWorse(rd: Reading, plan: Plan, remembered: Preferences, dimension: Dimension, x: Offer, y: Offer) {
    match dimension
    case LandedCost => x.landed <= y.landed
    case DeliveryTime => x.etaDays <= y.etaDays
    case PreferenceMatch => PreferenceScore(rd, x, plan, remembered) >= PreferenceScore(rd, y, plan, remembered)
    case EvidenceQuality => rd.quality(x) >= rd.quality(y)
  }

  /** Relevance and the first `m` priorities do not tell `x` and `y` apart. */
  ghost predicate TiedUpTo(rd: Reading, plan: Plan, remembered: Preferences, m: nat, x: Offer, y: Offer)
    requires m <= |plan.priority|
  {
    && rd.relevance(x) == rd.relevance(y)
    && forall p :: 0 <= p < m ==>
         && NoWorse(rd, plan, remembered, plan.priority[p], x, y)
         && NoWorse(rd, plan, remembered, plan.priority[p], y, x)
  }

  /** Behind all priorities come landed cost, delivery time, platform and item id. */
  ghost predicate BreaksTie(x: Offer, y: Offer) {
    && x.landed <= y.landed
    && (x.landed == y.landed ==> x.etaDays <= y.etaDays)
    && (x.landed == y.landed && x.etaDays == y.etaDays ==> !CompareStrings(x.platform, y.platform).More?)
    && (x.landed == y.landed && x.etaDays == y.etaDays && x.platform == y.platform ==> !CompareStrings(x.itemId, y.itemId).More?)
  }

  lemma {:induction false} FirstDifference(a: seq<real>, b: seq<real>, m: nat)
    requires m < |a| && m < |b| && !CompareReals(a, b).More?
    requires forall p :: 0 <= p < m ==> a[p] == b[p]
    ensures a[m] <= b[m]
  {
    if m > 0 {
      assert a[0] == b[0];
      FirstDifference(a[1..], b[1..], m - 1);
    }
  }

  /** A bucket keeps the order of the offers: it can be filled part by part. */
  lemma {:induction false} BucketInOrder(rd: Reading, constraints: seq<Constraint>, a: seq<Offer>, b: seq<Offer>, bucket: Bucket)
    ensures InBucket(rd, constraints, a + b, bucket) == InBucket(rd, constraints, a, bucket) + InBucket(rd, constraints, b, bucket)
    ensures |a| == 1 ==> InBucket(rd, constraints, a, bucket) == if BucketOf(rd, a[0], constraints) == bucket then a else []
  {
    hide BucketOf;
    if b == [] {
      assert a + b == a;
    } else {
      assert (a + b)[..|a + b| - 1] == a + b[..|b| - 1];
      BucketInOrder(rd, constraints, a, b[..|b| - 1], bucket);
    }
    if |a| == 1 {
      assert a[..0] == [];
    }
  }

  lemma {:induction false} InBucketIff(rd: Reading, constraints: seq<Constraint>, offers: seq<Offer>, bucket: Bucket, x: Offer)
    ensures x in InBucket(rd, constraints, offers, bucket) <==> x in offers && BucketOf(rd, x, constraints) == bucket
  {
    hide BucketOf;
    if offers != [] {
      var n := |offers| - 1;
      InBucketIff(rd, constraints, offers[..n], bucket, x);
      assert offers == offers[..n] + [offers[n]];
    }
  }

  /** The ranking lists exactly the offers that satisfy every constraint, each with its own key. */
  lemma RankingMembers(rd: Reading, plan: Plan, remembered: Preferences, offers: seq<Offer>, r: Ranked)
    ensures r in Ranking(rd, plan, remembered, offers) <==>
            && r.offer in offers && (forall c :: c in plan.constraints ==> Meets(rd, r.offer, c))
            && r == Rank(rd, plan, remembered, r.offer)
    ensures |Ranking(rd, plan, remembered, offers)| == |InBucket(rd, plan.constraints, offers, Eligible)|
  {
    EligibleIffMeetsAll(rd, r.offer, plan.constraints);
    hide BucketOf, RankedLe, Rank, Sort, Meets;
    var eligible := InBucket(rd, plan.constraints, offers, Eligible);
    var items := RankAll(rd, plan, remembered, eligible);
    RankedLeIsTotalPreorder();
    SortSorted(RankedLe, items);
    assert |multiset(Sort(RankedLe, items))| == |multiset(items)|;
    assert r in Sort(RankedLe, items) <==> r in multiset(items);
    InBucketIff(rd, plan.constraints, offers, Eligible, r.offer);
    RankKeepsOffer(rd, plan, remembered, r.offer);
    if r in items {
      var i :| 0 <= i < |items| && items[i] == r;
      RankKeepsOffer(rd, plan, remembered, eligible[i]);
    }
    if r.offer in eligible && r == Rank(rd, plan, remembered, r.offer) {
      var i :| 0 <= i < |eligible| && eligible[i] == r.offer;
      assert items[i] == r;
    }
  }

  /**
   * Earlier in the ranking means more relevant; offers of equal relevance are ordered by the first priority
   * of the profile, ties by the second, and so on to landed cost and delivery time.
   */
  lemma RankingHonoursPriorities(rd: Reading, plan: Plan, remembered: Preferences, offers: seq<Offer>, i: nat, j: nat, m: nat)
    requires i < j < |Ranking(rd, plan, remembered, offers)| && m <= |plan.priority|
    ensures var x, y := Ranking(rd, plan, remembered, offers)[i].offer, Ranking(rd, plan, remembered, offers)[j].offer;
      && rd.relevance(x) >= rd.relevance(y)
      && (TiedUpTo(rd, plan, remembered, m, x, y) ==>
            if m < |plan.priority| then NoWorse(rd, plan, remembered, plan.priority[m], x, y)
            else BreaksTie(x, y))
  {
    hide Sort, RankAll, InBucket, Meets, Rank, RankedLe, PreferenceScore;
    var ranking := Ranking(rd, plan, remembered, offers);
    RankedLeIsTotalPreorder();
    SortSorted(RankedLe, RankAll(rd, plan, remembered, InBucket(rd, plan.constraints, offers, Eligible)));
    RankingMembers(rd, plan, remembered, offers, ranking[i]);
    RankingMembers(rd, plan, remembered, offers, ranking[j]);
    KeyOrder(rd, plan, remembered, ranking[i].offer, ranking[j].offer, m);
  }

  lemma KeyOrder(rd: Reading, plan: Plan, remembered: Preferences, x: Offer, y: Offer, m: nat)
    requires RankedLe(Rank(rd, plan, remembered, x), Rank(rd, plan, remembered, y)) && m <= |plan.priority|
    ensures rd.relevance(x) >= rd.relevance(y)
    ensures TiedUpTo(rd, plan, remembered, m, x, y) ==>
            if m < |plan.priority| then NoWorse(rd, plan, remembered, plan.priority[m], x, y)
            else BreaksTie(x, y)
  {
    hide PreferenceScore, CompareReals;
    var a, b := Rank(rd, plan, remembered, x).numbers, Rank(rd, plan, remembered, y).numbers;
    FirstDifference(a, b, 0);
    if TiedUpTo(rd, plan, remembered, m, x, y) {
      forall p | 0 <= p < m + 1 ensures a[p] == b[p] {
        if p > 0 {
          assert NoWorse(rd, plan, remembered, plan.priority[p - 1], x, y);
        }
      }
      FirstDifference(a, b, m + 1);
      if m == |plan.priority| && x.landed == y.landed {
        FirstDifference(a, b, m + 2);
        if x.etaDays == y.etaDays {
          assert a == b;
          CompareRealsLaws(a, b, []);
          CompareStringsLaws(x.platform, y.platform, "");
        }
      }
    }
  }

  // ----- relaxing a constraint -----------------------------------------------------------------------

  function Without(constraints: seq<Constraint>, id: string): seq<Constraint> {
    if constraints == [] then []
    else (if constraints[0].id == id then [] else [constraints[0]]) + Without(constraints[1..], id)
  }

  function Relaxed(plan: Plan, id: string): Plan {
    plan.(constraints := Without(plan.constraints, id))
  }

  /** The removed constraint is not one that feeds the material preferences. */
  ghost predicate NotMaterial(plan: Plan, id: string) {
    forall c :: c in plan.constraints && c.id == id ==> !Material(c)
  }

  lemma {:induction false} WithoutMembers(constraints: seq<Constraint>, id: string)
    ensures forall c :: c in Without(constraints, id) <==> c in constraints && c.id != id
  {
    if constraints != [] {
      WithoutMembers(constraints[1..], id);
      assert constraints == [constraints[0]] + constraints[1..];
    }
  }

  lemma RemovalKeepsEligible(rd: Reading, offer: Offer, constraints: seq<Constraint>, id: string)
    requires BucketOf(rd, offer, constraints).Eligible?
    ensures BucketOf(rd, offer, Without(constraints, id)).Eligible?
  {
    hide Evaluate, BucketOf;
    EligibleIffAllSatisfied(rd, offer, constraints);
    EligibleIffAllSatisfied(rd, offer, Without(constraints, id));
    WithoutMembers(constraints, id);
    forall i | 0 <= i < |Without(constraints, id)| ensures Evaluate(rd, offer, Without(constraints, id)[i]).Satisfied? {
      assert Without(constraints, id)[i] in Without(constraints, id);
    }
  }

  lemma {:induction false} SameConstraintValues(rd: Reading, constraints: seq<Constraint>, id: string, op: Operator)
    requires op.Contains? || op.NotContains?
    requires forall c :: c in constraints && c.id == id ==> !Material(c)
    ensures ConstraintValues(rd, Without(constraints, id), op) == ConstraintValues(rd, constraints, op)
  {
    if constraints != [] {
      var rest := Without(constraints[1..], id);
      assert forall c :: c in constraints[1..] ==> c in constraints;
      SameConstraintValues(rd, constraints[1..], id, op);
      if constraints[0].id != id {
        assert Without(constraints, id)[1..] == rest;
      } else {
        assert Without(constraints, id) == rest;
        assert constraints[0] in constraints && !Material(constraints[0]);
        assert ConstraintValues(rd, constraints, op) == ConstraintValues(rd, constraints[1..], op);
      }
    }
  }

  lemma SameRank(rd: Reading, plan: Plan, remembered: Preferences, id: string, offer: Offer)
    requires NotMaterial(plan, id)
    ensures Rank(rd, Relaxed(plan, id), remembered, offer) == Rank(rd, plan, remembered, offer)
  {
    SameConstraintValues(rd, plan.constraints, id, Contains);
    SameConstraintValues(rd, plan.constraints, id, NotContains);
    assert CurrentPreferences(rd, Relaxed(plan, id)) == CurrentPreferences(rd, plan);
  }

  /** Ranked offers that were eligible before the removal. */
  function WasEligible(rd: Reading, plan: Plan): Ranked -> bool {
    (r: Ranked) => BucketOf(rd, r.offer, plan.constraints).Eligible?
  }

  lemma {:induction false} EligibleItemsFiltered(rd: Reading, plan: Plan, remembered: Preferences, id: string, offers: seq<Offer>)
    requires NotMaterial(plan, id)
    ensures Filter(WasEligible(rd, plan),
                   RankAll(rd, Relaxed(plan, id), remembered, InBucket(rd, Relaxed(plan, id).constraints, offers, Eligible)))
            == RankAll(rd, plan, remembered, InBucket(rd, plan.constraints, offers, Eligible))
  {
    hide BucketOf, Rank, WasEligible, RankAll, InBucket;
    var p, relaxed := WasEligible(rd, plan), Relaxed(plan, id);
    if offers == [] {
      NoItems(rd, plan, remembered);
      NoItems(rd, relaxed, remembered);
    } else {
      var n := |offers| - 1;
      var last := offers[n];
      EligibleItemsFiltered(rd, plan, remembered, id, offers[..n]);
      SameRank(rd, plan, remembered, id, last);
      NextItem(rd, relaxed, remembered, offers);
      NextItem(rd, plan, remembered, offers);
      WasEligibleRank(rd, plan, remembered, last);
      FilterAppend(p, RankAll(rd, relaxed, remembered, InBucket(rd, relaxed.constraints, offers[..n], Eligible)),
                   Rank(rd, plan, remembered, last));
      if BucketOf(rd, last, plan.constraints).Eligible? {
        RemovalKeepsEligible(rd, last, plan.constraints, id);
      }
    }
  }

  /** The ranked eligible offers of a list, from those of its front. */
  lemma NextItem(rd: Reading, plan: Plan, remembered: Preferences, offers: seq<Offer>)
    requires offers != []
    ensures var n := |offers| - 1;
      var front := RankAll(rd, plan, remembered, InBucket(rd, plan.constraints, offers[..n], Eligible));
      RankAll(rd, plan, remembered, InBucket(rd, plan.constraints, offers, Eligible)) ==
        if BucketOf(rd, offers[n], plan.constraints).Eligible? then front + [Rank(rd, plan, remembered, offers[n])] else front
  {
    hide BucketOf, Rank;
  }

  lemma NoItems(rd: Reading, plan: Plan, remembered: Preferences)
    ensures RankAll(rd, plan, remembered, InBucket(rd, plan.constraints, [], Eligible)) == []
  {
  }

  lemma WasEligibleRank(rd: Reading, plan: Plan, remembered: Preferences, offer: Offer)
    ensures WasEligible(rd, plan)(Rank(rd, plan, remembered, offer)) <==> BucketOf(rd, offer, plan.constraints).Eligible?
  {
    hide BucketOf;
    RankKeepsOffer(rd, plan, remembered, offer);
  }

  lemma RankKeepsOffer(rd: Reading, plan: Plan, remembered: Preferences, offer: Offer)
    ensures Rank(rd, plan, remembered, offer).offer == offer
  {
  }

  lemma {:induction false} FilterAppend(p: Ranked -> bool, s: seq<Ranked>, x: Ranked)
    ensures Filter(p, s + [x]) == Filter(p, s) + if p(x) then [x] else []
  {
    if s == [] {
      assert s + [x] == [x];
    } else {
      FilterAppend(p, s[1..], x);
      assert (s + [x])[1..] == s[1..] + [x];
    }
  }

  /**
   * Removing a non-material constraint keeps every eligible offer eligible, with the same key, and in the
   * same relative order: the old ranking is the new one without the newly eligible offers.
   */
  lemma RemovalKeepsRelativeOrder(rd: Reading, plan: Plan, remembered: Preferences, id: string, offers: seq<Offer>)
    requires NotMaterial(plan, id)
    ensures Ranking(rd, plan, remembered, offers)
            == Filter(WasEligible(rd, plan), Ranking(rd, Relaxed(plan, id), remembered, offers))
  {
    hide BucketOf, Rank, RankedLe;
    RankedLeIsTotalPreorder();
    EligibleItemsFiltered(rd, plan, remembered, id, offers);
    FilterCommutesWithSort(RankedLe, WasEligible(rd, plan),
                           RankAll(rd, Relaxed(plan, id), remembered, InBucket(rd, Relaxed(plan, id).constraints, offers, Eligible)));
  }

  /** The offer in first place loses it only to an offer that was not eligible before. */
  lemma FirstPlaceLostOnlyToNewcomer(rd: Reading, plan: Plan, remembered: Preferences, id: string, offers: seq<Offer>)
    requires NotMaterial(plan, id) && Ranking(rd, plan, remembered, offers) != []
    ensures var old_, new_ := Ranking(rd, plan, remembered, offers), Ranking(rd, Relaxed(plan, id), remembered, offers);
      && new_ != []
      && (new_[0] == old_[0] || !BucketOf(rd, new_[0].offer, plan.constraints).Eligible?)
  {
    hide BucketOf, Rank, RankedLe;
    RemovalKeepsRelativeOrder(rd, plan, remembered, id, offers);
  }
}
