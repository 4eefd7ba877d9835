/**
 * Same-product evidence: two offers are compared by authoritative identifiers and by normalised facts, and a
 * list of offers is split into one group of proven equals and the rest. Lists of field names that the code
 * keeps sorted are sets here.
 */
module IdentityMatcher {
  import opened Common

  /** Text normalisation, attribute naming and the attribute names that count as facts. */
  datatype Naming = Naming(normal: string -> string, canonical: string -> string, known: set<string>)

  type Attributes = seq<(string, Option<string>)>

  datatype Offer = Offer(
    variantAttributes: Attributes, attributes: Attributes,
    brand: Option<string>, model: Option<string>, gtin: Option<string>, mpn: Option<string>)

  type Facts = map<string, string>

  /** A normalised value, or nothing if it is absent or empty. */
  function IdentityValue(n: Naming, value: Option<string>): Option<string> {
    if value.None? || n.normal(value.value) == "" then None else Some(n.normal(value.value))
  }

  function Overwriting(n: Naming, items: Attributes): Facts {
    if items == [] then map[]
    else
      var facts := Overwriting(n, items[..|items| - 1]);
      var (key, value) := items[|items| - 1];
      if value.Some? then facts[n.canonical(key) := n.normal(value.value)] else facts
  }

  function Defaulting(n: Naming, start: Facts, items: Attributes): Facts {
    if items == [] then start
    else
      var facts := Defaulting(n, start, items[..|items| - 1]);
      var (key, value) := items[|items| - 1];
      if n.canonical(key) in n.known && value.Some? && n.canonical(key) !in facts
      then facts[n.canonical(key) := n.normal(value.value)]
      else facts
  }

  function VariantFactsOf(n: Naming, offer: Offer): Facts {
    Defaulting(n, Overwriting(n, offer.variantAttributes), offer.attributes)
  }

  /** Attribute `i` gives the fact `key` a value. */
  ghost predicate Gives(n: Naming, items: Attributes, key: string, i: nat) {
    i < |items| && items[i].1.Some? && n.canonical(items[i].0) == key
  }

  lemma {:induction false} OverwritingIs(n: Naming, items: Attributes, key: string, i: nat)
    ensures Gives(n, items, key, i) && (forall j: nat :: Gives(n, items, key, j) ==> j <= i) ==>
              key in Overwriting(n, items) && Overwriting(n, items)[key] == n.normal(items[i].1.value)
    ensures (forall j: nat :: !Gives(n, items, key, j)) ==> key !in Overwriting(n, items)
  {
    if items != [] {
      var last := |items| - 1;
      OverwritingIs(n, items[..last], key, i);
      forall j: nat ensures Gives(n, items[..last], key, j) <==> j < last && Gives(n, items, key, j) {
      }
      assert i < last ==> items[..last][i] == items[i];
      assert Gives(n, items, key, last) ==> (forall j: nat :: Gives(n, items, key, j) ==> j <= i) ==> last <= i;
    }
  }

  lemma {:induction false} DefaultingIs(n: Naming, start: Facts, items: Attributes, key: string, i: nat)
    ensures key in start ==> key in Defaulting(n, start, items) && Defaulting(n, start, items)[key] == start[key]
    ensures key !in start && key in n.known && Gives(n, items, key, i) && (forall j: nat :: Gives(n, items, key, j) ==> i <= j) ==>
              key in Defaulting(n, start, items) && Defaulting(n, start, items)[key] == n.normal(items[i].1.value)
    ensures key !in start && (key !in n.known || forall j: nat :: !Gives(n, items, key, j)) ==> key !in Defaulting(n, start, items)
  {
    if items != [] {
      var last := |items| - 1;
      DefaultingIs(n, start, items[..last], key, i);
      forall j: nat ensures Gives(n, items[..last], key, j) <==> j < last && Gives(n, items, key, j) {
      }
      assert Gives(n, items, key, last) <==> items[last].1.Some? && n.canonical(items[last].0) == key;
      assert i < last ==> items[..last][i] == items[i];
    }
  }

  /**
   * Where a fact comes from: the last variant attribute of its name, or else, for known names, the first plain
   * attribute of its name.
   */
  lemma VariantFactsAre(n: Naming, offer: Offer, key: string, i: nat)
    ensures var facts, variants, others := VariantFactsOf(n, offer), offer.variantAttributes, offer.attributes;
      && (Gives(n, variants, key, i) && (forall j: nat :: Gives(n, variants, key, j) ==> j <= i) ==>
            key in facts && facts[key] == n.normal(variants[i].1.value))
      && ((forall j: nat :: !Gives(n, variants, key, j)) ==>
            && (key in n.known && Gives(n, others, key, i) && (forall j: nat :: Gives(n, others, key, j) ==> i <= j) ==>
                  key in facts && facts[key] == n.normal(others[i].1.value))
            && (key !in n.known || (forall j: nat :: !Gives(n, others, key, j)) ==> key !in facts))
  {
    OverwritingIs(n, offer.variantAttributes, key, i);
    DefaultingIs(n, Overwriting(n, offer.variantAttributes), offer.attributes, key, i);
    hide Overwriting, Defaulting, Gives;
  }

  method VariantFacts(n: Naming, offer: Offer) returns (facts: Facts)
    ensures facts == VariantFactsOf(n, offer)
  {
    facts := map[];
    var items := offer.variantAttributes;
    for i := 0 to |items|
      invariant facts == Overwriting(n, items[..i])
    {
      assert items[..i + 1][..i] == items[..i];
      if items[i].1.Some? {
        facts := facts[n.canonical(items[i].0) := n.normal(items[i].1.value)];
      }
    }
    assert items[..|items|] == items;
    items := offer.attributes;
    ghost var start := facts;
    for i := 0 to |items|
      invariant facts == Defaulting(n, start, items[..i])
    {
      assert items[..i + 1][..i] == items[..i];
      var canonical := n.canonical(items[i].0);
      if canonical in n.known && items[i].1.Some? {
        if canonical !in facts {
          facts := facts[canonical := n.normal(items[i].1.value)];
        }
      }
    }
    assert items[..|items|] == items;
  }

  const BRAND := "identity.brand"
  const MODEL := "identity.model"

  function IdentityFacts(n: Naming, offer: Offer): Facts {
    var facts := VariantFactsOf(n, offer);
    var brand, model := IdentityValue(n, offer.brand), IdentityValue(n, offer.model);
    var branded := if brand.Some? then facts[BRAND := brand.value] else facts;
    if model.Some? then branded[MODEL := model.value] else branded
  }

  function AuthorityIdentifier(n: Naming, offer: Offer): Option<(string, string)> {
    var gtin, mpn := IdentityValue(n, offer.gtin), IdentityValue(n, offer.mpn);
    if gtin.Some? then Some(("identity.gtin", gtin.value))
    else if mpn.Some? then Some(("identity.mpn", mpn.value))
    else None
  }

  /** A present and non-blank brand or model is a fact of its own name; every other fact is as before. */
  lemma IdentityFactsAre(n: Naming, offer: Offer, key: string)
    ensures var facts, before := IdentityFacts(n, offer), VariantFactsOf(n, offer);
      && (offer.brand.Some? && n.normal(offer.brand.value) != "" ==>
            "identity.brand" in facts && facts["identity.brand"] == n.normal(offer.brand.value))
      && (offer.model.Some? && n.normal(offer.model.value) != "" ==>
            "identity.model" in facts && facts["identity.model"] == n.normal(offer.model.value))
      && (key != "identity.brand" && key != "identity.model" ==>
            (key in facts <==> key in before) && (key in facts ==> facts[key] == before[key]))
      && (offer.brand == None ==> ("identity.brand" in facts <==> "identity.brand" in before))
      && (offer.model == None ==> ("identity.model" in facts <==> "identity.model" in before))
  {
    hide VariantFactsOf;
  }

  /** A non-blank GTIN identifies an offer; only without one does a non-blank MPN. */
  lemma AuthorityIdentifierIs(n: Naming, offer: Offer)
    ensures var gtin := offer.gtin.Some? && n.normal(offer.gtin.value) != "";
      var mpn := offer.mpn.Some? && n.normal(offer.mpn.value) != "";
      && (gtin ==> AuthorityIdentifier(n, offer) == Some(("identity.gtin", n.normal(offer.gtin.value))))
      && (!gtin && mpn ==> AuthorityIdentifier(n, offer) == Some(("identity.mpn", n.normal(offer.mpn.value))))
      && (!gtin && !mpn ==> AuthorityIdentifier(n, offer) == None)
  {
  }

  datatype Basis = Insufficient | Identifier | MaterialVariantAttributes

  datatype Evidence = Evidence(matching: bool, basis: Basis, matched: set<string>, missing: set<string>, conflicting: set<string>)

  function Agreeing(a: Facts, b: Facts): set<string> {
    set f | f in a.Keys * b.Keys && a[f] == b[f]
  }

  function Disagreeing(a: Facts, b: Facts): set<string> {
    set f | f in a.Keys * b.Keys && a[f] != b[f]
  }

  function OneSided(a: Facts, b: Facts): set<string> {
    (a.Keys - b.Keys) + (b.Keys - a.Keys)
  }

  const CORE: set<string> := {BRAND, MODEL}

  /** The verdict on two fact maps; `identifier` names the identifier field both sides share, if any. */
  function Verdict(matched: set<string>, missing: set<string>, conflicting: set<string>, identifier: Option<string>): Evidence {
    if conflicting != {} then Evidence(false, Insufficient, matched, missing, conflicting)
    else if identifier.Some? then Evidence(true, Identifier, {identifier.value} + matched, missing, {})
    else if missing != {} || !(CORE <= matched) then Evidence(false, Insufficient, matched, missing + (CORE - matched), {})
    else Evidence(true, MaterialVariantAttributes, matched, {}, {})
  }

  function CompareFacts(a: Facts, b: Facts, identifier: Option<string>): Evidence {
    Verdict(Agreeing(a, b), OneSided(a, b), Disagreeing(a, b), identifier)
  }

  /** The loop over all field names of either side, in whatever order they come. */
  method MaterialComparison(n: Naming, reference: Offer, candidate: Offer, identifier: Option<string>) returns (e: Evidence)
    ensures e == CompareFacts(IdentityFacts(n, reference), IdentityFacts(n, candidate), identifier)
  {
    hide IdentityFacts, Verdict;
    var a, b := IdentityFacts(n, reference), IdentityFacts(n, candidate);
    var fields := a.Keys + b.Keys;
    var matched, missing, conflicting: set<string> := {}, {}, {};
    var todo := fields;
    while todo != {}
      invariant todo <= fields
      invariant forall f :: f in matched <==> f !in todo && f in a && f in b && a[f] == b[f]
      invariant forall f :: f in conflicting <==> f !in todo && f in a && f in b && a[f] != b[f]
      invariant forall f :: f in missing <==> f !in todo && f in fields && (f !in a || f !in b)
      decreases |todo|
    {
      var field :| field in todo;
      if field !in a || field !in b {
        missing := missing + {field};
      } else if a[field] == b[field] {
        matched := matched + {field};
      } else {
        conflicting := conflicting + {field};
      }
      todo := todo - {field};
    }
    assert matched == Agreeing(a, b) && missing == OneSided(a, b) && conflicting == Disagreeing(a, b);
    e := Verdict(matched, missing, conflicting, identifier);
  }

  function Match(n: Naming, reference: Offer, candidate: Offer): Evidence {
    var r, c := AuthorityIdentifier(n, reference), AuthorityIdentifier(n, candidate);
    if r.Some? || c.Some? then
      if r.None? || c.None? then
        Evidence(false, Insufficient, {},
                 {if r.Some? then r.value.0 else "identity.identifier", if c.Some? then c.value.0 else "identity.identifier"}, {})
      else if r != c then Evidence(false, Insufficient, {}, {}, {r.value.0, c.value.0})
      else CompareFacts(IdentityFacts(n, reference), IdentityFacts(n, candidate), Some(r.value.0))
    else CompareFacts(IdentityFacts(n, reference), IdentityFacts(n, candidate), None)
  }

  predicate Matches(n: Naming, a: Offer, b: Offer) {
    Match(n, a, b).matching
  }

  // ----- the match relation ------------------------------------------------------------------------

  /** The verdict and its evidence do not depend on which offer is the reference. */
  lemma MatchIsSymmetric(n: Naming, a: Offer, b: Offer)
    ensures Match(n, a, b) == Match(n, b, a)
  {
    var f, g := IdentityFacts(n, a), IdentityFacts(n, b);
    assert Agreeing(f, g) == Agreeing(g, f);
    assert Disagreeing(f, g) == Disagreeing(g, f);
    assert OneSided(f, g) == OneSided(g, f);
  }

  /** Without identifiers the offers match exactly if they have the same facts, brand and model among them. */
  lemma MatchWithoutIdentifiersIff(n: Naming, a: Offer, b: Offer)
    requires AuthorityIdentifier(n, a).None? && AuthorityIdentifier(n, b).None?
    ensures Matches(n, a, b) <==> IdentityFacts(n, a) == IdentityFacts(n, b) && CORE <= IdentityFacts(n, a).Keys
  {
    var f, g := IdentityFacts(n, a), IdentityFacts(n, b);
    if Matches(n, a, b) {
      forall x | x in f.Keys + g.Keys ensures x in f && x in g && f[x] == g[x] {
        assert x !in OneSided(f, g) && x !in Disagreeing(f, g);
      }
      assert f.Keys == g.Keys;
      assert forall x :: x in CORE ==> x in Agreeing(f, g);
    }
    if f == g && CORE <= f.Keys {
      assert Agreeing(f, g) == f.Keys;
      assert Disagreeing(f, g) == {} && OneSided(f, g) == {};
    }
  }

  /** What the evidence of a comparison shows, field by field. */
  lemma EvidenceShows(n: Naming, a: Offer, b: Offer, x: string)
    requires AuthorityIdentifier(n, a) == AuthorityIdentifier(n, b)
    ensures var e, f, g, id := Match(n, a, b), IdentityFacts(n, a), IdentityFacts(n, b), AuthorityIdentifier(n, a);
      var agree := x in f && x in g && f[x] == g[x];
      var oneSided := (x in f && x !in g) || (x !in f && x in g);
      && (x in e.conflicting <==> x in f && x in g && f[x] != g[x])
      && (e.conflicting != {} ==> !e.matching)
      && (x in e.matched <==> agree || (e.matching && id.Some? && x == id.value.0))
      && (e.matching || e.conflicting != {} ==> (x in e.missing <==> oneSided))
      && (!e.matching && e.conflicting == {} ==> (x in e.missing <==> oneSided || (x in {"identity.brand", "identity.model"} && !agree)))
      && e.basis == (if !e.matching then Insufficient else if id.Some? then Identifier else MaterialVariantAttributes)
  {
    var f, g := IdentityFacts(n, a), IdentityFacts(n, b);
    hide IdentityFacts, AuthorityIdentifier;
    assert x in Agreeing(f, g) <==> x in f && x in g && f[x] == g[x];
    assert x in Disagreeing(f, g) <==> x in f && x in g && f[x] != g[x];
    assert x in OneSided(f, g) <==> (x in f && x !in g) || (x !in f && x in g);
  }

  /** Different identifiers conflict; an identifier on one side only is missing on the other. */
  lemma DifferentIdentifiers(n: Naming, a: Offer, b: Offer)
    requires AuthorityIdentifier(n, a) != AuthorityIdentifier(n, b)
    ensures var e, i, j := Match(n, a, b), AuthorityIdentifier(n, a), AuthorityIdentifier(n, b);
      && !e.matching && e.basis == Insufficient && e.matched == {}
      && (i.Some? && j.Some? ==> e.conflicting == {i.value.0, j.value.0} && e.missing == {})
      && (i.Some? && j.None? ==> e.missing == {i.value.0, "identity.identifier"} && e.conflicting == {})
      && (i.None? && j.Some? ==> e.missing == {"identity.identifier", j.value.0} && e.conflicting == {})
  {
    hide AuthorityIdentifier;
  }

  /** So on offers without identifiers matching is an equivalence among those that have brand and model. */
  lemma MatchIsEquivalenceWithoutIdentifiers(n: Naming, a: Offer, b: Offer, c: Offer)
    requires AuthorityIdentifier(n, a).None? && AuthorityIdentifier(n, b).None? && AuthorityIdentifier(n, c).None?
    ensures Matches(n, a, a) <==> CORE <= IdentityFacts(n, a).Keys
    ensures Matches(n, a, b) && Matches(n, b, c) ==> Matches(n, a, c)
    ensures Matches(n, a, b) ==> Matches(n, b, a) && Matches(n, a, a)
  {
    MatchWithoutIdentifiersIff(n, a, a);
    MatchWithoutIdentifiersIff(n, a, b);
    MatchWithoutIdentifiersIff(n, b, a);
    MatchWithoutIdentifiersIff(n, b, c);
    MatchWithoutIdentifiersIff(n, a, c);
  }

  /** With identifiers the offers match exactly if the identifiers agree and no common fact disagrees. */
  lemma MatchWithIdentifiersIff(n: Naming, a: Offer, b: Offer)
    requires AuthorityIdentifier(n, a).Some? || AuthorityIdentifier(n, b).Some?
    ensures Matches(n, a, b) <==>
            AuthorityIdentifier(n, a) == AuthorityIdentifier(n, b)
            && forall x :: x in IdentityFacts(n, a) && x in IdentityFacts(n, b) ==> IdentityFacts(n, a)[x] == IdentityFacts(n, b)[x]
  {
    var f, g := IdentityFacts(n, a), IdentityFacts(n, b);
    if Disagreeing(f, g) == {} {
      forall x | x in f && x in g ensures f[x] == g[x] {
        assert x !in Disagreeing(f, g);
      }
    }
  }

  /** A field the middle offer is silent about, on which the outer two disagree. */
  ghost predicate SplitBehind(n: Naming, a: Offer, b: Offer, c: Offer, field: string) {
    var f, g, h := IdentityFacts(n, a), IdentityFacts(n, b), IdentityFacts(n, c);
    field in f && field in h && field !in g && f[field] != h[field]
  }

  /** Exactly when a chain of two matches closes: unless the middle offer hides a disagreement. */
  lemma ChainClosesIff(n: Naming, a: Offer, b: Offer, c: Offer)
    requires Matches(n, a, b) && Matches(n, b, c)
    ensures Matches(n, a, c) <==> forall field :: !SplitBehind(n, a, b, c, field)
  {
    var f, g, h := IdentityFacts(n, a), IdentityFacts(n, b), IdentityFacts(n, c);
    if AuthorityIdentifier(n, b).None? {
      assert AuthorityIdentifier(n, a).None? && AuthorityIdentifier(n, c).None?;
      MatchWithoutIdentifiersIff(n, a, b);
      MatchIsEquivalenceWithoutIdentifiers(n, a, b, c);
    } else {
      MatchWithIdentifiersIff(n, a, b);
      MatchWithIdentifiersIff(n, b, c);
      MatchWithIdentifiersIff(n, a, c);
      if forall field :: !SplitBehind(n, a, b, c, field) {
        forall x | x in f && x in h ensures f[x] == h[x] {
          assert !SplitBehind(n, a, b, c, x);
        }
      }
    }
  }

  /** With identifiers matching is not transitive: a colourless offer matches a red and a blue one. */
  lemma MatchIsNotTransitive() returns (n: Naming, a: Offer, b: Offer, c: Offer)
    ensures Matches(n, a, b) && Matches(n, b, c) && !Matches(n, a, c)
  {
    n := Naming(s => s, s => s, {});
    a := Offer([("color", Some("red"))], [], None, None, Some("0123"), None);
    b := Offer([], [], None, None, Some("0123"), None);
    c := Offer([("color", Some("blue"))], [], None, None, Some("0123"), None);
    assert IdentityFacts(n, a) == map["color" := "red"] by { assert a.variantAttributes[..0] == []; }
    assert IdentityFacts(n, c) == map["color" := "blue"] by { assert c.variantAttributes[..0] == []; }
    MatchWithIdentifiersIff(n, a, b);
    MatchWithIdentifiersIff(n, b, c);
    assert "color" in IdentityFacts(n, a) && "color" in IdentityFacts(n, c);
    MatchWithIdentifiersIff(n, a, c);
  }

  // ----- classification -----------------------------------------------------------------------------

  /** How many of the first `m` offers, other than offer `i` itself, match it. */
  function MatchCount(n: Naming, offers: seq<Offer>, i: nat, m: nat): nat
    requires i < |offers| && m <= |offers|
  {
    if m == 0 then 0
    else MatchCount(n, offers, i, m - 1) + if m - 1 != i && Matches(n, offers[i], offers[m - 1]) then 1 else 0
  }

  /** The other offers among the first `m` that match offer `i`. */
  function MatchingOthers(n: Naming, offers: seq<Offer>, i: nat, m: nat): set<nat>
    requires i < |offers| && m <= |offers|
  {
    set j: nat | j < m && j != i && Matches(n, offers[i], offers[j])
  }

  lemma {:induction false} CountIsOthers(n: Naming, offers: seq<Offer>, i: nat, m: nat)
    requires i < |offers| && m <= |offers|
    ensures MatchCount(n, offers, i, m) == |MatchingOthers(n, offers, i, m)|
  {
    hide Matches;
    if m > 0 {
      CountIsOthers(n, offers, i, m - 1);
      var before, now := MatchingOthers(n, offers, i, m - 1), MatchingOthers(n, offers, i, m);
      assert now == before + if m - 1 != i && Matches(n, offers[i], offers[m - 1]) then {m - 1} else {};
    }
  }

  /** Match count, identifier, brand and model, number of facts; earlier offers win ties. */
  datatype Key = Key(matches: nat, identifier: nat, core: nat, facts: nat)

  function KeyOf(n: Naming, offers: seq<Offer>, i: nat): Key
    requires i < |offers|
  {
    var facts := IdentityFacts(n, offers[i]);
    Key(MatchCount(n, offers, i, |offers|),
        if AuthorityIdentifier(n, offers[i]).Some? then 1 else 0,
        if BRAND in facts && MODEL in facts then 1 else 0,
        |facts|)
  }

  predicate Greater(k: Key, l: Key) {
    if k.matches != l.matches then k.matches > l.matches
    else if k.identifier != l.identifier then k.identifier > l.identifier
    else if k.core != l.core then k.core > l.core
    else k.facts > l.facts
  }

  /** The reference among the first `m` offers: a later offer replaces it only with a greater key. */
  function Reference(n: Naming, offers: seq<Offer>, m: nat): (r: nat)
    requires 1 <= m <= |offers|
    ensures r < m
  {
    if m == 1 then 0
    else
      var best := Reference(n, offers, m - 1);
      if Greater(KeyOf(n, offers, m - 1), KeyOf(n, offers, best)) then m - 1 else best
  }

  /** No offer beats the reference, and the ones before it are strictly worse. */
  lemma {:induction false} ReferenceIsMaximal(n: Naming, offers: seq<Offer>, m: nat, i: nat)
    requires 1 <= m <= |offers| && i < m
    ensures var r := Reference(n, offers, m);
      && !Greater(KeyOf(n, offers, i), KeyOf(n, offers, r))
      && (i < r ==> Greater(KeyOf(n, offers, r), KeyOf(n, offers, i)))
  {
    hide KeyOf, Greater;
    GreaterIsStrict(KeyOf(n, offers, i), KeyOf(n, offers, i), KeyOf(n, offers, i));
    if m > 1 {
      var best := Reference(n, offers, m - 1);
      if i < m - 1 {
        ReferenceIsMaximal(n, offers, m - 1, i);
        GreaterIsStrict(KeyOf(n, offers, m - 1), KeyOf(n, offers, best), KeyOf(n, offers, i));
      }
    }
  }

  /**
   * The reference of a list: nobody matches more offers; of those who match as many, nobody has an identifier
   * if it has none, or else brand and model if it lacks them, or else more facts; of equals it is the first.
   */
  lemma ReferenceIsBest(n: Naming, offers: seq<Offer>, i: nat)
    requires i < |offers|
    ensures var r := Reference(n, offers, |offers|);
      var more, ours := |MatchingOthers(n, offers, i, |offers|)|, |MatchingOthers(n, offers, r, |offers|)|;
      var f, g := IdentityFacts(n, offers[i]), IdentityFacts(n, offers[r]);
      var id, ref := AuthorityIdentifier(n, offers[i]).Some?, AuthorityIdentifier(n, offers[r]).Some?;
      var core, known := BRAND in f && MODEL in f, BRAND in g && MODEL in g;
      && more <= ours
      && (more == ours ==> (id ==> ref))
      && (more == ours && id == ref ==> (core ==> known))
      && (more == ours && id == ref && core == known ==> |f| <= |g|)
      && (more == ours && id == ref && core == known && |f| == |g| ==> r <= i)
  {
    var r := Reference(n, offers, |offers|);
    ReferenceIsMaximal(n, offers, |offers|, i);
    CountIsOthers(n, offers, i, |offers|);
    CountIsOthers(n, offers, r, |offers|);
    hide IdentityFacts, AuthorityIdentifier, MatchCount, MatchingOthers, Reference;
  }

  lemma GreaterIsStrict(k: Key, l: Key, m: Key)
    ensures Greater(k, l) && !Greater(m, l) ==> Greater(k, m)
    ensures Greater(k, m) ==> !Greater(m, k)
  {
  }

  /** One offer of the result: its place in the input and the evidence attached to it. */
  datatype Labelled = Labelled(index: nat, evidence: Evidence)

  function SingleOfferEvidence(n: Naming, offer: Offer): Evidence {
    var facts := IdentityFacts(n, offer).Keys;
    Evidence(false, Insufficient, facts,
             if AuthorityIdentifier(n, offer).Some? then {"cross_platform_identifier"} else CORE - facts, {})
  }

  /** A lone offer shows its facts and names what would be needed: another platform, or brand and model. */
  lemma SingleOfferShows(n: Naming, offer: Offer)
    ensures var e, facts := SingleOfferEvidence(n, offer), IdentityFacts(n, offer);
      && !e.matching && e.basis == Insufficient && e.matched == facts.Keys && e.conflicting == {}
      && (AuthorityIdentifier(n, offer).Some? ==> e.missing == {"cross_platform_identifier"})
      && (AuthorityIdentifier(n, offer).None? ==> e.missing == {"identity.brand", "identity.model"} - facts.Keys)
  {
  }

  predicate InGroup(n: Naming, offers: seq<Offer>, reference: nat, i: nat)
    requires reference < |offers| && i < |offers|
  {
    i == reference || Matches(n, offers[reference], offers[i])
  }

  /** The first other offer that matches the reference. */
  function FirstMatch(n: Naming, offers: seq<Offer>, reference: nat, from: nat): (j: nat)
    requires reference < |offers| && from <= |offers|
    ensures from <= j <= |offers|
    ensures j < |offers| ==> j != reference && Matches(n, offers[reference], offers[j])
    ensures forall m :: from <= m < j && m != reference ==> !Matches(n, offers[reference], offers[m])
    decreases |offers| - from
  {
    if from == |offers| then from
    else if from != reference && Matches(n, offers[reference], offers[from]) then from
    else FirstMatch(n, offers, reference, from + 1)
  }

  lemma {:induction false} CountIsPositiveIff(n: Naming, offers: seq<Offer>, i: nat, m: nat)
    requires i < |offers| && m <= |offers|
    ensures MatchCount(n, offers, i, m) > 0 <==> exists j :: 0 <= j < m && j != i && Matches(n, offers[i], offers[j])
  {
    hide Matches;
    if m > 0 {
      CountIsPositiveIff(n, offers, i, m - 1);
    }
  }

  /** The two result lists split the input: every index once, each list in input order. */
  ghost predicate Partition(matching: seq<Labelled>, alternatives: seq<Labelled>, count: nat) {
    && (forall i, j :: 0 <= i < j < |matching| ==> matching[i].index < matching[j].index)
    && (forall i, j :: 0 <= i < j < |alternatives| ==> alternatives[i].index < alternatives[j].index)
    && (forall i :: 0 <= i < |matching| ==> matching[i].index < count)
    && (forall i :: 0 <= i < |alternatives| ==> alternatives[i].index < count)
    && (forall x :: 0 <= x < count ==> (Has(matching, x) <==> !Has(alternatives, x)))
  }

  predicate Has(list: seq<Labelled>, x: nat) {
    exists i :: 0 <= i < |list| && list[i].index == x
  }

  lemma HasAppend(list: seq<Labelled>, e: Labelled)
    ensures forall x :: Has(list + [e], x) <==> Has(list, x) || x == e.index
  {
    assert (list + [e])[|list|] == e;
    forall x | Has(list, x) ensures Has(list + [e], x) {
      var i :| 0 <= i < |list| && list[i].index == x;
      assert (list + [e])[i] == list[i];
    }
  }

  /** What every labelled offer must carry, given the reference; a grouped reference carries its first match. */
  ghost predicate RightlyLabelled(n: Naming, offers: seq<Offer>, reference: nat, grouped: bool, e: Labelled)
    requires reference < |offers|
  {
    && e.index < |offers|
    && (e.index != reference ==> e.evidence == Match(n, offers[reference], offers[e.index]))
    && (e.index == reference && grouped ==>
          var first := FirstMatch(n, offers, reference, 0);
          first < |offers| && e.evidence == Match(n, offers[reference], offers[first]) && e.evidence.matching)
    && (e.index == reference && !grouped ==> e.evidence == SingleOfferEvidence(n, offers[reference]))
  }

  /**
   * The offers are split in input order into a group of size zero or at least two and the alternatives. The
   * group is everything that matches the reference, the reference maximises (matches, strength) with the
   * earliest offer winning ties, and the group is empty only if no two offers match at all.
   */
  method ClassifyExactOffers(n: Naming, offers: seq<Offer>) returns (matching: seq<Labelled>, alternatives: seq<Labelled>)
    ensures Partition(matching, alternatives, |offers|)
    ensures |matching| != 1
    ensures |offers| < 2 ==> matching == [] && forall i :: 0 <= i < |alternatives| ==>
              alternatives[i].evidence == SingleOfferEvidence(n, offers[alternatives[i].index])
    ensures |offers| >= 2 ==>
      var r := Reference(n, offers, |offers|);
      && (forall i :: 0 <= i < |matching| ==>
            InGroup(n, offers, r, matching[i].index) && RightlyLabelled(n, offers, r, true, matching[i]))
      && (forall i :: 0 <= i < |alternatives| ==> RightlyLabelled(n, offers, r, false, alternatives[i]))
      && (matching != [] ==> forall x :: 0 <= x < |offers| ==> (Has(matching, x) <==> InGroup(n, offers, r, x)))
      && (matching == [] <==> forall i, j :: 0 <= i < |offers| && 0 <= j < |offers| && i != j ==> !Matches(n, offers[i], offers[j]))
  {
    matching, alternatives := [], [];
    if |offers| < 2 {
      if |offers| == 1 {
        alternatives := [Labelled(0, SingleOfferEvidence(n, offers[0]))];
        assert alternatives[0].index == 0;
      }
      return;
    }

    hide Match, Matches, KeyOf, Greater, SingleOfferEvidence, Partition, RightlyLabelled, InGroup;
    var best := FindReference(n, offers);
    matching, alternatives := SplitAround(n, offers, best, FirstMatch(n, offers, best, 0));
    GroupIsEmptyIff(n, offers, best);
    GroupSize(n, offers, best, matching, alternatives);
  }

  method FindReference(n: Naming, offers: seq<Offer>) returns (best: nat)
    requires offers != []
    ensures best == Reference(n, offers, |offers|)
  {
    hide KeyOf, Greater;
    best := 0;
    for index := 1 to |offers|
      invariant best == Reference(n, offers, index)
    {
      if Greater(KeyOf(n, offers, index), KeyOf(n, offers, best)) {
        best := index;
      }
    }
  }

  /** Some other offer matches the reference exactly if any two offers match. */
  lemma GroupIsEmptyIff(n: Naming, offers: seq<Offer>, best: nat)
    requires offers != [] && best == Reference(n, offers, |offers|)
    ensures FirstMatch(n, offers, best, 0) == |offers| <==>
            forall i, j :: 0 <= i < |offers| && 0 <= j < |offers| && i != j ==> !Matches(n, offers[i], offers[j])
  {
    hide Matches, KeyOf, Greater;
    CountIsPositiveIff(n, offers, best, |offers|);
    if FirstMatch(n, offers, best, 0) == |offers| {
      assert forall j :: 0 <= j < |offers| && j != best ==> !Matches(n, offers[best], offers[j]);
      NoPairMatches(n, offers, best);
    }
  }

  lemma GroupSize(n: Naming, offers: seq<Offer>, best: nat, matching: seq<Labelled>, alternatives: seq<Labelled>)
    requires best < |offers| && Partition(matching, alternatives, |offers|)
    requires var first := FirstMatch(n, offers, best, 0);
      if first == |offers| then matching == []
      else forall x :: 0 <= x < |offers| ==> (Has(matching, x) <==> InGroup(n, offers, best, x))
    ensures |matching| != 1
    ensures matching == [] <==> FirstMatch(n, offers, best, 0) == |offers|
  {
    hide Matches;
    var first := FirstMatch(n, offers, best, 0);
    if first < |offers| {
      assert InGroup(n, offers, best, best) && InGroup(n, offers, best, first);
      assert Has(matching, best) && Has(matching, first);
    }
  }

  /** Labels every offer; `first` is the first match of the reference, or the end. */
  method SplitAround(n: Naming, offers: seq<Offer>, best: nat, first: nat) returns (matching: seq<Labelled>, alternatives: seq<Labelled>)
    requires best < |offers| && first == FirstMatch(n, offers, best, 0)
    ensures Partition(matching, alternatives, |offers|)
    ensures forall i :: 0 <= i < |matching| ==>
              matching[i].index < |offers| && InGroup(n, offers, best, matching[i].index) && RightlyLabelled(n, offers, best, true, matching[i])
    ensures forall i :: 0 <= i < |alternatives| ==> RightlyLabelled(n, offers, best, false, alternatives[i])
    ensures if first == |offers| then matching == []
            else forall x :: 0 <= x < |offers| ==> (Has(matching, x) <==> InGroup(n, offers, best, x))
  {
    hide Match, SingleOfferEvidence, Partition;
    matching, alternatives := [], [];
    EmptyPartition();
    for i := 0 to |offers|
      invariant Partition(matching, alternatives, i)
      invariant forall m :: 0 <= m < |matching| ==>
                  matching[m].index < |offers| && InGroup(n, offers, best, matching[m].index) && RightlyLabelled(n, offers, best, true, matching[m])
      invariant forall m :: 0 <= m < |alternatives| ==> RightlyLabelled(n, offers, best, false, alternatives[m])
      invariant first == |offers| ==> matching == []
      invariant first < |offers| ==> forall x :: 0 <= x < i ==> (Has(matching, x) <==> InGroup(n, offers, best, x))
    {
      if first < |offers| && InGroup(n, offers, best, i) {
        var e := Labelled(i, Match(n, offers[best], offers[if i == best then first else i]));
        HasAppend(matching, e);
        ExtendPartition(matching, alternatives, e);
        matching := matching + [e];
      } else {
        var e := Labelled(i, if i == best then SingleOfferEvidence(n, offers[i]) else Match(n, offers[best], offers[i]));
        NotYet(matching, alternatives, i);
        ExtendPartition(matching, alternatives, e);
        alternatives := alternatives + [e];
      }
    }
  }

  lemma EmptyPartition()
    ensures Partition([], [], 0)
  {
  }

  lemma NotYet(matching: seq<Labelled>, alternatives: seq<Labelled>, count: nat)
    requires Partition(matching, alternatives, count)
    ensures !Has(matching, count) && !Has(alternatives, count)
  {
  }

  /** The next index may go to either list. */
  lemma ExtendPartition(matching: seq<Labelled>, alternatives: seq<Labelled>, e: Labelled)
    requires Partition(matching, alternatives, e.index)
    ensures Partition(matching + [e], alternatives, e.index + 1)
    ensures Partition(matching, alternatives + [e], e.index + 1)
  {
    NotYet(matching, alternatives, e.index);
    HasAppend(matching, e);
    HasAppend(alternatives, e);
  }

  /** If the maximal match count is zero, nothing matches anything. */
  lemma NoPairMatches(n: Naming, offers: seq<Offer>, reference: nat)
    requires |offers| >= 1 && reference == Reference(n, offers, |offers|)
    requires MatchCount(n, offers, reference, |offers|) == 0
    ensures forall i, j :: 0 <= i < |offers| && 0 <= j < |offers| && i != j ==> !Matches(n, offers[i], offers[j])
  {
    hide Matches;
    forall i, j | 0 <= i < |offers| && 0 <= j < |offers| && i != j ensures !Matches(n, offers[i], offers[j]) {
      ReferenceIsMaximal(n, offers, |offers|, i);
      CountIsPositiveIff(n, offers, i, |offers|);
    }
  }
}
