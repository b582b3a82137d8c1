/** Where the compatibility check reports which rule: the messages of the recursion, unrolled. */
module CompatibilityPlaces {
  import opened Options
  import opened Numerals
  import opened Schemas
  import opened Compatibility

  datatype Step = Property(name: string) | Items

  function Spelled(path: string, steps: seq<Step>): string
    decreases |steps|
  {
    if steps == [] then path else Spelled(StepPath(path, steps[0]), steps[1..])
  }

  function StepPath(path: string, step: Step): string {
    match step
    case Property(name) => path + "." + name
    case Items => path + "[]"
  }

  /** Some member of the first set is not in the second. */
  ghost predicate Exceeds(a: set<string>, b: set<string>) {
    exists k :: k in a && k !in b
  }

  /** The value equals none of the list. */
  ghost predicate Gone(x: Json, values: seq<Json>) {
    forall j | 0 <= j < |values| :: !PyEqual(x, values[j])
  }

  /** A rule about the shape of objects is broken here. */
  ghost predicate BreaksObject(o: Schema, n: Schema, rule: string)
    requires o.Keywords? && n.Keywords?
  {
    || (rule == "new required properties" && Exceeds(n.required, o.required))
    || (rule == "removed properties" && Exceeds(o.properties.Keys, n.properties.Keys))
    || (rule == "additional properties are no longer accepted" && o.additional != Flag(false) && n.additional == Flag(false))
  }

  /** A rule about types and enumerated values is broken here. */
  ghost predicate BreaksValue(o: Schema, n: Schema, rule: string)
    requires o.Keywords? && n.Keywords?
  {
    || (rule == "added enum constraint" && o.enum.None? && n.enum.Some?)
    || (rule == "removed enum values" && o.enum.Some? && n.enum.Some?
        && exists i :: 0 <= i < |o.enum.value| && Gone(o.enum.value[i], n.enum.value))
    || (rule == "added type constraint" && o.types.None? && n.types.Some?)
    || (rule == "narrowed types" && o.types.Some? && n.types.Some? && Exceeds(o.types.value, n.types.value))
  }

  /** A rule about patterns, formats and constants is broken here. */
  ghost predicate BreaksExact(o: Schema, n: Schema, rule: string)
    requires o.Keywords? && n.Keywords?
  {
    || (rule == "changed pattern constraint" && n.pattern.Some? && o.pattern != n.pattern)
    || (rule == "changed format constraint" && n.format.Some? && o.format != n.format)
    || (rule == "changed const constraint" && n.constant.Some?
        && !PyEqual(if o.constant.Some? then o.constant.value else Null, n.constant.value))
  }

  /** A rule about bounds is broken here. */
  ghost predicate BreaksBound(o: Schema, n: Schema, rule: string)
    requires o.Keywords? && n.Keywords?
  {
    || (exists k :: k in LOWER && rule == "tightened " + k && k in n.limits && (k in o.limits ==> n.limits[k] > o.limits[k]))
    || (exists k :: k in UPPER && rule == "tightened " + k && k in n.limits && (k in o.limits ==> n.limits[k] < o.limits[k]))
  }

  ghost predicate BreaksList(o: Schema, n: Schema, rule: string)
    requires o.Keywords? && n.Keywords?
  {
    || (rule == "array items must now be unique" && !o.uniqueItems && n.uniqueItems)
    || (rule == "added anyOf constraint" && o.anyOf.Unlisted? && n.anyOf.Listed?)
    || (rule == "added oneOf constraint" && o.oneOf.Unlisted? && n.oneOf.Listed?)
  }

  /** An old object variant has no new variant that takes it over. */
  ghost predicate LosesVariant(olds: seq<Schema>, od: Definitions, news: seq<Schema>, nd: Definitions, path: string, keyword: string, i: nat) {
    && i < |olds| && olds[i].Keywords?
    && forall j | 0 <= j < |news| && news[j].Keywords? :: Problems(olds[i], od, news[j], nd, path + "." + keyword) != {}
  }

  ghost predicate BreaksVariant(o: Schema, od: Definitions, n: Schema, nd: Definitions, path: string, rule: string)
    requires o.Keywords? && n.Keywords?
  {
    || (o.anyOf.Listed? && n.anyOf.Listed?
        && exists i: nat :: LosesVariant(o.anyOf.schemas, od, n.anyOf.schemas, nd, path, "anyOf", i) && rule == "removed or narrowed anyOf variant " + Decimal(i))
    || (o.oneOf.Listed? && n.oneOf.Listed?
        && exists i: nat :: LosesVariant(o.oneOf.schemas, od, n.oneOf.schemas, nd, path, "oneOf", i) && rule == "removed or narrowed oneOf variant " + Decimal(i))
  }

  ghost predicate Breaks(o: Schema, od: Definitions, n: Schema, nd: Definitions, path: string, rule: string)
    requires o.Keywords? && n.Keywords?
  {
    || BreaksObject(o, n, rule) || BreaksValue(o, n, rule) || BreaksExact(o, n, rule) || BreaksBound(o, n, rule) || BreaksList(o, n, rule)
    || BreaksVariant(o, od, n, nd, path, rule)
  }

  /** The steps lead through both schemas, references resolved on the way, to a place where the
      rule is broken. */
  ghost predicate Stands(prev: Schema, pd: Definitions, next: Schema, nd: Definitions, path: string, steps: seq<Step>, rule: string)
    decreases |steps|
  {
    prev.Keywords? && next.Keywords? &&
    var ((o, od), (n, nd')) := (Resolved(prev, pd), Resolved(next, nd));
    if steps == [] then Breaks(o, od, n, nd', path, rule)
    else
      match steps[0]
      case Property(name) =>
        && name in o.properties && name in n.properties
        && Stands(o.properties[name], od, n.properties[name], nd', StepPath(path, steps[0]), steps[1..], rule)
      case Items => o.items.Some? && n.items.Some? && Stands(o.items.value, od, n.items.value, nd', StepPath(path, steps[0]), steps[1..], rule)
  }

  // ----- one schema

  lemma {:induction false} ExceedsIff(a: set<string>, b: set<string>)
    ensures Exceeds(a, b) <==> a - b != {}
    ensures Exceeds(a, b) <==> !(a <= b)
  {
    if a - b != {} {
      var k :| k in a - b;
    }
    if k :| k in a && k !in b {
      assert k in a - b;
    }
  }

  lemma {:induction false} ObjectIff(o: Schema, n: Schema, path: string, p: Problem)
    requires o.Keywords? && n.Keywords?
    ensures p in ObjectProblems(o, n, path) <==> p.path == path && BreaksObject(o, n, p.rule)
  {
    ExceedsIff(n.required, o.required);
    ExceedsIff(o.properties.Keys, n.properties.Keys);
  }

  lemma {:induction false} ValueIff(o: Schema, n: Schema, path: string, p: Problem)
    requires o.Keywords? && n.Keywords?
    ensures p in ValueProblems(o, n, path) <==> p.path == path && BreaksValue(o, n, p.rule)
  {
    if o.types.Some? && n.types.Some? {
      ExceedsIff(o.types.value, n.types.value);
    }
    if o.enum.Some? && n.enum.Some? {
      LostIffGone(o, n);
    }
  }

  lemma {:induction false} LostIffGone(o: Schema, n: Schema)
    requires o.Keywords? && n.Keywords? && o.enum.Some? && n.enum.Some?
    ensures LostValues(o, n) <==> exists i :: 0 <= i < |o.enum.value| && Gone(o.enum.value[i], n.enum.value)
  {
    forall i | 0 <= i < |o.enum.value| ensures Gone(o.enum.value[i], n.enum.value) <==> !PyIn(o.enum.value[i], n.enum.value) {
    }
  }

  lemma {:induction false} ExactIff(o: Schema, n: Schema, path: string, p: Problem)
    requires o.Keywords? && n.Keywords?
    ensures p in ExactProblems(o, n, path) <==> p.path == path && BreaksExact(o, n, p.rule)
  {
  }

  lemma {:induction false} BoundIff(o: Schema, n: Schema, path: string, p: Problem)
    requires o.Keywords? && n.Keywords?
    ensures p in LimitProblems(o, n, path, LOWER, true) + LimitProblems(o, n, path, UPPER, false) <==> p.path == path && BreaksBound(o, n, p.rule)
  {
    if p.path == path && BreaksBound(o, n, p.rule) {
      if k :| k in LOWER && p.rule == "tightened " + k && k in n.limits && (k in o.limits ==> n.limits[k] > o.limits[k]) {
        assert Tightened(o, n, k, true);
      } else {
        var k :| k in UPPER && p.rule == "tightened " + k && k in n.limits && (k in o.limits ==> n.limits[k] < o.limits[k]);
        assert Tightened(o, n, k, false);
      }
    }
  }

  lemma {:induction false} ListIff(o: Schema, n: Schema, path: string, p: Problem)
    requires o.Keywords? && n.Keywords?
    ensures p in ListProblems(o, n, path) <==> p.path == path && BreaksList(o, n, p.rule)
  {
  }

  lemma {:induction false} VariantIff(parent: Schema, olds: seq<Schema>, od: Definitions, news: seq<Schema>, nd: Definitions, path: string, keyword: string, p: Problem)
    requires parent.Keywords? && (parent.anyOf == Listed(olds) || parent.oneOf == Listed(olds))
    ensures p in VariantProblems(parent, olds, od, news, nd, path, keyword)
       <==> p.path == path && exists i: nat :: LosesVariant(olds, od, news, nd, path, keyword, i) && p.rule == "removed or narrowed " + keyword + " variant " + Decimal(i)
  {
    forall i: nat | i < |olds|
      ensures LosesVariant(olds, od, news, nd, path, keyword, i) <==> !Kept(parent, olds, od, news, nd, path, keyword, i)
    {
      LostIff(parent, olds, od, news, nd, path, keyword, i);
    }
    if p in VariantProblems(parent, olds, od, news, nd, path, keyword) {
      var i: nat :| i < |olds| && !Kept(parent, olds, od, news, nd, path, keyword, i) && p == LostVariant(path, keyword, i);
      assert LosesVariant(olds, od, news, nd, path, keyword, i);
    }
    if p.path == path && exists i: nat :: LosesVariant(olds, od, news, nd, path, keyword, i) && p.rule == "removed or narrowed " + keyword + " variant " + Decimal(i) {
      var i: nat :| LosesVariant(olds, od, news, nd, path, keyword, i) && p.rule == "removed or narrowed " + keyword + " variant " + Decimal(i);
      assert p == LostVariant(path, keyword, i);
    }
  }

  lemma {:induction false} LostIff(parent: Schema, olds: seq<Schema>, od: Definitions, news: seq<Schema>, nd: Definitions, path: string, keyword: string, i: nat)
    requires parent.Keywords? && (parent.anyOf == Listed(olds) || parent.oneOf == Listed(olds)) && i < |olds|
    ensures LosesVariant(olds, od, news, nd, path, keyword, i) <==> !Kept(parent, olds, od, news, nd, path, keyword, i)
  {
    if olds[i].Keywords? {
      forall j | 0 <= j < |news|
        ensures Fits(olds[i], od, news[j], nd, path + "." + keyword) <==> news[j].Keywords? && Problems(olds[i], od, news[j], nd, path + "." + keyword) == {}
      {
      }
    }
  }

  lemma {:induction false} LocalIff(o: Schema, n: Schema, path: string, p: Problem)
    requires o.Keywords? && n.Keywords?
    ensures p in LocalProblems(o, n, path)
       <==> p.path == path && (BreaksObject(o, n, p.rule) || BreaksValue(o, n, p.rule) || BreaksExact(o, n, p.rule) || BreaksBound(o, n, p.rule) || BreaksList(o, n, p.rule))
  {
    ObjectIff(o, n, path, p);
    ValueIff(o, n, path, p);
    ExactIff(o, n, path, p);
    BoundIff(o, n, path, p);
    ListIff(o, n, path, p);
  }

  lemma {:induction false} VariantsIff(o: Schema, od: Definitions, n: Schema, nd: Definitions, path: string, p: Problem)
    requires o.Keywords? && n.Keywords?
    ensures p.path == path && BreaksVariant(o, od, n, nd, path, p.rule)
       <==> || (o.anyOf.Listed? && n.anyOf.Listed? && p in VariantProblems(o, o.anyOf.schemas, od, n.anyOf.schemas, nd, path, "anyOf"))
            || (o.oneOf.Listed? && n.oneOf.Listed? && p in VariantProblems(o, o.oneOf.schemas, od, n.oneOf.schemas, nd, path, "oneOf"))
  {
    if o.anyOf.Listed? && n.anyOf.Listed? {
      VariantIff(o, o.anyOf.schemas, od, n.anyOf.schemas, nd, path, "anyOf", p);
      assert "removed or narrowed " + "anyOf" + " variant " == "removed or narrowed anyOf variant ";
    }
    if o.oneOf.Listed? && n.oneOf.Listed? {
      VariantIff(o, o.oneOf.schemas, od, n.oneOf.schemas, nd, path, "oneOf", p);
      assert "removed or narrowed " + "oneOf" + " variant " == "removed or narrowed oneOf variant ";
    }
  }

  lemma {:induction false} HereIff(o: Schema, od: Definitions, n: Schema, nd: Definitions, path: string, p: Problem)
    requires o.Keywords? && n.Keywords?
    ensures p in ResolvedProblems(o, od, n, nd, path)
       <==> (p.path == path && Breaks(o, od, n, nd, path, p.rule)) || p in PropertyProblems(o, od, n, nd, path) || p in ItemProblems(o, od, n, nd, path)
  {
    LocalIff(o, n, path, p);
    VariantsIff(o, od, n, nd, path, p);
  }

  // ----- all places

  /** Some path of steps leads to a place where the problem stands. */
  ghost predicate Located(prev: Schema, pd: Definitions, next: Schema, nd: Definitions, path: string, p: Problem) {
    exists steps :: LocatedAt(prev, pd, next, nd, path, steps, p)
  }

  ghost predicate LocatedAt(prev: Schema, pd: Definitions, next: Schema, nd: Definitions, path: string, steps: seq<Step>, p: Problem) {
    p.path == Spelled(path, steps) && Stands(prev, pd, next, nd, path, steps, p.rule)
  }

  lemma {:induction false} StepDown(prev: Schema, pd: Definitions, next: Schema, nd: Definitions, path: string, step: Step, steps: seq<Step>, p: Problem)
    requires prev.Keywords? && next.Keywords?
    ensures var ((o, od), (n, nd')) := (Resolved(prev, pd), Resolved(next, nd));
      LocatedAt(prev, pd, next, nd, path, [step] + steps, p)
      <==> match step
           case Property(name) => name in o.properties && name in n.properties
                                  && LocatedAt(o.properties[name], od, n.properties[name], nd', path + "." + name, steps, p)
           case Items => o.items.Some? && n.items.Some? && LocatedAt(o.items.value, od, n.items.value, nd', path + "[]", steps, p)
  {
    var all := [step] + steps;
    assert all[0] == step && all[1..] == steps;
  }

  lemma {:induction false} FoundDown(o: Schema, od: Definitions, n: Schema, nd: Definitions, path: string, step: Step, p: Problem)
    requires o.Keywords? && n.Keywords?
    requires match step
             case Property(name) => name in o.properties && name in n.properties && o.properties[name].Keywords? && n.properties[name].Keywords?
                                    && p in Problems(o.properties[name], od, n.properties[name], nd, path + "." + name)
             case Items => o.items.Some? && n.items.Some? && o.items.value.Keywords? && n.items.value.Keywords?
                           && p in Problems(o.items.value, od, n.items.value, nd, path + "[]")
    ensures p in ResolvedProblems(o, od, n, nd, path)
  {
    HereIff(o, od, n, nd, path, p);
    if step.Property? {
      assert p in PropertyProblem(o, od, n, nd, path, step.name);
    }
  }

  lemma {:induction false} LocatedDown(prev: Schema, pd: Definitions, next: Schema, nd: Definitions, path: string, step: Step, p: Problem)
    requires prev.Keywords? && next.Keywords?
    requires var ((o, od), (n, nd')) := (Resolved(prev, pd), Resolved(next, nd));
      match step
      case Property(name) => name in o.properties && name in n.properties && Located(o.properties[name], od, n.properties[name], nd', path + "." + name, p)
      case Items => o.items.Some? && n.items.Some? && Located(o.items.value, od, n.items.value, nd', path + "[]", p)
    ensures Located(prev, pd, next, nd, path, p)
  {
    var ((o, od), (n, nd')) := (Resolved(prev, pd), Resolved(next, nd));
    var steps;
    match step {
      case Property(name) => steps :| LocatedAt(o.properties[name], od, n.properties[name], nd', path + "." + name, steps, p);
      case Items => steps :| LocatedAt(o.items.value, od, n.items.value, nd', path + "[]", steps, p);
    }
    StepDown(prev, pd, next, nd, path, step, steps, p);
  }

  lemma {:induction false} LocatedHere(prev: Schema, pd: Definitions, next: Schema, nd: Definitions, path: string, p: Problem)
    requires prev.Keywords? && next.Keywords? && p.path == path
    requires var ((o, od), (n, nd')) := (Resolved(prev, pd), Resolved(next, nd)); Breaks(o, od, n, nd', path, p.rule)
    ensures Located(prev, pd, next, nd, path, p)
  {
    assert LocatedAt(prev, pd, next, nd, path, [], p);
  }

  /** Every message of the check is about a rule broken at a place that steps into properties and
      items lead to. */
  lemma {:induction false} MessagesLocated(prev: Schema, pd: Definitions, next: Schema, nd: Definitions, path: string, p: Problem)
    requires prev.Keywords? && next.Keywords? && p in Problems(prev, pd, next, nd, path)
    ensures Located(prev, pd, next, nd, path, p)
    decreases |pd|, prev
  {
    var ((o, od), (n, nd')) := (Resolved(prev, pd), Resolved(next, nd));
    HereIff(o, od, n, nd', path, p);
    if p in PropertyProblems(o, od, n, nd', path) {
      var name :| name in o.properties && name in n.properties && p in PropertyProblem(o, od, n, nd', path, name);
      MessagesLocated(o.properties[name], od, n.properties[name], nd', path + "." + name, p);
      LocatedDown(prev, pd, next, nd, path, Property(name), p);
    } else if p in ItemProblems(o, od, n, nd', path) {
      MessagesLocated(o.items.value, od, n.items.value, nd', path + "[]", p);
      LocatedDown(prev, pd, next, nd, path, Items, p);
    } else {
      LocatedHere(prev, pd, next, nd, path, p);
    }
  }

  /** Every rule broken at such a place is reported. */
  lemma {:induction false} PlacesReported(prev: Schema, pd: Definitions, next: Schema, nd: Definitions, path: string, steps: seq<Step>, p: Problem)
    requires LocatedAt(prev, pd, next, nd, path, steps, p)
    ensures prev.Keywords? && next.Keywords? && p in Problems(prev, pd, next, nd, path)
    decreases |steps|
  {
    var ((o, od), (n, nd')) := (Resolved(prev, pd), Resolved(next, nd));
    if steps == [] {
      HereIff(o, od, n, nd', path, p);
    } else {
      var step, rest := steps[0], steps[1..];
      assert steps == [step] + rest;
      StepDown(prev, pd, next, nd, path, step, rest, p);
      match step {
        case Property(name) => PlacesReported(o.properties[name], od, n.properties[name], nd', path + "." + name, rest, p);
        case Items => PlacesReported(o.items.value, od, n.items.value, nd', path + "[]", rest, p);
      }
      FoundDown(o, od, n, nd', path, step, p);
    }
  }

  /** The messages of the check are exactly the rules broken at such places, each under the path that
      spells the steps. */
  lemma {:induction false} MessagesAreExact(prev: Schema, pd: Definitions, next: Schema, nd: Definitions, path: string, p: Problem)
    requires prev.Keywords? && next.Keywords?
    ensures p in Problems(prev, pd, next, nd, path) <==> Located(prev, pd, next, nd, path, p)
  {
    if p in Problems(prev, pd, next, nd, path) {
      MessagesLocated(prev, pd, next, nd, path, p);
    }
    if Located(prev, pd, next, nd, path, p) {
      var steps :| LocatedAt(prev, pd, next, nd, path, steps, p);
      PlacesReported(prev, pd, next, nd, path, steps, p);
    }
  }
}
