/** JSON documents, JSON Schemas and what it means for a document to be valid, after the
    2020-12 drafts of JSON Schema Core and JSON Schema Validation. */
module Schemas {
  import opened Options

  datatype Json = Null | Bool(b: bool) | Num(n: real) | Str(s: string) | Arr(elements: seq<Json>) | Obj(fields: map<string, Json>)

  /** The value of additionalProperties. */
  datatype Additional = Absent | Flag(b: bool) | Shaped(schema: Schema)

  /** The value of anyOf or oneOf. */
  datatype Variants = Unlisted | Listed(schemas: seq<Schema>)

  /** A schema is a boolean or an object of keywords; a keyword that is absent is None, or
      empty where the drafts give absence that meaning. */
  datatype Schema =
    | Boolean(value: bool)
    | Keywords(ref: Option<string>, types: Option<set<string>>, enum: Option<seq<Json>>, constant: Option<Json>,
               required: set<string>, properties: map<string, Schema>, additional: Additional, items: Option<Schema>,
               anyOf: Variants, oneOf: Variants, allOf: seq<Schema>,
               pattern: Option<string>, format: Option<string>, limits: map<string, real>, uniqueItems: bool)

  const ANY := Keywords(None, None, None, None, {}, map[], Absent, None, Unlisted, Unlisted, [], None, None, map[], false)

  /** The definitions a document can refer to; each refers only to earlier ones, so that
      references are acyclic. */
  type Definitions = seq<(string, Schema)>

  /** Position of the last definition with the name, or the length. */
  function Find(defs: Definitions, name: string): (k: nat)
    ensures k <= |defs| && (k < |defs| ==> defs[k].0 == name)
  {
    if defs == [] then 0
    else if defs[|defs| - 1].0 == name then |defs| - 1
    else
      var k := Find(defs[..|defs| - 1], name);
      if k == |defs| - 1 then |defs| else k
  }

  // ----- validity

  /** How strings match patterns and formats. */
  datatype Matchers = Matchers(pattern: (string, string) -> bool, format: (string, string) -> bool)

  const LOWER := {"minimum", "exclusiveMinimum", "minLength", "minItems", "minProperties"}
  const UPPER := {"maximum", "exclusiveMaximum", "maxLength", "maxItems", "maxProperties"}

  function TypesOf(doc: Json): set<string> {
    match doc
    case Null => {"null"}
    case Bool(_) => {"boolean"}
    case Num(n) => if n.Floor as real == n then {"number", "integer"} else {"number"}
    case Str(_) => {"string"}
    case Arr(_) => {"array"}
    case Obj(_) => {"object"}
  }

  predicate LimitOk(doc: Json, keyword: string, limit: real) {
    match keyword
    case "minimum" => doc.Num? ==> doc.n >= limit
    case "exclusiveMinimum" => doc.Num? ==> doc.n > limit
    case "minLength" => doc.Str? ==> |doc.s| as real >= limit
    case "minItems" => doc.Arr? ==> |doc.elements| as real >= limit
    case "minProperties" => doc.Obj? ==> |doc.fields| as real >= limit
    case "maximum" => doc.Num? ==> doc.n <= limit
    case "exclusiveMaximum" => doc.Num? ==> doc.n < limit
    case "maxLength" => doc.Str? ==> |doc.s| as real <= limit
    case "maxItems" => doc.Arr? ==> |doc.elements| as real <= limit
    case "maxProperties" => doc.Obj? ==> |doc.fields| as real <= limit
    case _ => true
  }

  predicate Unique(elements: seq<Json>) {
    forall i, j | 0 <= i < j < |elements| :: elements[i] != elements[j]
  }

  /** The keywords that look at the document itself. */
  predicate LocallyValid(m: Matchers, doc: Json, s: Schema)
    requires s.Keywords?
  {
    && (s.types.Some? ==> s.types.value * TypesOf(doc) != {})
    && (s.enum.Some? ==> doc in s.enum.value)
    && (s.constant.Some? ==> doc == s.constant.value)
    && (s.pattern.Some? && doc.Str? ==> m.pattern(s.pattern.value, doc.s))
    && (s.format.Some? && doc.Str? ==> m.format(s.format.value, doc.s))
    && (forall k | k in s.limits :: LimitOk(doc, k, s.limits[k]))
    && (doc.Obj? ==> s.required <= doc.fields.Keys)
    && (s.additional == Flag(false) && doc.Obj? ==> doc.fields.Keys <= s.properties.Keys)
    && (s.uniqueItems && doc.Arr? ==> Unique(doc.elements))
  }

  /** Validity of a document under a schema. */
  predicate Valid(m: Matchers, doc: Json, s: Schema, defs: Definitions)
    decreases |defs|, s, 2
  {
    match s
    case Boolean(b) => b
    case Keywords(_, _, _, _, _, _, _, _, _, _, _, _, _, _, _) =>
      && RefValid(m, doc, s, defs)
      && LocallyValid(m, doc, s)
      && PropertiesValid(m, doc, s, defs)
      && ItemsValid(m, doc, s, defs)
      && CombinedValid(m, doc, s, defs)
  }

  /** The target of a reference applies besides the other keywords. */
  predicate RefValid(m: Matchers, doc: Json, s: Schema, defs: Definitions)
    requires s.Keywords?
    decreases |defs|, s, 1
  {
    s.ref.Some? ==> var k := Find(defs, s.ref.value); k < |defs| && Valid(m, doc, defs[k].1, defs[..k])
  }

  predicate PropertiesValid(m: Matchers, doc: Json, s: Schema, defs: Definitions)
    requires s.Keywords?
    decreases |defs|, s, 1
  {
    doc.Obj? ==>
      && (forall name | name in s.properties && name in doc.fields :: Valid(m, doc.fields[name], s.properties[name], defs))
      && (s.additional.Shaped? ==> forall name | name in doc.fields && name !in s.properties :: Valid(m, doc.fields[name], s.additional.schema, defs))
  }

  predicate ItemsValid(m: Matchers, doc: Json, s: Schema, defs: Definitions)
    requires s.Keywords?
    decreases |defs|, s, 1
  {
    s.items.Some? && doc.Arr? ==> forall i | 0 <= i < |doc.elements| :: Valid(m, doc.elements[i], s.items.value, defs)
  }

  predicate CombinedValid(m: Matchers, doc: Json, s: Schema, defs: Definitions)
    requires s.Keywords?
    decreases |defs|, s, 1
  {
    && (s.anyOf.Listed? ==> exists i :: 0 <= i < |s.anyOf.schemas| && Valid(m, doc, s.anyOf.schemas[i], defs))
    && (s.oneOf.Listed? ==> exists i: nat :: i < |s.oneOf.schemas| && OnlyVariant(m, doc, s, defs, i))
    && (forall i | 0 <= i < |s.allOf| :: Valid(m, doc, s.allOf[i], defs))
  }

  /** One variant of oneOf accepts the document and no other does. */
  predicate OnlyVariant(m: Matchers, doc: Json, s: Schema, defs: Definitions, i: nat)
    requires s.Keywords? && s.oneOf.Listed? && i < |s.oneOf.schemas|
    decreases |defs|, s, 0
  {
    && Valid(m, doc, s.oneOf.schemas[i], defs)
    && forall j | 0 <= j < |s.oneOf.schemas| && j != i :: !Valid(m, doc, s.oneOf.schemas[j], defs)
  }
}

/** The check that a new schema accepts whatever the old one accepted. */
module Compatibility {
  import opened Options
  import opened Numerals
  import opened Schemas

  // ----- Python's equality, which takes True for 1 and False for 0

  function AsNumber(b: bool): real {
    if b then 1.0 else 0.0
  }

  predicate PyEqual(a: Json, b: Json)
    decreases a
  {
    match (a, b)
    case (Bool(x), Num(y)) => AsNumber(x) == y
    case (Num(x), Bool(y)) => x == AsNumber(y)
    case (Arr(x), Arr(y)) => |x| == |y| && forall i | 0 <= i < |x| :: PyEqual(x[i], y[i])
    case (Obj(x), Obj(y)) => x.Keys == y.Keys && forall k | k in x :: PyEqual(x[k], y[k])
    case _ => a == b
  }

  predicate PyIn(x: Json, s: seq<Json>) {
    exists i :: 0 <= i < |s| && PyEqual(x, s[i])
  }

  lemma {:induction false} PyEqualReflexive(a: Json)
    ensures PyEqual(a, a)
    decreases a
  {
    match a
    case Arr(x) => forall i | 0 <= i < |x| ensures PyEqual(x[i], x[i]) { PyEqualReflexive(x[i]); }
    case Obj(x) => forall k | k in x ensures PyEqual(x[k], x[k]) { PyEqualReflexive(x[k]); }
    case _ =>
  }

  lemma {:induction false} PyEqualTransitive(a: Json, b: Json, c: Json)
    requires PyEqual(a, b) && PyEqual(b, c)
    ensures PyEqual(a, c)
    decreases a
  {
    match (a, b, c)
    case (Arr(x), Arr(y), Arr(z)) => forall i | 0 <= i < |x| ensures PyEqual(x[i], z[i]) { PyEqualTransitive(x[i], y[i], z[i]); }
    case (Obj(x), Obj(y), Obj(z)) => forall k | k in x ensures PyEqual(x[k], z[k]) { PyEqualTransitive(x[k], y[k], z[k]); }
    case _ =>
  }

  // ----- the check

  datatype Problem = Problem(path: string, rule: string)

  /** One step of reference resolution; an unresolved reference leaves the schema as it is. */
  function Resolved(s: Schema, defs: Definitions): (r: (Schema, Definitions))
    requires s.Keywords?
    ensures r.0.Keywords?
    ensures r == (s, defs) || |r.1| < |defs|
  {
    if s.ref.None? then (s, defs)
    else
      var k := Find(defs, s.ref.value);
      if k < |defs| && defs[k].1.Keywords? then (defs[k].1, defs[..k]) else (s, defs)
  }

  /** An absent value reads as None, which equals null. */
  function OrNull(o: Option<Json>): Json {
    if o.Some? then o.value else Null
  }

  function When(condition: bool, path: string, rule: string): set<Problem> {
    if condition then {Problem(path, rule)} else {}
  }

  /** A bound that is new or tighter than before. */
  predicate Tightened(prev: Schema, next: Schema, k: string, lower: bool)
    requires prev.Keywords? && next.Keywords?
  {
    k in next.limits && (k !in prev.limits || (if lower then next.limits[k] > prev.limits[k] else next.limits[k] < prev.limits[k]))
  }

  function LimitProblems(prev: Schema, next: Schema, path: string, keywords: set<string>, lower: bool): set<Problem>
    requires prev.Keywords? && next.Keywords?
  {
    set k | k in keywords && Tightened(prev, next, k, lower) :: Problem(path, "tightened " + k)
  }

  function ObjectProblems(prev: Schema, next: Schema, path: string): set<Problem>
    requires prev.Keywords? && next.Keywords?
  {
    When(next.required - prev.required != {}, path, "new required properties")
    + When(prev.properties.Keys - next.properties.Keys != {}, path, "removed properties")
    + When(prev.additional != Flag(false) && next.additional == Flag(false), path, "additional properties are no longer accepted")
  }

  function ValueProblems(prev: Schema, next: Schema, path: string): set<Problem>
    requires prev.Keywords? && next.Keywords?
  {
    When(prev.enum.None? && next.enum.Some?, path, "added enum constraint")
    + When(LostValues(prev, next), path, "removed enum values")
    + When(prev.types.None? && next.types.Some?, path, "added type constraint")
    + When(prev.types.Some? && next.types.Some? && !(prev.types.value <= next.types.value), path, "narrowed types")
  }

  predicate LostValues(prev: Schema, next: Schema)
    requires prev.Keywords? && next.Keywords?
  {
    prev.enum.Some? && next.enum.Some? && exists i :: 0 <= i < |prev.enum.value| && !PyIn(prev.enum.value[i], next.enum.value)
  }

  function ExactProblems(prev: Schema, next: Schema, path: string): set<Problem>
    requires prev.Keywords? && next.Keywords?
  {
    When(next.pattern.Some? && prev.pattern != next.pattern, path, "changed pattern constraint")
    + When(next.format.Some? && prev.format != next.format, path, "changed format constraint")
    + When(next.constant.Some? && !PyEqual(OrNull(prev.constant), OrNull(next.constant)), path, "changed const constraint")
  }

  function ListProblems(prev: Schema, next: Schema, path: string): set<Problem>
    requires prev.Keywords? && next.Keywords?
  {
    When(!prev.uniqueItems && next.uniqueItems, path, "array items must now be unique")
    + When(prev.anyOf.Unlisted? && next.anyOf.Listed?, path, "added anyOf constraint")
    + When(prev.oneOf.Unlisted? && next.oneOf.Listed?, path, "added oneOf constraint")
  }

  /** What is wrong at this schema, without looking into subschemas. */
  function LocalProblems(prev: Schema, next: Schema, path: string): set<Problem>
    requires prev.Keywords? && next.Keywords?
  {
    ObjectProblems(prev, next, path) + ValueProblems(prev, next, path) + ExactProblems(prev, next, path)
    + LimitProblems(prev, next, path, LOWER, true) + LimitProblems(prev, next, path, UPPER, false)
    + ListProblems(prev, next, path)
  }

  /** All problems of replacing an old schema by a new one. */
  function Problems(prev: Schema, oldDefs: Definitions, next: Schema, newDefs: Definitions, path: string): set<Problem>
    requires prev.Keywords? && next.Keywords?
    decreases |oldDefs|, prev, 2
  {
    var (o, od) := Resolved(prev, oldDefs);
    var (n, nd) := Resolved(next, newDefs);
    ResolvedProblems(o, od, n, nd, path)
  }

  function ResolvedProblems(o: Schema, od: Definitions, n: Schema, nd: Definitions, path: string): set<Problem>
    requires o.Keywords? && n.Keywords?
    decreases |od|, o, 1
  {
    LocalProblems(o, n, path)
    + PropertyProblems(o, od, n, nd, path)
    + ItemProblems(o, od, n, nd, path)
    + (if o.anyOf.Listed? && n.anyOf.Listed? then VariantProblems(o, o.anyOf.schemas, od, n.anyOf.schemas, nd, path, "anyOf") else {})
    + (if o.oneOf.Listed? && n.oneOf.Listed? then VariantProblems(o, o.oneOf.schemas, od, n.oneOf.schemas, nd, path, "oneOf") else {})
  }

  function PropertyProblems(o: Schema, od: Definitions, n: Schema, nd: Definitions, path: string): set<Problem>
    requires o.Keywords? && n.Keywords?
    decreases |od|, o, 0, 1
  {
    set name, p | name in o.properties && name in n.properties && p in PropertyProblem(o, od, n, nd, path, name) :: p
  }

  function PropertyProblem(o: Schema, od: Definitions, n: Schema, nd: Definitions, path: string, name: string): set<Problem>
    requires o.Keywords? && n.Keywords? && name in o.properties && name in n.properties
    decreases |od|, o, 0, 0
  {
    if o.properties[name].Keywords? && n.properties[name].Keywords?
    then Problems(o.properties[name], od, n.properties[name], nd, path + "." + name) else {}
  }

  function ItemProblems(o: Schema, od: Definitions, n: Schema, nd: Definitions, path: string): set<Problem>
    requires o.Keywords? && n.Keywords?
    decreases |od|, o, 0
  {
    if o.items.Some? && n.items.Some? && o.items.value.Keywords? && n.items.value.Keywords?
    then Problems(o.items.value, od, n.items.value, nd, path + "[]") else {}
  }

  /** An old variant needs some new variant without problems; what is wrong with the others is
      not reported. */
  function VariantProblems(parent: Schema, olds: seq<Schema>, od: Definitions, news: seq<Schema>, nd: Definitions, path: string, keyword: string): set<Problem>
    requires parent.Keywords? && (parent.anyOf == Listed(olds) || parent.oneOf == Listed(olds))
    decreases |od|, parent, 0, 1
  {
    set i: nat | i < |olds| && !Kept(parent, olds, od, news, nd, path, keyword, i) :: LostVariant(path, keyword, i)
  }

  function LostVariant(path: string, keyword: string, i: nat): Problem {
    Problem(path, "removed or narrowed " + keyword + " variant " + Decimal(i))
  }

  predicate Kept(parent: Schema, olds: seq<Schema>, od: Definitions, news: seq<Schema>, nd: Definitions, path: string, keyword: string, i: nat)
    requires parent.Keywords? && (parent.anyOf == Listed(olds) || parent.oneOf == Listed(olds)) && i < |olds|
    decreases |od|, parent, 0, 0
  {
    olds[i].Boolean? || exists j :: 0 <= j < |news| && Fits(olds[i], od, news[j], nd, path + "." + keyword)
  }

  /** The new variant takes over the old one. */
  predicate Fits(variant: Schema, od: Definitions, candidate: Schema, nd: Definitions, path: string)
    requires variant.Keywords?
    decreases |od|, variant, 3
  {
    candidate.Keywords? && Problems(variant, od, candidate, nd, path) == {}
  }

  // ----- the check as a list of messages

  ghost function Reported(errors: seq<Problem>): set<Problem> {
    set e | e in errors
  }

  function Note(errors: seq<Problem>, condition: bool, path: string, rule: string): (r: seq<Problem>)
    ensures Reported(r) == Reported(errors) + When(condition, path, rule)
  {
    if condition then errors + [Problem(path, rule)] else errors
  }

  lemma {:induction false} ReportedConcat(a: seq<Problem>, b: seq<Problem>)
    ensures Reported(a + b) == Reported(a) + Reported(b)
  {
  }

  lemma {:induction false} LimitStep(prev: Schema, next: Schema, path: string, done: set<string>, k: string, lower: bool)
    requires prev.Keywords? && next.Keywords?
    ensures LimitProblems(prev, next, path, done + {k}, lower)
         == LimitProblems(prev, next, path, done, lower) + When(Tightened(prev, next, k, lower), path, "tightened " + k)
  {
  }

  /** Messages for bounds that became tighter. */
  method LimitErrors(prev: Schema, next: Schema, path: string, keywords: set<string>, lower: bool) returns (errors: seq<Problem>)
    requires prev.Keywords? && next.Keywords?
    ensures Reported(errors) == LimitProblems(prev, next, path, keywords, lower)
  {
    errors := [];
    var todo := keywords;
    ghost var done := {};
    while todo != {}
      invariant todo + done == keywords
      invariant Reported(errors) == LimitProblems(prev, next, path, done, lower)
      decreases |todo|
    {
      var k :| k in todo;
      LimitStep(prev, next, path, done, k, lower);
      errors := Note(errors, Tightened(prev, next, k, lower), path, "tightened " + k);
      todo, done := todo - {k}, done + {k};
    }
  }

  /** Messages about the document itself, for shape keywords, values, texts, bounds and lists. */
  method LocalErrors(prev: Schema, next: Schema, path: string) returns (errors: seq<Problem>)
    requires prev.Keywords? && next.Keywords?
    ensures Reported(errors) == LocalProblems(prev, next, path)
  {
    var shape := Note([], next.required - prev.required != {}, path, "new required properties");
    shape := Note(shape, prev.properties.Keys - next.properties.Keys != {}, path, "removed properties");
    shape := Note(shape, prev.additional != Flag(false) && next.additional == Flag(false), path, "additional properties are no longer accepted");
    assert Reported(shape) == ObjectProblems(prev, next, path);
    var values := ValueErrors(prev, next, path);
    var exact := ExactErrors(prev, next, path);
    var lower := LimitErrors(prev, next, path, LOWER, true);
    var upper := LimitErrors(prev, next, path, UPPER, false);
    var lists := ListErrors(prev, next, path);
    errors := shape + values + exact + lower + upper + lists;
    ReportedAll(shape, values, exact, lower, upper, lists);
  }

  method ValueErrors(prev: Schema, next: Schema, path: string) returns (errors: seq<Problem>)
    requires prev.Keywords? && next.Keywords?
    ensures Reported(errors) == ValueProblems(prev, next, path)
  {
    errors := Note([], prev.enum.None? && next.enum.Some?, path, "added enum constraint");
    errors := Note(errors, LostValues(prev, next), path, "removed enum values");
    errors := Note(errors, prev.types.None? && next.types.Some?, path, "added type constraint");
    errors := Note(errors, prev.types.Some? && next.types.Some? && !(prev.types.value <= next.types.value), path, "narrowed types");
  }

  method ExactErrors(prev: Schema, next: Schema, path: string) returns (errors: seq<Problem>)
    requires prev.Keywords? && next.Keywords?
    ensures Reported(errors) == ExactProblems(prev, next, path)
  {
    errors := Note([], next.pattern.Some? && prev.pattern != next.pattern, path, "changed pattern constraint");
    errors := Note(errors, next.format.Some? && prev.format != next.format, path, "changed format constraint");
    errors := Note(errors, next.constant.Some? && !PyEqual(OrNull(prev.constant), OrNull(next.constant)), path, "changed const constraint");
  }

  method ListErrors(prev: Schema, next: Schema, path: string) returns (errors: seq<Problem>)
    requires prev.Keywords? && next.Keywords?
    ensures Reported(errors) == ListProblems(prev, next, path)
  {
    errors := Note([], !prev.uniqueItems && next.uniqueItems, path, "array items must now be unique");
    errors := Note(errors, prev.anyOf.Unlisted? && next.anyOf.Listed?, path, "added anyOf constraint");
    errors := Note(errors, prev.oneOf.Unlisted? && next.oneOf.Listed?, path, "added oneOf constraint");
  }

  /** Six lists of messages put together. */
  lemma {:induction false} ReportedAll(a: seq<Problem>, b: seq<Problem>, c: seq<Problem>, d: seq<Problem>, e: seq<Problem>, f: seq<Problem>)
    ensures Reported(a + b + c + d + e + f) == Reported(a) + Reported(b) + Reported(c) + Reported(d) + Reported(e) + Reported(f)
  {
    ReportedConcat(a, b);
    ReportedConcat(a + b, c);
    ReportedConcat(a + b + c, d);
    ReportedConcat(a + b + c + d, e);
    ReportedConcat(a + b + c + d + e, f);
  }

  lemma {:induction false} NothingReported(errors: seq<Problem>)
    ensures errors == [] <==> Reported(errors) == {}
  {
    assert errors != [] ==> errors[0] in Reported(errors);
  }

  /** The recursive check; its messages are exactly the problems. */
  method CompatibilityErrors(prev: Schema, prevDefs: Definitions, next: Schema, nextDefs: Definitions, path: string) returns (errors: seq<Problem>)
    requires prev.Keywords? && next.Keywords?
    ensures Reported(errors) == Problems(prev, prevDefs, next, nextDefs, path)
    ensures errors == [] <==> Problems(prev, prevDefs, next, nextDefs, path) == {}
    decreases |prevDefs|, prev, 3
  {
    var (o, od) := Resolved(prev, prevDefs);
    var (n, nd) := Resolved(next, nextDefs);
    errors := ResolvedErrors(o, od, n, nd, path);
    NothingReported(errors);
  }

  method ResolvedErrors(o: Schema, od: Definitions, n: Schema, nd: Definitions, path: string) returns (errors: seq<Problem>)
    requires o.Keywords? && n.Keywords?
    ensures Reported(errors) == ResolvedProblems(o, od, n, nd, path)
    decreases |od|, o, 2
  {
    var local := LocalErrors(o, n, path);
    var properties := PropertyErrors(o, od, n, nd, path);
    var items := ItemErrors(o, od, n, nd, path);
    var any: seq<Problem>, one: seq<Problem> := [], [];
    if o.anyOf.Listed? && n.anyOf.Listed? {
      any := VariantErrors(o, o.anyOf.schemas, od, n.anyOf.schemas, nd, path, "anyOf");
    }
    if o.oneOf.Listed? && n.oneOf.Listed? {
      one := VariantErrors(o, o.oneOf.schemas, od, n.oneOf.schemas, nd, path, "oneOf");
    }
    errors := local + properties + items + any + one + [];
    ReportedAll(local, properties, items, any, one, []);
    PutTogether(o, od, n, nd, path, Reported(local), Reported(properties), Reported(items), Reported(any), Reported(one));
  }

  lemma {:induction false} PutTogether(o: Schema, od: Definitions, n: Schema, nd: Definitions, path: string,
                    local: set<Problem>, properties: set<Problem>, items: set<Problem>, any: set<Problem>, one: set<Problem>)
    requires o.Keywords? && n.Keywords?
    requires local == LocalProblems(o, n, path)
    requires properties == PropertyProblems(o, od, n, nd, path)
    requires items == ItemProblems(o, od, n, nd, path)
    requires any == if o.anyOf.Listed? && n.anyOf.Listed? then VariantProblems(o, o.anyOf.schemas, od, n.anyOf.schemas, nd, path, "anyOf") else {}
    requires one == if o.oneOf.Listed? && n.oneOf.Listed? then VariantProblems(o, o.oneOf.schemas, od, n.oneOf.schemas, nd, path, "oneOf") else {}
    ensures local + properties + items + any + one + {} == ResolvedProblems(o, od, n, nd, path)
  {
  }

  method ItemErrors(o: Schema, od: Definitions, n: Schema, nd: Definitions, path: string) returns (errors: seq<Problem>)
    requires o.Keywords? && n.Keywords?
    ensures Reported(errors) == ItemProblems(o, od, n, nd, path)
    decreases |od|, o, 1
  {
    errors := [];
    if o.items.Some? && n.items.Some? && o.items.value.Keywords? && n.items.value.Keywords? {
      errors := CompatibilityErrors(o.items.value, od, n.items.value, nd, path + "[]");
    }
  }

  ghost function PropertiesAmong(o: Schema, od: Definitions, n: Schema, nd: Definitions, path: string, names: set<string>): set<Problem>
    requires o.Keywords? && n.Keywords?
  {
    set name, p | name in names && name in o.properties && name in n.properties && p in PropertyProblem(o, od, n, nd, path, name) :: p
  }

  lemma {:induction false} PropertyStep(o: Schema, od: Definitions, n: Schema, nd: Definitions, path: string, done: set<string>, name: string)
    requires o.Keywords? && n.Keywords? && name in o.properties && name in n.properties
    ensures PropertiesAmong(o, od, n, nd, path, done + {name})
         == PropertiesAmong(o, od, n, nd, path, done) + PropertyProblem(o, od, n, nd, path, name)
  {
  }

  method PropertyErrors(o: Schema, od: Definitions, n: Schema, nd: Definitions, path: string) returns (errors: seq<Problem>)
    requires o.Keywords? && n.Keywords?
    ensures Reported(errors) == PropertyProblems(o, od, n, nd, path)
    decreases |od|, o, 1
  {
    errors := [];
    var todo := o.properties.Keys * n.properties.Keys;
    ghost var done := {};
    while todo != {}
      invariant todo + done == o.properties.Keys * n.properties.Keys
      invariant Reported(errors) == PropertiesAmong(o, od, n, nd, path, done)
      decreases |todo|
    {
      var name :| name in todo;
      PropertyStep(o, od, n, nd, path, done, name);
      var more := PropertyError(o, od, n, nd, path, name);
      ReportedConcat(errors, more);
      errors := errors + more;
      todo, done := todo - {name}, done + {name};
    }
    assert PropertiesAmong(o, od, n, nd, path, done) == PropertyProblems(o, od, n, nd, path);
  }

  method PropertyError(o: Schema, od: Definitions, n: Schema, nd: Definitions, path: string, name: string) returns (errors: seq<Problem>)
    requires o.Keywords? && n.Keywords? && name in o.properties && name in n.properties
    ensures Reported(errors) == PropertyProblem(o, od, n, nd, path, name)
    decreases |od|, o, 0
  {
    errors := [];
    if o.properties[name].Keywords? && n.properties[name].Keywords? {
      errors := CompatibilityErrors(o.properties[name], od, n.properties[name], nd, path + "." + name);
    }
  }

  method VariantErrors(parent: Schema, olds: seq<Schema>, od: Definitions, news: seq<Schema>, nd: Definitions, path: string, keyword: string)
    returns (errors: seq<Problem>)
    requires parent.Keywords? && (parent.anyOf == Listed(olds) || parent.oneOf == Listed(olds))
    ensures Reported(errors) == VariantProblems(parent, olds, od, news, nd, path, keyword)
    decreases |od|, parent, 1
  {
    errors := [];
    for i := 0 to |olds|
      invariant Reported(errors) == VariantsLost(parent, olds, od, news, nd, path, keyword, i)
    {
      var kept := IsKept(parent, olds, od, news, nd, path, keyword, i);
      VariantStep(parent, olds, od, news, nd, path, keyword, i);
      errors := Note(errors, !kept, path, "removed or narrowed " + keyword + " variant " + Decimal(i));
    }
    assert VariantsLost(parent, olds, od, news, nd, path, keyword, |olds|) == VariantProblems(parent, olds, od, news, nd, path, keyword);
  }

  ghost function VariantsLost(parent: Schema, olds: seq<Schema>, od: Definitions, news: seq<Schema>, nd: Definitions, path: string, keyword: string, n: nat): set<Problem>
    requires parent.Keywords? && (parent.anyOf == Listed(olds) || parent.oneOf == Listed(olds)) && n <= |olds|
  {
    set i: nat | i < n && !Kept(parent, olds, od, news, nd, path, keyword, i) :: LostVariant(path, keyword, i)
  }

  lemma {:induction false} VariantStep(parent: Schema, olds: seq<Schema>, od: Definitions, news: seq<Schema>, nd: Definitions, path: string, keyword: string, n: nat)
    requires parent.Keywords? && (parent.anyOf == Listed(olds) || parent.oneOf == Listed(olds)) && n < |olds|
    ensures VariantsLost(parent, olds, od, news, nd, path, keyword, n + 1)
         == VariantsLost(parent, olds, od, news, nd, path, keyword, n)
            + When(!Kept(parent, olds, od, news, nd, path, keyword, n), path, "removed or narrowed " + keyword + " variant " + Decimal(n))
  {
    var all := VariantsLost(parent, olds, od, news, nd, path, keyword, n + 1);
    assert !Kept(parent, olds, od, news, nd, path, keyword, n) ==> LostVariant(path, keyword, n) in all;
  }

  method IsKept(parent: Schema, olds: seq<Schema>, od: Definitions, news: seq<Schema>, nd: Definitions, path: string, keyword: string, i: nat)
    returns (kept: bool)
    requires parent.Keywords? && (parent.anyOf == Listed(olds) || parent.oneOf == Listed(olds)) && i < |olds|
    ensures kept == Kept(parent, olds, od, news, nd, path, keyword, i)
    decreases |od|, parent, 0
  {
    if olds[i].Boolean? {
      return true;
    }
    var found := FindFit(olds[i], od, news, nd, path + "." + keyword);
    return found;
  }

  /** Whether some new variant takes over an old one. */
  method FindFit(variant: Schema, od: Definitions, news: seq<Schema>, nd: Definitions, path: string) returns (found: bool)
    requires variant.Keywords?
    ensures found == exists j :: 0 <= j < |news| && Fits(variant, od, news[j], nd, path)
    decreases |od|, variant, 5
  {
    for j := 0 to |news|
      invariant forall k | 0 <= k < j :: !Fits(variant, od, news[k], nd, path)
    {
      var fits := TestFit(variant, od, news[j], nd, path);
      if fits {
        return true;
      }
    }
    return false;
  }

  method TestFit(variant: Schema, od: Definitions, candidate: Schema, nd: Definitions, path: string) returns (fits: bool)
    requires variant.Keywords?
    ensures fits == Fits(variant, od, candidate, nd, path)
    decreases |od|, variant, 4
  {
    if candidate.Boolean? {
      return false;
    }
    var errors := CompatibilityErrors(variant, od, candidate, nd, path);
    return errors == [];
  }
}
