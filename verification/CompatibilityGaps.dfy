/** Why the soundness of the check needs each of its conditions: schemas without problems
    whose documents do not stay valid. */
module CompatibilityGaps {
  import opened Options
  import opened Schemas
  import opened Compatibility
  import opened CompatibilitySound

  /** The check finds nothing, and yet this document is valid before and not after. */
  ghost predicate Breaks(m: Matchers, prev: Schema, pd: Definitions, next: Schema, nd: Definitions, doc: Json) {
    && prev.Keywords? && next.Keywords?
    && Problems(prev, pd, next, nd, "$") == {}
    && Valid(m, doc, prev, pd) && !Valid(m, doc, next, nd)
  }

  function TypeOnly(name: string): Schema {
    ANY.(types := Some({name}))
  }

  const ONE_NUMBER := Num(1.0)

  lemma {:induction false} NumberIsNoString(m: Matchers, defs: Definitions)
    ensures Valid(m, ONE_NUMBER, TypeOnly("integer"), defs) && !Valid(m, ONE_NUMBER, TypeOnly("string"), defs)
    ensures Valid(m, ONE_NUMBER, ANY, defs)
  {
    assert 1.0.Floor as real == 1.0;
    assert "integer" in TypesOf(ONE_NUMBER) && "integer" in {"integer"} * TypesOf(ONE_NUMBER);
    assert {"string"} * TypesOf(ONE_NUMBER) == {};
    assert !LocallyValid(m, ONE_NUMBER, TypeOnly("string"));
  }

  /** Without references and subschemas to compare, the local keywords decide. */
  lemma {:induction false} Flat(o: Schema, n: Schema)
    requires o.Keywords? && n.Keywords? && o.ref.None? && n.ref.None? && LocallyCompatible(o, n)
    requires forall name | name in o.properties && name in n.properties :: o.properties[name].Boolean? || n.properties[name].Boolean?
    requires o.items.None? || n.items.None?
    requires (o.anyOf.Unlisted? || n.anyOf.Unlisted?) && (o.oneOf.Unlisted? || n.oneOf.Unlisted?)
    ensures Problems(o, [], n, [], "$") == {}
  {
    assert forall name | name in o.properties && name in n.properties :: PropertyProblem(o, [], n, [], "$", name) == {};
    assert PropertyProblems(o, [], n, [], "$") == {};
    ProblemParts(o, [], n, [], "$");
  }

  lemma {:induction false} AnyAccepts(m: Matchers, doc: Json, defs: Definitions)
    ensures Valid(m, doc, ANY, defs)
  {
    assert LocallyValid(m, doc, ANY) && PropertiesValid(m, doc, ANY, defs);
  }

  lemma {:induction false} FailsLocally(m: Matchers, doc: Json, s: Schema, defs: Definitions)
    requires s.Keywords? && !LocallyValid(m, doc, s)
    ensures !Valid(m, doc, s, defs)
  {
  }

  lemma {:induction false} FailsAtProperty(m: Matchers, doc: Json, s: Schema, defs: Definitions, name: string)
    requires s.Keywords? && doc.Obj? && name in s.properties && name in doc.fields
    requires !Valid(m, doc.fields[name], s.properties[name], defs)
    ensures !Valid(m, doc, s, defs)
  {
    assert !PropertiesValid(m, doc, s, defs);
  }

  /** A null const reads like an absent one. */
  lemma {:induction false} NullConstUnnoticed(m: Matchers)
    ensures Breaks(m, ANY, [], ANY.(constant := Some(Null)), [], ONE_NUMBER)
  {
    var next := ANY.(constant := Some(Null));
    Flat(ANY, next);
    AnyAccepts(m, ONE_NUMBER, []);
    FailsLocally(m, ONE_NUMBER, next, []);
  }

  /** True counts as 1 among enum values. */
  lemma {:induction false} BooleanTakenForNumber(m: Matchers, prev: Schema, next: Schema)
    requires prev == ANY.(enum := Some([Bool(true)])) && next == ANY.(enum := Some([ONE_NUMBER]))
    ensures Breaks(m, prev, [], next, [], Bool(true))
  {
    TrueAmongNumbers();
    Flat(prev, next);
    OnlyEnum(m, Bool(true), [Bool(true)]);
    FailsLocally(m, Bool(true), next, []);
  }

  lemma {:induction false} TrueAmongNumbers()
    ensures PyIn(Bool(true), [ONE_NUMBER])
  {
    assert PyEqual(Bool(true), [ONE_NUMBER][0]);
  }

  lemma {:induction false} OnlyEnum(m: Matchers, doc: Json, values: seq<Json>)
    requires doc in values
    ensures Valid(m, doc, ANY.(enum := Some(values)), [])
  {
    var s := ANY.(enum := Some(values));
    assert LocallyValid(m, doc, s) && PropertiesValid(m, doc, s, []);
  }

  /** A property added to an open object constrains what used to be arbitrary. */
  lemma {:induction false} PropertyAddedToOpenObject(m: Matchers)
    ensures Breaks(m, ANY, [], ANY.(properties := map["a" := TypeOnly("string")]), [], Obj(map["a" := ONE_NUMBER]))
  {
    var next, doc := ANY.(properties := map["a" := TypeOnly("string")]), Obj(map["a" := ONE_NUMBER]);
    Flat(ANY, next);
    AnyAccepts(m, doc, []);
    NumberIsNoString(m, []);
    FailsAtProperty(m, doc, next, [], "a");
  }

  /** Items added where there were none are not compared with anything. */
  lemma {:induction false} ItemsAdded(m: Matchers)
    ensures Breaks(m, ANY, [], ANY.(items := Some(TypeOnly("string"))), [], Arr([ONE_NUMBER]))
  {
    var next, doc := ANY.(items := Some(TypeOnly("string"))), Arr([ONE_NUMBER]);
    ItemsAppear(next, TypeOnly("string"));
    AnyAccepts(m, doc, []);
    NumberIsNoString(m, []);
    FailsAtItem(m, doc, next, []);
  }

  lemma {:induction false} FailsAtItem(m: Matchers, doc: Json, s: Schema, defs: Definitions)
    requires s.Keywords? && s.items.Some? && doc.Arr? && doc.elements != [] && !Valid(m, doc.elements[0], s.items.value, defs)
    ensures !Valid(m, doc, s, defs)
  {
    assert !ItemsValid(m, doc, s, defs);
  }

  /** allOf is not looked at. */
  lemma {:induction false} AllOfIgnored(m: Matchers)
    ensures Breaks(m, ANY, [], ANY.(allOf := [TypeOnly("string")]), [], ONE_NUMBER)
  {
    var next := ANY.(allOf := [TypeOnly("string")]);
    Flat(ANY, next);
    AnyAccepts(m, ONE_NUMBER, []);
    NumberIsNoString(m, []);
    assert !Valid(m, ONE_NUMBER, next.allOf[0], []);
  }

  /** A schema for additional properties is not looked at. */
  lemma {:induction false} ShapedAdditionalIgnored(m: Matchers)
    ensures Breaks(m, ANY, [], ANY.(additional := Shaped(TypeOnly("string"))), [], Obj(map["a" := ONE_NUMBER]))
  {
    var next, doc := ANY.(additional := Shaped(TypeOnly("string"))), Obj(map["a" := ONE_NUMBER]);
    Flat(ANY, next);
    AnyAccepts(m, doc, []);
    NumberIsNoString(m, []);
    FailsAtAdditional(m, doc, next, [], "a");
  }

  lemma {:induction false} FailsAtAdditional(m: Matchers, doc: Json, s: Schema, defs: Definitions, name: string)
    requires s.Keywords? && s.additional.Shaped? && doc.Obj? && name in doc.fields && name !in s.properties
    requires !Valid(m, doc.fields[name], s.additional.schema, defs)
    ensures !Valid(m, doc, s, defs)
  {
    assert !PropertiesValid(m, doc, s, defs);
  }

  /** A property that is forbidden outright is not compared. */
  lemma {:induction false} ForbiddenPropertyUnnoticed(m: Matchers)
    ensures Breaks(m, ANY.(properties := map["a" := ANY]), [], ANY.(properties := map["a" := Boolean(false)]), [], Obj(map["a" := ONE_NUMBER]))
  {
    var prev, next, doc := ANY.(properties := map["a" := ANY]), ANY.(properties := map["a" := Boolean(false)]), Obj(map["a" := ONE_NUMBER]);
    Flat(prev, next);
    AnyProperty(m, doc, "a");
    FailsAtProperty(m, doc, next, [], "a");
  }

  lemma {:induction false} AnyProperty(m: Matchers, doc: Json, name: string)
    ensures Valid(m, doc, ANY.(properties := map[name := ANY]), [])
  {
    var s := ANY.(properties := map[name := ANY]);
    if doc.Obj? && name in doc.fields {
      AnyAccepts(m, doc.fields[name], []);
    }
    assert LocallyValid(m, doc, s);
    assert PropertiesValid(m, doc, s, []);
  }

  /** The keywords beside a reference are dropped by resolution. */
  lemma {:induction false} SiblingsOfReferenceIgnored(m: Matchers)
    ensures var defs: Definitions := [("A", ANY)];
            Breaks(m, ANY.(ref := Some("A")), defs, ANY.(ref := Some("A"), types := Some({"string"})), defs, ONE_NUMBER)
  {
    var defs: Definitions := [("A", ANY)];
    var prev, next := ANY.(ref := Some("A")), ANY.(ref := Some("A"), types := Some({"string"}));
    SameTarget(prev, next, defs);
    AnyAccepts(m, ONE_NUMBER, []);
    Through(m, ONE_NUMBER, "A", defs, ANY, []);
    assert {"string"} * TypesOf(ONE_NUMBER) == {};
    FailsLocally(m, ONE_NUMBER, next, defs);
  }

  lemma {:induction false} SameTarget(prev: Schema, next: Schema, defs: Definitions)
    requires prev.Keywords? && next.Keywords? && prev.ref == next.ref == Some("A") && defs == [("A", ANY)]
    ensures Problems(prev, defs, next, defs, "$") == {}
  {
    assert Resolved(prev, defs) == (ANY, []) && Resolved(next, defs) == (ANY, []) by {
      assert Find(defs, "A") == 0 && defs[..0] == [];
    }
    ResolvedReflexive(ANY, [], "$");
  }

  /** A reference to a reference is resolved one step only, to something without keywords. */
  lemma {:induction false} ReferenceToReferenceIgnored(m: Matchers)
    ensures var pd: Definitions := [("B", ANY), ("A", ANY.(ref := Some("B")))];
            var nd: Definitions := [("B", TypeOnly("string")), ("A", ANY.(ref := Some("B")))];
            Breaks(m, ANY.(ref := Some("A")), pd, ANY.(ref := Some("A")), nd, ONE_NUMBER)
  {
    var link, s := ANY.(ref := Some("B")), ANY.(ref := Some("A"));
    var pd0: Definitions, nd0: Definitions := [("B", ANY)], [("B", TypeOnly("string"))];
    var pd: Definitions, nd: Definitions := [("B", ANY), ("A", link)], [("B", TypeOnly("string")), ("A", link)];
    LinksLookAlike(pd0, nd0, pd, nd);
    AnyAccepts(m, ONE_NUMBER, []);
    NumberIsNoString(m, []);
    Through(m, ONE_NUMBER, "B", pd0, ANY, []);
    Through(m, ONE_NUMBER, "B", nd0, TypeOnly("string"), []);
    Through(m, ONE_NUMBER, "A", pd, link, pd0);
    Through(m, ONE_NUMBER, "A", nd, link, nd0);
  }

  lemma {:induction false} LinksLookAlike(pd0: Definitions, nd0: Definitions, pd: Definitions, nd: Definitions)
    requires pd == pd0 + [("A", ANY.(ref := Some("B")))] && nd == nd0 + [("A", ANY.(ref := Some("B")))]
    ensures Problems(ANY.(ref := Some("A")), pd, ANY.(ref := Some("A")), nd, "$") == {}
  {
    var link, s := ANY.(ref := Some("B")), ANY.(ref := Some("A"));
    assert Resolved(s, pd) == (link, pd0) && Resolved(s, nd) == (link, nd0) by {
      assert pd[..|pd0|] == pd0 && nd[..|nd0|] == nd0;
    }
    LocalReflexive(link);
    assert PropertyProblems(link, pd0, link, nd0, "$") == {};
    ProblemParts(link, pd0, link, nd0, "$");
  }

  /** A bare reference means its target. */
  lemma {:induction false} Through(m: Matchers, doc: Json, name: string, defs: Definitions, target: Schema, rest: Definitions)
    requires defs == rest + [(name, target)]
    ensures Valid(m, doc, ANY.(ref := Some(name)), defs) == Valid(m, doc, target, rest)
  {
    var s := ANY.(ref := Some(name));
    assert Find(defs, name) == |rest| && defs[..|rest|] == rest;
    assert LocallyValid(m, doc, s) && PropertiesValid(m, doc, s, defs);
    assert RefValid(m, doc, s, defs) == Valid(m, doc, target, rest);
  }

  /** Widened oneOf variants can overlap, and then none of them decides. */
  lemma {:induction false} WidenedOneOf(m: Matchers, prev: Schema, next: Schema)
    requires prev == ANY.(oneOf := Listed([TypeOnly("integer"), TypeOnly("string")]))
    requires next == ANY.(oneOf := Listed([TypeOnly("integer"), ANY.(types := Some({"string", "integer"}))]))
    ensures Breaks(m, prev, [], next, [], ONE_NUMBER)
  {
    var olds, news := [TypeOnly("integer"), TypeOnly("string")], [TypeOnly("integer"), ANY.(types := Some({"string", "integer"}))];
    OneOfNoProblems(olds, news);
    NumberIsNoString(m, []);
    WideAccepts(m);
    OneAccepts(m, ONE_NUMBER, olds);
    BothAccept(m, ONE_NUMBER, news);
  }

  lemma {:induction false} WideAccepts(m: Matchers)
    ensures Valid(m, ONE_NUMBER, ANY.(types := Some({"string", "integer"})), [])
  {
    var wide := ANY.(types := Some({"string", "integer"}));
    assert 1.0.Floor as real == 1.0;
    assert "integer" in {"string", "integer"} * TypesOf(ONE_NUMBER);
    assert LocallyValid(m, ONE_NUMBER, wide) && PropertiesValid(m, ONE_NUMBER, wide, []);
  }

  lemma {:induction false} OneAccepts(m: Matchers, doc: Json, variants: seq<Schema>)
    requires |variants| == 2 && Valid(m, doc, variants[0], []) && !Valid(m, doc, variants[1], [])
    ensures Valid(m, doc, ANY.(oneOf := Listed(variants)), [])
  {
    var s := ANY.(oneOf := Listed(variants));
    assert LocallyValid(m, doc, s) && PropertiesValid(m, doc, s, []);
    assert OnlyVariant(m, doc, s, [], 0);
    assert CombinedValid(m, doc, s, []);
  }

  lemma {:induction false} BothAccept(m: Matchers, doc: Json, variants: seq<Schema>)
    requires |variants| == 2 && Valid(m, doc, variants[0], []) && Valid(m, doc, variants[1], [])
    ensures !Valid(m, doc, ANY.(oneOf := Listed(variants)), [])
  {
    var s := ANY.(oneOf := Listed(variants));
    assert forall i: nat | i < |variants| :: !OnlyVariant(m, doc, s, [], i);
    assert !CombinedValid(m, doc, s, []);
  }

  lemma {:induction false} BothKept(prev: Schema, olds: seq<Schema>, news: seq<Schema>)
    requires prev == ANY.(oneOf := Listed(olds)) && |olds| == |news| == 2 && olds[0].Keywords? && olds[1].Keywords?
    requires Fits(olds[0], [], news[0], [], "$" + "." + "oneOf") && Fits(olds[1], [], news[1], [], "$" + "." + "oneOf")
    ensures VariantProblems(prev, olds, [], news, [], "$", "oneOf") == {}
  {
    forall i: nat | i < |olds| ensures Kept(prev, olds, [], news, [], "$", "oneOf", i) {
      assert Fits(olds[i], [], news[i], [], "$" + "." + "oneOf");
    }
  }

  lemma {:induction false} OneOfNoProblems(olds: seq<Schema>, news: seq<Schema>)
    requires olds == [TypeOnly("integer"), TypeOnly("string")]
    requires news == [TypeOnly("integer"), ANY.(types := Some({"string", "integer"}))]
    ensures Problems(ANY.(oneOf := Listed(olds)), [], ANY.(oneOf := Listed(news)), [], "$") == {}
  {
    TypesFit(olds[0], news[0], "$" + "." + "oneOf");
    TypesFit(olds[1], news[1], "$" + "." + "oneOf");
    OneOfKept(olds, news);
  }

  lemma {:induction false} OneOfKept(olds: seq<Schema>, news: seq<Schema>)
    requires |olds| == |news| == 2 && olds[0].Keywords? && olds[1].Keywords?
    requires Fits(olds[0], [], news[0], [], "$" + "." + "oneOf") && Fits(olds[1], [], news[1], [], "$" + "." + "oneOf")
    ensures Problems(ANY.(oneOf := Listed(olds)), [], ANY.(oneOf := Listed(news)), [], "$") == {}
  {
    var prev, next := ANY.(oneOf := Listed(olds)), ANY.(oneOf := Listed(news));
    BothKept(prev, olds, news);
    ProblemParts(prev, [], next, [], "$");
  }

  lemma {:induction false} TypesFit(a: Schema, b: Schema, path: string)
    requires a.Keywords? && b.Keywords? && a == ANY.(types := a.types) && b == ANY.(types := b.types)
    requires a.types.Some? && b.types.Some? && a.types.value <= b.types.value
    ensures Fits(a, [], b, [], path)
  {
    assert PropertyProblems(a, [], b, [], path) == {};
    ProblemParts(a, [], b, [], path);
  }

  /** True counts as 1 for const as well. */
  lemma {:induction false} ConstTrueTakenForOne(m: Matchers)
    ensures Breaks(m, ANY.(constant := Some(Bool(true))), [], ANY.(constant := Some(ONE_NUMBER)), [], Bool(true))
  {
    var prev, next := ANY.(constant := Some(Bool(true))), ANY.(constant := Some(ONE_NUMBER));
    Flat(prev, next);
    OnlyConst(m, Bool(true));
    FailsLocally(m, Bool(true), next, []);
  }

  lemma {:induction false} OnlyConst(m: Matchers, doc: Json)
    ensures Valid(m, doc, ANY.(constant := Some(doc)), [])
  {
    var s := ANY.(constant := Some(doc));
    assert LocallyValid(m, doc, s) && PropertiesValid(m, doc, s, []);
  }

  /** A subschema for property a that accepts one number. */
  lemma {:induction false} OnlyProperty(m: Matchers, sub: Schema)
    requires Valid(m, ONE_NUMBER, sub, [])
    ensures Valid(m, Obj(map["a" := ONE_NUMBER]), ANY.(properties := map["a" := sub]), [])
  {
    var s, doc := ANY.(properties := map["a" := sub]), Obj(map["a" := ONE_NUMBER]);
    assert LocallyValid(m, doc, s) && PropertiesValid(m, doc, s, []);
  }

  /** A property schema that is or becomes a boolean is not compared. */
  lemma {:induction false} BooleanPropertyIgnored(m: Matchers, sub: Schema, sub': Schema)
    requires (sub.Boolean? || sub'.Boolean?) && Valid(m, ONE_NUMBER, sub, []) && !Valid(m, ONE_NUMBER, sub', [])
    ensures Breaks(m, ANY.(properties := map["a" := sub]), [], ANY.(properties := map["a" := sub']), [], Obj(map["a" := ONE_NUMBER]))
  {
    var prev, next := ANY.(properties := map["a" := sub]), ANY.(properties := map["a" := sub']);
    PropertyNotCompared(prev, next, sub, sub');
    OnlyProperty(m, sub);
    FailsAtProperty(m, Obj(map["a" := ONE_NUMBER]), next, [], "a");
  }

  lemma {:induction false} PropertyNotCompared(prev: Schema, next: Schema, sub: Schema, sub': Schema)
    requires prev == ANY.(properties := map["a" := sub]) && next == ANY.(properties := map["a" := sub']) && (sub.Boolean? || sub'.Boolean?)
    ensures Problems(prev, [], next, [], "$") == {}
  {
    Flat(prev, next);
  }

  /** Neither are items. */
  lemma {:induction false} BooleanItemsIgnored(m: Matchers, sub: Schema, sub': Schema)
    requires (sub.Boolean? || sub'.Boolean?) && Valid(m, ONE_NUMBER, sub, []) && !Valid(m, ONE_NUMBER, sub', [])
    ensures Breaks(m, ANY.(items := Some(sub)), [], ANY.(items := Some(sub')), [], Arr([ONE_NUMBER]))
  {
    ItemsNotCompared(sub, sub');
    OnlyItems(m, sub);
    FailsAtItem(m, Arr([ONE_NUMBER]), ANY.(items := Some(sub')), []);
  }

  lemma {:induction false} ItemsNotCompared(sub: Schema, sub': Schema)
    requires sub.Boolean? || sub'.Boolean?
    ensures Problems(ANY.(items := Some(sub)), [], ANY.(items := Some(sub')), [], "$") == {}
  {
    var prev, next := ANY.(items := Some(sub)), ANY.(items := Some(sub'));
    assert PropertyProblems(prev, [], next, [], "$") == {};
    ProblemParts(prev, [], next, [], "$");
  }

  lemma {:induction false} OnlyItems(m: Matchers, sub: Schema)
    requires Valid(m, ONE_NUMBER, sub, [])
    ensures Valid(m, Arr([ONE_NUMBER]), ANY.(items := Some(sub)), [])
  {
    var s, doc := ANY.(items := Some(sub)), Arr([ONE_NUMBER]);
    assert LocallyValid(m, doc, s) && ItemsValid(m, doc, s, []);
  }

  /** An anyOf variant that is a boolean needs no successor. */
  lemma {:induction false} BooleanVariantIgnored(m: Matchers, prev: Schema, next: Schema)
    requires prev == ANY.(anyOf := Listed([Boolean(true)])) && next == ANY.(anyOf := Listed([TypeOnly("string")]))
    ensures Breaks(m, prev, [], next, [], ONE_NUMBER)
  {
    var olds, news := [Boolean(true)], [TypeOnly("string")];
    NoVariantProblems(prev, next, olds, news);
    AnyOfAccepts(m, ONE_NUMBER, olds);
    NumberIsNoString(m, []);
    AnyOfRejects(m, ONE_NUMBER, news);
  }

  lemma {:induction false} AnyOfAccepts(m: Matchers, doc: Json, variants: seq<Schema>)
    requires variants != [] && Valid(m, doc, variants[0], [])
    ensures Valid(m, doc, ANY.(anyOf := Listed(variants)), [])
  {
    var s := ANY.(anyOf := Listed(variants));
    assert LocallyValid(m, doc, s) && PropertiesValid(m, doc, s, []) && CombinedValid(m, doc, s, []);
  }

  lemma {:induction false} AnyOfRejects(m: Matchers, doc: Json, variants: seq<Schema>)
    requires forall i | 0 <= i < |variants| :: !Valid(m, doc, variants[i], [])
    ensures !Valid(m, doc, ANY.(anyOf := Listed(variants)), [])
  {
    assert !CombinedValid(m, doc, ANY.(anyOf := Listed(variants)), []);
  }

  lemma {:induction false} NoVariantProblems(prev: Schema, next: Schema, olds: seq<Schema>, news: seq<Schema>)
    requires prev == ANY.(anyOf := Listed(olds)) && next == ANY.(anyOf := Listed(news)) && forall i | 0 <= i < |olds| :: olds[i].Boolean?
    ensures Problems(prev, [], next, [], "$") == {}
  {
    assert forall i: nat | i < |olds| :: Kept(prev, olds, [], news, [], "$", "anyOf", i);
    assert LocallyCompatible(prev, next) && PropertyProblems(prev, [], next, [], "$") == {};
    ProblemParts(prev, [], next, [], "$");
  }

  /** A reference that leads nowhere, or to a boolean, is compared as if it were not there. */
  lemma {:induction false} DanglingReferenceIgnored(m: Matchers, nd: Definitions)
    requires nd == [] || nd == [("A", Boolean(false))]
    ensures Breaks(m, ANY, [], ANY.(ref := Some("A")), nd, ONE_NUMBER)
  {
    var next := ANY.(ref := Some("A"));
    UnresolvedUnnoticed(next, nd);
    AnyAccepts(m, ONE_NUMBER, []);
    assert !RefValid(m, ONE_NUMBER, next, nd);
  }

  lemma {:induction false} UnresolvedUnnoticed(next: Schema, nd: Definitions)
    requires next == ANY.(ref := Some("A")) && Resolved(next, nd) == (next, nd)
    ensures Problems(ANY, [], next, nd, "$") == {}
  {
    assert PropertyProblems(ANY, [], next, nd, "$") == {};
    ProblemParts(ANY, [], next, nd, "$");
  }

  /** The relation is not transitive through a schema that drops a const: a null const after
      it goes unnoticed. */
  lemma {:induction false} MiddleHidesConst(a: Schema, b: Schema, c: Schema)
    requires a == ANY.(constant := Some(ONE_NUMBER)) && b == ANY && c == ANY.(constant := Some(Null))
    ensures NotTransitive(a, b, c)
  {
    assert LocallyCompatible(a, b) && LocallyCompatible(b, c);
    assert !LocallyCompatible(a, c) by {
      assert !PyEqual(OrNull(a.constant), OrNull(c.constant));
    }
    FlatChain(a, b, c);
  }

  /** Two steps without problems whose sum has some. */
  ghost predicate NotTransitive(a: Schema, b: Schema, c: Schema) {
    && a.Keywords? && b.Keywords? && c.Keywords?
    && Problems(a, [], b, [], "$") == {} && Problems(b, [], c, [], "$") == {} && Problems(a, [], c, [], "$") != {}
  }

  lemma {:induction false} IntegerIsNoString(path: string)
    ensures Problems(TypeOnly("integer"), [], TypeOnly("string"), [], path) != {}
  {
    var a, b := TypeOnly("integer"), TypeOnly("string");
    assert "integer" in a.types.value && "integer" !in b.types.value;
    ProblemParts(a, [], b, [], path);
  }

  /** Neither is it through a schema without items: integers, then anything, then strings. */
  lemma {:induction false} MiddleLacksItems(a: Schema, b: Schema, c: Schema)
    requires a == ANY.(items := Some(TypeOnly("integer"))) && b == ANY && c == ANY.(items := Some(TypeOnly("string")))
    ensures NotTransitive(a, b, c)
  {
    ItemsDropped(a, TypeOnly("integer"));
    ItemsAppear(c, TypeOnly("string"));
    IntegerIsNoString("$" + "[]");
    ItemsCompared(a, c, TypeOnly("integer"), TypeOnly("string"));
  }

  /** Nor through items of true. */
  lemma {:induction false} MiddleBooleanItems(a: Schema, b: Schema, c: Schema)
    requires a == ANY.(items := Some(TypeOnly("integer"))) && b == ANY.(items := Some(Boolean(true)))
    requires c == ANY.(items := Some(TypeOnly("string")))
    ensures NotTransitive(a, b, c)
  {
    ItemsNotCompared(TypeOnly("integer"), Boolean(true));
    ItemsNotCompared(Boolean(true), TypeOnly("string"));
    IntegerIsNoString("$" + "[]");
    ItemsCompared(a, c, TypeOnly("integer"), TypeOnly("string"));
  }

  lemma {:induction false} ItemsDropped(a: Schema, sub: Schema)
    requires a == ANY.(items := Some(sub))
    ensures Problems(a, [], ANY, [], "$") == {}
  {
    Flat(a, ANY);
  }

  lemma {:induction false} ItemsAppear(c: Schema, sub: Schema)
    requires c == ANY.(items := Some(sub))
    ensures Problems(ANY, [], c, [], "$") == {}
  {
    Flat(ANY, c);
  }

  lemma {:induction false} ItemsCompared(a: Schema, c: Schema, sub: Schema, sub': Schema)
    requires a.Keywords? && c.Keywords? && a.ref.None? && c.ref.None? && a.items == Some(sub) && c.items == Some(sub')
    requires sub.Keywords? && sub'.Keywords? && Problems(sub, [], sub', [], "$" + "[]") != {}
    ensures Problems(a, [], c, [], "$") != {}
  {
    ProblemParts(a, [], c, [], "$");
  }

  /** Nor through a property schema of true. */
  lemma {:induction false} MiddleBooleanProperty(a: Schema, b: Schema, c: Schema)
    requires a == ANY.(properties := map["a" := TypeOnly("integer")]) && b == ANY.(properties := map["a" := Boolean(true)])
    requires c == ANY.(properties := map["a" := TypeOnly("string")])
    ensures NotTransitive(a, b, c)
  {
    PropertyNotCompared(a, b, TypeOnly("integer"), Boolean(true));
    PropertyNotCompared(b, c, Boolean(true), TypeOnly("string"));
    IntegerIsNoString("$" + "." + "a");
    PropertyCompared(a, c, "a");
  }

  lemma {:induction false} PropertyCompared(a: Schema, c: Schema, name: string)
    requires a.Keywords? && c.Keywords? && a.ref.None? && c.ref.None? && name in a.properties && name in c.properties
    requires PropertyProblem(a, [], c, [], "$", name) != {}
    ensures Problems(a, [], c, [], "$") != {}
  {
    var p :| p in PropertyProblem(a, [], c, [], "$", name);
    assert p in PropertyProblems(a, [], c, [], "$");
    ProblemParts(a, [], c, [], "$");
  }

  lemma {:induction false} FlatChain(a: Schema, b: Schema, c: Schema)
    requires IsFlat(a) && IsFlat(b) && IsFlat(c)
    requires LocallyCompatible(a, b) && LocallyCompatible(b, c) && !LocallyCompatible(a, c)
    ensures NotTransitive(a, b, c)
  {
    Flat(a, b);
    Flat(b, c);
    NotFlat(a, c);
  }

  ghost predicate IsFlat(s: Schema) {
    s.Keywords? && s.ref.None? && s.properties == map[] && s.items.None? && s.anyOf.Unlisted? && s.oneOf.Unlisted?
  }

  lemma {:induction false} NotFlat(o: Schema, n: Schema)
    requires o.Keywords? && n.Keywords? && o.ref.None? && n.ref.None? && !LocallyCompatible(o, n)
    ensures Problems(o, [], n, [], "$") != {}
  {
    ProblemParts(o, [], n, [], "$");
  }
}
