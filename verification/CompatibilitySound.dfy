/** What an empty list of problems means for documents. */
module CompatibilitySound {
  import opened Options
  import opened Schemas
  import opened Compatibility

  // ----- the schemas the check is sound for

  /** A new reference stands alone, and its target is an object of keywords that is not itself a
      reference: one step of resolution reaches the meaning. */
  ghost predicate Plain(s: Schema, defs: Definitions)
    requires s.Keywords?
  {
    s.ref.Some? ==>
      && s == ANY.(ref := s.ref)
      && var k := Find(defs, s.ref.value);
         k < |defs| && defs[k].1.Keywords? && defs[k].1.ref.None?
  }

  /** Conditions on two resolved schemas that the check leaves to its users. */
  ghost predicate LocalCase(o: Schema, n: Schema)
    requires o.Keywords? && n.Keywords?
  {
    && n.allOf == [] && n.oneOf.Unlisted? && !n.additional.Shaped?
    && (o.additional == Flag(false) || n.properties.Keys <= o.properties.Keys)
    && (n.items.Some? ==> o.items.Some? || n.items.value == Boolean(true))
    && (n.constant == Some(Null) ==> o.constant.Some?)
    && (o.constant.Some? && n.constant.Some? && PyEqual(o.constant.value, n.constant.value) ==> o.constant == n.constant)
    && (o.enum.Some? && n.enum.Some? ==> Unambiguous(o.enum.value, n.enum.value))
    && (o.anyOf.Listed? && n.anyOf.Listed? && Boolean(true) in o.anyOf.schemas ==> Boolean(true) in n.anyOf.schemas)
  }

  /** Python's equality agrees with JSON's on these values. */
  ghost predicate Unambiguous(a: seq<Json>, b: seq<Json>) {
    forall i, j | 0 <= i < |a| && 0 <= j < |b| && PyEqual(a[i], b[j]) :: a[i] == b[j]
  }

  ghost predicate Comparable(prev: Schema, pd: Definitions, next: Schema, nd: Definitions)
    requires prev.Keywords? && next.Keywords?
    decreases |pd|, prev, 2
  {
    && Plain(next, nd)
    && ResolvedComparable(Resolved(prev, pd).0, Resolved(prev, pd).1, Resolved(next, nd).0, Resolved(next, nd).1)
  }

  ghost predicate ResolvedComparable(o: Schema, od: Definitions, n: Schema, nd: Definitions)
    requires o.Keywords? && n.Keywords?
    decreases |od|, o, 1
  {
    && LocalCase(o, n)
    && (forall name | name in o.properties && name in n.properties ::
          SubComparable(o, o.properties[name], od, n.properties[name], nd))
    && (o.items.Some? && n.items.Some? ==> SubComparable(o, o.items.value, od, n.items.value, nd))
    && (o.anyOf.Listed? && n.anyOf.Listed? ==>
          forall i, j | 0 <= i < |o.anyOf.schemas| && 0 <= j < |n.anyOf.schemas| && o.anyOf.schemas[i].Keywords? && n.anyOf.schemas[j].Keywords? ::
            Comparable(o.anyOf.schemas[i], od, n.anyOf.schemas[j], nd))
  }

  ghost predicate SubComparable(parent: Schema, a: Schema, ad: Definitions, b: Schema, bd: Definitions)
    requires parent.Keywords? && (a in parent.properties.Values || parent.items == Some(a))
    decreases |ad|, parent, 0
  {
    b == Boolean(true) || a == Boolean(false) || (a.Keywords? && b.Keywords? && Comparable(a, ad, b, bd))
  }

  // ----- local keywords

  lemma {:induction false} LimitMonotone(doc: Json, k: string, v: real, w: real)
    requires LimitOk(doc, k, v) && (k in LOWER ==> w <= v) && (k in UPPER ==> w >= v) && (k in LOWER || k in UPPER)
    ensures LimitOk(doc, k, w)
  {
  }

  /** What the absence of local problems says. */
  ghost predicate LocallyCompatible(o: Schema, n: Schema)
    requires o.Keywords? && n.Keywords?
  {
    && n.required <= o.required && o.properties.Keys <= n.properties.Keys
    && (n.enum.Some? ==> o.enum.Some? && forall i | 0 <= i < |o.enum.value| :: PyIn(o.enum.value[i], n.enum.value))
    && (n.types.Some? ==> o.types.Some? && o.types.value <= n.types.value)
    && (n.pattern.Some? ==> o.pattern == n.pattern)
    && (n.format.Some? ==> o.format == n.format)
    && (n.constant.Some? ==> PyEqual(OrNull(o.constant), OrNull(n.constant)))
    && (forall k | k in n.limits && k in LOWER :: k in o.limits && n.limits[k] <= o.limits[k])
    && (forall k | k in n.limits && k in UPPER :: k in o.limits && n.limits[k] >= o.limits[k])
    && (n.additional == Flag(false) ==> o.additional == Flag(false))
    && (n.uniqueItems ==> o.uniqueItems)
    && (n.anyOf.Listed? ==> o.anyOf.Listed?)
    && (n.oneOf.Listed? ==> o.oneOf.Listed?)
  }

  lemma {:induction false} LocalFacts(o: Schema, n: Schema, path: string)
    requires o.Keywords? && n.Keywords?
    ensures LocalProblems(o, n, path) == {} <==> LocallyCompatible(o, n)
  {
    var all := LocalProblems(o, n, path);
    if all == {} {
      assert forall k | k in n.limits && (k in LOWER || k in UPPER) :: Problem(path, "tightened " + k) !in all;
      NoneWhen(o, n, path);
    }
  }

  lemma {:induction false} NoneWhen(o: Schema, n: Schema, path: string)
    requires o.Keywords? && n.Keywords? && LocalProblems(o, n, path) == {}
    ensures n.required <= o.required && o.properties.Keys <= n.properties.Keys
    ensures n.enum.Some? ==> o.enum.Some?
    ensures n.types.Some? ==> o.types.Some? && o.types.value <= n.types.value
    ensures n.additional == Flag(false) ==> o.additional == Flag(false)
  {
    var all := LocalProblems(o, n, path);
    assert Problem(path, "new required properties") !in all;
    assert Problem(path, "removed properties") !in all;
  }

  lemma {:induction false} LimitsSound(doc: Json, o: Schema, n: Schema, k: string)
    requires o.Keywords? && n.Keywords? && LocallyCompatible(o, n)
    requires forall k | k in o.limits :: LimitOk(doc, k, o.limits[k])
    requires k in n.limits
    ensures LimitOk(doc, k, n.limits[k])
  {
    if k in LOWER || k in UPPER {
      LimitMonotone(doc, k, o.limits[k], n.limits[k]);
    }
  }

  lemma {:induction false} EnumSound(doc: Json, a: seq<Json>, b: seq<Json>)
    requires doc in a && Unambiguous(a, b) && forall i | 0 <= i < |a| :: PyIn(a[i], b)
    ensures doc in b
  {
    var i :| 0 <= i < |a| && a[i] == doc;
    var j :| 0 <= j < |b| && PyEqual(a[i], b[j]);
  }

  lemma {:induction false} LocalSound(m: Matchers, doc: Json, o: Schema, n: Schema)
    requires o.Keywords? && n.Keywords? && LocallyCompatible(o, n) && LocalCase(o, n)
    requires LocallyValid(m, doc, o)
    ensures LocallyValid(m, doc, n)
  {
    forall k | k in n.limits ensures LimitOk(doc, k, n.limits[k]) {
      LimitsSound(doc, o, n, k);
    }
    if n.enum.Some? {
      EnumSound(doc, o.enum.value, n.enum.value);
    }
    if n.types.Some? {
      var t :| t in o.types.value * TypesOf(doc);
      assert t in n.types.value * TypesOf(doc);
    }
  }

  // ----- subschemas

  lemma {:induction false} PlainValid(m: Matchers, doc: Json, s: Schema, defs: Definitions)
    requires s.Keywords? && Plain(s, defs)
    ensures Valid(m, doc, s, defs) <==> Valid(m, doc, Resolved(s, defs).0, Resolved(s, defs).1)
    ensures Resolved(s, defs).0.ref.None?
  {
    if s.ref.Some? {
      assert LocallyValid(m, doc, s) && PropertiesValid(m, doc, s, defs) && ItemsValid(m, doc, s, defs) && CombinedValid(m, doc, s, defs);
    }
  }

  /** Whatever a schema accepts, its resolution accepts. */
  lemma {:induction false} ResolvedAccepts(m: Matchers, doc: Json, s: Schema, defs: Definitions)
    requires s.Keywords? && Valid(m, doc, s, defs)
    ensures Valid(m, doc, Resolved(s, defs).0, Resolved(s, defs).1)
  {
    assert RefValid(m, doc, s, defs);
  }

  lemma {:induction false} ProblemParts(o: Schema, od: Definitions, n: Schema, nd: Definitions, path: string)
    requires o.Keywords? && n.Keywords?
    ensures ResolvedProblems(o, od, n, nd, path) == {} <==>
            && LocallyCompatible(o, n)
            && PropertyProblems(o, od, n, nd, path) == {} && ItemProblems(o, od, n, nd, path) == {}
            && (o.anyOf.Listed? && n.anyOf.Listed? ==> VariantProblems(o, o.anyOf.schemas, od, n.anyOf.schemas, nd, path, "anyOf") == {})
            && (o.oneOf.Listed? && n.oneOf.Listed? ==> VariantProblems(o, o.oneOf.schemas, od, n.oneOf.schemas, nd, path, "oneOf") == {})
  {
    LocalFacts(o, n, path);
  }

  lemma {:induction false} MatchingVariant(parent: Schema, olds: seq<Schema>, od: Definitions, news: seq<Schema>, nd: Definitions, path: string, keyword: string, i: nat)
    returns (j: nat)
    requires parent.Keywords? && (parent.anyOf == Listed(olds) || parent.oneOf == Listed(olds))
    requires VariantProblems(parent, olds, od, news, nd, path, keyword) == {} && i < |olds| && olds[i].Keywords?
    ensures j < |news| && news[j].Keywords? && Problems(olds[i], od, news[j], nd, path + "." + keyword) == {}
  {
    assert LostVariant(path, keyword, i) !in VariantProblems(parent, olds, od, news, nd, path, keyword);
    assert Kept(parent, olds, od, news, nd, path, keyword, i);
    j :| 0 <= j < |news| && news[j].Keywords? && Problems(olds[i], od, news[j], nd, path + "." + keyword) == {};
  }

  /** No problems: every document that was valid still is. */
  lemma {:induction false} Sound(m: Matchers, doc: Json, prev: Schema, pd: Definitions, next: Schema, nd: Definitions, path: string)
    requires prev.Keywords? && next.Keywords? && Comparable(prev, pd, next, nd)
    requires Problems(prev, pd, next, nd, path) == {}
    requires Valid(m, doc, prev, pd)
    ensures Valid(m, doc, next, nd)
    decreases |pd|, prev, 2
  {
    ResolvedAccepts(m, doc, prev, pd);
    PlainValid(m, doc, next, nd);
    ResolvedSound(m, doc, Resolved(prev, pd).0, Resolved(prev, pd).1, Resolved(next, nd).0, Resolved(next, nd).1, path);
  }

  lemma {:induction false} ResolvedSound(m: Matchers, doc: Json, o: Schema, od: Definitions, n: Schema, nd: Definitions, path: string)
    requires o.Keywords? && n.Keywords? && n.ref.None? && ResolvedComparable(o, od, n, nd)
    requires ResolvedProblems(o, od, n, nd, path) == {}
    requires Valid(m, doc, o, od)
    ensures Valid(m, doc, n, nd)
    decreases |od|, o, 1
  {
    ProblemParts(o, od, n, nd, path);
    LocalSound(m, doc, o, n);
    PropertiesSound(m, doc, o, od, n, nd, path);
    ItemsSound(m, doc, o, od, n, nd, path);
    if n.anyOf.Listed? {
      AnyOfSound(m, doc, o, od, n, nd, path);
    }
    Assemble(m, doc, n, nd);
  }

  lemma {:induction false} Assemble(m: Matchers, doc: Json, n: Schema, nd: Definitions)
    requires n.Keywords? && n.ref.None? && n.allOf == [] && n.oneOf.Unlisted?
    requires LocallyValid(m, doc, n) && PropertiesValid(m, doc, n, nd) && ItemsValid(m, doc, n, nd)
    requires n.anyOf.Listed? ==> exists j :: 0 <= j < |n.anyOf.schemas| && Valid(m, doc, n.anyOf.schemas[j], nd)
    ensures Valid(m, doc, n, nd)
  {
  }

  lemma {:induction false} PropertiesSound(m: Matchers, doc: Json, o: Schema, od: Definitions, n: Schema, nd: Definitions, path: string)
    requires o.Keywords? && n.Keywords? && ResolvedComparable(o, od, n, nd)
    requires PropertyProblems(o, od, n, nd, path) == {} && LocallyCompatible(o, n)
    requires LocallyValid(m, doc, o) && PropertiesValid(m, doc, o, od)
    ensures PropertiesValid(m, doc, n, nd)
    decreases |od|, o, 0
  {
    if doc.Obj? {
      forall name | name in n.properties && name in doc.fields ensures Valid(m, doc.fields[name], n.properties[name], nd) {
        assert name in o.properties;
        var a, b := o.properties[name], n.properties[name];
        assert SubComparable(o, a, od, b, nd);
        assert Valid(m, doc.fields[name], a, od);
        if b != Boolean(true) {
          assert forall p | p in PropertyProblem(o, od, n, nd, path, name) :: p in PropertyProblems(o, od, n, nd, path);
          Sound(m, doc.fields[name], a, od, b, nd, path + "." + name);
        }
      }
    }
  }

  lemma {:induction false} ItemsSound(m: Matchers, doc: Json, o: Schema, od: Definitions, n: Schema, nd: Definitions, path: string)
    requires o.Keywords? && n.Keywords? && ResolvedComparable(o, od, n, nd)
    requires ItemProblems(o, od, n, nd, path) == {}
    requires ItemsValid(m, doc, o, od)
    ensures ItemsValid(m, doc, n, nd)
    decreases |od|, o, 0
  {
    if n.items.Some? && doc.Arr? && n.items.value != Boolean(true) {
      forall i | 0 <= i < |doc.elements| ensures Valid(m, doc.elements[i], n.items.value, nd) {
        assert Valid(m, doc.elements[i], o.items.value, od);
        Sound(m, doc.elements[i], o.items.value, od, n.items.value, nd, path + "[]");
      }
    }
  }

  lemma {:induction false} AnyOfSound(m: Matchers, doc: Json, o: Schema, od: Definitions, n: Schema, nd: Definitions, path: string)
    requires o.Keywords? && n.Keywords? && ResolvedComparable(o, od, n, nd)
    requires o.anyOf.Listed? && n.anyOf.Listed? && VariantProblems(o, o.anyOf.schemas, od, n.anyOf.schemas, nd, path, "anyOf") == {}
    requires CombinedValid(m, doc, o, od)
    ensures exists j :: 0 <= j < |n.anyOf.schemas| && Valid(m, doc, n.anyOf.schemas[j], nd)
    decreases |od|, o, 0
  {
    var olds, news := o.anyOf.schemas, n.anyOf.schemas;
    var i :| 0 <= i < |olds| && Valid(m, doc, olds[i], od);
    if olds[i].Boolean? {
      assert olds[i] == Boolean(true);
      var j :| 0 <= j < |news| && news[j] == Boolean(true);
      assert Valid(m, doc, news[j], nd);
    } else {
      var j := MatchingVariant(o, olds, od, news, nd, path, "anyOf", i);
      assert Comparable(olds[i], od, news[j], nd);
      Sound(m, doc, olds[i], od, news[j], nd, path + "." + "anyOf");
    }
  }

  // ----- the relation itself

  /** A schema has no problems with itself, whatever keywords it uses. */
  lemma {:induction false} Reflexive(s: Schema, defs: Definitions, path: string)
    requires s.Keywords?
    ensures Problems(s, defs, s, defs, path) == {}
    decreases |defs|, s, 2
  {
    ResolvedReflexive(Resolved(s, defs).0, Resolved(s, defs).1, path);
  }

  lemma {:induction false} ResolvedReflexive(o: Schema, od: Definitions, path: string)
    requires o.Keywords?
    ensures ResolvedProblems(o, od, o, od, path) == {}
    decreases |od|, o, 1
  {
    LocalReflexive(o);
    forall name | name in o.properties ensures PropertyProblem(o, od, o, od, path, name) == {} {
      if o.properties[name].Keywords? {
        Reflexive(o.properties[name], od, path + "." + name);
      }
    }
    if o.items.Some? && o.items.value.Keywords? {
      Reflexive(o.items.value, od, path + "[]");
    }
    if o.anyOf.Listed? {
      VariantsReflexive(o, o.anyOf.schemas, od, path, "anyOf");
    }
    if o.oneOf.Listed? {
      VariantsReflexive(o, o.oneOf.schemas, od, path, "oneOf");
    }
    ProblemParts(o, od, o, od, path);
  }

  lemma {:induction false} VariantsReflexive(parent: Schema, olds: seq<Schema>, od: Definitions, path: string, keyword: string)
    requires parent.Keywords? && (parent.anyOf == Listed(olds) || parent.oneOf == Listed(olds))
    ensures VariantProblems(parent, olds, od, olds, od, path, keyword) == {}
    decreases |od|, parent, 0
  {
    forall i | 0 <= i < |olds| ensures Kept(parent, olds, od, olds, od, path, keyword, i) {
      if olds[i].Keywords? {
        Reflexive(olds[i], od, path + "." + keyword);
        assert Fits(olds[i], od, olds[i], od, path + "." + keyword);
      }
    }
  }

  lemma {:induction false} LocalReflexive(o: Schema)
    requires o.Keywords?
    ensures LocallyCompatible(o, o)
  {
    PyEqualReflexive(OrNull(o.constant));
    if o.enum.Some? {
      forall i | 0 <= i < |o.enum.value| ensures PyIn(o.enum.value[i], o.enum.value) {
        PyEqualReflexive(o.enum.value[i]);
      }
    }
  }

  /** What keeps the middle schema from hiding a constraint: it has items and object subschemas
      where the outer two do, and drops no const before a null one. */
  ghost predicate Chained(a: Schema, ad: Definitions, b: Schema, bd: Definitions, c: Schema, cd: Definitions)
    requires a.Keywords? && b.Keywords? && c.Keywords?
    decreases |ad|, a, 2
  {
    ResolvedChained(Resolved(a, ad).0, Resolved(a, ad).1, Resolved(b, bd).0, Resolved(b, bd).1, Resolved(c, cd).0, Resolved(c, cd).1)
  }

  ghost predicate ResolvedChained(a: Schema, ad: Definitions, b: Schema, bd: Definitions, c: Schema, cd: Definitions)
    requires a.Keywords? && b.Keywords? && c.Keywords?
    decreases |ad|, a, 1
  {
    && (c.constant == Some(Null) && b.constant.None? ==> OrNull(a.constant) == Null)
    && (forall name | name in a.properties && name in b.properties && name in c.properties
                      && a.properties[name].Keywords? && c.properties[name].Keywords? ::
          b.properties[name].Keywords? && Chained(a.properties[name], ad, b.properties[name], bd, c.properties[name], cd))
    && (a.items.Some? && a.items.value.Keywords? && c.items.Some? && c.items.value.Keywords? ==>
          b.items.Some? && b.items.value.Keywords? && Chained(a.items.value, ad, b.items.value, bd, c.items.value, cd))
    && (a.anyOf.Listed? && b.anyOf.Listed? && c.anyOf.Listed? ==> VariantsChained(a, a.anyOf.schemas, ad, b.anyOf.schemas, bd, c.anyOf.schemas, cd))
    && (a.oneOf.Listed? && b.oneOf.Listed? && c.oneOf.Listed? ==> VariantsChained(a, a.oneOf.schemas, ad, b.oneOf.schemas, bd, c.oneOf.schemas, cd))
  }

  ghost predicate VariantsChained(parent: Schema, xs: seq<Schema>, ad: Definitions, ys: seq<Schema>, bd: Definitions, zs: seq<Schema>, cd: Definitions)
    requires parent.Keywords? && (parent.anyOf == Listed(xs) || parent.oneOf == Listed(xs))
    decreases |ad|, parent, 0
  {
    forall i, j, k | 0 <= i < |xs| && 0 <= j < |ys| && 0 <= k < |zs| && xs[i].Keywords? && ys[j].Keywords? && zs[k].Keywords? ::
      Chained(xs[i], ad, ys[j], bd, zs[k], cd)
  }

  lemma {:induction false} LocalTransitive(a: Schema, b: Schema, c: Schema)
    requires a.Keywords? && b.Keywords? && c.Keywords? && LocallyCompatible(a, b) && LocallyCompatible(b, c)
    requires c.constant == Some(Null) && b.constant.None? ==> OrNull(a.constant) == Null
    ensures LocallyCompatible(a, c)
  {
    if c.constant.Some? {
      ConstTransitive(a, b, c);
    }
    if c.enum.Some? {
      forall i | 0 <= i < |a.enum.value| ensures PyIn(a.enum.value[i], c.enum.value) {
        var j :| 0 <= j < |b.enum.value| && PyEqual(a.enum.value[i], b.enum.value[j]);
        var k :| 0 <= k < |c.enum.value| && PyEqual(b.enum.value[j], c.enum.value[k]);
        PyEqualTransitive(a.enum.value[i], b.enum.value[j], c.enum.value[k]);
      }
    }
  }

  lemma {:induction false} ConstTransitive(a: Schema, b: Schema, c: Schema)
    requires a.Keywords? && b.Keywords? && c.Keywords? && LocallyCompatible(a, b) && LocallyCompatible(b, c)
    requires c.constant.Some? && (c.constant == Some(Null) && b.constant.None? ==> OrNull(a.constant) == Null)
    ensures PyEqual(OrNull(a.constant), OrNull(c.constant))
  {
    if b.constant.Some? {
      PyEqualTransitive(OrNull(a.constant), OrNull(b.constant), OrNull(c.constant));
    }
  }

  /** Two compatible steps make a compatible step, unless the middle schema hides something. */
  lemma {:induction false} Transitive(a: Schema, ad: Definitions, b: Schema, bd: Definitions, c: Schema, cd: Definitions, path: string)
    requires a.Keywords? && b.Keywords? && c.Keywords? && Chained(a, ad, b, bd, c, cd)
    requires Problems(a, ad, b, bd, path) == {} && Problems(b, bd, c, cd, path) == {}
    ensures Problems(a, ad, c, cd, path) == {}
    decreases |ad|, a, 2
  {
    ResolvedTransitive(Resolved(a, ad).0, Resolved(a, ad).1, Resolved(b, bd).0, Resolved(b, bd).1, Resolved(c, cd).0, Resolved(c, cd).1, path);
  }

  lemma {:induction false} ResolvedTransitive(a: Schema, ad: Definitions, b: Schema, bd: Definitions, c: Schema, cd: Definitions, path: string)
    requires a.Keywords? && b.Keywords? && c.Keywords? && ResolvedChained(a, ad, b, bd, c, cd)
    requires ResolvedProblems(a, ad, b, bd, path) == {} && ResolvedProblems(b, bd, c, cd, path) == {}
    ensures ResolvedProblems(a, ad, c, cd, path) == {}
    decreases |ad|, a, 1
  {
    ProblemParts(a, ad, b, bd, path);
    ProblemParts(b, bd, c, cd, path);
    LocalTransitive(a, b, c);
    PropertiesTransitive(a, ad, b, bd, c, cd, path);
    if a.items.Some? && a.items.value.Keywords? && c.items.Some? && c.items.value.Keywords? {
      Transitive(a.items.value, ad, b.items.value, bd, c.items.value, cd, path + "[]");
    }
    if a.anyOf.Listed? && c.anyOf.Listed? {
      VariantsTransitive(a, a.anyOf.schemas, ad, b, b.anyOf.schemas, bd, c.anyOf.schemas, cd, path, "anyOf");
    }
    if a.oneOf.Listed? && c.oneOf.Listed? {
      VariantsTransitive(a, a.oneOf.schemas, ad, b, b.oneOf.schemas, bd, c.oneOf.schemas, cd, path, "oneOf");
    }
    ProblemParts(a, ad, c, cd, path);
  }

  lemma {:induction false} PropertiesTransitive(a: Schema, ad: Definitions, b: Schema, bd: Definitions, c: Schema, cd: Definitions, path: string)
    requires a.Keywords? && b.Keywords? && c.Keywords? && ResolvedChained(a, ad, b, bd, c, cd)
    requires a.properties.Keys <= b.properties.Keys
    requires PropertyProblems(a, ad, b, bd, path) == {} && PropertyProblems(b, bd, c, cd, path) == {}
    ensures PropertyProblems(a, ad, c, cd, path) == {}
    decreases |ad|, a, 0, 1
  {
    forall name | name in a.properties && name in c.properties ensures PropertyProblem(a, ad, c, cd, path, name) == {} {
      PropertyTransitive(a, ad, b, bd, c, cd, path, name);
    }
  }

  lemma {:induction false} PropertyTransitive(a: Schema, ad: Definitions, b: Schema, bd: Definitions, c: Schema, cd: Definitions, path: string, name: string)
    requires a.Keywords? && b.Keywords? && c.Keywords? && ResolvedChained(a, ad, b, bd, c, cd)
    requires name in a.properties && name in b.properties && name in c.properties
    requires PropertyProblems(a, ad, b, bd, path) == {} && PropertyProblems(b, bd, c, cd, path) == {}
    ensures PropertyProblem(a, ad, c, cd, path, name) == {}
    decreases |ad|, a, 0, 0
  {
    if a.properties[name].Keywords? && c.properties[name].Keywords? {
      var x, y, z := a.properties[name], b.properties[name], c.properties[name];
      assert forall p | p in PropertyProblem(a, ad, b, bd, path, name) :: p in PropertyProblems(a, ad, b, bd, path);
      assert forall p | p in PropertyProblem(b, bd, c, cd, path, name) :: p in PropertyProblems(b, bd, c, cd, path);
      Transitive(x, ad, y, bd, z, cd, path + "." + name);
    }
  }

  lemma {:induction false} VariantsTransitive(a: Schema, xs: seq<Schema>, ad: Definitions, b: Schema, ys: seq<Schema>, bd: Definitions,
                                              zs: seq<Schema>, cd: Definitions, path: string, keyword: string)
    requires a.Keywords? && (a.anyOf == Listed(xs) || a.oneOf == Listed(xs))
    requires b.Keywords? && (b.anyOf == Listed(ys) || b.oneOf == Listed(ys))
    requires VariantsChained(a, xs, ad, ys, bd, zs, cd)
    requires VariantProblems(a, xs, ad, ys, bd, path, keyword) == {} && VariantProblems(b, ys, bd, zs, cd, path, keyword) == {}
    ensures VariantProblems(a, xs, ad, zs, cd, path, keyword) == {}
    decreases |ad|, a, 0, 1
  {
    forall i | 0 <= i < |xs| ensures Kept(a, xs, ad, zs, cd, path, keyword, i) {
      if xs[i].Keywords? {
        var k := VariantTransitive(a, xs, ad, b, ys, bd, zs, cd, path, keyword, i);
        assert Fits(xs[i], ad, zs[k], cd, path + "." + keyword);
      }
    }
  }

  lemma {:induction false} VariantTransitive(a: Schema, xs: seq<Schema>, ad: Definitions, b: Schema, ys: seq<Schema>, bd: Definitions,
                                             zs: seq<Schema>, cd: Definitions, path: string, keyword: string, i: nat) returns (k: nat)
    requires a.Keywords? && (a.anyOf == Listed(xs) || a.oneOf == Listed(xs)) && i < |xs| && xs[i].Keywords?
    requires b.Keywords? && (b.anyOf == Listed(ys) || b.oneOf == Listed(ys))
    requires VariantsChained(a, xs, ad, ys, bd, zs, cd)
    requires VariantProblems(a, xs, ad, ys, bd, path, keyword) == {} && VariantProblems(b, ys, bd, zs, cd, path, keyword) == {}
    ensures k < |zs| && zs[k].Keywords? && Problems(xs[i], ad, zs[k], cd, path + "." + keyword) == {}
    decreases |ad|, a, 0, 0
  {
    var j := MatchingVariant(a, xs, ad, ys, bd, path, keyword, i);
    k := MatchingVariant(b, ys, bd, zs, cd, path, keyword, j);
    Transitive(xs[i], ad, ys[j], bd, zs[k], cd, path + "." + keyword);
  }

  // ----- the fragment

  /** Comparable steps hide nothing between them. */
  lemma {:induction false} ComparableChains(a: Schema, ad: Definitions, b: Schema, bd: Definitions, c: Schema, cd: Definitions)
    requires a.Keywords? && b.Keywords? && c.Keywords? && Comparable(a, ad, b, bd) && Comparable(b, bd, c, cd)
    ensures Chained(a, ad, b, bd, c, cd)
    decreases |ad|, a, 2
  {
    ResolvedChains(Resolved(a, ad).0, Resolved(a, ad).1, Resolved(b, bd).0, Resolved(b, bd).1, Resolved(c, cd).0, Resolved(c, cd).1);
  }

  lemma {:induction false} ResolvedChains(a: Schema, ad: Definitions, b: Schema, bd: Definitions, c: Schema, cd: Definitions)
    requires a.Keywords? && b.Keywords? && c.Keywords? && ResolvedComparable(a, ad, b, bd) && ResolvedComparable(b, bd, c, cd)
    ensures ResolvedChained(a, ad, b, bd, c, cd)
    decreases |ad|, a, 1
  {
    forall name | name in a.properties && name in b.properties && name in c.properties
                  && a.properties[name].Keywords? && c.properties[name].Keywords?
      ensures b.properties[name].Keywords? && Chained(a.properties[name], ad, b.properties[name], bd, c.properties[name], cd)
    {
      assert SubComparable(a, a.properties[name], ad, b.properties[name], bd);
      assert SubComparable(b, b.properties[name], bd, c.properties[name], cd);
      ComparableChains(a.properties[name], ad, b.properties[name], bd, c.properties[name], cd);
    }
    if a.items.Some? && a.items.value.Keywords? && c.items.Some? && c.items.value.Keywords? {
      assert b.items.Some? && SubComparable(a, a.items.value, ad, b.items.value, bd);
      assert SubComparable(b, b.items.value, bd, c.items.value, cd);
      ComparableChains(a.items.value, ad, b.items.value, bd, c.items.value, cd);
    }
    if a.anyOf.Listed? && b.anyOf.Listed? && c.anyOf.Listed? {
      VariantsChain(a, ad, b, bd, c, cd);
    }
  }

  lemma {:induction false} VariantsChain(a: Schema, ad: Definitions, b: Schema, bd: Definitions, c: Schema, cd: Definitions)
    requires a.Keywords? && b.Keywords? && c.Keywords? && ResolvedComparable(a, ad, b, bd) && ResolvedComparable(b, bd, c, cd)
    requires a.anyOf.Listed? && b.anyOf.Listed? && c.anyOf.Listed?
    ensures VariantsChained(a, a.anyOf.schemas, ad, b.anyOf.schemas, bd, c.anyOf.schemas, cd)
    decreases |ad|, a, 0
  {
    var xs, ys, zs := a.anyOf.schemas, b.anyOf.schemas, c.anyOf.schemas;
    forall i, j, k | 0 <= i < |xs| && 0 <= j < |ys| && 0 <= k < |zs| && xs[i].Keywords? && ys[j].Keywords? && zs[k].Keywords?
      ensures Chained(xs[i], ad, ys[j], bd, zs[k], cd)
    {
      assert Comparable(xs[i], ad, ys[j], bd) && Comparable(ys[j], bd, zs[k], cd);
      ComparableChains(xs[i], ad, ys[j], bd, zs[k], cd);
    }
  }

  /** On the schemas the check is sound for, it is transitive. */
  lemma {:induction false} TransitiveOnFragment(a: Schema, ad: Definitions, b: Schema, bd: Definitions, c: Schema, cd: Definitions, path: string)
    requires a.Keywords? && b.Keywords? && c.Keywords? && Comparable(a, ad, b, bd) && Comparable(b, bd, c, cd)
    requires Problems(a, ad, b, bd, path) == {} && Problems(b, bd, c, cd, path) == {}
    ensures Problems(a, ad, c, cd, path) == {}
  {
    ComparableChains(a, ad, b, bd, c, cd);
    Transitive(a, ad, b, bd, c, cd, path);
  }
}
