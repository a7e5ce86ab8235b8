/** The two walks themselves, proved against the reference definition, and their agreement (structured.go). */
module SchemaWalkers {
  import opened Options
  import opened TypeGraph

  datatype Property = Property(schema: Schema, found: Found)

  datatype SchemaField = SchemaField(schema: Schema, found: Found, count: nat)

  /** `fields` has for `name` the tally of `cands`. */
  ghost predicate Tallied(fields: map<string, SchemaField>, name: string, cands: seq<Found>) {
    TallyOf(cands) == if name in fields then Best(fields[name].found, fields[name].count) else Nothing
  }

  /** The closure `add` of the schema walk. */
  function Add(fields: map<string, SchemaField>, name: string, found: Found, schema: Schema): map<string, SchemaField> {
    if name !in fields || found.depth < fields[name].found.depth then fields[name := SchemaField(schema, found, 1)]
    else if found.depth == fields[name].found.depth then fields[name := fields[name].(count := fields[name].count + 1)]
    else fields
  }

  lemma AddTallies(fields: map<string, SchemaField>, name: string, found: Found, schema: Schema, other: string,
                   cands: seq<Found>)
    requires Tallied(fields, other, cands)
    ensures Tallied(Add(fields, name, found, schema), other, if other == name then cands + [found] else cands)
  {
    TallyAppend(cands, found);
  }

  /** After `n` fields of `t`, `fields` has the tally of the candidates for `name`. */
  ghost predicate Walked(g: Graph, t: nat, chain: set<nat>, fields: map<string, SchemaField>, name: string, n: nat)
    requires Closed(g) && IsStruct(g, t) && t !in chain && n <= |Fields(g, t)|
  {
    Tallied(fields, name, Candidates(g, t, name, chain, Exact, n))
  }

  ghost predicate AllWalked(g: Graph, t: nat, chain: set<nat>, fields: map<string, SchemaField>, n: nat)
    requires Closed(g) && IsStruct(g, t) && t !in chain && n <= |Fields(g, t)|
  {
    forall name: string :: Walked(g, t, chain, fields, name, n)
  }

  /** Field `n` gives no candidate for `name`: nothing changes for it. */
  lemma WalkedPast(g: Graph, t: nat, chain: set<nat>, fields: map<string, SchemaField>, name: string, n: nat)
    requires Closed(g) && IsStruct(g, t) && t !in chain && n < |Fields(g, t)|
    requires Walked(g, t, chain, fields, name, n) && Candidate(g, t, name, chain, Exact, n) == []
    ensures Walked(g, t, chain, fields, name, n + 1)
  {
    assert Candidates(g, t, name, chain, Exact, n) + [] == Candidates(g, t, name, chain, Exact, n);
  }

  /** Field `n` gives the candidate `found` for `name`, and it is added. */
  lemma WalkedAdd(g: Graph, t: nat, chain: set<nat>, fields: map<string, SchemaField>, name: string, n: nat,
                  found: Found, schema: Schema)
    requires Closed(g) && IsStruct(g, t) && t !in chain && n < |Fields(g, t)|
    requires Walked(g, t, chain, fields, name, n) && Candidate(g, t, name, chain, Exact, n) == [found]
    ensures Walked(g, t, chain, Add(fields, name, found, schema), name, n + 1)
  {
    AddTallies(fields, name, found, schema, name, Candidates(g, t, name, chain, Exact, n));
  }

  lemma AllWalkedPast(g: Graph, t: nat, chain: set<nat>, fields: map<string, SchemaField>, n: nat)
    requires Closed(g) && IsStruct(g, t) && t !in chain && n < |Fields(g, t)|
    requires AllWalked(g, t, chain, fields, n) && forall name :: Candidate(g, t, name, chain, Exact, n) == []
    ensures AllWalked(g, t, chain, fields, n + 1)
  {
    var m := n + 1;
    forall name: string ensures Walked(g, t, chain, fields, name, m) {
      assert Walked(g, t, chain, fields, name, n);
      WalkedPast(g, t, chain, fields, name, n);
    }
  }

  lemma AllWalkedDirect(g: Graph, t: nat, chain: set<nat>, fields: map<string, SchemaField>, n: nat, name: string,
                        schema: Schema)
    requires Closed(g) && IsStruct(g, t) && t !in chain && n < |Fields(g, t)|
    requires AllWalked(g, t, chain, fields, n) && SchemaClass(g, Fields(g, t)[n]) == Direct(name)
    ensures AllWalked(g, t, chain, Add(fields, name, Found(t, n, 0), schema), n + 1)
  {
    var added := Add(fields, name, Found(t, n, 0), schema);
    var m := n + 1;
    forall other: string ensures Walked(g, t, chain, added, other, m) {
      assert Walked(g, t, chain, fields, other, n);
      if other == name {
        WalkedAdd(g, t, chain, fields, name, n, Found(t, n, 0), schema);
      } else {
        assert Walked(g, t, chain, added, other, n);
        WalkedPast(g, t, chain, added, other, n);
      }
    }
  }

  lemma OthersKept(g: Graph, t: nat, chain: set<nat>, fields: map<string, SchemaField>, name: string, found: Found,
                   schema: Schema,
                   other: string, n: nat)
    requires Closed(g) && IsStruct(g, t) && t !in chain && n <= |Fields(g, t)|
    requires other != name && Walked(g, t, chain, fields, other, n)
    ensures Walked(g, t, chain, Add(fields, name, found, schema), other, n)
  {
  }

  // ---- What a schema says of a type ----

  /** hasPromotedCustomUnmarshaler or implementsJSONUnmarshaler. */
  predicate DecodesItself(g: Graph, t: nat)
    requires Closed(g) && IsStruct(g, t)
  {
    || g[t].unmarshaler
    || exists i | 0 <= i < |Fields(g, t)| ::
         var f := Fields(g, t)[i];
         f.anonymous && IsStruct(g, Target(g, f)) && NameEmpty(f) && g[Target(g, f)].unmarshaler
  }

  /** `r` describes values of a type, pointers followed, while the schemas of the types in `seen` are being built: a
      scalar by its kind, a slice by its element, a struct by a property for each name that resolves to a field; and a
      type with a schema of its own by that. Types being built, types that decode themselves and open types are not
      constrained. */
  ghost predicate Describes(g: Graph, seen: set<nat>, typ: nat, r: Schema)
    requires Closed(g) && typ in g
    decreases g.Keys - seen, 0
  {
    var t := Base(g, typ);
    if g[t].special.Some? then r == g[t].special.value
    else if t in seen then r == Unconstrained
    else
      assert t in g.Keys - seen && t !in g.Keys - (seen + {t});
      match g[t].shape
      case ScalarShape(kind) => r == Scalar(kind)
      case SliceShape(elem) => r.ArrayOf? && Describes(g, seen + {t}, elem, r.items)
      case StructShape(_) =>
        if DecodesItself(g, t) then r == Unconstrained
        else
          && r.Object?
          && (forall name :: name in r.props <==> Resolve(g, t, name, {}, Exact).Some?)
          && (forall name | name in r.props :: DescribesName(g, seen, t, {}, name, r.props[name]))
      case PointerShape(_) => false
      case OpenShape => r == Unconstrained
  }

  /** `r` describes the field that `name` resolves to in struct `t`, reached by embedding through `chain`. */
  ghost predicate DescribesName(g: Graph, seen: set<nat>, t: nat, chain: set<nat>, name: string, r: Schema)
    requires Closed(g) && IsStruct(g, t) && t !in chain
    decreases g.Keys - (seen + {t}), 1, g.Keys - chain, 1
  {
    var found := Resolve(g, t, name, chain, Exact);
    && found.Some?
    && exists i | 0 <= i < |Fields(g, t)| ::
         Candidate(g, t, name, chain, Exact, i) == [found.value] && FieldDescribed(g, seen, t, chain, i, name, r)
  }

  /** `r` describes field i of `t`, or the field that it promotes under `name`. A field with the option "string" is a
      string. */
  ghost predicate FieldDescribed(g: Graph, seen: set<nat>, t: nat, chain: set<nat>, i: nat, name: string, r: Schema)
    requires Closed(g) && IsStruct(g, t) && t !in chain && i < |Fields(g, t)|
    decreases g.Keys - (seen + {t}), 1, g.Keys - chain, 0
  {
    var f := Fields(g, t)[i];
    match SchemaClass(g, f)
    case Ignored => false
    case Direct(_) => if f.asString then r == Scalar("string") else Describes(g, seen + {t}, f.typ, r)
    case Promoted =>
      assert t in g.Keys - chain && t !in g.Keys - (chain + {t});
      assert g.Keys - (seen + {t} + {Target(g, f)}) <= g.Keys - (seen + {t});
      Target(g, f) !in chain + {t} && DescribesName(g, seen + {t}, Target(g, f), chain + {t}, name, r)
  }

  /** What `fields` holds for `name` after `n` fields describes the candidate it holds. */
  ghost predicate Backed(g: Graph, seen: set<nat>, t: nat, chain: set<nat>, fields: map<string, SchemaField>,
                         name: string, n: nat)
    requires Closed(g) && IsStruct(g, t) && t !in chain && n <= |Fields(g, t)|
  {
    name in fields ==> exists i | 0 <= i < n ::
      && Candidate(g, t, name, chain, Exact, i) == [fields[name].found]
      && FieldDescribed(g, seen, t, chain, i, name, fields[name].schema)
  }

  ghost predicate AllBacked(g: Graph, seen: set<nat>, t: nat, chain: set<nat>, fields: map<string, SchemaField>, n: nat)
    requires Closed(g) && IsStruct(g, t) && t !in chain && n <= |Fields(g, t)|
  {
    forall name: string :: Backed(g, seen, t, chain, fields, name, n)
  }

  lemma AllBackedPast(g: Graph, seen: set<nat>, t: nat, chain: set<nat>, fields: map<string, SchemaField>, n: nat)
    requires Closed(g) && IsStruct(g, t) && t !in chain && n < |Fields(g, t)|
    requires AllBacked(g, seen, t, chain, fields, n)
    ensures AllBacked(g, seen, t, chain, fields, n + 1)
  {
    hide Closed, Candidate, FieldDescribed;
    var m := n + 1;
    forall name: string ensures Backed(g, seen, t, chain, fields, name, m) {
      assert Backed(g, seen, t, chain, fields, name, n);
    }
  }

  /** Field `i` gives the candidate `found` for `name`, described by `schema`, and it is added. */
  lemma AllBackedAdd(g: Graph, seen: set<nat>, t: nat, chain: set<nat>, fields: map<string, SchemaField>, n: nat,
                     i: nat, name: string, found: Found, schema: Schema)
    requires Closed(g) && IsStruct(g, t) && t !in chain && i < n <= |Fields(g, t)|
    requires AllBacked(g, seen, t, chain, fields, n)
    requires Candidate(g, t, name, chain, Exact, i) == [found] && FieldDescribed(g, seen, t, chain, i, name, schema)
    ensures AllBacked(g, seen, t, chain, Add(fields, name, found, schema), n)
  {
    hide Closed, Candidate, FieldDescribed;
    forall other: string ensures Backed(g, seen, t, chain, Add(fields, name, found, schema), other, n) {
      assert Backed(g, seen, t, chain, fields, other, n);
    }
  }

  /** A field taken under its name is the only candidate it gives, and its schema describes it. */
  lemma DirectDescribed(g: Graph, seen: set<nat>, t: nat, chain: set<nat>, i: nat, name: string, schema: Schema)
    requires Closed(g) && IsStruct(g, t) && t !in chain && i < |Fields(g, t)|
    requires SchemaClass(g, Fields(g, t)[i]) == Direct(name)
    requires var f := Fields(g, t)[i];
      if f.asString then schema == Scalar("string") else Describes(g, seen + {t}, f.typ, schema)
    ensures Candidate(g, t, name, chain, Exact, i) == [Found(t, i, 0)]
    ensures FieldDescribed(g, seen, t, chain, i, name, schema)
  {
  }

  lemma PromotedDescribed(g: Graph, seen: set<nat>, t: nat, chain: set<nat>, i: nat, name: string, schema: Schema)
    requires Closed(g) && IsStruct(g, t) && t !in chain && i < |Fields(g, t)|
    requires var f := Fields(g, t)[i];
      && SchemaClass(g, f).Promoted? && Target(g, f) !in chain + {t}
      && DescribesName(g, seen + {t}, Target(g, f), chain + {t}, name, schema)
    ensures FieldDescribed(g, seen, t, chain, i, name, schema)
  {
  }

  /** The one shallowest candidate is described. */
  lemma PickDescribed(g: Graph, seen: set<nat>, t: nat, chain: set<nat>, fields: map<string, SchemaField>, name: string)
    requires Closed(g) && IsStruct(g, t) && t !in chain && name in fields
    requires AllBacked(g, seen, t, chain, fields, |Fields(g, t)|)
    requires Resolve(g, t, name, chain, Exact) == Some(fields[name].found)
    ensures DescribesName(g, seen, t, chain, name, fields[name].schema)
  {
    hide Closed, Candidate, FieldDescribed, Resolve;
    assert Backed(g, seen, t, chain, fields, name, |Fields(g, t)|);
  }

  /** The loops that follow pointers: they end since no pointers lead round in a circle (PointersEndExactly). */
  method FollowPointers(g: Graph, t: nat) returns (b: nat)
    requires Closed(g) && t in g
    ensures b == Base(g, t)
  {
    hide Closed;
    b := t;
    ghost var n: nat := |g|;
    BaseIs(g, t);
    while IsPointer(g, b)
      invariant Hop(g, b, n) == Base(g, t)
      decreases n
    {
      assert n > 0;
      b := g[b].shape.elem;
      n := n - 1;
    }
  }

  lemma BaseIs(g: Graph, t: nat)
    requires Closed(g) && t in g
    ensures Base(g, t) == Hop(g, t, |g|)
  {
  }

  class SchemaWalker {
    const g: Graph
    var seen: set<nat>     // types whose schema is being built
    var chain: set<nat>    // struct types on the current embedding chain

    constructor (g: Graph)
      ensures this.g == g && seen == {} && chain == {}
    {
      this.g, seen, chain := g, {}, {};
    }

    /** schemaForType: the schema describes the type, down to every property and element. */
    method SchemaForType(typ: nat) returns (r: Schema)
      requires Closed(g) && typ in g
      modifies this
      ensures seen == old(seen) && chain == old(chain)
      ensures Describes(g, old(seen), typ, r)
      decreases g.Keys - seen, 0
    {
      hide Closed, Resolve, DescribesName;
      var t := FollowPointers(g, typ);
      if g[t].special.Some? { return g[t].special.value; }
      if t in seen { return Unconstrained; }
      assert t in g.Keys - seen && t !in g.Keys - (seen + {t});
      match g[t].shape
      case ScalarShape(kind) => return Scalar(kind);
      case SliceShape(elem) =>
        ElemIn(g, t);
        seen := seen + {t};
        var items := SchemaForType(elem);
        seen := seen - {t};
        return ArrayOf(items);
      case StructShape(_) =>
        if DecodesItself(g, t) { return Unconstrained; }
        var outer := chain;
        chain := {};
        var props := SchemaForStructChain(t);
        chain := outer;
        return Object(map name | name in props :: props[name].schema);
      case _ => return Unconstrained;
    }

    /** schemaForStructChain: for every name, the property it finds is the field the name resolves to, with its
        depth. */
    method SchemaForStructChain(t: nat) returns (props: map<string, Property>)
      requires Closed(g) && IsStruct(g, t) && t !in chain
      modifies this
      ensures seen == old(seen) && chain == old(chain)
      ensures forall name ::
        Resolve(g, t, name, old(chain), Exact) == if name in props then Some(props[name].found) else None
      ensures forall name | name in props :: DescribesName(g, old(seen), t, old(chain), name, props[name].schema)
      decreases g.Keys - (seen + {t}), 1, g.Keys - chain, 1
    {
      ghost var seen0, chain0 := seen, chain;
      var mark := t !in seen;
      if mark { seen := seen + {t}; }
      chain := chain + {t};
      assert t in g.Keys - chain0 && t !in g.Keys - chain;
      var fields: map<string, SchemaField> := map[];
      var all := Fields(g, t);
      for i := 0 to |all|
        invariant seen == seen0 + {t} && chain == chain0 + {t}
        invariant AllWalked(g, t, chain0, fields, i) && AllBacked(g, seen0, t, chain0, fields, i)
      {
        fields := WalkField(t, i, fields, seen0, chain0);
      }
      if mark { seen := seen - {t}; }
      chain := chain - {t};
      forall name: string ensures Tallied(fields, name, Candidates(g, t, name, chain0, Exact, |all|)) {
        assert Walked(g, t, chain0, fields, name, |all|);
      }
      forall name: string { TallyPicks(Candidates(g, t, name, chain0, Exact, |all|)); }
      props := map name | name in fields && fields[name].count <= 1 ::
        Property(fields[name].schema, fields[name].found);
      forall name | name in props ensures DescribesName(g, seen0, t, chain0, name, props[name].schema) {
        PickDescribed(g, seen0, t, chain0, fields, name);
      }
    }

    /** The loop body of schemaForStructChain, for field `i` of `t`. */
    method WalkField(t: nat, i: nat, before: map<string, SchemaField>, ghost seen0: set<nat>, ghost chain0: set<nat>)
      returns (fields: map<string, SchemaField>)
      requires Closed(g) && IsStruct(g, t) && t !in chain0 && i < |Fields(g, t)|
      requires seen == seen0 + {t} && chain == chain0 + {t}
      requires AllWalked(g, t, chain0, before, i) && AllBacked(g, seen0, t, chain0, before, i)
      modifies this
      ensures seen == old(seen) && chain == old(chain)
      ensures AllWalked(g, t, chain0, fields, i + 1) && AllBacked(g, seen0, t, chain0, fields, i + 1)
      decreases g.Keys - seen, 1, g.Keys - chain, 3
    {
      hide AllWalked, AllBacked, Describes, DescribesName;
      var field := Fields(g, t)[i];
      fields := before;
      AllBackedPast(g, seen0, t, chain0, before, i);
      if !field.exported {
        var embedded := FollowPointers(g, field.typ);
        if !field.anonymous || !IsStruct(g, embedded) {
          AllWalkedPast(g, t, chain0, before, i);
          return;
        }
      }
      if field.anonymous {
        var promoted, ok := MergeEmbeddedSchema(field);
        if ok {
          forall name | name in promoted { PromotedDescribed(g, seen0, t, chain0, i, name, promoted[name].schema); }
          fields := AddAll(t, i, before, promoted, seen0, chain0);
          return;
        }
      }
      var name := JSONName(field);
      if name.None? {
        AllWalkedPast(g, t, chain0, before, i);
        return;
      }
      var fieldSchema := SchemaForType(field.typ);
      if field.asString { fieldSchema := Scalar("string"); }
      fields := Add(before, name.value, Found(t, i, 0), fieldSchema);
      AllWalkedDirect(g, t, chain0, before, i, name.value, fieldSchema);
      DirectDescribed(g, seen0, t, chain0, i, name.value, fieldSchema);
      AllBackedAdd(g, seen0, t, chain0, before, i + 1, i, name.value, Found(t, i, 0), fieldSchema);
    }

    /** Merging the properties an embedded struct promotes, each one level deeper. */
    method AddAll(t: nat, i: nat, before: map<string, SchemaField>, promoted: map<string, Property>,
                  ghost seen0: set<nat>, ghost chain0: set<nat>)
      returns (fields: map<string, SchemaField>)
      requires Closed(g) && IsStruct(g, t) && t !in chain0 && i < |Fields(g, t)| && AllWalked(g, t, chain0, before, i)
      requires forall name ::
        Candidate(g, t, name, chain0, Exact, i) == if name in promoted then [Deeper(promoted[name].found)] else []
      requires AllBacked(g, seen0, t, chain0, before, i + 1)
      requires forall name | name in promoted ::
        FieldDescribed(g, seen0, t, chain0, i, name, promoted[name].schema)
      ensures AllWalked(g, t, chain0, fields, i + 1) && AllBacked(g, seen0, t, chain0, fields, i + 1)
    {
      hide Candidate, Candidates, Tallied, Walked, AllBacked, FieldDescribed;
      fields := before;
      var todo := promoted.Keys;
      while todo != {}
        invariant todo <= promoted.Keys
        invariant forall name: string ::
          Walked(g, t, chain0, fields, name, if name in promoted && name !in todo then i + 1 else i)
        invariant AllBacked(g, seen0, t, chain0, fields, i + 1)
        decreases |todo|
      {
        var name :| name in todo;
        var p := promoted[name];
        var next := Add(fields, name, Deeper(p.found), p.schema);
        assert Walked(g, t, chain0, fields, name, i);
        WalkedAdd(g, t, chain0, fields, name, i, Deeper(p.found), p.schema);
        forall other: string | other != name
          ensures Walked(g, t, chain0, next, other, if other in promoted && other !in todo then i + 1 else i)
        {
          OthersKept(g, t, chain0, fields, name, Deeper(p.found), p.schema, other,
                     if other in promoted && other !in todo then i + 1 else i);
        }
        AllBackedAdd(g, seen0, t, chain0, fields, i + 1, i, name, Deeper(p.found), p.schema);
        fields := next;
        todo := todo - {name};
      }
      ghost var m := i + 1;
      forall name: string ensures Walked(g, t, chain0, fields, name, m) {
        if name !in promoted { WalkedPast(g, t, chain0, fields, name, i); }
      }
    }

    /** mergeEmbeddedSchema: the promoted properties, or ok false for a field to be taken as a normal one. */
    method MergeEmbeddedSchema(field: Field) returns (props: map<string, Property>, ok: bool)
      requires Closed(g) && field.typ in g && field.anonymous && (field.exported || IsStruct(g, Target(g, field)))
      modifies this
      ensures seen == old(seen) && chain == old(chain)
      ensures ok <==> SchemaClass(g, field).Promoted? || field.tag.Dash?
      ensures ok && (field.tag.Dash? || Target(g, field) in old(chain)) ==> props == map[]
      ensures ok && !field.tag.Dash? && Target(g, field) !in old(chain) ==>
        forall name ::
          Resolve(g, Target(g, field), name, old(chain), Exact)
          == if name in props then Some(props[name].found) else None
      ensures ok && !field.tag.Dash? && Target(g, field) !in old(chain) ==>
        forall name | name in props ::
          DescribesName(g, old(seen), Target(g, field), old(chain), name, props[name].schema)
      decreases g.Keys - seen, 1, g.Keys - chain, 2
    {
      hide Closed, Resolve, Base, DescribesName;
      props := map[];
      if field.tag.Dash? { return props, true; }
      if field.tag.Named? { return props, false; }
      var ft := FollowPointers(g, field.typ);
      if !IsStruct(g, ft) { return props, false; }
      if g[ft].special.Some? { return props, false; }
      if g[ft].unmarshaler { return props, false; }
      if ft in chain { return props, true; }
      props := SchemaForStructChain(ft);
      ok := true;
    }
  }

  lemma ElemIn(g: Graph, t: nat)
    requires Closed(g) && t in g && g[t].shape.SliceShape?
    ensures g[t].shape.elem in g
  {
  }

  class FieldLookup {
    const g: Graph
    const fold: string -> string    // strings.EqualFold compares folded names
    var seen: set<nat>

    constructor (g: Graph, fold: string -> string)
      ensures this.g == g && this.fold == fold && seen == {}
    {
      this.g, this.fold, seen := g, fold, {};
    }

    /** structFieldByJSONNameDepth: the field `name` resolves to, at its depth below the root. */
    method StructFieldByJSONNameDepth(target: nat, name: string, depth: nat) returns (r: Option<Found>)
      requires Closed(g) && target in g
      modifies this
      ensures seen == old(seen)
      ensures var t := Base(g, target);
              r == if IsStruct(g, t) && t !in old(seen)
                   then Below(Resolve(g, t, name, old(seen), Folded(fold)), depth) else None
      decreases g.Keys - seen, 1
    {
      hide Closed, Candidate, Considered, Pick, Base;
      var t := FollowPointers(g, target);
      if !IsStruct(g, t) { return None; }
      if t in seen { return None; }
      ghost var seen0 := seen;
      assert t in g.Keys - seen;
      seen := seen + {t};
      assert t !in g.Keys - seen;
      var best, found, ambiguous := Found(0, 0, 0), false, false;
      var all := Fields(g, t);
      NothingConsidered(best, depth);
      for i := 0 to |all|
        invariant seen == seen0 + {t}
        invariant Considered(best, found, ambiguous, Candidates(g, t, name, seen0, Folded(fold), i), depth)
      {
        var candidate := FieldCandidate(t, i, name, depth, seen0);
        ConsideredNext(best, found, ambiguous, Candidates(g, t, name, seen0, Folded(fold), i), depth, candidate);
        if candidate.Some? {
          if !found || candidate.value.depth < best.depth {
            best, found, ambiguous := candidate.value, true, false;
          } else if candidate.value.depth == best.depth {
            ambiguous := true;
          }
        }
      }
      seen := seen - {t};
      ConsideredWins(best, found, ambiguous, Candidates(g, t, name, seen0, Folded(fold), |all|), depth);
      if !found || ambiguous { return None; }
      return Some(best);
    }

    /** The field or promoted field that entry `i` of `t` offers for `name`. */
    method FieldCandidate(t: nat, i: nat, name: string, depth: nat, ghost seen0: set<nat>)
      returns (candidate: Option<Found>)
      requires Closed(g) && IsStruct(g, t) && t !in seen0 && i < |Fields(g, t)| && seen == seen0 + {t}
      modifies this
      ensures seen == old(seen)
      ensures candidate.Some? ==> candidate.value.depth >= depth
      ensures Candidate(g, t, name, seen0, Folded(fold), i) == Relative(candidate, depth)
      decreases g.Keys - seen, 2
    {
      hide Base, Pick, Candidates;
      var field := Fields(g, t)[i];
      if field.anonymous {
        var embedded := FollowPointers(g, field.typ);
        BaseOfBase(g, field.typ);
        if IsStruct(g, embedded) && NameEmpty(field) {
          candidate := StructFieldByJSONNameDepth(embedded, name, depth + 1);
          return;
        }
      }
      if !field.exported { return None; }
      var jsonName := JSONName(field);
      if jsonName.None? { return None; }
      if fold(jsonName.value) == fold(name) { return Some(Found(t, i, depth)); }
      return None;
    }
  }

  lemma BaseOfBase(g: Graph, t: nat)
    requires Closed(g) && t in g
    ensures Base(g, Base(g, t)) == Base(g, t)
  {
  }

  /** A candidate at its depth below `depth`. */
  function Relative(candidate: Option<Found>, depth: nat): seq<Found>
    requires candidate.Some? ==> candidate.value.depth >= depth
  {
    if candidate.None? then [] else [candidate.value.(depth := candidate.value.depth - depth)]
  }

  function Below(found: Option<Found>, depth: nat): Option<Found> {
    match found case None => None case Some(f) => Some(f.(depth := f.depth + depth))
  }

  /** The lookup's variables hold the tally of `cands`, with depths counted from the root. */
  ghost predicate Considered(best: Found, found: bool, ambiguous: bool, cands: seq<Found>, depth: nat) {
    match TallyOf(cands)
    case Nothing => !found && !ambiguous
    case Best(first, count) =>
      && found && best == first.(depth := first.depth + depth) && count >= 1
      && (ambiguous <==> count > 1)
  }

  lemma NothingConsidered(best: Found, depth: nat)
    ensures Considered(best, false, false, [], depth)
  {
  }

  /** The closure `consider`. */
  lemma ConsideredNext(best: Found, found: bool, ambiguous: bool, cands: seq<Found>, depth: nat,
                       candidate: Option<Found>)
    requires Considered(best, found, ambiguous, cands, depth) && (candidate.Some? ==> candidate.value.depth >= depth)
    ensures var next := cands + Relative(candidate, depth);
      if candidate.None? then Considered(best, found, ambiguous, next, depth)
      else if !found || candidate.value.depth < best.depth then Considered(candidate.value, true, false, next, depth)
      else Considered(best, found, ambiguous || candidate.value.depth == best.depth, next, depth)
  {
    if candidate.Some? {
      TallyAppend(cands, Relative(candidate, depth)[0]);
    } else {
      assert cands + [] == cands;
    }
  }

  lemma ConsideredWins(best: Found, found: bool, ambiguous: bool, cands: seq<Found>, depth: nat)
    requires Considered(best, found, ambiguous, cands, depth)
    ensures Below(Pick(cands), depth) == if !found || ambiguous then None else Some(best)
  {
    TallyPicks(cands);
  }

  // ---- Agreement ----

  /** `s` holds structs, and with each of them those that its fields promote: all that the walks of a struct in `s`
      read. Structs reached through named fields only need not be in it. */
  ghost predicate Embedding(g: Graph, s: set<nat>)
    requires Closed(g)
  {
    forall t | t in s ::
      && IsStruct(g, t)
      && forall i | 0 <= i < |Fields(g, t)| ::
        SchemaClass(g, Fields(g, t)[i]).Promoted? ==> Target(g, Fields(g, t)[i]) in s
  }

  /** `name` is the JSON name of some field of a struct in `s`. */
  ghost predicate IsName(g: Graph, s: set<nat>, name: string)
    requires Closed(g) && Embedding(g, s)
  {
    exists t, i ::
      t in s && 0 <= i < |Fields(g, t)| && SchemaClass(g, Fields(g, t)[i]) == Direct(name)
  }

  /** No field of a struct in `s` embeds a struct of special or custom-decoded form without a name, or an unexported
      struct under an explicit name: the fields on which the two walks would part ways (ClassesDiffer). */
  ghost predicate OrdinaryEmbeds(g: Graph, s: set<nat>)
    requires Closed(g) && Embedding(g, s)
  {
    forall t | t in s ::
      forall i | 0 <= i < |Fields(g, t)| :: OrdinaryEmbed(g, Fields(g, t)[i])
  }

  predicate OrdinaryEmbed(g: Graph, f: Field)
    requires Closed(g) && f.typ in g
  {
    f.anonymous && IsStruct(g, Target(g, f)) ==>
      && (NameEmpty(f) ==> g[Target(g, f)].special.None? && !g[Target(g, f)].unmarshaler)
      && (f.exported || !f.tag.Named?)
  }

  /** `own` is the JSON name that the lookup of `name` has in mind: no other name in `s` is the same as `name` up to
      case, and `own` is, if it is a name in `s` at all. */
  ghost predicate MeantBy(g: Graph, s: set<nat>, fold: string -> string, own: string, name: string)
    requires Closed(g) && Embedding(g, s)
  {
    forall n :: IsName(g, s, n) ==> (n == own <==> fold(n) == fold(name))
  }

  ghost predicate DistinctUpToCase(g: Graph, s: set<nat>, fold: string -> string)
    requires Closed(g) && Embedding(g, s)
  {
    forall a, b :: IsName(g, s, a) && IsName(g, s, b) && fold(a) == fold(b) ==> a == b
  }

  /** Where the JSON names are distinct up to case, every name means one of them, or only itself. */
  lemma {:induction false} EveryNameMeansOne(g: Graph, s: set<nat>, fold: string -> string, name: string)
    requires Closed(g) && Embedding(g, s) && DistinctUpToCase(g, s, fold)
    ensures exists own :: MeantBy(g, s, fold, own, name)
  {
    hide IsName;
    if n :| IsName(g, s, n) && fold(n) == fold(name) {
      assert MeantBy(g, s, fold, n, name);
    } else {
      assert MeantBy(g, s, fold, name, name);
    }
  }

  /** On any finite type graph, cyclic embedding included, and for every name: the lookup finds a field for the name
      at some depth exactly when the JSON name meant by it is a property of the schema at that depth, and it is the
      same field. A name that is no JSON name up to case is found by neither. Only the structs that embedding joins
      to `t` matter. */
  lemma {:induction false} WalksAgree(g: Graph, s: set<nat>, fold: string -> string, t: nat, name: string, own: string,
                                      chain: set<nat>)
    requires Closed(g) && Embedding(g, s) && t in s && OrdinaryEmbeds(g, s)
    requires MeantBy(g, s, fold, own, name) && t !in chain
    ensures Resolve(g, t, own, chain, Exact) == Resolve(g, t, name, chain, Folded(fold))
    ensures (forall n :: IsName(g, s, n) ==> fold(n) != fold(name)) ==>
      Resolve(g, t, own, chain, Exact) == None
  {
    hide Closed, OrdinaryEmbeds, Resolve, IsName;
    ResolutionsAgree(g, s, fold, t, name, own, chain);
    if forall n :: IsName(g, s, n) ==> fold(n) != fold(name) {
      NotFound(g, s, t, own, chain);
    }
  }

  lemma {:induction false} ResolutionsAgree(g: Graph, s: set<nat>, fold: string -> string, t: nat, name: string,
                                            own: string, chain: set<nat>)
    requires Closed(g) && Embedding(g, s) && t in s && OrdinaryEmbeds(g, s)
    requires MeantBy(g, s, fold, own, name) && t !in chain
    ensures Resolve(g, t, own, chain, Exact) == Resolve(g, t, name, chain, Folded(fold))
    decreases g.Keys - chain, 1, 0
  {
    CandidatesAgree(g, s, fold, t, name, own, chain, |Fields(g, t)|);
  }

  lemma {:induction false} CandidatesAgree(g: Graph, s: set<nat>, fold: string -> string, t: nat, name: string,
                                           own: string, chain: set<nat>, n: nat)
    requires Closed(g) && Embedding(g, s) && t in s && OrdinaryEmbeds(g, s)
    requires MeantBy(g, s, fold, own, name) && t !in chain && n <= |Fields(g, t)|
    ensures Candidates(g, t, own, chain, Exact, n) == Candidates(g, t, name, chain, Folded(fold), n)
    decreases g.Keys - chain, 0, n
  {
    hide Closed, Embedding, OrdinaryEmbeds, MeantBy, Candidate;
    if n > 0 {
      CandidatesAgree(g, s, fold, t, name, own, chain, n - 1);
      CandidateAgrees(g, s, fold, t, name, own, chain, n - 1);
    }
  }

  lemma {:induction false} CandidateAgrees(g: Graph, s: set<nat>, fold: string -> string, t: nat, name: string,
                                           own: string, chain: set<nat>, i: nat)
    requires Closed(g) && Embedding(g, s) && t in s && OrdinaryEmbeds(g, s)
    requires MeantBy(g, s, fold, own, name) && t !in chain && i < |Fields(g, t)|
    ensures Candidate(g, t, own, chain, Exact, i) == Candidate(g, t, name, chain, Folded(fold), i)
    decreases g.Keys - chain, 0, i
  {
    hide OrdinaryEmbeds, Resolve, IsName, SchemaClass, LookupClass;
    var f := Fields(g, t)[i];
    var kind := SchemaClass(g, f);
    SameClass(g, s, t, i);
    if kind.Direct? {
      MeansName(g, s, t, i);
      assert Matches(Exact, kind.name, own) <==> Matches(Folded(fold), kind.name, name);
    } else if kind.Promoted? && Target(g, f) !in chain + {t} {
      assert t in g.Keys - chain && t !in g.Keys - (chain + {t});
      ResolutionsAgree(g, s, fold, Target(g, f), name, own, chain + {t});
    }
  }

  lemma SameClass(g: Graph, s: set<nat>, t: nat, i: nat)
    requires Closed(g) && Embedding(g, s) && OrdinaryEmbeds(g, s) && t in s && i < |Fields(g, t)|
    ensures SchemaClass(g, Fields(g, t)[i]) == LookupClass(g, Fields(g, t)[i])
  {
    assert OrdinaryEmbed(g, Fields(g, t)[i]);
    ClassesDiffer(g, Fields(g, t)[i]);
  }

  lemma MeansName(g: Graph, s: set<nat>, t: nat, i: nat)
    requires Closed(g) && Embedding(g, s) && t in s && i < |Fields(g, t)|
    ensures SchemaClass(g, Fields(g, t)[i]).Direct? ==> IsName(g, s, SchemaClass(g, Fields(g, t)[i]).name)
  {
  }

  /** A name that is no field's JSON name is no property. */
  lemma {:induction false} NotFound(g: Graph, s: set<nat>, t: nat, name: string, chain: set<nat>)
    requires Closed(g) && Embedding(g, s) && t in s && t !in chain && !IsName(g, s, name)
    ensures Resolve(g, t, name, chain, Exact) == None
    decreases g.Keys - chain, 1, 0
  {
    NoCandidates(g, s, t, name, chain, |Fields(g, t)|);
  }

  lemma {:induction false} NoCandidates(g: Graph, s: set<nat>, t: nat, name: string, chain: set<nat>, n: nat)
    requires Closed(g) && Embedding(g, s) && t in s && t !in chain && !IsName(g, s, name) && n <= |Fields(g, t)|
    ensures Candidates(g, t, name, chain, Exact, n) == []
    decreases g.Keys - chain, 0, n
  {
    if n > 0 {
      NoCandidates(g, s, t, name, chain, n - 1);
      var f := Fields(g, t)[n - 1];
      var kind := SchemaClass(g, f);
      if kind.Direct? {
        assert IsName(g, s, kind.name);
      } else if kind.Promoted? && Target(g, f) !in chain + {t} {
        assert t in g.Keys - chain && t !in g.Keys - (chain + {t});
        NotFound(g, s, Target(g, f), name, chain + {t});
      }
    }
  }

  /** A struct with two fields whose names differ only in case. */
  function CaseClash(): Graph {
    map[0 := Node(StructShape([Field("id", NoTag, false, true, false, 1), Field("ID", NoTag, false, true, false, 1)]),
                  None, false),
        1 := Node(ScalarShape("integer"), None, false)]
  }

  lemma ClashCandidates(rule: Rule, name: string)
    ensures Candidates(CaseClash(), 0, name, {}, rule, 2)
      == (if Matches(rule, "id", name) then [Found(0, 0, 0)] else [])
        + (if Matches(rule, "ID", name) then [Found(0, 1, 0)] else [])
  {
    hide Matches;
    var g := CaseClash();
    var fields := Fields(g, 0);
    assert Classify(g, fields[0], rule) == Direct("id") && Classify(g, fields[1], rule) == Direct("ID");
    assert Candidates(g, 0, name, {}, rule, 0) == [];
    assert Candidates(g, 0, name, {}, rule, 1) == [] + Candidate(g, 0, name, {}, rule, 0);
    assert Candidates(g, 0, name, {}, rule, 2)
      == Candidates(g, 0, name, {}, rule, 1) + Candidate(g, 0, name, {}, rule, 1);
  }

  lemma PickOfOne(f: Found)
    ensures Pick([f]) == Some(f)
  {
    assert Dominates([f], 0);
  }

  lemma PickOfTwo(f: Found, h: Found)
    requires f.depth == h.depth
    ensures Pick([f, h]) == None
  {
    forall i: nat ensures !Dominates([f, h], i) {
      assert [f, h][0] == f && [f, h][1] == h;
    }
  }

  /** The case assumption is needed: two fields of one struct whose names differ only in case are both properties
      of its schema, but the lookup finds neither. */
  lemma CaseClashDisagrees(fold: string -> string)
    requires fold("id") == fold("ID")
    ensures var g := CaseClash();
      && Resolve(g, 0, "id", {}, Exact) == Some(Found(0, 0, 0))
      && Resolve(g, 0, "ID", {}, Exact) == Some(Found(0, 1, 0))
      && Resolve(g, 0, "id", {}, Folded(fold)) == None && Resolve(g, 0, "ID", {}, Folded(fold)) == None
  {
    hide Candidates, Pick;
    assert |Fields(CaseClash(), 0)| == 2;
    assert [] + [Found(0, 1, 0)] == [Found(0, 1, 0)] && [Found(0, 0, 0)] + [] == [Found(0, 0, 0)];
    assert [Found(0, 0, 0)] + [Found(0, 1, 0)] == [Found(0, 0, 0), Found(0, 1, 0)];
    ClashCandidates(Exact, "id");
    ClashCandidates(Exact, "ID");
    ClashCandidates(Folded(fold), "id");
    ClashCandidates(Folded(fold), "ID");
    PickOfOne(Found(0, 0, 0));
    PickOfOne(Found(0, 1, 0));
    PickOfTwo(Found(0, 0, 0), Found(0, 1, 0));
    assert "id" != "ID" by { assert "id"[0] != "ID"[0]; }
  }

  function OneName(): Graph {
    map[0 := Node(StructShape([Field("id", NoTag, false, true, false, 1)]), None, false),
        1 := Node(ScalarShape("integer"), None, false)]
  }

  /** The lookup of a name that differs from a property's in case finds the field, though the name itself is no
      property. */
  lemma LookupIgnoresCase(fold: string -> string)
    requires fold("id") == fold("Id")
    ensures Resolve(OneName(), 0, "Id", {}, Exact) == None
    ensures Resolve(OneName(), 0, "Id", {}, Folded(fold)) == Some(Found(0, 0, 0))
      == Resolve(OneName(), 0, "id", {}, Exact)
  {
    hide Pick, Candidates;
    OneCandidate(Exact, "Id");
    OneCandidate(Exact, "id");
    OneCandidate(Folded(fold), "Id");
    PickOfOne(Found(0, 0, 0));
    PickOfNone();
    assert "id" != "Id" by { assert "id"[0] != "Id"[0]; }
  }

  lemma OneCandidate(rule: Rule, name: string)
    ensures Candidates(OneName(), 0, name, {}, rule, 1) == if Matches(rule, "id", name) then [Found(0, 0, 0)] else []
  {
    hide Matches;
    var g := OneName();
    assert Classify(g, Fields(g, 0)[0], rule) == Direct("id");
    assert Candidates(g, 0, name, {}, rule, 0) == [];
    assert Candidates(g, 0, name, {}, rule, 1) == [] + Candidate(g, 0, name, {}, rule, 0);
    assert [] + Candidate(g, 0, name, {}, rule, 0) == Candidate(g, 0, name, {}, rule, 0);
  }

  lemma PickOfNone()
    ensures Pick([]) == None
  {
  }
}
