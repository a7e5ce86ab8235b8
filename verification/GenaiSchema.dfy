/** Converting a Gemini schema, a graph of pointers, to a JSON Schema object (llmadk/schema.go, genaiSchema). */
module GenaiSchema {
  import opened Options

  datatype Result<T> = Ok(value: T) | SelfReference

  type Id = nat

  /** A genai.Schema; None is a nil pointer. `keywords` are the keywords that are copied over as they are. */
  datatype Node = Node(typ: string, nullable: Option<bool>, keywords: map<string, string>,
                       items: Option<Id>, properties: map<string, Option<Id>>, anyOf: seq<Option<Id>>)

  type Graph = map<Id, Node>

  datatype Schema = Schema(typ: string, orNull: bool, keywords: map<string, string>,
                           items: Option<Schema>, properties: Option<map<string, Schema>>, anyOf: Option<seq<Schema>>)

  function Lower(s: string): string {
    seq(|s|, i requires 0 <= i < |s| => if 'A' <= s[i] <= 'Z' then s[i] - 'A' + 'a' else s[i])
  }

  /** jsonSchemaType. */
  function JsonType(t: string): string {
    if t == "" || t == "TYPE_UNSPECIFIED" then "" else Lower(t)
  }

  // ---- The pointer graph ----

  /** `c` is what Items, Properties or AnyOf of `n` points to. */
  predicate Child(n: Node, c: Id) {
    || n.items == Some(c)
    || (exists k | k in n.properties :: n.properties[k] == Some(c))
    || (exists i | 0 <= i < |n.anyOf| :: n.anyOf[i] == Some(c))
  }

  ghost predicate Closed(g: Graph) {
    forall id, c | id in g && Child(g[id], c) :: c in g
  }

  /** A walk of pointers: each node points to the next. */
  ghost predicate Walk(g: Graph, p: seq<Id>) {
    |p| > 0 && (forall i | 0 <= i < |p| :: p[i] in g) && forall i | 0 < i < |p| :: Child(g[p[i - 1]], p[i])
  }

  /** The walk comes back to a node it has passed. */
  ghost predicate Returns(p: seq<Id>) {
    exists i :: 0 <= i < |p| - 1 && p[i] == p[|p| - 1]
  }

  ghost predicate CycleFrom(g: Graph, id: Id) {
    exists p :: Walk(g, p) && p[0] == id && Returns(p)
  }

  // ---- The finite unfolding ----

  /** The schema tree spelled out from `id`, or None if it is more than `height` levels high. A shared node is spelled
      out at each place it is used. */
  ghost function Unfold(g: Graph, id: Id, height: nat): Option<Schema>
    requires Closed(g) && id in g
    decreases height, 0
  {
    if height > 0 && forall c | c in g && Child(g[id], c) :: Unfold(g, c, height - 1).Some? then
      var n := g[id];
      Some(Build(n,
        if n.items.Some? && n.items.value in g then Unfold(g, n.items.value, height - 1) else None,
        UnfoldProperties(g, n, height - 1),
        UnfoldAll(g, n.anyOf, height - 1)))
    else None
  }

  ghost function UnfoldProperties(g: Graph, n: Node, height: nat): map<string, Schema>
    requires Closed(g) && n in g.Values
    requires forall c | c in g && Child(n, c) :: Unfold(g, c, height).Some?
    decreases height, 1
  {
    map k | k in n.properties && n.properties[k].Some? ::
      (assert Child(n, n.properties[k].value); Unfold(g, n.properties[k].value, height).value)
  }

  /** The alternatives among the entries of AnyOf, nil ones left out. */
  ghost function UnfoldAll(g: Graph, entries: seq<Option<Id>>, height: nat): seq<Schema>
    requires Closed(g)
    decreases height, |entries| + 1
  {
    if entries == [] then []
    else
      var last, front := entries[|entries| - 1], UnfoldAll(g, entries[..|entries| - 1], height);
      if last.Some? && last.value in g && Unfold(g, last.value, height).Some? then
        front + [Unfold(g, last.value, height).value]
      else front
  }

  /** One node's object, given those of its children. */
  function Build(n: Node, items: Option<Schema>, properties: map<string, Schema>, anyOf: seq<Schema>): Schema {
    var typ := JsonType(n.typ);
    Schema(typ, typ != "" && n.nullable == Some(true), n.keywords, items,
           if n.properties != map[] then Some(properties) else if typ == "object" then Some(map[]) else None,
           if n.anyOf != [] then Some(anyOf) else None)
  }

  lemma UnfoldChild(g: Graph, id: Id, height: nat, c: Id)
    requires Closed(g) && id in g && Unfold(g, id, height).Some? && Child(g[id], c)
    ensures height > 0 && c in g && Unfold(g, c, height - 1).Some?
  {
  }

  /** A tree of that height leaves room for walks of that length only. */
  lemma {:induction false} WalkUnfolds(g: Graph, p: seq<Id>, height: nat, k: nat)
    requires Closed(g) && Walk(g, p) && k < |p| && Unfold(g, p[0], height).Some?
    ensures k <= height && Unfold(g, p[k], height - k).Some?
  {
    if k > 0 {
      WalkUnfolds(g, p, height, k - 1);
      UnfoldChild(g, p[k - 1], height - (k - 1), p[k]);
    }
  }

  lemma {:induction false} NoLoop(g: Graph, p: seq<Id>, height: nat)
    requires Closed(g) && Walk(g, p) && |p| > 1 && p[0] == p[|p| - 1]
    ensures Unfold(g, p[0], height).None?
    decreases height
  {
    if Unfold(g, p[0], height).Some? {
      WalkUnfolds(g, p, height, |p| - 1);
      NoLoop(g, p, height - (|p| - 1));
    }
  }

  lemma WalkTail(g: Graph, p: seq<Id>, i: nat)
    requires Walk(g, p) && i < |p|
    ensures Walk(g, p[i..])
  {
    var q := p[i..];
    forall j | 0 < j < |q| ensures Child(g[q[j - 1]], q[j]) {
      assert q[j - 1] == p[i + j - 1] && q[j] == p[i + j];
    }
  }

  /** A graph with a cycle reachable from `id` has no finite unfolding. */
  lemma CycleHasNoUnfolding(g: Graph, id: Id, height: nat)
    requires Closed(g) && id in g && CycleFrom(g, id)
    ensures Unfold(g, id, height).None?
  {
    hide Unfold, Closed;
    var p :| Walk(g, p) && p[0] == id && Returns(p);
    var i :| 0 <= i < |p| - 1 && p[i] == p[|p| - 1];
    if Unfold(g, id, height).Some? {
      WalkUnfolds(g, p, height, i);
      WalkTail(g, p, i);
      NoLoop(g, p[i..], height - i);
    }
  }

  // ---- The conversion ----

  /** From `id` a walk leads to a node of `seen`, or comes back on itself. */
  ghost predicate Blocked(g: Graph, id: Id, seen: set<Id>) {
    exists p :: Walk(g, p) && p[0] == id && (p[|p| - 1] in seen || Returns(p))
  }

  lemma BlockedByChild(g: Graph, id: Id, c: Id, seen: set<Id>)
    requires Closed(g) && id in g && Child(g[id], c) && Blocked(g, c, seen + {id})
    ensures Blocked(g, id, seen)
  {
    var q :| Walk(g, q) && q[0] == c && (q[|q| - 1] in seen + {id} || Returns(q));
    var p := [id] + q;
    assert forall i | 0 < i < |p| :: p[i] == q[i - 1];
    assert Walk(g, p);
    if Returns(q) {
      var i :| 0 <= i < |q| - 1 && q[i] == q[|q| - 1];
      assert p[i + 1] == p[|p| - 1];
    } else if q[|q| - 1] == id {
      assert p[0] == p[|p| - 1];
    }
  }

  /** `r` is the finite unfolding of the schema `c` points to. */
  ghost predicate Converted(g: Graph, c: Id, height: nat, r: Schema) {
    Closed(g) && c in g && Unfold(g, c, height) == Some(r)
  }

  ghost predicate PropertiesConverted(g: Graph, n: Node, height: nat, r: map<string, Schema>) {
    && (forall k | k in r :: k in n.properties && n.properties[k].Some?)
    && (forall k | k in n.properties && n.properties[k].Some? ::
      k in r && Converted(g, n.properties[k].value, height, r[k]))
  }

  ghost predicate AnyOfConverted(g: Graph, entries: seq<Option<Id>>, height: nat, r: seq<Schema>) {
    && Closed(g) && r == UnfoldAll(g, entries, height)
    && (forall i | 0 <= i < |entries| && entries[i].Some? ::
      entries[i].value in g && Unfold(g, entries[i].value, height).Some?)
  }

  lemma ChildConverted(g: Graph, id: Id, height: nat, items: Option<Schema>, properties: map<string, Schema>,
                       anyOf: seq<Schema>, c: Id)
    requires Closed(g) && id in g && c in g && Child(g[id], c)
    requires g[id].items.Some? ==> items.Some? && Converted(g, g[id].items.value, height, items.value)
    requires PropertiesConverted(g, g[id], height, properties)
    requires AnyOfConverted(g, g[id].anyOf, height, anyOf)
    ensures Unfold(g, c, height).Some?
  {
    hide Unfold, UnfoldAll, Closed;
    var n := g[id];
    if n.items == Some(c) {
    } else if k :| k in n.properties && n.properties[k] == Some(c) {
      assert Converted(g, n.properties[k].value, height, properties[k]);
    } else {
      var i :| 0 <= i < |n.anyOf| && n.anyOf[i] == Some(c);
    }
  }

  /** Children converted, so is the node. */
  lemma NodeConverted(g: Graph, id: Id, height: nat, items: Option<Schema>, properties: map<string, Schema>,
                      anyOf: seq<Schema>)
    requires Closed(g) && id in g
    requires items.Some? <==> g[id].items.Some?
    requires items.Some? ==> Converted(g, g[id].items.value, height, items.value)
    requires PropertiesConverted(g, g[id], height, properties)
    requires AnyOfConverted(g, g[id].anyOf, height, anyOf)
    ensures Converted(g, id, height + 1, Build(g[id], items, properties, anyOf))
  {
    var n := g[id];
    forall c | c in g && Child(n, c) ensures Unfold(g, c, height).Some? {
      ChildConverted(g, id, height, items, properties, anyOf, c);
    }
    assert properties == UnfoldProperties(g, n, height);
    if n.items.Some? { assert Child(n, n.items.value); }
  }

  lemma AnyOfStep(g: Graph, entries: seq<Option<Id>>, i: nat, height: nat, r: seq<Schema>, s: Option<Schema>)
    requires i < |entries| && AnyOfConverted(g, entries[..i], height, r)
    requires s.Some? <==> entries[i].Some?
    requires s.Some? ==> Converted(g, entries[i].value, height, s.value)
    ensures AnyOfConverted(g, entries[..i + 1], height, if s.Some? then r + [s.value] else r)
  {
    assert entries[..i + 1][..i] == entries[..i];
    assert entries[..i + 1][i] == entries[i];
    var taken := entries[..i + 1];
    forall j | 0 <= j < |taken| && taken[j].Some?
      ensures taken[j].value in g && Unfold(g, taken[j].value, height).Some? {
      if j < i { assert entries[..i][j] == taken[j]; }
    }
  }

  class Converter {
    const g: Graph
    var seen: set<Id>    // the nodes on the path from the root

    constructor (g: Graph)
      ensures this.g == g && seen == {}
    {
      this.g, seen := g, {};
    }

    /** genaiSchema. */
    method Convert(id: Id) returns (r: Result<Schema>)
      requires Closed(g) && id in g && seen <= g.Keys
      modifies this
      ensures seen == old(seen)
      ensures r.Ok? ==> Converted(g, id, |g.Keys - seen|, r.value)
      ensures r.SelfReference? ==> Blocked(g, id, seen)
      decreases g.Keys - seen, 1
    {
      hide Converted, PropertiesConverted, AnyOfConverted, Blocked, Build;
      if id in seen {
        OnPath(g, id, seen);
        return SelfReference;
      }
      ghost var before := seen;
      seen := seen + {id};
      assert g.Keys - before == (g.Keys - seen) + {id};
      var n := g[id];
      var items := None;
      if n.items.Some? {
        var converted := ConvertChild(id, n.items.value, before);
        if converted.SelfReference? {
          seen := seen - {id};
          return SelfReference;
        }
        items := Some(converted.value);
      }
      var properties := ConvertProperties(id, before);
      if properties.SelfReference? {
        seen := seen - {id};
        return SelfReference;
      }
      var anyOf := ConvertAnyOf(id, before);
      if anyOf.SelfReference? {
        seen := seen - {id};
        return SelfReference;
      }
      NodeConverted(g, id, |g.Keys - seen|, items, properties.value, anyOf.value);
      seen := seen - {id};
      return Ok(Build(n, items, properties.value, anyOf.value));
    }

    /** The recursive call for something `id` points to. */
    method ConvertChild(id: Id, c: Id, ghost before: set<Id>) returns (r: Result<Schema>)
      requires Closed(g) && id in g && Child(g[id], c) && seen <= g.Keys && seen == before + {id} && id !in before
      modifies this
      ensures seen == old(seen)
      ensures r.Ok? ==> Converted(g, c, |g.Keys - seen|, r.value)
      ensures r.SelfReference? ==> Blocked(g, id, before)
      decreases g.Keys - seen, 2
    {
      r := Convert(c);
      if r.SelfReference? { BlockedByChild(g, id, c, before); }
    }

    /** The loop over Properties, in any order, nil ones left out. */
    method ConvertProperties(id: Id, ghost before: set<Id>) returns (r: Result<map<string, Schema>>)
      requires Closed(g) && id in g && seen <= g.Keys && seen == before + {id} && id !in before
      modifies this
      ensures seen == old(seen)
      ensures r.SelfReference? ==> Blocked(g, id, before)
      ensures r.Ok? ==> PropertiesConverted(g, g[id], |g.Keys - seen|, r.value)
      decreases g.Keys - seen, 3
    {
      hide Converted, Blocked, Closed;
      var n := g[id];
      var props: map<string, Schema> := map[];
      var todo := n.properties.Keys;
      ghost var height := |g.Keys - seen|;
      while todo != {}
        invariant seen == before + {id} && todo <= n.properties.Keys
        invariant forall k | k in props :: k in n.properties && n.properties[k].Some?
        invariant forall k | k in n.properties && k !in todo && n.properties[k].Some? ::
          k in props && Converted(g, n.properties[k].value, height, props[k])
        decreases |todo|
      {
        var k :| k in todo;
        if n.properties[k].Some? {
          var converted := ConvertChild(id, n.properties[k].value, before);
          if converted.SelfReference? { return SelfReference; }
          props := props[k := converted.value];
        }
        todo := todo - {k};
      }
      return Ok(props);
    }

    /** The loop over AnyOf. */
    method ConvertAnyOf(id: Id, ghost before: set<Id>) returns (r: Result<seq<Schema>>)
      requires Closed(g) && id in g && seen <= g.Keys && seen == before + {id} && id !in before
      modifies this
      ensures seen == old(seen)
      ensures r.SelfReference? ==> Blocked(g, id, before)
      ensures r.Ok? ==> AnyOfConverted(g, g[id].anyOf, |g.Keys - seen|, r.value)
      decreases g.Keys - seen, 3
    {
      hide Converted, AnyOfConverted, Blocked, Closed;
      var entries := g[id].anyOf;
      var anyOf: seq<Schema> := [];
      ghost var height := |g.Keys - seen|;
      NoAlternatives(g, height);
      assert entries[..0] == [];
      for i := 0 to |entries|
        invariant seen == before + {id}
        invariant AnyOfConverted(g, entries[..i], height, anyOf)
      {
        if entries[i].Some? {
          var converted := ConvertChild(id, entries[i].value, before);
          if converted.SelfReference? { return SelfReference; }
          AnyOfStep(g, entries, i, height, anyOf, Some(converted.value));
          anyOf := anyOf + [converted.value];
        } else {
          AnyOfStep(g, entries, i, height, anyOf, None);
        }
      }
      assert entries[..|entries|] == entries;
      return Ok(anyOf);
    }
  }

  // ---- What the object says ----

  /** `t` is a type name in lower case, or empty for none. */
  predicate TypeNamed(typ: string, t: string) {
    if typ == "" || typ == "TYPE_UNSPECIFIED" then t == ""
    else
      && |t| == |typ|
      && forall i | 0 <= i < |t| ::
           if 'A' <= typ[i] <= 'Z' then t[i] as int == typ[i] as int + 32 else t[i] == typ[i]
  }

  /** The pointers of AnyOf that are not nil, in order. */
  function NonNil(entries: seq<Option<Id>>): seq<Id> {
    if entries == [] then []
    else NonNil(entries[..|entries| - 1]) + match entries[|entries| - 1] case None => [] case Some(c) => [c]
  }

  /** `r` says what node `id` says: its type, whether it may be null, its keywords, and what its items, its properties
      and its alternatives say, down to the leaves, at most `height` levels below. */
  ghost predicate Spells(g: Graph, id: Id, height: nat, r: Schema)
    decreases height
  {
    && height > 0 && id in g
    && var n := g[id];
    && TypeNamed(n.typ, r.typ) && (r.orNull <==> r.typ != "" && n.nullable == Some(true)) && r.keywords == n.keywords
    && (r.items.Some? <==> n.items.Some?) && (r.items.Some? ==> Spells(g, n.items.value, height - 1, r.items.value))
    && (n.properties == map[] ==> r.properties == if r.typ == "object" then Some(map[]) else None)
    && (n.properties != map[] ==>
          && r.properties.Some?
          && (forall k :: k in r.properties.value <==> k in n.properties && n.properties[k].Some?)
          && forall k | k in r.properties.value :: Spells(g, n.properties[k].value, height - 1, r.properties.value[k]))
    && (r.anyOf.Some? <==> n.anyOf != [])
    && (r.anyOf.Some? ==>
          && |r.anyOf.value| == |NonNil(n.anyOf)|
          && forall i | 0 <= i < |r.anyOf.value| :: Spells(g, NonNil(n.anyOf)[i], height - 1, r.anyOf.value[i]))
  }

  lemma {:induction false} AlternativesKept(g: Graph, entries: seq<Option<Id>>, height: nat)
    requires Closed(g)
    requires forall i | 0 <= i < |entries| && entries[i].Some? ::
      entries[i].value in g && Unfold(g, entries[i].value, height).Some?
    ensures var ids, r := NonNil(entries), UnfoldAll(g, entries, height);
      && |r| == |ids|
      && forall i | 0 <= i < |r| :: ids[i] in g && Some(ids[i]) in entries && Unfold(g, ids[i], height) == Some(r[i])
  {
    hide Unfold, Closed;
    if entries != [] {
      var front := entries[..|entries| - 1];
      assert forall i | 0 <= i < |front| :: front[i] == entries[i];
      AlternativesKept(g, front, height);
    }
  }

  lemma NodeUnfolds(g: Graph, id: Id, height: nat)
    requires Closed(g) && id in g && height > 0 && Unfold(g, id, height).Some?
    ensures forall c | c in g && Child(g[id], c) :: Unfold(g, c, height - 1).Some?
    ensures var n := g[id];
      Unfold(g, id, height) == Some(Build(n,
        if n.items.Some? && n.items.value in g then Unfold(g, n.items.value, height - 1) else None,
        UnfoldProperties(g, n, height - 1), UnfoldAll(g, n.anyOf, height - 1)))
  {
  }

  /** The finite unfolding says what the graph says. */
  lemma {:induction false} UnfoldSpells(g: Graph, id: Id, height: nat)
    requires Closed(g) && id in g && Unfold(g, id, height).Some?
    ensures Spells(g, id, height, Unfold(g, id, height).value)
    decreases height
  {
    hide Unfold, UnfoldAll, NonNil;
    UnfoldPositive(g, id, height);
    NodeUnfolds(g, id, height);
    var n, r := g[id], Unfold(g, id, height).value;
    if n.items.Some? {
      assert Child(n, n.items.value);
      UnfoldSpells(g, n.items.value, height - 1);
    }
    forall k | k in n.properties && n.properties[k].Some?
      ensures k in UnfoldProperties(g, n, height - 1)
      ensures Spells(g, n.properties[k].value, height - 1, UnfoldProperties(g, n, height - 1)[k])
    {
      assert Child(n, n.properties[k].value);
      UnfoldSpells(g, n.properties[k].value, height - 1);
    }
    forall i | 0 <= i < |n.anyOf| && n.anyOf[i].Some?
      ensures n.anyOf[i].value in g && Unfold(g, n.anyOf[i].value, height - 1).Some?
    {
      assert Child(n, n.anyOf[i].value);
    }
    AlternativesKept(g, n.anyOf, height - 1);
    var ids := NonNil(n.anyOf);
    forall i | 0 <= i < |ids| ensures Spells(g, ids[i], height - 1, UnfoldAll(g, n.anyOf, height - 1)[i]) {
      UnfoldSpells(g, ids[i], height - 1);
    }
  }

  lemma UnfoldPositive(g: Graph, id: Id, height: nat)
    requires Closed(g) && id in g && Unfold(g, id, height).Some?
    ensures height > 0
  {
  }

  lemma NoAlternatives(g: Graph, height: nat)
    requires Closed(g)
    ensures AnyOfConverted(g, [], height, [])
  {
  }

  lemma OnPath(g: Graph, id: Id, seen: set<Id>)
    requires id in g && id in seen
    ensures Blocked(g, id, seen)
  {
    assert Walk(g, [id]) && [id][0] == id && [id][|[id]| - 1] in seen;
  }

  /** The whole conversion: an error exactly when a cycle is reachable, and otherwise an object that says what the
      graph says, the finite unfolding with shared subschemas spelled out at each use. */
  method Convert(g: Graph, root: Id) returns (r: Result<Schema>)
    requires Closed(g) && root in g
    ensures r.SelfReference? <==> CycleFrom(g, root)
    ensures r.Ok? ==> Unfold(g, root, |g|) == Some(r.value) && Spells(g, root, |g|, r.value)
  {
    var converter := new Converter(g);
    r := converter.Convert(root);
    assert g.Keys - {} == g.Keys && |g.Keys| == |g|;
    if r.SelfReference? {
      ghost var p :| Walk(g, p) && p[0] == root && (p[|p| - 1] in {} || Returns(p));
      assert CycleFrom(g, root);
    } else if CycleFrom(g, root) {
      CycleHasNoUnfolding(g, root, |g|);
    }
    if r.Ok? { UnfoldSpells(g, root, |g|); }
  }
}
