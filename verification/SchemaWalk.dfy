/** The two walks over a Go type graph in structured.go: the JSON schema of a struct, and the lookup of
    the field that a JSON name decodes into. Both must find a terminating answer on cyclic graphs, and agree.

    A type is a node of a finite graph. */
module TypeGraph {
  import opened Options

  datatype Schema =
    | Unconstrained
    | Scalar(kind: string)
    | ArrayOf(items: Schema)
    | Object(props: map<string, Schema>)

  /** The json struct tag: absent, "-", with a name, or with options only. */
  datatype Tag = NoTag | Dash | Named(name: string) | OptionsOnly

  datatype Field = Field(goName: string, tag: Tag, anonymous: bool, exported: bool, asString: bool, typ: nat)

  datatype Shape =
    | StructShape(fields: seq<Field>)
    | SliceShape(elem: nat)
    | PointerShape(elem: nat)
    | ScalarShape(kind: string)
    | OpenShape                    // maps, interfaces and anything else

  /** `special` is the schema specialSchemaForType gives the type, if any. */
  datatype Node = Node(shape: Shape, special: Option<Schema>, unmarshaler: bool)

  type Graph = map<nat, Node>

  /** Every type mentioned is in the graph. */
  predicate Linked(g: Graph) {
    forall t | t in g ::
      match g[t].shape
      case StructShape(fields) => forall i | 0 <= i < |fields| :: fields[i].typ in g
      case SliceShape(elem) => elem in g
      case PointerShape(elem) => elem in g
      case ScalarShape(_) => true
      case OpenShape => true
  }

  // ---- Following pointers ----

  predicate IsPointer(g: Graph, t: nat) {
    t in g && g[t].shape.PointerShape?
  }

  /** Up to `n` pointers followed from `t`. */
  function Hop(g: Graph, t: nat, n: nat): nat
    decreases n
  {
    if n == 0 || !IsPointer(g, t) then t else Hop(g, g[t].shape.elem, n - 1)
  }

  /** A finite graph of types in which following pointers always ends. */
  predicate Closed(g: Graph) {
    Linked(g) && forall t | t in g :: !IsPointer(g, Hop(g, t, |g|))
  }

  /** What `t` points to in the end; itself if it is no pointer. */
  function Base(g: Graph, t: nat): (b: nat)
    requires Closed(g) && t in g
    ensures b in g && !IsPointer(g, b)
    ensures !IsPointer(g, t) ==> b == t
  {
    HopStays(g, t, |g|);
    Hop(g, t, |g|)
  }

  lemma {:induction false} HopStays(g: Graph, t: nat, n: nat)
    requires Linked(g) && t in g
    ensures Hop(g, t, n) in g
    decreases n
  {
    if n > 0 && IsPointer(g, t) { HopStays(g, g[t].shape.elem, n - 1); }
  }

  lemma {:induction false} HopsAdd(g: Graph, t: nat, m: nat, n: nat)
    ensures Hop(g, t, m + n) == Hop(g, Hop(g, t, m), n)
    decreases m
  {
    if m > 0 && IsPointer(g, t) { HopsAdd(g, g[t].shape.elem, m - 1, n); }
  }

  /** The loop that follows pointers from `t` ends. */
  ghost predicate PointersEnd(g: Graph, t: nat) {
    exists n: nat :: !IsPointer(g, Hop(g, t, n))
  }

  /** From `t` pointers lead round in a circle, as from a type declared as a pointer to itself. */
  ghost predicate PointerCycle(g: Graph, t: nat) {
    exists n: nat, k: nat :: k > 0 && IsPointer(g, Hop(g, t, n)) && Hop(g, Hop(g, t, n), k) == Hop(g, t, n)
  }

  /** A type declared as a pointer to itself is such a case. */
  lemma SelfPointer()
    ensures var g: Graph := map[0 := Node(PointerShape(0), None, false)]; Linked(g) && !PointersEnd(g, 0)
  {
    var g: Graph := map[0 := Node(PointerShape(0), None, false)];
    assert IsPointer(g, Hop(g, 0, 0)) && Hop(g, Hop(g, 0, 0), 1) == Hop(g, 0, 0);
    CycleNeverEnds(g, 0);
  }

  function Hops(g: Graph, t: nat, n: nat): seq<nat> {
    seq(n, i requires 0 <= i < n => Hop(g, t, i))
  }

  lemma {:induction false} Pigeonhole(s: seq<nat>, keys: set<nat>)
    requires (forall i | 0 <= i < |s| :: s[i] in keys) && |s| > |keys|
    ensures exists i: nat, j: nat :: i < j < |s| && s[i] == s[j]
  {
    var last := |s| - 1;
    if i: nat :| i < last && s[i] == s[last] {
    } else {
      Pigeonhole(s[..last], keys - {s[last]});
      var i: nat, j: nat :| i < j < last && s[..last][i] == s[..last][j];
      assert s[i] == s[j];
    }
  }

  /** A walk of pointers has pointers all along. */
  lemma PointersBefore(g: Graph, t: nat, m: nat, n: nat)
    requires m <= n && IsPointer(g, Hop(g, t, n))
    ensures IsPointer(g, Hop(g, t, m))
  {
    HopsAdd(g, t, m, n - m);
  }

  lemma {:induction false} CycleGoesOn(g: Graph, t: nat, k: nat, n: nat)
    requires k > 0 && IsPointer(g, t) && Hop(g, t, k) == t
    ensures IsPointer(g, Hop(g, t, n))
    decreases n
  {
    if n >= k {
      HopsAdd(g, t, k, n - k);
      CycleGoesOn(g, t, k, n - k);
    } else {
      PointersBefore(g, t, n, k);
    }
  }

  lemma CycleNeverEnds(g: Graph, t: nat)
    requires PointerCycle(g, t)
    ensures !PointersEnd(g, t)
  {
    var n: nat, k: nat :| k > 0 && IsPointer(g, Hop(g, t, n)) && Hop(g, Hop(g, t, n), k) == Hop(g, t, n);
    forall m: nat ensures IsPointer(g, Hop(g, t, m)) {
      if m >= n {
        HopsAdd(g, t, n, m - n);
        CycleGoesOn(g, Hop(g, t, n), k, m - n);
      } else {
        PointersBefore(g, t, m, n);
      }
    }
  }

  /** Following pointers ends, after at most as many as there are types, exactly if they do not lead round in a
      circle. */
  lemma PointersEndExactly(g: Graph, t: nat)
    requires Linked(g) && t in g
    ensures PointersEnd(g, t) <==> !IsPointer(g, Hop(g, t, |g|))
    ensures PointersEnd(g, t) <==> !PointerCycle(g, t)
  {
    hide PointerCycle, Hop, IsPointer;
    if PointerCycle(g, t) { CycleNeverEnds(g, t); }
    if IsPointer(g, Hop(g, t, |g|)) { LongWalkCycles(g, t); }
  }

  lemma LongWalkCycles(g: Graph, t: nat)
    requires Linked(g) && t in g && IsPointer(g, Hop(g, t, |g|))
    ensures PointerCycle(g, t)
  {
    var s := Hops(g, t, |g| + 1);
    forall i | 0 <= i < |s| ensures s[i] in g.Keys { HopStays(g, t, i); }
    Pigeonhole(s, g.Keys);
    var i: nat, j: nat :| i < j < |s| && s[i] == s[j];
    HopsAdd(g, t, i, j - i);
    PointersBefore(g, t, i, |g|);
    var k: nat := j - i;
    assert k > 0 && IsPointer(g, Hop(g, t, i)) && Hop(g, Hop(g, t, i), k) == Hop(g, t, i);
  }

  predicate IsStruct(g: Graph, t: nat) {
    t in g && g[t].shape.StructShape?
  }

  function Fields(g: Graph, t: nat): seq<Field>
    requires IsStruct(g, t)
  {
    g[t].shape.fields
  }

  /** jsonFieldName: None for a field tagged "-". */
  function JSONName(f: Field): Option<string> {
    match f.tag
    case Dash => None
    case Named(name) => Some(name)
    case NoTag => Some(f.goName)
    case OptionsOnly => Some(f.goName)
  }

  /** The type of a field, pointers followed. */
  function Target(g: Graph, f: Field): (t: nat)
    requires Closed(g) && f.typ in g
    ensures t in g && !IsPointer(g, t)
  {
    Base(g, f.typ)
  }

  predicate NameEmpty(f: Field) {
    f.tag.NoTag? || f.tag.OptionsOnly?
  }

  /** What a walk does with a field: skip it, take it under a name, or promote the fields of its struct. */
  datatype Class = Ignored | Direct(name: string) | Promoted

  function ByName(f: Field): Class {
    match JSONName(f) case None => Ignored case Some(name) => Direct(name)
  }

  /** The schema walk's decision (schemaForStructChain with mergeEmbeddedSchema). */
  function SchemaClass(g: Graph, f: Field): Class
    requires Closed(g) && f.typ in g
  {
    if !f.exported && (!f.anonymous || !IsStruct(g, Target(g, f))) then Ignored
    else if f.anonymous && f.tag.Dash? then Ignored
    else if f.anonymous && NameEmpty(f) && IsStruct(g, Target(g, f)) && g[Target(g, f)].special.None?
      && !g[Target(g, f)].unmarshaler
    then Promoted
    else ByName(f)
  }

  /** The lookup's decision (structFieldByJSONNameDepth). */
  function LookupClass(g: Graph, f: Field): Class
    requires Closed(g) && f.typ in g
  {
    if f.anonymous && IsStruct(g, Target(g, f)) && NameEmpty(f) then Promoted
    else if !f.exported then Ignored
    else ByName(f)
  }

  /** The two walks part ways on a field exactly when it embeds a struct of special or custom-decoded form without
      a name, or embeds an unexported struct under an explicit name. */
  lemma ClassesDiffer(g: Graph, f: Field)
    requires Closed(g) && f.typ in g
    ensures SchemaClass(g, f) != LookupClass(g, f) <==>
      f.anonymous && IsStruct(g, Target(g, f)) &&
      ((NameEmpty(f) && (g[Target(g, f)].special.Some? || g[Target(g, f)].unmarshaler))
        || (!f.exported && f.tag.Named?))
  {
  }

  /** A walk is given by its decision and by when a field's name matches the one asked for. */
  datatype Rule = Exact | Folded(fold: string -> string)

  function Classify(g: Graph, f: Field, rule: Rule): Class
    requires Closed(g) && f.typ in g
  {
    match rule case Exact => SchemaClass(g, f) case Folded(_) => LookupClass(g, f)
  }

  predicate Matches(rule: Rule, name: string, asked: string) {
    match rule case Exact => name == asked case Folded(fold) => fold(name) == fold(asked)
  }

  // ---- The reference definition ----

  /** A field found for a name: which one, and how many embeddings deep. */
  datatype Found = Found(owner: nat, index: nat, depth: nat)

  function Deeper(f: Found): Found { f.(depth := f.depth + 1) }

  /** Candidate i is strictly shallower than every other. */
  ghost predicate Dominates(cands: seq<Found>, i: nat) {
    i < |cands| && forall j | 0 <= j < |cands| && j != i :: cands[i].depth < cands[j].depth
  }

  /** The one shallowest candidate; none when there is none or the shallowest depth is ambiguous. */
  ghost function Pick(cands: seq<Found>): Option<Found> {
    if exists i: nat :: Dominates(cands, i) then
      var i: nat :| Dominates(cands, i);
      Some(cands[i])
    else None
  }

  /** What `name` resolves to in struct `t`, reached through the structs of `chain`: the pick among its own fields of
      that name and what its embedded structs resolve it to, one level deeper. A struct already on the chain gives
      nothing. */
  ghost function Resolve(g: Graph, t: nat, name: string, chain: set<nat>, rule: Rule): Option<Found>
    requires Closed(g) && IsStruct(g, t) && t !in chain
    decreases g.Keys - chain, 1, 0
  {
    Pick(Candidates(g, t, name, chain, rule, |Fields(g, t)|))
  }

  /** The candidates among the first `n` fields. */
  ghost function Candidates(g: Graph, t: nat, name: string, chain: set<nat>, rule: Rule, n: nat): seq<Found>
    requires Closed(g) && IsStruct(g, t) && t !in chain && n <= |Fields(g, t)|
    decreases g.Keys - chain, 0, n
  {
    if n == 0 then []
    else Candidates(g, t, name, chain, rule, n - 1) + Candidate(g, t, name, chain, rule, n - 1)
  }

  ghost function Candidate(g: Graph, t: nat, name: string, chain: set<nat>, rule: Rule, i: nat): seq<Found>
    requires Closed(g) && IsStruct(g, t) && t !in chain && i < |Fields(g, t)|
    decreases g.Keys - chain, 0, i
  {
    var f := Fields(g, t)[i];
    match Classify(g, f, rule)
    case Ignored => []
    case Direct(own) => if Matches(rule, own, name) then [Found(t, i, 0)] else []
    case Promoted =>
      if Target(g, f) in chain + {t} || !IsStruct(g, Target(g, f)) then []
      else
        assert t in g.Keys - chain && t !in g.Keys - (chain + {t});
        match Resolve(g, Target(g, f), name, chain + {t}, rule)
        case None => []
        case Some(found) => [Deeper(found)]
  }

  // ---- Structs without embedding ----

  /** encoding/json reads field `f` under `name`: its tag names it so, or leaves the name to the field's own. */
  predicate ReadUnder(f: Field, name: string) {
    f.exported && (f.tag == Named(name) || ((f.tag.NoTag? || f.tag.OptionsOnly?) && f.goName == name))
  }

  /** The fields read under `name`, among the first `n`. */
  function Hits(fields: seq<Field>, name: string, n: nat): seq<nat>
    requires n <= |fields|
  {
    if n == 0 then [] else Hits(fields, name, n - 1) + if ReadUnder(fields[n - 1], name) then [n - 1] else []
  }

  predicate Flat(fields: seq<Field>) {
    forall i | 0 <= i < |fields| :: !fields[i].anonymous
  }

  lemma {:induction false} FlatCandidates(g: Graph, t: nat, name: string, n: nat)
    requires Closed(g) && IsStruct(g, t) && Flat(Fields(g, t)) && n <= |Fields(g, t)|
    ensures var cands, hits := Candidates(g, t, name, {}, Exact, n), Hits(Fields(g, t), name, n);
      |cands| == |hits| && forall k | 0 <= k < |hits| :: cands[k] == Found(t, hits[k], 0)
  {
    if n > 0 {
      FlatCandidates(g, t, name, n - 1);
      var f := Fields(g, t)[n - 1];
      assert !f.anonymous && f.typ in g;
      assert Candidate(g, t, name, {}, Exact, n - 1) == if ReadUnder(f, name) then [Found(t, n - 1, 0)] else [];
    }
  }

  /** Among candidates of one depth only a single one is picked. */
  lemma {:induction false} LevelPick(cands: seq<Found>)
    requires forall k | 0 <= k < |cands| :: cands[k].depth == 0
    ensures Pick(cands) == if |cands| == 1 then Some(cands[0]) else None
  {
    forall i: nat ensures Dominates(cands, i) <==> i == 0 && |cands| == 1 {
      assert i < |cands| && |cands| > 1 ==> cands[i].depth == cands[if i == 0 then 1 else 0].depth;
    }
    assert |cands| == 1 ==> Dominates(cands, 0);
  }

  /** In a struct that embeds nothing a name resolves to the field that is read under it, if there is exactly one. */
  lemma FlatResolves(g: Graph, t: nat, name: string)
    requires Closed(g) && IsStruct(g, t) && Flat(Fields(g, t))
    ensures var hits := Hits(Fields(g, t), name, |Fields(g, t)|);
      Resolve(g, t, name, {}, Exact) == if |hits| == 1 then Some(Found(t, hits[0], 0)) else None
  {
    FlatCandidates(g, t, name, |Fields(g, t)|);
    var cands := Candidates(g, t, name, {}, Exact, |Fields(g, t)|);
    LevelPick(cands);
  }

  // ---- Running tallies, which both walks keep ----

  /** The shallowest depth so far, how many candidates have it, and the first of them. */
  datatype Tally = Nothing | Best(first: Found, count: nat)

  function Count(tally: Tally, c: Found): Tally {
    match tally
    case Nothing => Best(c, 1)
    case Best(first, count) =>
      if c.depth < first.depth then Best(c, 1)
      else if c.depth == first.depth then Best(first, count + 1)
      else tally
  }

  function TallyOf(cands: seq<Found>): Tally {
    if cands == [] then Nothing else Count(TallyOf(cands[..|cands| - 1]), cands[|cands| - 1])
  }

  function Winner(tally: Tally): Option<Found> {
    match tally
    case Nothing => None
    case Best(first, count) => if count > 1 then None else Some(first)
  }

  /** What a tally knows: the first candidate of least depth, and whether it is the only one. */
  lemma {:induction false} TallyMeaning(cands: seq<Found>)
    ensures TallyOf(cands).Nothing? <==> cands == []
    ensures var tally := TallyOf(cands);
      tally.Best? ==>
        && tally.count >= 1
        && (forall j | 0 <= j < |cands| :: tally.first.depth <= cands[j].depth)
        && (exists i :: 0 <= i < |cands| && cands[i] == tally.first && (tally.count == 1 ==> Dominates(cands, i))
              && (tally.count > 1 ==> exists j :: 0 <= j < |cands| && j != i && cands[j].depth == tally.first.depth))
  {
    if cands != [] {
      var front, c := cands[..|cands| - 1], cands[|cands| - 1];
      TallyMeaning(front);
      var tally := TallyOf(front);
      var last := |cands| - 1;
      if tally.Nothing? || c.depth < tally.first.depth {
        assert forall j | 0 <= j < last :: front[j] == cands[j];
        assert Dominates(cands, last);
      } else {
        var i :| 0 <= i < |front| && front[i] == tally.first && (tally.count == 1 ==> Dominates(front, i))
                 && (tally.count > 1 ==> exists j :: 0 <= j < |front| && j != i && front[j].depth == tally.first.depth);
        assert cands[i] == tally.first;
        assert forall j | 0 <= j < last :: front[j] == cands[j];
        if c.depth == tally.first.depth {
          assert cands[last].depth == tally.first.depth && last != i;
        } else if tally.count == 1 {
          assert Dominates(cands, i);
        } else {
          var j :| 0 <= j < |front| && j != i && front[j].depth == tally.first.depth;
          assert cands[j].depth == tally.first.depth;
        }
      }
    }
  }

  /** The running tally decides as the reference definition does. */
  lemma TallyPicks(cands: seq<Found>)
    ensures Winner(TallyOf(cands)) == Pick(cands)
  {
    TallyMeaning(cands);
    var tally := TallyOf(cands);
    if exists i: nat :: Dominates(cands, i) {
      var k: nat :| Dominates(cands, k) && Pick(cands) == Some(cands[k]);
      OnlyLeast(cands, k, tally);
    }
  }

  lemma OnlyLeast(cands: seq<Found>, k: nat, tally: Tally)
    requires Dominates(cands, k) && tally.Best? && tally.count >= 1 && tally.first.depth <= cands[k].depth
    requires exists i :: 0 <= i < |cands| && cands[i] == tally.first
              && (tally.count > 1 ==> exists j :: 0 <= j < |cands| && j != i && cands[j].depth == tally.first.depth)
    ensures tally.count == 1 && tally.first == cands[k]
  {
  }

  lemma TallyAppend(cands: seq<Found>, c: Found)
    ensures TallyOf(cands + [c]) == Count(TallyOf(cands), c)
  {
    assert (cands + [c])[..|cands|] == cands;
  }
}
