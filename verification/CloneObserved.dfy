/** What a caller can observe of a metadata clone: every access path leads to the copy of what it leads to on the
    original, storage is shared as in the original where each has one type, and neither side can be written through
    the other. */
module CloneObserved {
  import opened DeepCopy
  import opened Options

  /** One access: through an interface, a pointer, an index, an exported field, to the value under a map key, or to the
      key itself. */
  datatype Step = Open | Deref | At(i: nat) | FieldAt(i: nat) | Lookup(key: Value) | KeyOf(key: Value)

  predicate ByKey(step: Step) {
    step.Lookup? || step.KeyOf?
  }

  ghost function Access(cells: Cells, v: Value, step: Step): Option<Value> {
    match step
    case Open => if v.Boxed? then Some(v.inner) else None
    case Deref =>
      if v.Reference? && v.ref.loc in cells && cells[v.ref.loc].PointerCell? then Some(cells[v.ref.loc].v) else None
    case At(i) =>
      if v.Array? && i < |v.elems| then Some(v.elems[i])
      else if v.Reference? && v.ref.loc in cells && cells[v.ref.loc].SliceCell? && i < |cells[v.ref.loc].elems|
      then Some(cells[v.ref.loc].elems[i]) else None
    case FieldAt(i) =>
      if v.Struct? && i < |v.fields| && v.fields[i].exported then Some(v.fields[i].v) else None
    case Lookup(k) => if HasKey(cells, v, k) then Some(cells[v.ref.loc].entries[k]) else None
    case KeyOf(k) => if HasKey(cells, v, k) then Some(k) else None
  }

  ghost predicate HasKey(cells: Cells, v: Value, k: Value) {
    v.Reference? && v.ref.loc in cells && cells[v.ref.loc].MapCell? && k in cells[v.ref.loc].entries
  }

  ghost function Follow(cells: Cells, v: Value, path: seq<Step>): Option<Value>
    decreases |path|
  {
    if path == [] then Some(v)
    else match Access(cells, v, path[0])
      case None => None
      case Some(x) => Follow(cells, x, path[1..])
  }

  ghost function StepImage(step: Step, m: Memo): Step {
    match step
    case Lookup(k) => Lookup(Image(k, m))
    case KeyOf(k) => KeyOf(Image(k, m))
    case _ => step
  }

  ghost function PathImage(path: seq<Step>, m: Memo): seq<Step> {
    seq(|path|, i requires 0 <= i < |path| => StepImage(path[i], m))
  }

  /** The keys a path uses are values of the original heap. */
  ghost predicate PathOver(path: seq<Step>, s: set<Ref>) {
    forall i | 0 <= i < |path| && ByKey(path[i]) :: WF(path[i].key, s)
  }

  /** `w` is the copy of `v`, as a slot of v's type holds it or as an interface does. */
  ghost predicate CopyOf(v: Value, w: Value, m: Memo) {
    w == Image(v, m) || w == Concrete(v, m)
  }

  ghost predicate OptionCopy(v: Option<Value>, w: Option<Value>, m: Memo) {
    (v.Some? <==> w.Some?) && (v.Some? ==> CopyOf(v.value, w.value, m))
  }

  /** The part of Isomorphic that does not mention the root. */
  ghost predicate Copied(orig: Heap, cells: Cells, m: Memo) {
    && Closed(orig) && Injective(m) && m.Keys <= orig.views && Apart(m, orig.views)
    && (forall r | r in m :: orig.Has(r) && CellWF(orig.At(r), m.Keys))
    && (forall r | r in m :: m[r].loc in cells && m[r].loc !in orig.cells && CopiedCell(orig.At(r), cells[m[r].loc], m))
    && (forall r | r in m :: SameShape(r, m[r]))
  }

  lemma IsomorphicCopied(orig: Heap, v: Value, cells: Cells, w: Value, m: Memo)
    requires Closed(orig) && WF(v, orig.views) && Isomorphic(orig, v, cells, w, m)
    ensures Copied(orig, cells, m) && WF(v, m.Keys)
    ensures !v.Boxed? ==> CopyOf(v, w, m)
  {
    ReachIsClosed(orig, v);
  }

  // ---- Paths lead to copies ----

  /** Looking a key's image up in the copy of a map finds the image of what the key finds. */
  lemma LookupCommutes(orig: Heap, cells: Cells, m: Memo, r: Ref, k: Value)
    requires Copied(orig, cells, m) && r in m && orig.At(r).MapCell? && WF(k, orig.views)
    ensures cells[m[r].loc].MapCell?
    ensures Image(k, m) in cells[m[r].loc].entries <==> k in orig.At(r).entries
    ensures k in orig.At(r).entries ==> cells[m[r].loc].entries[Image(k, m)] == Image(orig.At(r).entries[k], m)
  {
    hide Image, WF, Closed, Apart;
    assert CopiedCell(orig.At(r), cells[m[r].loc], m);
    if Image(k, m) in cells[m[r].loc].entries {
      var j := TheKey(Image(k, m), orig.At(r).entries.Keys, m);
      KeyOver(orig, r, j);
      ImageInjective(k, j, m, orig.views);
    }
  }

  lemma KeyOver(orig: Heap, r: Ref, k: Value)
    requires Closed(orig) && orig.Has(r) && orig.At(r).MapCell? && k in orig.At(r).entries
    ensures WF(k, orig.views)
  {
  }

  lemma AccessCommutes(orig: Heap, cells: Cells, m: Memo, v: Value, w: Value, step: Step)
    requires Copied(orig, cells, m) && WF(v, m.Keys) && CopyOf(v, w, m) && (ByKey(step) ==> WF(step.key, orig.views))
    ensures OptionCopy(Access(orig.cells, v, step), Access(cells, w, StepImage(step, m)), m)
    ensures Access(orig.cells, v, step).Some? ==> WF(Access(orig.cells, v, step).value, m.Keys)
  {
    if v.Reference? {
      var r := v.ref;
      assert CopiedCell(orig.At(r), cells[m[r].loc], m) && CellWF(orig.At(r), m.Keys);
      if ByKey(step) && orig.At(r).MapCell? { LookupCommutes(orig, cells, m, r, step.key); }
    }
  }

  /** Along every access path the clone gives the copy of what the original gives. */
  lemma {:induction false} FollowCommutes(orig: Heap, cells: Cells, m: Memo, v: Value, w: Value, path: seq<Step>)
    requires Copied(orig, cells, m) && WF(v, m.Keys) && CopyOf(v, w, m) && PathOver(path, orig.views)
    ensures OptionCopy(Follow(orig.cells, v, path), Follow(cells, w, PathImage(path, m)), m)
    ensures Follow(orig.cells, v, path).Some? ==> WF(Follow(orig.cells, v, path).value, m.Keys)
    decreases |path|
  {
    hide Copied, WF, CopyOf, Access, StepImage;
    if path != [] {
      AccessCommutes(orig, cells, m, v, w, path[0]);
      assert PathImage(path, m)[1..] == PathImage(path[1..], m);
      match Access(orig.cells, v, path[0])
      case None =>
      case Some(x) => FollowCommutes(orig, cells, m, x, Access(cells, w, StepImage(path[0], m)).value, path[1..]);
    }
  }

  // ---- What a path finds looks the same ----

  /** `a` in `c0` and `b` in `c1` look the same before any part of them is followed: the same scalar, the same nil, a
      container of the same type and size with the same unexported fields, or references of one kind, length and type,
      but that a pointer of a defined type may have become one of the pointer literal, to content of one size. */
  ghost predicate SameLook(c0: Cells, a: Value, c1: Cells, b: Value) {
    match a
    case Scalar(n) => b == Scalar(n)
    case Nil(t) => b == Nil(t)
    case Boxed(_) => b.Boxed?
    case Array(t, es) => b.Array? && b.typ == t && |b.elems| == |es|
    case Struct(t, fs) =>
      && b.Struct? && b.typ == t && |b.fields| == |fs|
      && forall i | 0 <= i < |fs| :: b.fields[i].exported == fs[i].exported && (fs[i].exported || b.fields[i] == fs[i])
    case Reference(r) =>
      && b.Reference? && b.ref.loc.kind == r.loc.kind && b.ref.loc.len == r.loc.len
      && (b.ref.typ == r.typ || (r.loc.kind == Pointer && b.ref.typ == Literal(r.typ.under)))
      && r.loc in c0 && b.ref.loc in c1 && SameSize(c0[r.loc], c1[b.ref.loc])
  }

  ghost predicate SameSize(c: Cell, d: Cell) {
    match c
    case PointerCell(_) => d.PointerCell?
    case SliceCell(es) => d.SliceCell? && |d.elems| == |es|
    case MapCell(ks) => d.MapCell? && |d.entries| == |ks|
  }

  lemma CopyLooksSame(orig: Heap, cells: Cells, m: Memo, v: Value, w: Value)
    requires Copied(orig, cells, m) && WF(v, m.Keys) && CopyOf(v, w, m)
    ensures SameLook(orig.cells, v, cells, w)
  {
    if v.Reference? { assert CopiedCell(orig.At(v.ref), cells[m[v.ref].loc], m) && SameShape(v.ref, m[v.ref]); }
  }

  /** A value that mentions no reference is its own copy. */
  lemma {:induction false} PlainKept(v: Value, m: Memo)
    requires WF(v, {})
    ensures Image(v, m) == v
  {
    match v
    case Scalar(_) =>
    case Nil(_) =>
    case Boxed(x) => PlainKept(x, m);
    case Array(_, es) =>
      forall i | 0 <= i < |es| ensures Image(es[i], m) == es[i] { PlainKept(es[i], m); }
    case Struct(_, fs) =>
      forall i | 0 <= i < |fs| && fs[i].exported ensures Image(fs[i].v, m) == fs[i].v { PlainKept(fs[i].v, m); }
      assert Image(v, m).fields == fs;
  }

  lemma {:induction false} PlainPathKept(path: seq<Step>, m: Memo, s: set<Ref>)
    requires PathOver(path, {})
    ensures PathImage(path, m) == path && PathOver(path, s)
  {
    hide WF, Image;
    forall i | 0 <= i < |path| ensures StepImage(path[i], m) == path[i] && (ByKey(path[i]) ==> WF(path[i].key, s)) {
      if ByKey(path[i]) {
        PlainKept(path[i].key, m);
        WFGrows(path[i].key, {}, s);
      }
    }
  }

  /** What is stored for a metadata value: an interface is opened. */
  function Opened(v: Value): Value {
    if v.Boxed? then v.inner else v
  }

  lemma OpenedCopy(orig: Heap, v: Value, cells: Cells, w: Value, m: Memo)
    requires Closed(orig) && WF(v, orig.views) && Isomorphic(orig, v, cells, w, m)
    ensures Copied(orig, cells, m) && WF(Opened(v), m.Keys) && CopyOf(Opened(v), w, m)
  {
    IsomorphicCopied(orig, v, cells, w, m);
  }

  /** A path finds something in the clone exactly when it does in the original, and what it finds looks the same. Keys
      on the path mention no reference; such a key of a map is a key of its copy. */
  lemma {:induction false} CloneLooksSame(orig: Heap, v: Value, cells: Cells, w: Value, m: Memo, path: seq<Step>)
    requires Closed(orig) && WF(v, orig.views) && Isomorphic(orig, v, cells, w, m) && PathOver(path, {})
    ensures SameFound(orig.cells, Follow(orig.cells, Opened(v), path), cells, Follow(cells, w, path))
  {
    hide WF, Closed, Isomorphic, Copied, CopyOf, Follow, SameLook;
    OpenedCopy(orig, v, cells, w, m);
    PlainPathKept(path, m, orig.views);
    FollowCommutes(orig, cells, m, Opened(v), w, path);
    var x := Follow(orig.cells, Opened(v), path);
    if x.Some? { CopyLooksSame(orig, cells, m, x.value, Follow(cells, w, path).value); }
  }

  ghost predicate SameFound(c0: Cells, x: Option<Value>, c1: Cells, y: Option<Value>) {
    (x.Some? <==> y.Some?) && (x.Some? ==> SameLook(c0, x.value, c1, y.value))
  }

  /** The same of a whole metadata map: it has the original's keys, and under each a value that looks the same along
      every path. */
  lemma {:induction false} MetadataLooksSame(orig: Heap, meta: map<string, Value>, cells: Cells,
                                             out: map<string, Value>, memos: map<string, Memo>, k: string,
                                             path: seq<Step>)
    requires Closed(orig) && (forall j | j in meta :: WF(meta[j], orig.views))
    requires out.Keys == meta.Keys && Cloned(orig, meta, cells, out, memos) && k in meta && PathOver(path, {})
    ensures SameFound(orig.cells, Follow(orig.cells, Opened(meta[k]), path), cells, Follow(cells, out[k], path))
  {
    CloneLooksSame(orig, meta[k], cells, out[k], memos[k], path);
  }

  // ---- Static types ----

  /** The copy of a reference has its static type unless that is a defined pointer type. */
  lemma TypeKeptExactly(orig: Heap, cells: Cells, m: Memo, r: Ref)
    requires Copied(orig, cells, m) && r in m
    ensures m[r].typ == r.typ <==> !(r.loc.kind == Pointer && r.typ.Defined?)
  {
    assert SameShape(r, m[r]);
  }

  /** No pointer of a defined type is among what is copied. */
  ghost predicate LiteralPointers(m: Memo) {
    forall r | r in m :: !(r.loc.kind == Pointer && r.typ.Defined?)
  }

  /** Then a copy in an interface is the same as one in a slot. */
  lemma CopyIsImage(orig: Heap, cells: Cells, m: Memo, v: Value, w: Value)
    requires Copied(orig, cells, m) && LiteralPointers(m) && CopyOf(v, w, m)
    ensures w == Image(v, m)
  {
    if v.Reference? && v.ref in m { TypeKeptExactly(orig, cells, m, v.ref); }
  }

  // ---- Sharing ----

  /** Both lead to references to the same storage. */
  ghost predicate Shared(x: Option<Value>, y: Option<Value>) {
    && x.Some? && x.value.Reference? && y.Some? && y.value.Reference?
    && x.value.ref.loc == y.value.ref.loc
  }

  /** Equal but for the static type of a reference. */
  ghost predicate Same(x: Option<Value>, y: Option<Value>) {
    x == y || Shared(x, y)
  }

  /** Copies that are the same stem from the same value. */
  lemma CopyInjective(orig: Heap, cells: Cells, m: Memo, x: Value, y: Value, a: Value, b: Value)
    requires Copied(orig, cells, m) && WF(x, m.Keys) && WF(y, m.Keys) && CopyOf(x, a, m) && CopyOf(y, b, m)
    ensures x == y <==> Same(Some(a), Some(b))
  {
    if Same(Some(a), Some(b)) {
      if x.Reference? || y.Reference? {
      } else {
        WFGrows(x, m.Keys, orig.views);
        WFGrows(y, m.Keys, orig.views);
        ImageInjective(x, y, m, orig.views);
      }
    }
  }

  /** Two access paths end in the same value of the clone, but for the static type of a reference, exactly when they end
      in the same value of the original: sharing and cycles under one type are neither lost nor invented. */
  lemma SharingPreserved(orig: Heap, cells: Cells, m: Memo, v: Value, w: Value, p: seq<Step>, q: seq<Step>)
    requires Copied(orig, cells, m) && WF(v, m.Keys) && CopyOf(v, w, m) && PathOver(p, orig.views)
    requires PathOver(q, orig.views)
    ensures Same(Follow(cells, w, PathImage(p, m)), Follow(cells, w, PathImage(q, m)))
       <==> Follow(orig.cells, v, p) == Follow(orig.cells, v, q)
  {
    hide Copied, WF, CopyOf;
    FollowCommutes(orig, cells, m, v, w, p);
    FollowCommutes(orig, cells, m, v, w, q);
    var x, y := Follow(orig.cells, v, p), Follow(orig.cells, v, q);
    if x.Some? && y.Some? {
      CopyInjective(orig, cells, m, x.value, y.value, Follow(cells, w, PathImage(p, m)).value,
                    Follow(cells, w, PathImage(q, m)).value);
    }
  }

  /** No storage is seen under two types. */
  ghost predicate OneTypeEach(s: set<Ref>) {
    forall r, q | r in s && q in s && r.loc == q.loc :: r == q
  }

  /** Wherever two paths into the original share storage, they do so into the clone. */
  ghost predicate StorageSharingKept(orig: Heap, cells: Cells, m: Memo, v: Value, w: Value) {
    forall p, q | PathOver(p, orig.views) && PathOver(q, orig.views)
      && Shared(Follow(orig.cells, v, p), Follow(orig.cells, v, q)) ::
      Shared(Follow(cells, w, PathImage(p, m)), Follow(cells, w, PathImage(q, m)))
  }

  /** Sharing of storage survives the clone exactly when no storage is reachable under two types: storage seen under two
      types is copied once for each. */
  lemma SharingKeptExactly(orig: Heap, cells: Cells, m: Memo, v: Value, w: Value)
    requires Copied(orig, cells, m) && WF(v, m.Keys) && CopyOf(v, w, m) && m.Keys == Reach(orig, v)
    ensures StorageSharingKept(orig, cells, m, v, w) <==> OneTypeEach(Reach(orig, v))
  {
    hide WF, CopyOf, Image, Concrete, Reach, Closed, PathOver, Follow, Copied;
    if OneTypeEach(Reach(orig, v)) {
      forall p, q | PathOver(p, orig.views) && PathOver(q, orig.views)
        && Shared(Follow(orig.cells, v, p), Follow(orig.cells, v, q))
        ensures Shared(Follow(cells, w, PathImage(p, m)), Follow(cells, w, PathImage(q, m)))
      {
        OneTypeShares(orig, cells, m, v, w, p, q);
      }
    }
    if StorageSharingKept(orig, cells, m, v, w) {
      forall r, q | r in Reach(orig, v) && q in Reach(orig, v) && r.loc == q.loc ensures r == q {
        SharingGivesType(orig, cells, m, v, w, r, q);
      }
    }
  }

  lemma SharingGivesType(orig: Heap, cells: Cells, m: Memo, v: Value, w: Value, r: Ref, q: Ref)
    requires Copied(orig, cells, m) && WF(v, m.Keys) && CopyOf(v, w, m) && m.Keys == Reach(orig, v)
    requires StorageSharingKept(orig, cells, m, v, w) && r in Reach(orig, v) && q in Reach(orig, v) && r.loc == q.loc
    ensures r == q
  {
    hide WF, CopyOf, Image, Concrete, Reach, Closed, PathOver, Follow;
    var a := ReachedByPath(orig, v, r);
    var b := ReachedByPath(orig, v, q);
    assert Shared(Follow(orig.cells, v, a), Follow(orig.cells, v, b));
    assert Shared(Follow(cells, w, PathImage(a, m)), Follow(cells, w, PathImage(b, m)));
    SharingPreserved(orig, cells, m, v, w, a, b);
  }

  lemma OneTypeShares(orig: Heap, cells: Cells, m: Memo, v: Value, w: Value, p: seq<Step>, q: seq<Step>)
    requires Copied(orig, cells, m) && WF(v, m.Keys) && CopyOf(v, w, m) && PathOver(p, orig.views)
    requires PathOver(q, orig.views)
    requires OneTypeEach(m.Keys) && Shared(Follow(orig.cells, v, p), Follow(orig.cells, v, q))
    ensures Shared(Follow(cells, w, PathImage(p, m)), Follow(cells, w, PathImage(q, m)))
  {
    FollowCommutes(orig, cells, m, v, w, p);
    FollowCommutes(orig, cells, m, v, w, q);
    var x, y := Follow(orig.cells, v, p).value, Follow(orig.cells, v, q).value;
    assert x.ref in m && y.ref in m;
  }

  // ---- Every reachable reference has an access path ----

  lemma {:induction false} FollowOn(cells: Cells, v: Value, p: seq<Step>, q: seq<Step>)
    requires Follow(cells, v, p).Some?
    ensures Follow(cells, v, p + q) == Follow(cells, Follow(cells, v, p).value, q)
    decreases |p|
  {
    if p == [] {
      assert p + q == q;
    } else {
      assert (p + q)[1..] == p[1..] + q;
      FollowOn(cells, Access(cells, v, p[0]).value, p[1..], q);
    }
  }

  lemma PathsJoin(p: seq<Step>, q: seq<Step>, s: set<Ref>)
    requires PathOver(p, s) && PathOver(q, s)
    ensures PathOver(p + q, s)
  {
  }

  predicate NoKeys(p: seq<Step>) {
    forall i | 0 <= i < |p| :: !ByKey(p[i])
  }

  lemma {:induction false} MentionedByPath(cells: Cells, v: Value, r: Ref) returns (p: seq<Step>)
    requires Mentions(v, r)
    ensures Follow(cells, v, p) == Some(Reference(r)) && NoKeys(p)
  {
    match v
    case Reference(_) => p := [];
    case Boxed(x) =>
      var rest := MentionedByPath(cells, x, r);
      p := [Open] + rest;
    case Array(_, es) =>
      var i: nat :| i < |es| && Mentions(es[i], r);
      var rest := MentionedByPath(cells, es[i], r);
      p := [At(i)] + rest;
    case Struct(_, fs) =>
      var i: nat :| i < |fs| && fs[i].exported && Mentions(fs[i].v, r);
      var rest := MentionedByPath(cells, fs[i].v, r);
      p := [FieldAt(i)] + rest;
  }

  lemma CellMentionedByPath(orig: Heap, r: Ref, q: Ref) returns (p: seq<Step>)
    requires Closed(orig) && orig.Has(r) && CellMentions(orig.At(r), q)
    ensures Follow(orig.cells, Reference(r), p) == Some(Reference(q)) && PathOver(p, orig.views)
  {
    match orig.At(r)
    case PointerCell(x) =>
      var rest := MentionedByPath(orig.cells, x, q);
      p := [Deref] + rest;
    case SliceCell(es) =>
      var i: nat :| i < |es| && Mentions(es[i], q);
      var rest := MentionedByPath(orig.cells, es[i], q);
      p := [At(i)] + rest;
    case MapCell(ks) =>
      var k :| k in ks && (Mentions(k, q) || Mentions(ks[k], q));
      KeyOver(orig, r, k);
      if Mentions(k, q) {
        var rest := MentionedByPath(orig.cells, k, q);
        p := [KeyOf(k)] + rest;
        PathsJoin([KeyOf(k)], rest, orig.views);
      } else {
        var rest := MentionedByPath(orig.cells, ks[k], q);
        p := [Lookup(k)] + rest;
        PathsJoin([Lookup(k)], rest, orig.views);
      }
  }

  lemma ReachedByPath(orig: Heap, v: Value, r: Ref) returns (p: seq<Step>)
    requires Closed(orig) && r in Reach(orig, v)
    ensures Follow(orig.cells, v, p) == Some(Reference(r)) && PathOver(p, orig.views)
  {
    var path :| Path(orig, v, path) && path[|path| - 1] == r;
    p := AlongPath(orig, v, path);
  }

  lemma {:induction false} AlongPath(orig: Heap, v: Value, path: seq<Ref>) returns (p: seq<Step>)
    requires Closed(orig) && Path(orig, v, path)
    ensures Follow(orig.cells, v, p) == Some(Reference(path[|path| - 1])) && PathOver(p, orig.views)
  {
    if |path| == 1 {
      p := MentionedByPath(orig.cells, v, path[0]);
    } else {
      var front := path[..|path| - 1];
      var first := AlongPath(orig, v, front);
      var last := CellMentionedByPath(orig, front[|front| - 1], path[|path| - 1]);
      p := first + last;
      FollowOn(orig.cells, v, first, last);
      PathsJoin(first, last, orig.views);
    }
  }

  // ---- Storage seen under two types ----

  const TABLE := Loc(1, 0, Map)
  const LIST := Ref(Loc(2, 2, Slice), Literal(1))
  const AS_DEFINED := Ref(TABLE, Defined(1, 2))
  const AS_LITERAL := Ref(TABLE, Literal(2))

  /** A list of one map twice: once under a defined map type, once under the map type it is defined as. */
  ghost function TwoViews(): Heap {
    Heap(map[TABLE := MapCell(map[]),
             LIST.loc := SliceCell([Boxed(Reference(AS_DEFINED)), Boxed(Reference(AS_LITERAL))])],
         {LIST, AS_DEFINED, AS_LITERAL})
  }

  /** The original's two elements are one map; the clone's are two. */
  lemma TwoViewsSplit(cells: Cells, w: Value, m: Memo)
    requires Isomorphic(TwoViews(), Reference(LIST), cells, w, m)
    ensures Closed(TwoViews())
    ensures Shared(Follow(TwoViews().cells, Reference(LIST), [At(0), Open]),
                   Follow(TwoViews().cells, Reference(LIST), [At(1), Open]))
    ensures Follow(cells, w, [At(0), Open]).Some? && Follow(cells, w, [At(1), Open]).Some?
    ensures !Shared(Follow(cells, w, [At(0), Open]), Follow(cells, w, [At(1), Open]))
  {
    hide Isomorphic, Copied, Closed, WF, Follow, CopyOf, PathImage, TwoViews;
    var h, v := TwoViews(), Reference(LIST);
    var p, q := [At(0), Open], [At(1), Open];
    TwoViewsClosed();
    TwoViewsPaths(p, q, m);
    IsomorphicCopied(h, v, cells, w, m);
    FollowCommutes(h, cells, m, v, w, p);
    FollowCommutes(h, cells, m, v, w, q);
    SharingPreserved(h, cells, m, v, w, p, q);
  }

  lemma TwoViewsClosed()
    ensures Closed(TwoViews()) && WF(Reference(LIST), TwoViews().views)
  {
  }

  lemma TwoViewsPaths(p: seq<Step>, q: seq<Step>, m: Memo)
    requires p == [At(0), Open] && q == [At(1), Open]
    ensures PathImage(p, m) == p && PathImage(q, m) == q && PathOver(p, TwoViews().views)
    ensures PathOver(q, TwoViews().views)
    ensures Follow(TwoViews().cells, Reference(LIST), p) == Some(Reference(AS_DEFINED))
    ensures Follow(TwoViews().cells, Reference(LIST), q) == Some(Reference(AS_LITERAL))
  {
    assert PathImage(p, m) == p && PathImage(q, m) == q;
    assert p[1..] == [Open] && q[1..] == [Open] && [Open][1..] == [];
    var cells, v := TwoViews().cells, Reference(LIST);
    assert Access(cells, v, At(0)) == Some(Boxed(Reference(AS_DEFINED)));
    assert Access(cells, v, At(1)) == Some(Boxed(Reference(AS_LITERAL)));
  }

  // ---- Writing ----

  lemma {:induction false} WFGrows(v: Value, s: set<Ref>, t: set<Ref>)
    requires WF(v, s) && s <= t
    ensures WF(v, t)
  {
    forall r | Mentions(v, r) ensures r in t { MentionsInWF(v, s, r); }
    WFByMentions(v, s, t);
  }

  /** Along any path whatever, the value reached depends only on the storage of a closed set `s` of references. */
  lemma {:induction false} FollowFrame(c0: Cells, c1: Cells, s: set<Ref>, v: Value, path: seq<Step>)
    requires WF(v, s)
    requires forall r | r in s :: r.loc in c0 && r.loc in c1 && c0[r.loc] == c1[r.loc] && CellWF(c0[r.loc], s)
    ensures Follow(c1, v, path) == Follow(c0, v, path)
    decreases |path|
  {
    if path != [] {
      match Access(c0, v, path[0])
      case None =>
      case Some(x) =>
        AccessInside(c0, s, v, path[0]);
        FollowFrame(c0, c1, s, x, path[1..]);
    }
  }

  lemma AccessInside(cells: Cells, s: set<Ref>, v: Value, step: Step)
    requires WF(v, s) && forall r | r in s :: r.loc in cells && CellWF(cells[r.loc], s)
    ensures Access(cells, v, step).Some? ==> WF(Access(cells, v, step).value, s)
  {
    if v.Reference? { assert CellWF(cells[v.ref.loc], s); }
  }

  /** The references the clone holds, in interfaces and in slots. */
  ghost function CloneViews(m: Memo): set<Ref> {
    (set r | r in m :: m[r]) + set r | r in m :: Ref(m[r].loc, r.typ)
  }

  /** The copies are closed under their own references, so nothing outside them is reachable from the clone. */
  lemma CopiesClosed(orig: Heap, cells: Cells, m: Memo)
    requires Copied(orig, cells, m)
    ensures forall q | q in CloneViews(m) ::
      q.loc in cells && q.loc !in orig.cells && CellWF(cells[q.loc], CloneViews(m))
  {
    forall r | r in m ensures CellWF(cells[m[r].loc], CloneViews(m)) {
      CopyWF(orig.At(r), cells[m[r].loc], m);
    }
  }

  lemma CopyWF(c: Cell, d: Cell, m: Memo)
    requires CellWF(c, m.Keys) && CopiedCell(c, d, m)
    ensures CellWF(d, CloneViews(m))
  {
    hide Image, IsImage, CloneViews;
    match c
    case PointerCell(v) => ImageWF(v, m);
    case SliceCell(es) =>
      forall i | 0 <= i < |es| ensures WF(d.elems[i], CloneViews(m)) { ImageWF(es[i], m); }
    case MapCell(ks) =>
      forall x | x in d.entries ensures WF(x, CloneViews(m)) && WF(d.entries[x], CloneViews(m)) {
        var k := TheKey(x, ks.Keys, m);
        ImageWF(k, m);
        ImageWF(ks[k], m);
      }
  }

  lemma {:induction false} ImageWF(v: Value, m: Memo)
    requires WF(v, m.Keys)
    ensures WF(Image(v, m), CloneViews(m)) && WF(Concrete(v, m), CloneViews(m))
  {
    match v
    case Scalar(_) =>
    case Nil(_) =>
    case Boxed(x) => ImageWF(x, m);
    case Reference(_) =>
    case Array(_, es) =>
      forall i | 0 <= i < |es| ensures WF(Image(es[i], m), CloneViews(m)) { ImageWF(es[i], m); }
    case Struct(_, fs) =>
      forall i | 0 <= i < |fs| && fs[i].exported ensures WF(Image(fs[i].v, m), CloneViews(m)) { ImageWF(fs[i].v, m); }
  }

  /** A caller writing to the clone's storage cannot corrupt the original, and writes to the original's storage (the
      clone's kept) do not reach the clone. */
  lemma MutationIsolated(orig: Heap, cells: Cells, m: Memo, v: Value, w: Value, later: Cells, path: seq<Step>)
    requires Copied(orig, cells, m) && WF(v, m.Keys) && CopyOf(v, w, m)
    ensures Grown(orig.cells, later) ==> Follow(later, v, path) == Follow(orig.cells, v, path)
    ensures OthersKept(orig, cells, later) ==> Follow(later, w, path) == Follow(cells, w, path)
  {
    if Grown(orig.cells, later) {
      WFGrows(v, m.Keys, orig.views);
      FollowFrame(orig.cells, later, orig.views, v, path);
    }
    if OthersKept(orig, cells, later) {
      CopiesClosed(orig, cells, m);
      ImageWF(v, m);
      FollowFrame(cells, later, CloneViews(m), w, path);
    }
  }

  /** Only storage of the original may have been written. */
  ghost predicate OthersKept(orig: Heap, cells: Cells, later: Cells) {
    forall l | l in cells && l !in orig.cells :: l in later && later[l] == cells[l]
  }

  /** A metadata value and its clone: paths lead to copies, in the very types if no pointer has a defined type; sharing
      under one type is exact, and all sharing of storage is kept exactly if no storage has two types; and writing to
      either side does not show on the other. */
  lemma CloneIsFaithful(orig: Heap, v: Value, cells: Cells, w: Value, m: Memo, p: seq<Step>, q: seq<Step>, later: Cells)
    requires Closed(orig) && WF(v, orig.views) && !v.Boxed? && Isomorphic(orig, v, cells, w, m)
    requires PathOver(p, orig.views) && PathOver(q, orig.views)
    ensures OptionCopy(Follow(orig.cells, v, p), Follow(cells, w, PathImage(p, m)), m)
    ensures LiteralPointers(m) && Follow(orig.cells, v, p).Some? ==>
      Follow(cells, w, PathImage(p, m)) == Some(Image(Follow(orig.cells, v, p).value, m))
    ensures Same(Follow(cells, w, PathImage(p, m)), Follow(cells, w, PathImage(q, m)))
       <==> Follow(orig.cells, v, p) == Follow(orig.cells, v, q)
    ensures StorageSharingKept(orig, cells, m, v, w) <==> OneTypeEach(Reach(orig, v))
    ensures Grown(orig.cells, later) ==> Follow(later, v, p) == Follow(orig.cells, v, p)
    ensures OthersKept(orig, cells, later) ==> Follow(later, w, p) == Follow(cells, w, p)
  {
    hide WF, Image, Concrete, Closed, Copied, CopyOf, PathOver, Reach, Same, Shared, Grown, OthersKept,
      StorageSharingKept;
    IsomorphicCopied(orig, v, cells, w, m);
    FollowCommutes(orig, cells, m, v, w, p);
    SharingPreserved(orig, cells, m, v, w, p, q);
    SharingKeptExactly(orig, cells, m, v, w);
    MutationIsolated(orig, cells, m, v, w, later, p);
    if LiteralPointers(m) && Follow(orig.cells, v, p).Some? {
      CopyIsImage(orig, cells, m, Follow(orig.cells, v, p).value, Follow(cells, w, PathImage(p, m)).value);
    }
  }
}
