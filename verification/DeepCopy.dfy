/** The cycle-safe deep copy of reasoning metadata (reasoning.go).

    Go memory is a finite map from storage to its content. A reference value is storage seen under a static type, which
    together make up what the source calls its clone key; the same storage can be seen under several types. */
module DeepCopy {

  datatype Kind = Pointer | Slice | Map

  /** Storage; `len` is 0 except for slices. */
  datatype Loc = Loc(ptr: nat, len: nat, kind: Kind)

  /** A static type of reference kind: a type literal, or a defined type with an underlying one. */
  datatype Type = Literal(under: nat) | Defined(name: nat, under: nat)

  /** A non-nil reference value: storage, and the type it is seen under. */
  datatype Ref = Ref(loc: Loc, typ: Type)

  /** A Go value; `typ` is its static type where the form of the value does not give it away. */
  datatype Value =
    | Scalar(n: int)             // scalars and opaque kinds (channels, functions)
    | Nil(typ: nat)              // a nil interface, pointer, slice or map
    | Boxed(inner: Value)        // a non-nil interface holding a concrete value
    | Reference(ref: Ref)
    | Array(typ: nat, elems: seq<Value>)
    | Struct(typ: nat, fields: seq<Field>)

  datatype Field = Field(exported: bool, v: Value)

  datatype Cell =
    | PointerCell(v: Value)
    | SliceCell(elems: seq<Value>)
    | MapCell(entries: map<Value, Value>)

  type Cells = map<Loc, Cell>
  type Memo = map<Ref, Ref>

  /** A heap with the reference values that occur in it or are held by the program. */
  datatype Heap = Heap(cells: Cells, views: set<Ref>) {
    ghost predicate Has(r: Ref) {
      r in views && r.loc in cells
    }

    ghost function At(r: Ref): Cell
      requires Has(r)
    {
      cells[r.loc]
    }
  }

  // ---- Well-formed values and heaps ----

  /** Every reference in `v`, outside unexported fields, lies in `s`, and no interface
      holds an interface. */
  ghost predicate WF(v: Value, s: set<Ref>) {
    match v
    case Scalar(_) => true
    case Nil(_) => true
    case Boxed(x) => !x.Boxed? && WF(x, s)
    case Reference(r) => r in s
    case Array(_, es) => forall i | 0 <= i < |es| :: WF(es[i], s)
    case Struct(_, fs) => forall i | 0 <= i < |fs| && fs[i].exported :: WF(fs[i].v, s)
  }

  ghost predicate CellWF(c: Cell, s: set<Ref>) {
    match c
    case PointerCell(v) => WF(v, s)
    case SliceCell(es) => forall i | 0 <= i < |es| :: WF(es[i], s)
    case MapCell(m) => forall k | k in m :: WF(k, s) && WF(m[k], s)
  }

  ghost predicate Fits(l: Loc, c: Cell) {
    match l.kind
    case Pointer => c.PointerCell?
    case Slice => c.SliceCell? && |c.elems| == l.len
    case Map => c.MapCell?
  }

  /** A heap with no dangling reference, the content of storage having its kind. */
  ghost predicate Closed(h: Heap) {
    forall r | r in h.views :: r.loc in h.cells && Fits(r.loc, h.cells[r.loc]) && CellWF(h.cells[r.loc], h.views)
  }

  // ---- Reachability ----

  ghost predicate Mentions(v: Value, r: Ref) {
    match v
    case Scalar(_) => false
    case Nil(_) => false
    case Boxed(x) => Mentions(x, r)
    case Reference(x) => x == r
    case Array(_, es) => exists i | 0 <= i < |es| :: Mentions(es[i], r)
    case Struct(_, fs) => exists i | 0 <= i < |fs| && fs[i].exported :: Mentions(fs[i].v, r)
  }

  ghost predicate CellMentions(c: Cell, r: Ref) {
    match c
    case PointerCell(v) => Mentions(v, r)
    case SliceCell(es) => exists i | 0 <= i < |es| :: Mentions(es[i], r)
    case MapCell(m) => exists k | k in m :: Mentions(k, r) || Mentions(m[k], r)
  }

  /** `path` is a chain of references: the first is in `v`, each next one in what the one before refers to. */
  ghost predicate Path(h: Heap, v: Value, path: seq<Ref>) {
    && path != []
    && (forall i | 0 <= i < |path| :: h.Has(path[i]))
    && Mentions(v, path[0])
    && forall i | 0 < i < |path| :: CellMentions(h.At(path[i - 1]), path[i])
  }

  ghost predicate Reachable(h: Heap, v: Value, r: Ref) {
    exists path :: Path(h, v, path) && path[|path| - 1] == r
  }

  ghost function Reach(h: Heap, v: Value): set<Ref> {
    set r | r in h.views && Reachable(h, v, r)
  }

  lemma {:induction false} WFByMentions(v: Value, s: set<Ref>, t: set<Ref>)
    requires WF(v, s) && forall r | Mentions(v, r) :: r in t
    ensures WF(v, t)
  {
    match v
    case Scalar(_) =>
    case Nil(_) =>
    case Boxed(x) => WFByMentions(x, s, t);
    case Reference(_) =>
    case Array(_, es) =>
      forall i | 0 <= i < |es| ensures WF(es[i], t) { WFByMentions(es[i], s, t); }
    case Struct(_, fs) =>
      forall i | 0 <= i < |fs| && fs[i].exported ensures WF(fs[i].v, t) { WFByMentions(fs[i].v, s, t); }
  }

  lemma {:induction false} MentionsInWF(v: Value, s: set<Ref>, r: Ref)
    requires WF(v, s) && Mentions(v, r)
    ensures r in s
  {
    match v
    case Boxed(x) => MentionsInWF(x, s, r);
    case Reference(_) =>
    case Array(_, es) =>
      var i :| 0 <= i < |es| && Mentions(es[i], r);
      MentionsInWF(es[i], s, r);
    case Struct(_, fs) =>
      var i :| 0 <= i < |fs| && fs[i].exported && Mentions(fs[i].v, r);
      MentionsInWF(fs[i].v, s, r);
  }

  lemma CellMentionsInWF(c: Cell, s: set<Ref>, r: Ref)
    requires CellWF(c, s) && CellMentions(c, r)
    ensures r in s
  {
    match c
    case PointerCell(v) => MentionsInWF(v, s, r);
    case SliceCell(es) =>
      var i :| 0 <= i < |es| && Mentions(es[i], r);
      MentionsInWF(es[i], s, r);
    case MapCell(m) =>
      var k :| k in m && (Mentions(k, r) || Mentions(m[k], r));
      if Mentions(k, r) { MentionsInWF(k, s, r); } else { MentionsInWF(m[k], s, r); }
  }

  lemma CellWFByMentions(c: Cell, s: set<Ref>, t: set<Ref>)
    requires CellWF(c, s) && forall r | CellMentions(c, r) :: r in t
    ensures CellWF(c, t)
  {
    match c
    case PointerCell(v) => WFByMentions(v, s, t);
    case SliceCell(es) =>
      forall i | 0 <= i < |es| ensures WF(es[i], t) { WFByMentions(es[i], s, t); }
    case MapCell(m) =>
      forall k | k in m ensures WF(k, t) && WF(m[k], t) {
        WFByMentions(k, s, t);
        WFByMentions(m[k], s, t);
      }
  }

  lemma PathExtends(h: Heap, v: Value, r: Ref, q: Ref)
    requires Closed(h) && r in Reach(h, v) && CellMentions(h.At(r), q)
    ensures q in Reach(h, v)
  {
    CellMentionsInWF(h.At(r), h.views, q);
    var path :| Path(h, v, path) && path[|path| - 1] == r;
    var longer := path + [q];
    forall i | 0 < i < |longer| ensures CellMentions(h.At(longer[i - 1]), longer[i]) {
      if i < |path| { assert CellMentions(h.At(path[i - 1]), path[i]); }
    }
    assert Path(h, v, longer) && longer[|longer| - 1] == q;
  }

  /** What is reachable from `v` is closed: it holds the references of `v` and of its own cells. */
  lemma ReachIsClosed(h: Heap, v: Value)
    requires Closed(h) && WF(v, h.views)
    ensures WF(v, Reach(h, v))
    ensures forall r | r in Reach(h, v) :: h.Has(r) && CellWF(h.At(r), Reach(h, v))
  {
    var reach := Reach(h, v);
    forall r | Mentions(v, r) ensures r in reach {
      MentionsInWF(v, h.views, r);
      assert Path(h, v, [r]) && [r][|[r]| - 1] == r;
    }
    WFByMentions(v, h.views, reach);
    forall r | r in reach ensures CellWF(h.At(r), reach) {
      forall q | CellMentions(h.At(r), q) ensures q in reach { PathExtends(h, v, r, q); }
      CellWFByMentions(h.At(r), h.views, reach);
    }
  }

  /** Any set holding the references of `v` and closed under cells holds all of Reach. */
  lemma ReachIsLeast(h: Heap, v: Value, s: set<Ref>)
    requires WF(v, s) && forall r | r in s && h.Has(r) :: CellWF(h.At(r), s)
    ensures Reach(h, v) <= s
  {
    forall r | r in Reach(h, v) ensures r in s {
      var path :| Path(h, v, path) && path[|path| - 1] == r;
      PathStaysIn(h, v, path, s);
    }
  }

  lemma {:induction false} PathStaysIn(h: Heap, v: Value, path: seq<Ref>, s: set<Ref>)
    requires Path(h, v, path)
    requires WF(v, s) && forall r | r in s && h.Has(r) :: CellWF(h.At(r), s)
    ensures path[|path| - 1] in s
  {
    if |path| == 1 {
      MentionsInWF(v, s, path[0]);
    } else {
      var front := path[..|path| - 1];
      PathStaysIn(h, v, front, s);
      CellMentionsInWF(h.At(front[|front| - 1]), s, path[|path| - 1]);
    }
  }

  // ---- The image of a value under a memo ----

  /** `v` with each reference replaced by its copy. A slot of reference type keeps its type; an interface holds whatever
      type the copy has. Unexported fields keep their values. */
  ghost function Image(v: Value, m: Memo): Value {
    match v
    case Scalar(_) => v
    case Nil(_) => v
    case Boxed(x) => Boxed(if x.Reference? && x.ref in m then Reference(m[x.ref]) else Image(x, m))
    case Reference(r) => if r in m then Reference(Ref(m[r].loc, r.typ)) else v
    case Array(t, es) => Array(t, seq(|es|, i requires 0 <= i < |es| => Image(es[i], m)))
    case Struct(t, fs) =>
      Struct(t, seq(|fs|, i requires 0 <= i < |fs| =>
        if fs[i].exported then Field(true, Image(fs[i].v, m)) else fs[i]))
  }

  /** The content of cell `d` is the image of that of `c`. */
  ghost predicate CopiedCell(c: Cell, d: Cell, m: Memo) {
    match c
    case PointerCell(v) => d == PointerCell(Image(v, m))
    case SliceCell(es) =>
      d.SliceCell? && |d.elems| == |es| && forall i | 0 <= i < |es| :: d.elems[i] == Image(es[i], m)
    case MapCell(ks) => d.MapCell? && CopiedEntries(ks, ks.Keys, d.entries, m)
  }

  /** `copied` holds exactly the images of the entries of `entries` with a key in `keys`. */
  ghost predicate CopiedEntries(entries: map<Value, Value>, keys: set<Value>, copied: map<Value, Value>, m: Memo)
    requires keys <= entries.Keys
  {
    && (forall k | k in keys :: Image(k, m) in copied && copied[Image(k, m)] == Image(entries[k], m))
    && (forall x | x in copied :: IsImage(x, keys, m))
    && |copied| == |keys|
  }

  ghost predicate IsImage(x: Value, keys: set<Value>, m: Memo) {
    exists k | k in keys :: x == Image(k, m)
  }

  /** Different reference values have copies in different storage. */
  ghost predicate Injective(m: Memo) {
    forall a, b | a in m && b in m && a != b :: m[a].loc != m[b].loc
  }

  /** No copy lies in the storage of a reference of `s`. */
  ghost predicate Apart(m: Memo, s: set<Ref>) {
    forall r, q | r in m && q in s :: m[r].loc != q.loc
  }

  ghost predicate Extends(m: Memo, n: Memo) {
    forall r | r in m :: r in n && n[r] == m[r]
  }

  /** The static type of a copy: reflect.New gives the pointer literal, the other makers keep the type they are
      given. */
  function CopyType(r: Ref): Type {
    if r.loc.kind == Pointer then Literal(r.typ.under) else r.typ
  }

  /** The copy `q` of `r`. */
  ghost predicate SameShape(r: Ref, q: Ref) {
    q.loc.kind == r.loc.kind && q.loc.len == r.loc.len && q.typ == CopyType(r)
  }

  /** The result of copying `v` out of heap `orig`: `m` is a bijection from exactly the reference values reachable from
      `v` onto new storage in `cells`, which preserves all content. */
  ghost predicate Isomorphic(orig: Heap, v: Value, cells: Cells, w: Value, m: Memo) {
    && m.Keys == Reach(orig, v)
    && Injective(m)
    && w == Result(v, m)
    && (forall r | r in m :: orig.Has(r) && m[r].loc in cells && m[r].loc !in orig.cells)
    && (forall r | r in m :: CopiedCell(orig.At(r), cells[m[r].loc], m) && SameShape(r, m[r]))
  }

  /** What deepCopyValue returns for `v`: outside any slot, with an interface opened. */
  ghost function Result(v: Value, m: Memo): Value {
    Concrete(if v.Boxed? then v.inner else v, m)
  }

  ghost function Concrete(v: Value, m: Memo): Value {
    if v.Reference? && v.ref in m then Reference(m[v.ref]) else Image(v, m)
  }

  /** Assigning `w` to the slot that held `slot`: an interface slot boxes it again, and a slot of a reference type
      gives it that type. */
  function Assigned(slot: Value, w: Value): Value {
    if slot.Boxed? then Boxed(w)
    else if slot.Reference? && w.Reference? then Reference(Ref(w.ref.loc, slot.ref.typ))
    else w
  }

  lemma Rebox(v: Value, m: Memo)
    ensures Assigned(v, Result(v, m)) == Image(v, m)
  {
  }

  lemma {:induction false} ImageStable(v: Value, m: Memo, n: Memo)
    requires WF(v, m.Keys) && Extends(m, n)
    ensures WF(v, n.Keys) && Image(v, n) == Image(v, m)
  {
    match v
    case Scalar(_) =>
    case Nil(_) =>
    case Boxed(x) => ImageStable(x, m, n);
    case Reference(_) =>
    case Array(_, es) =>
      forall i | 0 <= i < |es| ensures WF(es[i], n.Keys) && Image(es[i], n) == Image(es[i], m) {
        ImageStable(es[i], m, n);
      }
    case Struct(_, fs) =>
      forall i | 0 <= i < |fs| && fs[i].exported
        ensures WF(fs[i].v, n.Keys) && Image(fs[i].v, n) == Image(fs[i].v, m)
      {
        ImageStable(fs[i].v, m, n);
      }
  }

  ghost predicate CopiedUpTo(es: seq<Value>, n: nat, copied: seq<Value>, m: Memo) {
    n <= |es| == |copied| && forall i | 0 <= i < n :: WF(es[i], m.Keys) && copied[i] == Image(es[i], m)
  }

  lemma CopiedUpToNext(es: seq<Value>, n: nat, copied: seq<Value>, m0: Memo, m: Memo, x: Value)
    requires n < |es| && CopiedUpTo(es, n, copied, m0) && Extends(m0, m)
    requires WF(es[n], m.Keys) && x == Result(es[n], m)
    ensures CopiedUpTo(es, n + 1, copied[n := Assigned(es[n], x)], m)
  {
    forall i | 0 <= i < n ensures WF(es[i], m.Keys) && Image(es[i], m) == Image(es[i], m0) {
      ImageStable(es[i], m0, m);
    }
  }

  lemma SliceStarts(orig: Heap, r: Ref, reach: set<Ref>, zero: seq<Value>, m: Memo)
    requires Closed(orig) && orig.Has(r) && r in reach && r.loc.kind == Slice && ReachOk(orig, reach)
    requires |zero| == r.loc.len
    ensures orig.At(r).SliceCell? && CopiedUpTo(orig.At(r).elems, 0, zero, m) && CellWF(orig.At(r), reach)
  {
  }

  /** The first `n` fields are the images of those of `fs`. */
  ghost predicate FieldsCopied(fs: seq<Field>, n: nat, cp: seq<Field>, m: Memo) {
    && n <= |fs| == |cp|
    && forall j | 0 <= j < n ::
         if fs[j].exported then WF(fs[j].v, m.Keys) && cp[j] == Field(true, Image(fs[j].v, m)) else cp[j] == fs[j]
  }

  lemma FieldsStart(fs: seq<Field>, m: Memo)
    ensures FieldsCopied(fs, 0, fs, m)
  {
  }

  lemma FieldWF(v: Value, i: nat, s: set<Ref>)
    requires v.Struct? && i < |v.fields| && v.fields[i].exported && WF(v, s)
    ensures WF(v.fields[i].v, s)
  {
  }

  lemma FieldsCopiedNext(fs: seq<Field>, n: nat, cp: seq<Field>, m0: Memo, m: Memo, x: Value)
    requires n < |fs| && fs[n].exported && FieldsCopied(fs, n, cp, m0) && Extends(m0, m)
    requires WF(fs[n].v, m.Keys) && x == Result(fs[n].v, m)
    ensures FieldsCopied(fs, n + 1, cp[n := Field(true, Assigned(fs[n].v, x))], m)
  {
    Rebox(fs[n].v, m);
    forall j | 0 <= j < n && fs[j].exported ensures WF(fs[j].v, m.Keys) && Image(fs[j].v, m) == Image(fs[j].v, m0) {
      ImageStable(fs[j].v, m0, m);
    }
  }

  lemma FieldKept(fs: seq<Field>, n: nat, cp: seq<Field>, m: Memo)
    requires n < |fs| && FieldsCopied(fs, n, cp, m) && cp[n..] == fs[n..]
    requires !fs[n].exported || fs[n].v.Scalar?
    ensures FieldsCopied(fs, n + 1, cp, m)
  {
    assert cp[n] == cp[n..][0] == fs[n];
  }

  lemma FieldsCopiedAll(v: Value, cp: seq<Field>, m: Memo)
    requires v.Struct? && FieldsCopied(v.fields, |v.fields|, cp, m)
    ensures WF(v, m.Keys) && Struct(v.typ, cp) == Image(v, m)
  {
    assert cp == Image(v, m).fields;
  }

  lemma CopiedUpToAll(orig: Heap, r: Ref, d: Cell, m: Memo)
    requires Closed(orig) && orig.Has(r) && r.loc.kind == Slice
    requires d.SliceCell? && CopiedUpTo(orig.At(r).elems, r.loc.len, d.elems, m)
    ensures CellWF(orig.At(r), m.Keys) && CopiedCell(orig.At(r), d, m)
  {
  }

  ghost predicate EntriesWF(entries: map<Value, Value>, keys: set<Value>, s: set<Ref>)
    requires keys <= entries.Keys
  {
    forall k | k in keys :: WF(k, s) && WF(entries[k], s)
  }

  lemma EntriesStable(entries: map<Value, Value>, keys: set<Value>, copied: map<Value, Value>, m: Memo, n: Memo)
    requires keys <= entries.Keys && Extends(m, n) && CopiedEntries(entries, keys, copied, m)
    requires EntriesWF(entries, keys, m.Keys)
    ensures CopiedEntries(entries, keys, copied, n) && EntriesWF(entries, keys, n.Keys)
  {
    forall k | k in keys
      ensures WF(k, n.Keys) && WF(entries[k], n.Keys)
      ensures Image(k, n) == Image(k, m) && Image(entries[k], n) == Image(entries[k], m)
    {
      ImageStable(k, m, n);
      ImageStable(entries[k], m, n);
    }
    forall x | x in copied ensures IsImage(x, keys, n) {
      assert IsImage(x, keys, m);
      var k :| k in keys && x == Image(k, m);
      assert x == Image(k, n);
    }
  }

  lemma CopiedStable(c: Cell, d: Cell, m: Memo, n: Memo)
    requires CellWF(c, m.Keys) && Extends(m, n) && CopiedCell(c, d, m)
    ensures CellWF(c, n.Keys) && CopiedCell(c, d, n)
  {
    match c
    case PointerCell(v) => ImageStable(v, m, n);
    case SliceCell(es) =>
      forall i | 0 <= i < |es| ensures WF(es[i], n.Keys) && Image(es[i], n) == Image(es[i], m) {
        ImageStable(es[i], m, n);
      }
    case MapCell(ks) => EntriesStable(ks, ks.Keys, d.entries, m, n);
  }

  /** Distinct values have distinct images, so copied map keys never collide. `s` bounds the
      references of both values; no copy lies in it. */
  lemma {:induction false} ImageInjective(v: Value, w: Value, m: Memo, s: set<Ref>)
    requires Injective(m) && Apart(m, s)
    requires WF(v, s) && WF(w, s) && Image(v, m) == Image(w, m)
    ensures v == w
  {
    match v
    case Scalar(_) =>
    case Nil(_) =>
    case Boxed(x) => ImageInjective(x, w.inner, m, s);
    case Reference(_) =>
    case Array(_, es) =>
      assert |Image(v, m).elems| == |es| && |Image(w, m).elems| == |w.elems|;
      forall i | 0 <= i < |es| ensures es[i] == w.elems[i] {
        assert Image(v, m).elems[i] == Image(w, m).elems[i];
        ImageInjective(es[i], w.elems[i], m, s);
      }
      assert es == w.elems;
    case Struct(_, fs) =>
      assert |Image(v, m).fields| == |fs| && |Image(w, m).fields| == |w.fields|;
      forall i | 0 <= i < |fs| ensures fs[i] == w.fields[i] {
        assert Image(v, m).fields[i] == Image(w, m).fields[i];
        if fs[i].exported { ImageInjective(fs[i].v, w.fields[i].v, m, s); }
      }
      assert fs == w.fields;
  }

  // ---- What a copying step may do to the heap and the memo ----

  /** From (c0, s0) to (c1, s1): old cells other than those in `open` and old memo entries are kept, and
      every newly memoised reference is one of `reach`, is finished, and has a fresh cell of its own. */
  ghost predicate Progress(orig: Heap, reach: set<Ref>, open: set<Loc>, c0: Cells, s0: Memo, c1: Cells, s1: Memo) {
    && (forall l | l in c0 :: l in c1 && (l !in open ==> c1[l] == c0[l]))
    && Extends(s0, s1)
    && (forall r | r in s1 && r !in s0 :: orig.Has(r) && r in reach && CellWF(orig.At(r), s1.Keys))
    && (forall r | r in s1 && r !in s0 ::
      s1[r].loc !in c0 && s1[r].loc in c1 && SameShape(r, s1[r]) && CopiedCell(orig.At(r), c1[s1[r].loc], s1))
    && (forall a, b | a in s1 && b in s1 && a !in s0 && b !in s0 && a != b :: s1[a].loc != s1[b].loc)
  }

  /** The memo is injective, and its copies are cells outside the original heap. */
  ghost predicate MemoOk(orig: Heap, c: Cells, s: Memo) {
    && Injective(s)
    && forall r | r in s :: orig.Has(r) && SameShape(r, s[r]) && s[r].loc in c && s[r].loc !in orig.cells
  }

  /** What is reachable holds no reference out of reach. */
  ghost predicate ReachOk(orig: Heap, reach: set<Ref>) {
    forall r | r in reach && orig.Has(r) :: CellWF(orig.At(r), reach)
  }

  lemma ProgressStarts(orig: Heap, reach: set<Ref>, open: set<Loc>, c: Cells, s: Memo)
    ensures Progress(orig, reach, open, c, s, c, s)
  {
  }

  lemma MemoApart(orig: Heap, c: Cells, s: Memo)
    requires Closed(orig) && MemoOk(orig, c, s)
    ensures Apart(s, orig.views)
  {
  }

  lemma ProgressTrans(orig: Heap, reach: set<Ref>, open: set<Loc>,
                      c0: Cells, s0: Memo, c1: Cells, s1: Memo, c2: Cells, s2: Memo)
    requires Progress(orig, reach, open, c0, s0, c1, s1) && open <= c0.Keys
    requires Progress(orig, reach, open, c1, s1, c2, s2) && MemoOk(orig, c1, s1)
    ensures Progress(orig, reach, open, c0, s0, c2, s2)
  {
    forall r | r in s1 && r !in s0
      ensures CellWF(orig.At(r), s2.Keys) && CopiedCell(orig.At(r), c2[s2[r].loc], s2)
    {
      CopiedStable(orig.At(r), c1[s1[r].loc], s1, s2);
    }
  }

  /** What callers of a copying step use of it. */
  lemma ProgressKeeps(orig: Heap, reach: set<Ref>, open: set<Loc>, c0: Cells, s0: Memo, c1: Cells, s1: Memo)
    requires Progress(orig, reach, open, c0, s0, c1, s1)
    ensures Extends(s0, s1) && orig.views - s1.Keys <= orig.views - s0.Keys
    ensures forall l | l in c0 && l !in open :: l in c1 && c1[l] == c0[l]
  {
  }

  /** Filling cell `cp` afterwards is a Progress that has `cp` open. */
  lemma ProgressOpen(orig: Heap, reach: set<Ref>, cp: Loc, c0: Cells, s0: Memo, c1: Cells, s1: Memo, filled: Cell)
    requires cp in c0 && Progress(orig, reach, {}, c0, s0, c1, s1)
    ensures Progress(orig, reach, {cp}, c0, s0, c1[cp := filled], s1)
  {
  }

  /** Closing: once the cell opened for `r` holds the image of its original, the whole step is a Progress. */
  lemma ProgressClose(orig: Heap, reach: set<Ref>, r: Ref, cp: Ref, zero: Cell, c0: Cells, s0: Memo, c1: Cells,
                      s1: Memo)
    requires cp.loc !in c0 && r !in s0 && orig.Has(r) && r in reach && SameShape(r, cp)
    requires Progress(orig, reach, {cp.loc}, c0[cp.loc := zero], s0[r := cp], c1, s1)
    requires CellWF(orig.At(r), s1.Keys) && CopiedCell(orig.At(r), c1[cp.loc], s1)
    ensures Progress(orig, reach, {}, c0, s0, c1, s1)
  {
    assert s1[r] == cp;
  }

  // ---- The copier ----

  /** All storage lies below `brk`. */
  ghost predicate Below(cells: Cells, brk: nat) {
    forall l | l in cells :: l.ptr < brk
  }

  class Copier {
    var cells: Cells
    var seen: Memo
    var brk: nat      // every allocated address is below it

    constructor (cells0: Cells, brk0: nat)
      requires Below(cells0, brk0)
      ensures cells == cells0 && brk == brk0 && seen == map[]
    {
      cells, seen, brk := cells0, map[], brk0;
    }

    /** `orig` is still in place, and the memo maps into cells outside it. */
    ghost predicate Ready(orig: Heap)
      reads this
    {
      && Closed(orig)
      && (forall l | l in orig.cells :: l in cells && cells[l] == orig.cells[l])
      && (Below(cells, brk))
      && MemoOk(orig, cells, seen)
    }

    /** reflect.New, MakeSlice, MakeMap: a fresh zeroed cell shaped like `r`, recorded as its copy. */
    method Open(r: Ref, zero: Cell, ghost orig: Heap) returns (cp: Ref)
      requires Ready(orig) && orig.Has(r) && r !in seen
      modifies this
      ensures Ready(orig) && cp.loc !in old(cells) && SameShape(r, cp)
      ensures cells == old(cells)[cp.loc := zero] && seen == old(seen)[r := cp]
      ensures orig.views - seen.Keys < orig.views - old(seen).Keys
    {
      assert r in orig.views - seen.Keys;
      cp := Ref(r.loc.(ptr := brk), CopyType(r));
      brk := brk + 1;
      cells := cells[cp.loc := zero];
      seen := seen[r := cp];
    }

    /** reflect's Set, SetIndex and SetMapIndex: the content of a copy under construction. */
    method Fill(cp: Ref, filled: Cell, ghost orig: Heap)
      requires Ready(orig) && cp.loc in cells && cp.loc !in orig.cells
      modifies this
      ensures Ready(orig) && cells == old(cells)[cp.loc := filled] && seen == old(seen)
    {
      cells := cells[cp.loc := filled];
    }

    /** deepCopyValue. The result is the image of `v` under the grown memo; whatever the call added to the
        memo is finished, and nothing that existed before the call has changed. */
    method DeepCopyValue(v: Value, ghost orig: Heap, ghost reach: set<Ref>) returns (w: Value)
      requires Ready(orig) && WF(v, orig.views)
      requires WF(v, reach) && ReachOk(orig, reach)
      modifies this
      ensures Ready(orig)
      ensures Progress(orig, reach, {}, old(cells), old(seen), cells, seen)
      ensures WF(v, seen.Keys) && w == Result(v, seen)
      decreases orig.views - seen.Keys, 0, v, 1
    {
      match v
      case Scalar(_) => w := v;
      case Nil(_) => w := v;
      case Boxed(x) => w := DeepCopyValue(x, orig, reach);
      case Array(_, es) => w := CopyArray(v, orig, reach);
      case Struct(_, fs) => w := CopyStruct(v, orig, reach);
      case Reference(r) =>
        match r.loc.kind
        case Pointer => w := CopyPointer(r, orig, reach);
        case Slice => w := CopySlice(r, orig, reach);
        case Map => w := CopyMap(r, orig, reach);
    }

    method CopyPointer(r: Ref, ghost orig: Heap, ghost reach: set<Ref>) returns (w: Value)
      requires Ready(orig) && orig.Has(r) && r in reach && r.loc.kind == Pointer
      requires ReachOk(orig, reach)
      modifies this
      ensures Ready(orig) && Progress(orig, reach, {}, old(cells), old(seen), cells, seen)
      ensures r in seen && w == Reference(seen[r])
      decreases orig.views - seen.Keys, 0, Reference(r), 0
    {
      if r in seen { return Reference(seen[r]); }
      ghost var c0, s0 := cells, seen;
      var cp := Open(r, PointerCell(Nil(0)), orig);
      ghost var c1, s1 := cells, seen;
      var target := cells[r.loc].v;
      var x := DeepCopyValue(target, orig, reach);
      Fill(cp, PointerCell(Assigned(target, x)), orig);
      assert Progress(orig, reach, {cp.loc}, c1, s1, cells, seen);
      ProgressClose(orig, reach, r, cp, PointerCell(Nil(0)), c0, s0, cells, seen);
      w := Reference(cp);
    }

    /** One step of the slice loop: element `i` of the copy `cp` of `r`. */
    method CopyElement(r: Ref, cp: Ref, i: nat, ghost orig: Heap, ghost reach: set<Ref>)
      requires Ready(orig) && orig.Has(r) && r.loc.kind == Slice && i < r.loc.len && cp.loc in cells
      requires cp.loc !in orig.cells
      requires CellWF(orig.At(r), reach) && ReachOk(orig, reach)
      requires cells[cp.loc].SliceCell? && CopiedUpTo(orig.At(r).elems, i, cells[cp.loc].elems, seen)
      modifies this
      ensures Ready(orig) && cp.loc in cells && cells[cp.loc].SliceCell?
      ensures Progress(orig, reach, {cp.loc}, old(cells), old(seen), cells, seen)
      ensures CopiedUpTo(orig.At(r).elems, i + 1, cells[cp.loc].elems, seen)
      decreases orig.views - seen.Keys, 1
    {
      var slot := cells[r.loc].elems[i];
      assert WF(slot, orig.views) && WF(slot, reach);
      var x := DeepCopyValue(slot, orig, reach);
      CopiedUpToNext(orig.At(r).elems, i, cells[cp.loc].elems, old(seen), seen, x);
      var next := SliceCell(cells[cp.loc].elems[i := Assigned(slot, x)]);
      Fill(cp, next, orig);
    }

    method CopySlice(r: Ref, ghost orig: Heap, ghost reach: set<Ref>) returns (w: Value)
      requires Ready(orig) && orig.Has(r) && r in reach && r.loc.kind == Slice
      requires ReachOk(orig, reach)
      modifies this
      ensures Ready(orig) && Progress(orig, reach, {}, old(cells), old(seen), cells, seen)
      ensures r in seen && w == Reference(seen[r])
      decreases orig.views - seen.Keys, 0, Reference(r), 0
    {
      hide Progress, CellWF, WF, Closed, CopiedUpTo, CopiedCell, MemoOk, ReachOk;
      if r in seen {
        ProgressStarts(orig, reach, {}, cells, seen);
        return Reference(seen[r]);
      }
      ghost var c0, s0 := cells, seen;
      var zero := SliceCell(seq(r.loc.len, _ => Nil(0)));
      var cp := Open(r, zero, orig);
      ghost var c1, s1 := cells, seen;
      ProgressStarts(orig, reach, {cp.loc}, cells, seen);
      SliceStarts(orig, r, reach, zero.elems, seen);
      for i := 0 to r.loc.len
        invariant Ready(orig) && Progress(orig, reach, {cp.loc}, c1, s1, cells, seen)
        invariant orig.views - seen.Keys < orig.views - s0.Keys
        invariant cp.loc in cells && cells[cp.loc].SliceCell?
        invariant CopiedUpTo(orig.At(r).elems, i, cells[cp.loc].elems, seen)
      {
        ghost var c2, s2 := cells, seen;
        CopyElement(r, cp, i, orig, reach);
        ProgressTrans(orig, reach, {cp.loc}, c1, s1, c2, s2, cells, seen);
        ProgressKeeps(orig, reach, {cp.loc}, c2, s2, cells, seen);
      }
      CopiedUpToAll(orig, r, cells[cp.loc], seen);
      ProgressClose(orig, reach, r, cp, zero, c0, s0, cells, seen);
      ProgressKeeps(orig, reach, {cp.loc}, c1, s1, cells, seen);
      w := Reference(cp);
    }

    /** The key and the value of one map entry, copied in that order. */
    method CopyPair(k: Value, v: Value, ghost orig: Heap, ghost reach: set<Ref>) returns (kc: Value, vc: Value)
      requires Ready(orig) && WF(k, orig.views) && WF(v, orig.views)
      requires WF(k, reach) && WF(v, reach) && ReachOk(orig, reach)
      modifies this
      ensures Ready(orig) && Progress(orig, reach, {}, old(cells), old(seen), cells, seen)
      ensures WF(k, seen.Keys) && WF(v, seen.Keys)
      ensures kc == Result(k, seen) && vc == Result(v, seen)
      decreases orig.views - seen.Keys, 1
    {
      kc := DeepCopyValue(k, orig, reach);
      ghost var c1, s1 := cells, seen;
      vc := DeepCopyValue(v, orig, reach);
      ImageStable(k, s1, seen);
      ProgressTrans(orig, reach, {}, old(cells), old(seen), c1, s1, cells, seen);
    }

    /** One step of the map loop: the entry under `k` of the copy `cp` of `r`; the entries under `todo` are left. */
    method CopyEntry(r: Ref, cp: Ref, k: Value, ghost todo: set<Value>, ghost orig: Heap, ghost reach: set<Ref>)
      requires Ready(orig) && orig.Has(r) && orig.At(r).MapCell? && cp.loc in cells && cp.loc !in orig.cells
      requires CellWF(orig.At(r), reach) && ReachOk(orig, reach)
      requires cells[cp.loc].MapCell? && MapCopied(orig.At(r).entries, todo, cells[cp.loc].entries, seen) && k in todo
      modifies this
      ensures Ready(orig) && cp.loc in cells && cells[cp.loc].MapCell?
      ensures Progress(orig, reach, {cp.loc}, old(cells), old(seen), cells, seen)
      ensures MapCopied(orig.At(r).entries, todo - {k}, cells[cp.loc].entries, seen)
      decreases orig.views - seen.Keys, 2
    {
      hide Progress, Image, WF, CellWF, Closed, MapCopied, Fits;
      MapCopiedKey(orig, r, k, reach, todo, cells[cp.loc].entries, seen);
      ghost var c0, s0, copied := cells, seen, cells[cp.loc].entries;
      var entries := cells[r.loc].entries;
      var kc, vc := CopyPair(k, entries[k], orig, reach);
      ProgressKeeps(orig, reach, {}, c0, s0, cells, seen);
      assert cells[cp.loc].entries == copied;
      var next := MapCell(cells[cp.loc].entries[Assigned(k, kc) := Assigned(entries[k], vc)]);
      Rebox(k, seen);
      Rebox(entries[k], seen);
      OrigEntriesWF(orig, r);
      MemoApart(orig, cells, seen);
      MapCopiedNext(entries, todo, k, copied, s0, seen, orig.views);
      ProgressOpen(orig, reach, cp.loc, c0, s0, cells, seen, next);
      Fill(cp, next, orig);
    }

    method CopyMap(r: Ref, ghost orig: Heap, ghost reach: set<Ref>) returns (w: Value)
      requires Ready(orig) && orig.Has(r) && r in reach && r.loc.kind == Map
      requires ReachOk(orig, reach)
      modifies this
      ensures Ready(orig) && Progress(orig, reach, {}, old(cells), old(seen), cells, seen)
      ensures r in seen && w == Reference(seen[r])
      decreases orig.views - seen.Keys, 0, Reference(r), 0
    {
      hide Progress, CellWF, WF, Closed, MapCopied, CopiedCell, MemoOk, ReachOk;
      if r in seen {
        ProgressStarts(orig, reach, {}, cells, seen);
        return Reference(seen[r]);
      }
      ghost var c0, s0 := cells, seen;
      var cp := Open(r, MapCell(map[]), orig);
      ghost var c1, s1 := cells, seen;
      ProgressStarts(orig, reach, {cp.loc}, cells, seen);
      MapStarts(orig, r, reach, seen);
      var todo := cells[r.loc].entries.Keys;
      while todo != {}
        invariant Ready(orig) && Progress(orig, reach, {cp.loc}, c1, s1, cells, seen)
        invariant orig.views - seen.Keys < orig.views - s0.Keys
        invariant cp.loc in cells && cells[cp.loc].MapCell?
        invariant MapCopied(orig.At(r).entries, todo, cells[cp.loc].entries, seen)
        decreases |todo|
      {
        var k :| k in todo;
        ghost var c2, s2 := cells, seen;
        CopyEntry(r, cp, k, todo, orig, reach);
        ProgressTrans(orig, reach, {cp.loc}, c1, s1, c2, s2, cells, seen);
        ProgressKeeps(orig, reach, {cp.loc}, c2, s2, cells, seen);
        todo := todo - {k};
      }
      MapCopiedAll(orig.At(r), cells[cp.loc], seen);
      ProgressClose(orig, reach, r, cp, MapCell(map[]), c0, s0, cells, seen);
      ProgressKeeps(orig, reach, {cp.loc}, c1, s1, cells, seen);
      w := Reference(cp);
    }

    method CopyArray(v: Value, ghost orig: Heap, ghost reach: set<Ref>) returns (w: Value)
      requires v.Array? && Ready(orig) && WF(v, orig.views)
      requires WF(v, reach) && ReachOk(orig, reach)
      modifies this
      ensures Ready(orig) && Progress(orig, reach, {}, old(cells), old(seen), cells, seen)
      ensures WF(v, seen.Keys) && w == Image(v, seen)
      decreases orig.views - seen.Keys, 0, v, 0
    {
      var cp: seq<Value> := seq(|v.elems|, _ => Nil(0));
      for i := 0 to |v.elems|
        invariant Ready(orig) && Progress(orig, reach, {}, old(cells), old(seen), cells, seen)
        invariant CopiedUpTo(v.elems, i, cp, seen)
      {
        ghost var c1, s1 := cells, seen;
        var x := DeepCopyValue(v.elems[i], orig, reach);
        ProgressTrans(orig, reach, {}, old(cells), old(seen), c1, s1, cells, seen);
        CopiedUpToNext(v.elems, i, cp, s1, seen, x);
        cp := cp[i := Assigned(v.elems[i], x)];
      }
      w := Array(v.typ, cp);
      assert w.elems == Image(v, seen).elems;
    }

    /** The whole struct is copied first; then each exported field of a composite kind is replaced. */
    method CopyStruct(v: Value, ghost orig: Heap, ghost reach: set<Ref>) returns (w: Value)
      requires v.Struct? && Ready(orig) && WF(v, orig.views)
      requires WF(v, reach) && ReachOk(orig, reach)
      modifies this
      ensures Ready(orig) && Progress(orig, reach, {}, old(cells), old(seen), cells, seen)
      ensures WF(v, seen.Keys) && w == Image(v, seen)
      decreases orig.views - seen.Keys, 0, v, 0
    {
      hide Progress, WF, Image, MemoOk, Closed, FieldsCopied;
      var cp := v.fields;
      ProgressStarts(orig, reach, {}, cells, seen);
      FieldsStart(v.fields, seen);
      for i := 0 to |v.fields|
        invariant Ready(orig) && Progress(orig, reach, {}, old(cells), old(seen), cells, seen)
        invariant orig.views - seen.Keys <= orig.views - old(seen).Keys
        invariant FieldsCopied(v.fields, i, cp, seen) && |cp| == |v.fields| && cp[i..] == v.fields[i..]
      {
        if v.fields[i].exported && !v.fields[i].v.Scalar? {
          ghost var c1, s1 := cells, seen;
          FieldWF(v, i, orig.views);
          FieldWF(v, i, reach);
          var x := DeepCopyValue(v.fields[i].v, orig, reach);
          ProgressTrans(orig, reach, {}, old(cells), old(seen), c1, s1, cells, seen);
          ProgressKeeps(orig, reach, {}, c1, s1, cells, seen);
          FieldsCopiedNext(v.fields, i, cp, s1, seen, x);
          cp := cp[i := Field(true, Assigned(v.fields[i].v, x))];
        } else {
          FieldKept(v.fields, i, cp, seen);   // copied with the whole struct
        }
      }
      w := Struct(v.typ, cp);
      FieldsCopiedAll(v, cp, seen);
    }

    /** cloneMetadataValue: a copy with a memo of its own. */
    method CloneMetadataValue(v: Value, ghost orig: Heap) returns (w: Value)
      requires Closed(orig) && WF(v, orig.views)
      requires Grown(orig.cells, cells) && Below(cells, brk)
      modifies this
      ensures Grown(old(cells), cells)
      ensures Below(cells, brk)
      ensures Isomorphic(orig, v, cells, w, seen)
      ensures New(seen, old(cells))
    {
      seen := map[];
      ghost var reach := Reach(orig, v);
      ReachIsClosed(orig, v);
      w := DeepCopyValue(v, orig, reach);
      ReachIsLeast(orig, v, seen.Keys);
      assert seen.Keys == reach;
    }

    /** The Metadata part of ReasoningContent.Clone: each value is copied on its own. The copies of two
        entries never share a cell, even where the originals did. */
    method CloneMetadata(meta: map<string, Value>, ghost orig: Heap)
      returns (out: map<string, Value>, ghost memos: map<string, Memo>)
      requires orig.cells == cells && Closed(orig) && (forall k | k in meta :: WF(meta[k], orig.views))
      requires Below(cells, brk)
      modifies this
      ensures Grown(old(cells), cells)
      ensures out.Keys == meta.Keys && Cloned(orig, meta, cells, out, memos)
    {
      hide Closed, WF, CellWF, Fits, Cloned, Grown, Isomorphic, Below, New;
      out, memos := map[], map[];
      var todo := meta.Keys;
      GrownRefl(cells);
      NoneCloned(orig, meta, cells);
      while todo != {}
        invariant Grown(orig.cells, cells) && Below(cells, brk)
        invariant todo <= meta.Keys && out.Keys == meta.Keys - todo
        invariant Cloned(orig, meta, cells, out, memos)
        decreases |todo|
      {
        var k :| k in todo;
        ghost var c1 := cells;
        var w := CloneMetadataValue(meta[k], orig);
        GrownTrans(orig.cells, c1, cells);
        ClonedNext(orig, meta, c1, out, memos, cells, k, w, seen);
        out := out[k := w];
        memos := memos[k := seen];
        todo := todo - {k};
      }
    }
  }

  /** No copy lies in storage of `c`. */
  ghost predicate New(m: Memo, c: Cells) {
    forall r | r in m :: m[r].loc !in c
  }

  /** Each entry of `out` is an isomorphic copy of that of `meta`, with cells of its own. */
  ghost predicate Cloned(orig: Heap, meta: map<string, Value>, cells: Cells, out: map<string, Value>,
                         memos: map<string, Memo>) {
    && out.Keys == memos.Keys <= meta.Keys
    && (forall k | k in out :: Isomorphic(orig, meta[k], cells, out[k], memos[k]))
    && (forall j, k | j in out && k in out && j != k :: Disjoint(memos[j], memos[k]))
  }

  ghost predicate Disjoint(m: Memo, n: Memo) {
    forall p, q | p in m && q in n :: m[p].loc != n[q].loc
  }

  lemma NoneCloned(orig: Heap, meta: map<string, Value>, cells: Cells)
    ensures Cloned(orig, meta, cells, map[], map[])
  {
  }

  lemma ClonedNext(orig: Heap, meta: map<string, Value>, c0: Cells, out: map<string, Value>, memos: map<string, Memo>,
                   c1: Cells, k: string, w: Value, m: Memo)
    requires Cloned(orig, meta, c0, out, memos) && Grown(c0, c1) && k in meta && k !in out
    requires Isomorphic(orig, meta[k], c1, w, m) && New(m, c0)
    ensures Cloned(orig, meta, c1, out[k := w], memos[k := m])
  {
    hide Isomorphic, Disjoint, Grown;
    forall j | j in out
      ensures Isomorphic(orig, meta[j], c1, out[j], memos[j]) && Disjoint(memos[j], m) && Disjoint(m, memos[j])
    {
      IsomorphicKept(orig, meta[j], c0, out[j], memos[j], c1, m);
    }
  }

  /** A later copy leaves an earlier one intact and shares no cell with it. */
  lemma IsomorphicKept(orig: Heap, v: Value, c0: Cells, w: Value, m: Memo, c1: Cells, n: Memo)
    requires Isomorphic(orig, v, c0, w, m) && Grown(c0, c1) && New(n, c0)
    ensures Isomorphic(orig, v, c1, w, m) && Disjoint(m, n) && Disjoint(n, m)
  {
  }

  /** Every cell of `c0` is still there and unchanged. */
  ghost predicate Grown(c0: Cells, c1: Cells) {
    forall l | l in c0 :: l in c1 && c1[l] == c0[l]
  }

  lemma GrownRefl(c: Cells)
    ensures Grown(c, c)
  {
  }

  lemma GrownTrans(c0: Cells, c1: Cells, c2: Cells)
    requires Grown(c0, c1) && Grown(c1, c2)
    ensures Grown(c0, c2)
  {
  }

  /** Every entry but those under `todo` has been copied. */
  ghost predicate MapCopied(entries: map<Value, Value>, todo: set<Value>, copied: map<Value, Value>, m: Memo) {
    && todo <= entries.Keys
    && CopiedEntries(entries, entries.Keys - todo, copied, m)
    && EntriesWF(entries, entries.Keys - todo, m.Keys)
  }

  lemma MapStarts(orig: Heap, r: Ref, reach: set<Ref>, m: Memo)
    requires Closed(orig) && orig.Has(r) && r in reach && r.loc.kind == Map && ReachOk(orig, reach)
    ensures orig.At(r).MapCell? && MapCopied(orig.At(r).entries, orig.At(r).entries.Keys, map[], m)
    ensures CellWF(orig.At(r), reach)
  {
  }

  lemma MapCopiedKey(orig: Heap, r: Ref, k: Value, reach: set<Ref>, todo: set<Value>, copied: map<Value, Value>,
                     m: Memo)
    requires Closed(orig) && orig.Has(r) && CellWF(orig.At(r), reach) && orig.At(r).MapCell?
    requires MapCopied(orig.At(r).entries, todo, copied, m) && k in todo
    ensures k in orig.At(r).entries
    ensures WF(k, orig.views) && WF(orig.At(r).entries[k], orig.views)
    ensures WF(k, reach) && WF(orig.At(r).entries[k], reach)
  {
  }

  lemma OrigEntriesWF(orig: Heap, r: Ref)
    requires Closed(orig) && orig.Has(r) && orig.At(r).MapCell?
    ensures EntriesWF(orig.At(r).entries, orig.At(r).entries.Keys, orig.views)
  {
  }

  lemma MapCopiedNext(entries: map<Value, Value>, todo: set<Value>, k: Value, copied: map<Value, Value>, m0: Memo,
                      m: Memo,
                      s: set<Ref>)
    requires MapCopied(entries, todo, copied, m0) && Extends(m0, m) && k in todo
    requires Injective(m) && Apart(m, s) && EntriesWF(entries, entries.Keys, s)
    requires WF(k, m.Keys) && WF(entries[k], m.Keys)
    ensures MapCopied(entries, todo - {k}, copied[Image(k, m) := Image(entries[k], m)], m)
  {
    hide Image, WF, CopiedEntries, EntriesWF, Injective, Extends, IsImage, Apart;
    var done := entries.Keys - todo;
    EntriesStable(entries, done, copied, m0, m);
    NotYetCopied(entries, done, k, copied, m, s);
    AddEntry(entries, done, k, copied, m);
    AddEntryWF(entries, done, k, m);
    assert done + {k} == entries.Keys - (todo - {k});
  }

  lemma MapCopiedAll(c: Cell, d: Cell, m: Memo)
    requires c.MapCell? && d.MapCell? && MapCopied(c.entries, {}, d.entries, m)
    ensures CellWF(c, m.Keys) && CopiedCell(c, d, m)
  {
    assert c.entries.Keys - {} == c.entries.Keys;
  }

  /** The key of the next entry is new to the copy, because images are injective. */
  lemma NotYetCopied(entries: map<Value, Value>, done: set<Value>, k: Value, copied: map<Value, Value>, m: Memo,
                     s: set<Ref>)
    requires done <= entries.Keys && k in entries && k !in done && CopiedEntries(entries, done, copied, m)
    requires Injective(m) && Apart(m, s) && EntriesWF(entries, entries.Keys, s)
    ensures Image(k, m) !in copied
  {
    hide WF, Image, IsImage, Injective;
    if Image(k, m) in copied {
      var j := TheKey(Image(k, m), done, m);
      ImageInjective(j, k, m, s);
    }
  }

  lemma AddEntry(entries: map<Value, Value>, done: set<Value>, k: Value, copied: map<Value, Value>, m: Memo)
    requires done <= entries.Keys && k in entries && k !in done && CopiedEntries(entries, done, copied, m)
    requires Image(k, m) !in copied
    ensures CopiedEntries(entries, done + {k}, copied[Image(k, m) := Image(entries[k], m)], m)
  {
    hide WF, Image, IsImage;
    var kc, vc := Image(k, m), Image(entries[k], m);
    var next := copied[kc := vc];
    assert |next| == |copied| + 1;
    forall x | x in next ensures IsImage(x, done + {k}, m) {
      var j := if x == kc then k else TheKey(x, done, m);
      KeyImage(x, j, done + {k}, m);
    }
  }

  lemma AddEntryWF(entries: map<Value, Value>, done: set<Value>, k: Value, m: Memo)
    requires done <= entries.Keys && k in entries && EntriesWF(entries, done, m.Keys)
    requires WF(k, m.Keys) && WF(entries[k], m.Keys)
    ensures EntriesWF(entries, done + {k}, m.Keys)
  {
  }

  ghost function TheKey(x: Value, keys: set<Value>, m: Memo): (k: Value)
    requires IsImage(x, keys, m)
    ensures k in keys && x == Image(k, m)
  {
    var k :| k in keys && x == Image(k, m);
    k
  }

  lemma KeyImage(x: Value, k: Value, keys: set<Value>, m: Memo)
    requires k in keys && x == Image(k, m)
    ensures IsImage(x, keys, m)
  {
  }
}
