/**
  The intrusive pairing heap that schedules fastd's tasks.

  An element carries three links: `next` (its right sibling), `children` (its
  first child) and `pprev`, a pointer to the very cell that points at it. That
  cell is the queue's head, a parent's `children` or a left sibling's `next`;
  it is modelled as a `Loc`. Knowing only an element, its `pprev` cell lets any
  inner element be taken out.

  A ghost `Forest` mirrors the links (first child / next sibling). The methods
  below are proved against functions on forests, and the heap laws are proved
  about those functions.
*/
module PairingHeap {

  class Elem {
    var pprev: Loc
    var next: Elem?
    var children: Elem?
    var value: int

    constructor (v: int)
      ensures Unlinked() && value == v
    {
      pprev, next, children, value := Null, null, null, v;
    }

    /** An element that belongs to no queue: every link is cleared. */
    predicate Unlinked()
      reads this
    {
      pprev.Null? && next == null && children == null
    }
  }

  /** What a `pprev` can hold: nothing, or the address of one link cell. */
  datatype Loc = Null | Head(q: Queue) | Next(of: Elem) | Children(of: Elem)
  {
    /** The queue or the element that the cell belongs to. */
    function Queues(): set<Queue> {
      if Head? then {q} else {}
    }

    function Elems(): set<Elem> {
      if Next? || Children? then {of} else {}
    }

    /** The cell is not one of the links of the elements in `s`. */
    ghost predicate Outside(s: set<Elem>) {
      Next? || Children? ==> of !in s
    }

    function Deref(): Elem?
      requires !Null?
      reads Queues(), Elems()
    {
      match this
      case Head(q) => q.head
      case Next(e) => e.next
      case Children(e) => e.children
    }

    method Store(p: Elem?)
      requires !Null?
      modifies Queues()`head, Elems()`next, Elems()`children
      ensures Deref() == p
      ensures (Next? || Children?) ==> LinksOf(of) == Redirect(old(LinksOf(of)), of, this, p)
    {
      match this
      case Head(q) => q.head := p;
      case Next(e) => e.next := p;
      case Children(e) => e.children := p;
    }
  }

  /** The links of one element, and a snapshot of the links of many. */
  datatype Links = Links(pprev: Loc, next: Elem?, children: Elem?, value: int)
  type Memory = map<Elem, Links>

  ghost function LinksOf(e: Elem): Links
    reads e
  {
    Links(e.pprev, e.next, e.children, e.value)
  }

  ghost function Snapshot(s: set<Elem>): Memory
    reads s
  {
    map e | e in s :: LinksOf(e)
  }

  /** What is left of the links of `e` when the cell `loc` is made to point at `p`. */
  ghost function Redirect(l: Links, e: Elem, loc: Loc, p: Elem?): Links {
    if loc == Next(e) then l.(next := p)
    else if loc == Children(e) then l.(children := p)
    else l
  }

  // ---------------------------------------------------------------- forests

  /** A sibling list of heaps: the first element, its children and the siblings after it. */
  datatype Forest = Nil | Cons(elem: Elem, value: int, kids: Forest, rest: Forest)

  ghost function Elems(f: Forest): set<Elem> {
    match f
    case Nil => {}
    case Cons(e, _, kids, rest) => {e} + Elems(kids) + Elems(rest)
  }

  /** No element occurs twice. */
  ghost predicate Unrepeated(f: Forest) {
    match f
    case Nil => true
    case Cons(e, _, kids, rest) =>
      && e !in Elems(kids) && e !in Elems(rest) && Elems(kids) !! Elems(rest)
      && Unrepeated(kids) && Unrepeated(rest)
  }

  /** No child is smaller than its parent, and no root is smaller than `bound`. */
  ghost predicate Ordered(f: Forest, bound: int) {
    match f
    case Nil => true
    case Cons(_, v, kids, rest) => bound <= v && Ordered(kids, v) && Ordered(rest, bound)
  }

  /** At most one root. */
  ghost predicate Single(f: Forest) {
    f.Cons? ==> f.rest.Nil?
  }

  /** In memory `m`, pointer `p` is stored in the cell `loc` and leads to exactly the forest `f`. */
  ghost predicate Linked(m: Memory, f: Forest, p: Elem?, loc: Loc) {
    match f
    case Nil => p == null
    case Cons(e, v, kids, rest) =>
      && p == e && e in m && m[e].pprev == loc && m[e].value == v
      && Linked(m, kids, m[e].children, Children(e))
      && Linked(m, rest, m[e].next, Next(e))
  }

  /** A detached heap: as `Linked` with no sibling, but the root's `pprev` is whatever was left there. */
  ghost predicate Detached(m: Memory, f: Forest, p: Elem?) {
    && Single(f)
    && match f
       case Nil => p == null
       case Cons(e, v, kids, _) =>
         && p == e && e in m && m[e].value == v && m[e].next == null
         && Linked(m, kids, m[e].children, Children(e))
  }

  // --------------------------------------------- the operations on forests

  ghost function Merge(f: Forest, g: Forest): (r: Forest)
    requires f.Cons? && Single(f) && Single(g)
    ensures r.Cons? && Single(r)
  {
    match g
    case Nil => f
    case Cons(e, v, kids, _) =>
      if f.value < v
      then Cons(f.elem, f.value, Cons(e, v, kids, f.kids), Nil)
      else Cons(e, v, Cons(f.elem, f.value, f.kids, kids), Nil)
  }

  ghost function MergePairs(f: Forest): (r: Forest)
    ensures Single(r) && (r.Nil? <==> f.Nil?)
  {
    match f
    case Nil => Nil
    case Cons(e, v, kids, rest) =>
      match rest
      case Nil => f
      case Cons(e', v', kids', rest') =>
        Merge(Merge(Cons(e, v, kids, Nil), Cons(e', v', kids', Nil)), MergePairs(rest'))
  }

  /** Puts a detached heap in front of a sibling list. */
  ghost function Attach(f: Forest, rest: Forest): Forest
    requires Single(f)
  {
    match f
    case Nil => rest
    case Cons(e, v, kids, _) => Cons(e, v, kids, rest)
  }

  /** Takes `x` out: the merge of its children takes its place. */
  ghost function Removed(f: Forest, x: Elem): Forest {
    match f
    case Nil => Nil
    case Cons(e, v, kids, rest) =>
      if e == x then Attach(MergePairs(kids), rest)
      else Cons(e, v, Removed(kids, x), Removed(rest, x))
  }

  /** The part of `f` that starts at `x`. */
  ghost function From(f: Forest, x: Elem): (r: Forest)
    requires x in Elems(f)
    ensures r.Cons? && r.elem == x && Elems(r) <= Elems(f)
  {
    if f.elem == x then f
    else if x in Elems(f.kids) then From(f.kids, x)
    else From(f.rest, x)
  }

  // -------------------------------------------------------------- heap laws

  lemma MergeLaws(f: Forest, g: Forest, bound: int)
    requires f.Cons? && Single(f) && Single(g)
    ensures Elems(Merge(f, g)) == Elems(f) + Elems(g)
    ensures Unrepeated(f) && Unrepeated(g) && Elems(f) !! Elems(g) ==> Unrepeated(Merge(f, g))
    ensures Ordered(f, bound) && Ordered(g, bound) ==> Ordered(Merge(f, g), bound)
  {
    if g.Cons? {
      assert g == Cons(g.elem, g.value, g.kids, Nil);
      assert f == Cons(f.elem, f.value, f.kids, Nil);
      if Ordered(f, bound) && Ordered(g, bound) {
        if f.value < g.value {
          assert Ordered(Cons(g.elem, g.value, g.kids, f.kids), f.value);
        } else {
          assert Ordered(Cons(f.elem, f.value, f.kids, g.kids), g.value);
        }
      }
    }
  }

  /** A heap merged with a new element is a heap with exactly that element added. */
  lemma InsertLaws(g: Forest, e: Elem, v: int, r: Forest)
    requires Single(g) && Unrepeated(g) && e !in Elems(g) && (g.Cons? ==> Ordered(g, g.value))
    requires r == Merge(Cons(e, v, Nil, Nil), g)
    ensures Elems(r) == Elems(g) + {e} && Unrepeated(r) && Ordered(r, r.value)
  {
    MergeLaws(Cons(e, v, Nil, Nil), g, if g.Nil? || v < g.value then v else g.value);
  }

  /** Pairwise merging keeps the elements, their distinctness and the heap order. */
  lemma {:induction false} MergePairsLaws(f: Forest, bound: int)
    ensures Elems(MergePairs(f)) == Elems(f)
    ensures Unrepeated(f) ==> Unrepeated(MergePairs(f))
    ensures Ordered(f, bound) ==> Ordered(MergePairs(f), bound)
  {
    if f.Cons? && f.rest.Cons? {
      var t0 := Cons(f.elem, f.value, f.kids, Nil);
      var t1 := Cons(f.rest.elem, f.rest.value, f.rest.kids, Nil);
      MergeLaws(t0, t1, bound);
      MergePairsLaws(f.rest.rest, bound);
      MergeLaws(Merge(t0, t1), MergePairs(f.rest.rest), bound);
      assert MergePairs(f) == Merge(Merge(t0, t1), MergePairs(f.rest.rest));
      assert Unrepeated(f) ==> Unrepeated(f.rest);
      assert Unrepeated(f) ==> Unrepeated(t0) && Unrepeated(t1) && Unrepeated(Merge(t0, t1));
      assert Ordered(f, bound) ==> Ordered(f.rest, bound);
    }
  }

  /** One round of pairwise merging, with the first two siblings taken apart from the rest. */
  lemma PairParts(f: Forest, t0: Forest, t1: Forest, t: Forest, rest: Forest)
    requires f.Cons? && f.rest.Cons? && Unrepeated(f)
    requires t0 == f.(rest := Nil) && t1 == f.rest.(rest := Nil) && t == Merge(t0, t1) && rest == f.rest.rest
    ensures Unrepeated(t0) && Unrepeated(t1) && Unrepeated(t) && Unrepeated(rest) && Unrepeated(MergePairs(rest))
    ensures Elems(t0) !! Elems(t1) && Elems(t) == Elems(t0) + Elems(t1) && Elems(t) !! Elems(rest)
    ensures Elems(MergePairs(rest)) == Elems(rest)
    ensures Elems(f) == Elems(t) + Elems(rest)
    ensures MergePairs(f) == Merge(t, MergePairs(rest))
  {
    MergeLaws(t0, t1, 0);
    MergePairsLaws(rest, 0);
  }

  lemma {:induction false} OrderedWeaken(f: Forest, b: int, b': int)
    requires Ordered(f, b) && b' <= b
    ensures Ordered(f, b')
  {
    if f.Cons? { OrderedWeaken(f.rest, b, b'); }
  }

  /** Removing any element loses exactly that element and keeps the heap a heap. */
  lemma {:induction false} RemovedLaws(f: Forest, x: Elem, bound: int)
    requires Unrepeated(f) && Ordered(f, bound)
    ensures Elems(Removed(f, x)) == Elems(f) - {x}
    ensures Unrepeated(Removed(f, x)) && Ordered(Removed(f, x), bound)
  {
    match f
    case Nil =>
    case Cons(e, v, kids, rest) =>
      if e == x {
        MergePairsLaws(kids, v);
        OrderedWeaken(MergePairs(kids), v, bound);
      } else {
        RemovedLaws(kids, x, v);
        RemovedLaws(rest, x, bound);
      }
  }

  lemma {:induction false} RemovedAbsent(f: Forest, x: Elem)
    requires x !in Elems(f)
    ensures Removed(f, x) == f
  {
    if f.Cons? { RemovedAbsent(f.kids, x); RemovedAbsent(f.rest, x); }
  }

  /** In an ordered forest every element is at least the bound. */
  lemma {:induction false} BoundBelow(m: Memory, f: Forest, p: Elem?, loc: Loc, bound: int, x: Elem)
    requires Linked(m, f, p, loc) && Ordered(f, bound) && x in Elems(f)
    ensures x in m && bound <= m[x].value
  {
    if x in Elems(f.kids) {
      BoundBelow(m, f.kids, m[f.elem].children, Children(f.elem), f.value, x);
    } else if x in Elems(f.rest) {
      BoundBelow(m, f.rest, m[f.elem].next, Next(f.elem), bound, x);
    }
  }

  // ------------------------------------------------------- links and memory

  /** Linking depends only on the links of the forest's own elements. */
  lemma {:induction false} Unchanged(m: Memory, m': Memory, f: Forest, p: Elem?, loc: Loc)
    requires Linked(m, f, p, loc)
    requires forall e :: e in Elems(f) && e in m ==> e in m' && m'[e] == m[e]
    ensures Linked(m', f, p, loc)
  {
    if f.Cons? {
      Unchanged(m, m', f.kids, m[f.elem].children, Children(f.elem));
      Unchanged(m, m', f.rest, m[f.elem].next, Next(f.elem));
    }
  }

  /** The cell holding the pointer to `x` is `loc` or belongs to an element outside the part starting at `x`. */
  lemma {:induction false} CellOf(m: Memory, f: Forest, p: Elem?, loc: Loc, x: Elem)
    requires Linked(m, f, p, loc) && Unrepeated(f) && x in Elems(f)
    ensures x in m && Linked(m, From(f, x), x, m[x].pprev) && Unrepeated(From(f, x))
    ensures x == f.elem ==> m[x].pprev == loc
    ensures x != f.elem ==> m[x].pprev.Next? || m[x].pprev.Children?
    ensures x != f.elem ==> m[x].pprev.of in Elems(f) - Elems(From(f, x))
  {
    if x == f.elem {
    } else if x in Elems(f.kids) {
      CellOf(m, f.kids, m[f.elem].children, Children(f.elem), x);
    } else {
      CellOf(m, f.rest, m[f.elem].next, Next(f.elem), x);
    }
  }

  /**
    If only the part of the forest that starts at `x` was rebuilt, as `g`, and outside it only the cell
    that pointed at `x` was redirected to `g`, then the whole forest is linked again with `x` taken out.
  */
  lemma {:induction false} Relink(m: Memory, m': Memory, f: Forest, p: Elem?, loc: Loc, x: Elem, g: Forest, gp: Elem?)
    requires Linked(m, f, p, loc) && Unrepeated(f) && x in Elems(f) && x != f.elem
    requires x in m && g == Attach(MergePairs(From(f, x).kids), From(f, x).rest)
    requires Linked(m', g, gp, m[x].pprev)
    requires forall e :: e in Elems(f) - Elems(From(f, x)) ==>
      e in m && e in m' && m'[e] == Redirect(m[e], e, m[x].pprev, gp)
    ensures Linked(m', Removed(f, x), p, loc)
  {
    var e := f.elem;
    if x in Elems(f.kids) {
      CellOf(m, f.kids, m[e].children, Children(e), x);
      RemovedAbsent(f.rest, x);
      Unchanged(m, m', f.rest, m[e].next, Next(e));
      if x != f.kids.elem {
        Relink(m, m', f.kids, m[e].children, Children(e), x, g, gp);
      }
    } else {
      CellOf(m, f.rest, m[e].next, Next(e), x);
      RemovedAbsent(f.kids, x);
      Unchanged(m, m', f.kids, m[e].children, Children(e));
      if x != f.rest.elem {
        Relink(m, m', f.rest, m[e].next, Next(e), x, g, gp);
      }
    }
  }

  /** A detached heap put in front of a list: the links that make the two one list in the cell `loc`. */
  lemma {:induction false} AttachLinked(m: Memory, m': Memory, f: Forest, rest: Forest, e: Elem, r: Elem?, loc: Loc)
    requires f.Cons? && Detached(m, f, e) && Linked(m, rest, r, loc)
    requires Unrepeated(f) && Unrepeated(rest) && Elems(f) !! Elems(rest)
    requires e in m' && m'[e] == m[e].(pprev := loc, next := r)
    requires rest.Cons? ==> r in m' && m'[r] == m[r].(pprev := Next(e))
    requires forall x :: x in Elems(f) + Elems(rest) && x != e && x != r && x in m ==> x in m' && m'[x] == m[x]
    ensures Linked(m', Attach(f, rest), e, loc)
  {
    Unchanged(m, m', f.kids, m[e].children, Children(e));
    if rest.Cons? {
      Unchanged(m, m', rest.kids, m[r].children, Children(r));
      Unchanged(m, m', rest.rest, m[r].next, Next(r));
    }
  }

  /** A detached heap stays one while nobody touches its elements. */
  lemma DetachedUnchanged(m: Memory, m': Memory, f: Forest, p: Elem?)
    requires Detached(m, f, p)
    requires forall e :: e in Elems(f) && e in m ==> e in m' && m'[e] == m[e]
    ensures Detached(m', f, p)
  {
    if f.Cons? { Unchanged(m, m', f.kids, m[f.elem].children, Children(f.elem)); }
  }

  /** Storing a detached heap's root in a cell and the cell in the root's `pprev` links the heap there. */
  lemma RootLinked(m: Memory, m': Memory, f: Forest, p: Elem, loc: Loc)
    requires f.Cons? && Unrepeated(f) && Detached(m, f, p)
    requires p in m' && m'[p] == m[p].(pprev := loc)
    requires forall e :: e in Elems(f) && e in m && e != p ==> e in m' && m'[e] == m[e]
    ensures Linked(m', f, p, loc)
  {
    Unchanged(m, m', f.kids, m[p].children, Children(p));
  }

  /** A list whose first `pprev` is updated is linked in the new cell. */
  lemma MoveCell(m: Memory, m': Memory, f: Forest, p: Elem, loc: Loc, loc': Loc)
    requires f.Cons? && Unrepeated(f) && Linked(m, f, p, loc)
    requires p in m' && m'[p] == m[p].(pprev := loc')
    requires forall e :: e in Elems(f) && e in m && e != p ==> e in m' && m'[e] == m[e]
    ensures Linked(m', f, p, loc')
  {
    Unchanged(m, m', f.kids, m[p].children, Children(p));
    Unchanged(m, m', f.rest, m[p].next, Next(p));
  }

  /** Clearing the `next` of the first two siblings detaches both and leaves the others linked. */
  lemma SplitPair(m: Memory, m': Memory, f: Forest, loc: Loc)
    requires f.Cons? && f.rest.Cons? && Unrepeated(f) && Linked(m, f, f.elem, loc) && f.rest.elem in m
    requires forall e :: e in Elems(f) && e in m ==>
      e in m' && m'[e] == if e == f.elem || e == f.rest.elem then m[e].(next := null) else m[e]
    ensures Detached(m', f.(rest := Nil), f.elem) && Detached(m', f.rest.(rest := Nil), f.rest.elem)
    ensures Linked(m', f.rest.rest, m[f.rest.elem].next, Next(f.rest.elem))
  {
    var p, p1 := f.elem, f.rest.elem;
    Unchanged(m, m', f.kids, m[p].children, Children(p));
    Unchanged(m, m', f.rest.kids, m[p1].children, Children(p1));
    Unchanged(m, m', f.rest.rest, m[p1].next, Next(p1));
  }

  // ---------------------------------------------------------------- methods

  ghost function First(f: Forest): set<Elem> {
    if f.Cons? then {f.elem} else {}
  }

  /** Points `elem` back to the cell `loc` and on to the element there, and that one back to `elem`. */
  method Precede(loc: Loc, elem: Elem)
    requires !loc.Null? && loc.Deref() != elem && loc.Outside({elem})
    requires loc.Deref() != null ==> loc.Outside({loc.Deref()})
    modifies elem`pprev, elem`next, (if loc.Deref() == null then {} else {loc.Deref()})`pprev
    ensures LinksOf(elem) == old(LinksOf(elem)).(pprev := loc, next := old(loc.Deref()))
    ensures var r := old(loc.Deref()); r != null ==> LinksOf(r) == old(LinksOf(r)).(pprev := Next(elem))
    ensures loc.Deref() == old(loc.Deref())
  {
    elem.pprev := loc;
    elem.next := loc.Deref();
    if elem.next != null {
      elem.next.pprev := Next(elem);
    }
  }

  /** Links the heap `elem` in front of the list in the cell `loc`; the source stops if `elem.next` is set. */
  method Link(loc: Loc, elem: Elem, ghost f: Forest, ghost rest: Forest, ghost all: set<Elem>)
    requires elem.next == null
    requires !loc.Null? && f.Cons? && Unrepeated(f) && Unrepeated(rest) && Elems(f) !! Elems(rest)
    requires loc.Outside(Elems(f) + Elems(rest))
    requires Elems(f) + Elems(rest) <= all
    requires Detached(Snapshot(all), f, elem) && Linked(Snapshot(all), rest, loc.Deref(), loc)
    modifies loc.Queues()`head, loc.Elems()`next, loc.Elems()`children, elem`pprev, elem`next, First(rest)`pprev
    ensures loc.Deref() == elem
    ensures Linked(Snapshot(all), Attach(f, rest), elem, loc)
    ensures (loc.Next? || loc.Children?) ==> LinksOf(loc.of) == Redirect(old(LinksOf(loc.of)), loc.of, loc, elem)
  {
    ghost var m, r := Snapshot(all), loc.Deref();
    Precede(loc, elem);
    loc.Store(elem);
    assert forall x :: x in Elems(f) + Elems(rest) && x != elem && x != r ==> LinksOf(x) == m[x];
    AttachLinked(m, Snapshot(all), f, rest, elem, r, loc);
  }

  /** Makes the larger of two detached heaps a child of the other; the source stops if either has a successor. */
  method MergeHeaps(p: Elem, q: Elem?, ghost f: Forest, ghost g: Forest, ghost all: set<Elem>) returns (r: Elem)
    requires p.next == null && (q != null ==> q.next == null)
    requires f.Cons? && Unrepeated(f) && Unrepeated(g) && Elems(f) !! Elems(g) && Elems(f) + Elems(g) <= all
    requires Detached(Snapshot(all), f, p) && Detached(Snapshot(all), g, q)
    modifies (Elems(f) + Elems(g))`pprev, (Elems(f) + Elems(g))`next, (Elems(f) + Elems(g))`children
    ensures Detached(Snapshot(all), Merge(f, g), r)
  {
    if q == null {
      return p;
    }
    if p.value < q.value {
      Link(Children(p), q, g, f.kids, all);
      r := p;
    } else {
      Link(Children(q), p, f, g.kids, all);
      r := q;
    }
  }

  /** Merges a list of sibling heaps into one. */
  method MergeSiblings(p: Elem?, ghost f: Forest, ghost loc: Loc, ghost all: set<Elem>) returns (r: Elem?)
    requires Unrepeated(f) && Elems(f) <= all && Linked(Snapshot(all), f, p, loc)
    requires p != null ==> !p.pprev.Null?
    modifies Elems(f)`pprev, Elems(f)`next, Elems(f)`children
    ensures Detached(Snapshot(all), MergePairs(f), r)
    decreases f, 1
  {
    if p == null {
      return null;
    }
    var p1 := p.next;
    if p1 == null {
      return p;
    }
    ghost var t0, t1, rest := f.(rest := Nil), f.rest.(rest := Nil), f.rest.rest;
    PairParts(f, t0, t1, Merge(t0, t1), rest);
    var p2 := DetachPair(p, p1, f, loc, all);
    r := MergeRound(p, p1, p2, t0, t1, rest, all);
  }

  /** Cuts the first two siblings off the list and returns the third. */
  method DetachPair(p: Elem, p1: Elem, ghost f: Forest, ghost loc: Loc, ghost all: set<Elem>) returns (p2: Elem?)
    requires f.Cons? && f.rest.Cons? && f.elem == p && f.rest.elem == p1
    requires Unrepeated(f) && Elems(f) <= all && Linked(Snapshot(all), f, p, loc)
    modifies p`next, p1`next
    ensures p.next == null && p1.next == null
    ensures Detached(Snapshot(all), f.(rest := Nil), p) && Detached(Snapshot(all), f.rest.(rest := Nil), p1)
    ensures Linked(Snapshot(all), f.rest.rest, p2, Next(p1))
  {
    ghost var m := Snapshot(all);
    p2 := p1.next;
    p.next, p1.next := null, null;
    SplitPair(m, Snapshot(all), f, loc);
  }

  /** The value returned by one round: two detached heaps merged, and then merged with the rest of the list. */
  method MergeRound(p: Elem, p1: Elem, p2: Elem?, ghost t0: Forest, ghost t1: Forest, ghost rest: Forest,
      ghost all: set<Elem>)
    returns (r: Elem)
    requires p.next == null && p1.next == null && t0.Cons? && t1.Cons?
    requires Detached(Snapshot(all), t0, p) && Detached(Snapshot(all), t1, p1)
    requires Linked(Snapshot(all), rest, p2, Next(p1))
    requires Unrepeated(t0) && Unrepeated(t1) && Unrepeated(rest) && Elems(t0) !! Elems(t1) !! Elems(rest)
    requires Elems(t0) <= all && Elems(t1) <= all && Elems(rest) <= all
    modifies (Elems(t0) + Elems(t1) + Elems(rest))`pprev, (Elems(t0) + Elems(t1) + Elems(rest))`next
    modifies (Elems(t0) + Elems(t1) + Elems(rest))`children
    ensures Detached(Snapshot(all), Merge(Merge(t0, t1), MergePairs(rest)), r)
    decreases rest, 2
  {
    ghost var m1 := Snapshot(all);
    r := MergeHeaps(p, p1, t0, t1, all);
    ghost var t, m2 := Merge(t0, t1), Snapshot(all);
    Unchanged(m1, m2, rest, p2, Next(p1));
    var r' := MergeSiblings(p2, rest, Next(p1), all);
    MergeLaws(t0, t1, 0);
    MergePairsLaws(rest, 0);
    DetachedUnchanged(m2, Snapshot(all), t, r);
    r := MergeHeaps(r, r', t, MergePairs(rest), all);
  }

  /** Takes `elem` out of its sibling list: the cell that pointed at it now points at its next sibling. */
  method Unlink(elem: Elem, ghost rest: Forest, ghost all: set<Elem>)
    requires !elem.pprev.Null? && elem !in Elems(rest) && elem.pprev.Outside({elem} + Elems(rest))
    requires Unrepeated(rest) && Elems(rest) <= all && Linked(Snapshot(all), rest, elem.next, Next(elem))
    modifies elem.pprev.Queues()`head, elem.pprev.Elems()`next, elem.pprev.Elems()`children, elem`next,
      First(rest)`pprev
    ensures elem.next == null
    ensures Linked(Snapshot(all), rest, elem.pprev.Deref(), elem.pprev)
    ensures var loc := elem.pprev; loc.Next? || loc.Children? ==>
      LinksOf(loc.of) == Redirect(old(LinksOf(loc.of)), loc.of, loc, loc.Deref())
  {
    ghost var m := Snapshot(all);
    var next := elem.next;
    elem.pprev.Store(next);
    if next != null {
      next.pprev := elem.pprev;
    }
    elem.next := null;
    if next != null {
      MoveCell(m, Snapshot(all), rest, next, Next(elem), elem.pprev);
    }
  }

  class Queue {
    var head: Elem?
    ghost var forest: Forest
    ghost var contents: set<Elem>

    ghost predicate Valid()
      reads this, contents
    {
      && contents == Elems(forest)
      && Linked(Snapshot(contents), forest, head, Head(this))
      && Single(forest) && Unrepeated(forest)
      && (forest.Cons? ==> Ordered(forest, forest.value))
    }

    constructor ()
      ensures Valid() && contents == {}
    {
      head, forest, contents := null, Nil, {};
    }

    /** The head is a minimum, and an empty head means an empty queue. */
    lemma HeadIsMinimum(x: Elem)
      requires Valid() && x in contents
      ensures head != null && head in contents && head.value <= x.value
    {
      BoundBelow(Snapshot(contents), forest, head, Head(this), forest.value, x);
    }

    /** Queued elements have their `pprev` set, which is how the source tells them apart. */
    lemma QueuedIsLinked(x: Elem)
      requires Valid()
      ensures x in contents ==> !x.pprev.Null?
    {
      if x in contents { CellOf(Snapshot(contents), forest, head, Head(this), x); }
    }

    lemma RemoveLaws(x: Elem)
      requires Valid() && x in contents
      ensures var f := Removed(forest, x);
        Elems(f) == contents - {x} && Unrepeated(f) && Single(f) && (f.Cons? ==> Ordered(f, f.value))
    {
      RemovedLaws(forest, x, forest.value);
    }

    /** Inserts an element; the source stops unless all of its links are clear. */
    method Insert(elem: Elem)
      requires Valid() && elem.Unlinked()
      modifies this, contents, elem
      ensures Valid() && contents == old(contents) + {elem}
      ensures forall e :: e in contents ==> e.value == old(e.value)
    {
      QueuedIsLinked(elem);
      ghost var m, f, g := Snapshot(contents), forest, Cons(elem, elem.value, Nil, Nil);
      InsertLaws(f, elem, elem.value, Merge(g, f));
      forest, contents := Merge(g, f), contents + {elem};
      Unchanged(m, Snapshot(contents), f, head, Head(this));
      PutIn(elem, f, contents);
    }

    /** Merges the single element into the heap `f` and makes the result the head. */
    method PutIn(elem: Elem, ghost f: Forest, ghost all: set<Elem>)
      requires elem.Unlinked() && elem !in Elems(f) && all == Elems(f) + {elem}
      requires Single(f) && Unrepeated(f) && Linked(Snapshot(all), f, head, Head(this))
      modifies this`head, all`pprev, all`next, all`children
      ensures Linked(Snapshot(all), Merge(Cons(elem, elem.value, Nil, Nil), f), head, Head(this))
    {
      ghost var g := Cons(elem, elem.value, Nil, Nil);
      MergeLaws(g, f, 0);
      var h := MergeHeaps(elem, head, g, f, all);
      SetHead(h, Merge(g, f), all);
    }

    method SetHead(h: Elem, ghost f: Forest, ghost all: set<Elem>)
      requires f.Cons? && Unrepeated(f) && Elems(f) <= all && Detached(Snapshot(all), f, h)
      modifies this`head, h`pprev
      ensures head == h && Linked(Snapshot(all), f, h, Head(this))
    {
      ghost var m := Snapshot(all);
      head := h;
      head.pprev := Head(this);
      RootLinked(m, Snapshot(all), f, h, Head(this));
    }
  }

  /** What the rest of a removal sees of the part of the forest starting at `x`. */
  lemma RemoveParts(m: Memory, f: Forest, p: Elem?, loc: Loc, x: Elem, kids: Forest, rest: Forest)
    requires Linked(m, f, p, loc) && Unrepeated(f) && x in Elems(f) && kids == From(f, x).kids &&
      rest == From(f, x).rest
    ensures x in m && Linked(m, kids, m[x].children, Children(x)) && Linked(m, rest, m[x].next, Next(x))
    ensures Unrepeated(kids) && Unrepeated(rest) && Elems(kids) !! Elems(rest) && x !in Elems(kids) + Elems(rest)
    ensures Elems(From(f, x)) == Elems(kids) + Elems(rest) + {x} <= Elems(f)
    ensures x == f.elem ==> m[x].pprev == loc
    ensures x != f.elem ==> m[x].pprev.Next? || m[x].pprev.Children?
    ensures x != f.elem ==> m[x].pprev.of in Elems(f) && m[x].pprev.of !in Elems(kids) + Elems(rest) + {x}
  {
    CellOf(m, f, p, loc, x);
  }

  /** Merges the siblings `kids` and puts the result in front of the list in the cell `loc`. */
  method MergeInto(p: Elem?, loc: Loc, ghost from: Loc, ghost kids: Forest, ghost rest: Forest, ghost all: set<Elem>)
    requires !loc.Null? && !from.Null? && Linked(Snapshot(all), kids, p, from)
    requires Linked(Snapshot(all), rest, loc.Deref(), loc)
    requires Unrepeated(kids) && Unrepeated(rest) && Elems(kids) !! Elems(rest) && Elems(kids) + Elems(rest) <= all
    requires loc.Outside(Elems(kids) + Elems(rest))
    modifies loc.Queues()`head, loc.Elems()`next, loc.Elems()`children
    modifies Elems(kids)`pprev, Elems(kids)`next, Elems(kids)`children, First(rest)`pprev
    ensures Linked(Snapshot(all), Attach(MergePairs(kids), rest), loc.Deref(), loc)
    ensures (loc.Next? || loc.Children?) ==> LinksOf(loc.of) == Redirect(old(LinksOf(loc.of)), loc.of, loc, loc.Deref())
  {
    ghost var m := Snapshot(all);
    var merged := MergeSiblings(p, kids, from, all);
    MergePairsLaws(kids, 0);
    Unchanged(m, Snapshot(all), rest, loc.Deref(), loc);
    if merged != null {
      Link(loc, merged, MergePairs(kids), rest, all);
    }
  }

  /** As `Relink`, also when `x` is the root: then the redirected cell is the queue's head. */
  lemma RelinkAny(m: Memory, m': Memory, f: Forest, p: Elem?, p': Elem?, loc: Loc, x: Elem, gp: Elem?)
    requires Linked(m, f, p, loc) && loc.Head? && Unrepeated(f) && x in Elems(f) && x in m
    requires Linked(m', Attach(MergePairs(From(f, x).kids), From(f, x).rest), gp, m[x].pprev)
    requires p' == if m[x].pprev == loc then gp else p
    requires forall e :: e in Elems(f) - Elems(From(f, x)) ==>
      e in m && e in m' && m'[e] == Redirect(m[e], e, m[x].pprev, gp)
    ensures Linked(m', Removed(f, x), p', loc)
  {
    CellOf(m, f, p, loc, x);
    if x != f.elem {
      Relink(m, m', f, p, loc, x, Attach(MergePairs(From(f, x).kids), From(f, x).rest), gp);
    }
  }

  /** Clears the links of an element that is no longer reachable. */
  method Clear(elem: Elem, ghost f: Forest, ghost loc: Loc, ghost all: set<Elem>)
    requires elem !in Elems(f) && !loc.Null? && loc.Outside({elem}) && Linked(Snapshot(all), f, loc.Deref(), loc)
    modifies elem`pprev, elem`children
    ensures elem.pprev.Null? && elem.children == null && loc.Deref() == old(loc.Deref())
    ensures Linked(Snapshot(all), f, loc.Deref(), loc)
  {
    ghost var m := Snapshot(all);
    elem.pprev := Null;
    elem.children := null;
    Unchanged(m, Snapshot(all), f, loc.Deref(), loc);
  }

  lemma AttachElems(kids: Forest, rest: Forest)
    ensures Elems(Attach(MergePairs(kids), rest)) == Elems(kids) + Elems(rest)
  {
    MergePairsLaws(kids, 0);
  }

  /** Replaces `elem` by the merge of its children in the cell `pprev`. */
  method Replace(elem: Elem, pprev: Loc, ghost kids: Forest, ghost rest: Forest, ghost all: set<Elem>)
    requires pprev == elem.pprev && !pprev.Null?
    requires Linked(Snapshot(all), kids, elem.children, Children(elem))
    requires Linked(Snapshot(all), rest, elem.next, Next(elem))
    requires Unrepeated(kids) && Unrepeated(rest) && Elems(kids) !! Elems(rest) && elem !in Elems(kids) + Elems(rest)
    requires Elems(kids) + Elems(rest) <= all
    requires pprev.Outside(Elems(kids) + Elems(rest) + {elem})
    modifies pprev.Queues()`head, pprev.Elems()`next, pprev.Elems()`children, elem`next
    modifies Elems(kids)`pprev, Elems(kids)`next, Elems(kids)`children, First(rest)`pprev
    ensures elem.next == null
    ensures Linked(Snapshot(all), Attach(MergePairs(kids), rest), pprev.Deref(), pprev)
    ensures (pprev.Next? || pprev.Children?) ==>
      LinksOf(pprev.of) == Redirect(old(LinksOf(pprev.of)), pprev.of, pprev, pprev.Deref())
  {
    ghost var m0 := Snapshot(all);
    Unlink(elem, rest, all);
    Unchanged(m0, Snapshot(all), kids, elem.children, Children(elem));
    MergeInto(elem.children, pprev, Children(elem), kids, rest, all);
  }

  /** Replaces `elem` by the merge of its children in the cell `pprev` and clears its links. */
  method RemoveAt(elem: Elem, pprev: Loc, ghost kids: Forest, ghost rest: Forest, ghost all: set<Elem>)
    requires pprev == elem.pprev && !pprev.Null?
    requires Linked(Snapshot(all), kids, elem.children, Children(elem))
    requires Linked(Snapshot(all), rest, elem.next, Next(elem))
    requires Unrepeated(kids) && Unrepeated(rest) && Elems(kids) !! Elems(rest) && elem !in Elems(kids) + Elems(rest)
    requires Elems(kids) + Elems(rest) <= all
    requires pprev.Outside(Elems(kids) + Elems(rest) + {elem})
    modifies pprev.Queues()`head, pprev.Elems()`next, pprev.Elems()`children, elem`pprev, elem`next, elem`children
    modifies Elems(kids)`pprev, Elems(kids)`next, Elems(kids)`children, First(rest)`pprev
    ensures elem.Unlinked()
    ensures Linked(Snapshot(all), Attach(MergePairs(kids), rest), pprev.Deref(), pprev)
    ensures (pprev.Next? || pprev.Children?) ==>
      LinksOf(pprev.of) == Redirect(old(LinksOf(pprev.of)), pprev.of, pprev, pprev.Deref())
  {
    Replace(elem, pprev, kids, rest, all);
    AttachElems(kids, rest);
    Clear(elem, Attach(MergePairs(kids), rest), pprev, all);
  }

  /** Takes a queued element out of the links; `f` and `all` are the queue's forest and elements. */
  method TakeOut(elem: Elem, ghost q: Queue, ghost f: Forest, ghost all: set<Elem>)
    requires Linked(Snapshot(all), f, q.head, Head(q)) && Unrepeated(f) && all == Elems(f) && elem in all
    modifies q`head, all`pprev, all`next, all`children
    ensures elem.Unlinked() && Linked(Snapshot(all), Removed(f, elem), q.head, Head(q))
  {
    ghost var m, p, kids, rest := Snapshot(all), q.head, From(f, elem).kids, From(f, elem).rest;
    var pprev := elem.pprev;
    RemoveParts(m, f, p, Head(q), elem, kids, rest);
    RemoveAt(elem, pprev, kids, rest, all);
    RelinkAny(m, Snapshot(all), f, p, q.head, Head(q), elem, pprev.Deref());
  }

  /**
    Removes any element from the queue it is in. The source is given only the element; `q` is ghost.
    It returns early if the element is in no queue, and stops if such an element has other links set.
  */
  method Remove(elem: Elem, ghost q: Queue)
    requires q.Valid() && (elem in q.contents || elem.Unlinked())
    modifies q, q.contents
    ensures q.Valid() && q.contents == old(q.contents) - {elem} && elem.Unlinked()
    ensures forall e :: e in old(q.contents) ==> e.value == old(e.value)
  {
    q.QueuedIsLinked(elem);
    if elem.pprev.Null? {
      return;
    }
    q.RemoveLaws(elem);
    ghost var m, f, all := Snapshot(q.contents), q.forest, q.contents;
    q.forest, q.contents := Removed(f, elem), all - {elem};
    Unchanged(m, Snapshot(all), f, q.head, Head(q));
    TakeOut(elem, q, f, all);
    Unchanged(Snapshot(all), Snapshot(q.contents), q.forest, q.head, Head(q));
  }

  // ------------------------------------------------------------------- runs

  datatype Op = InsertOp(elem: Elem) | RemoveOp(elem: Elem)

  /** The elements inserted and not removed since, starting from an empty queue. */
  ghost function Alive(ops: seq<Op>): set<Elem> {
    if ops == [] then {}
    else
      var before, last := Alive(ops[..|ops| - 1]), ops[|ops| - 1];
      if last.InsertOp? then before + {last.elem} else before - {last.elem}
  }

  /** No element is inserted while it is already queued; removals are not restricted. */
  ghost predicate Legal(ops: seq<Op>) {
    forall i :: 0 <= i < |ops| && ops[i].InsertOp? ==> ops[i].elem !in Alive(ops[..i])
  }

  /**
    Every run of insertions and removals of any elements: no check of the source that stops the program
    can fire, the queue holds exactly the elements inserted and not removed, everything else is fully
    unlinked, no priority changes, and the head is a minimum.
  */
  method Run(q: Queue, ops: seq<Op>, ghost pool: set<Elem>)
    requires q.Valid() && q.contents == {} && Legal(ops)
    requires forall op :: op in ops ==> op.elem in pool
    requires forall e :: e in pool ==> e.Unlinked()
    modifies q, pool
    ensures q.Valid() && q.contents == Alive(ops)
    ensures forall e :: e in pool && e !in Alive(ops) ==> e.Unlinked()
    ensures forall e :: e in pool ==> e.value == old(e.value)
    ensures q.head == null <==> Alive(ops) == {}
    ensures forall e :: e in Alive(ops) ==> q.head in Alive(ops) && q.head.value <= e.value
  {
    for i := 0 to |ops|
      invariant q.Valid() && q.contents == Alive(ops[..i]) <= pool
      invariant forall e :: e in pool && e !in q.contents ==> e.Unlinked()
      invariant forall e :: e in pool ==> e.value == old(e.value)
    {
      assert ops[..i + 1][..i] == ops[..i];
      match ops[i] {
        case InsertOp(e) => q.Insert(e);
        case RemoveOp(e) => Remove(e, q);
      }
    }
    assert ops[..|ops|] == ops;
    forall e | e in Alive(ops) ensures q.head in Alive(ops) && q.head.value <= e.value {
      q.HeadIsMinimum(e);
    }
    if q.head != null { assert q.head in q.contents; }
  }
}
