/**
  Copying the defined properties of one object to another (api/src/lib/inheritDefinedProperties.ts, emptyChecks.ts
  and deepcopy.ts), on heap objects.

  The values below a property form a finite tree; `depth` bounds its height and a set of objects is the part of the
  heap it lives in.
*/
module Inheritance {
  import opened Prelude

  datatype Ref = Undefined | Null | Primitive(text: string) | Object(o: Obj)

  /** An object, or an array whose keys are its indices. */
  class Obj {
    const isArray: bool
    var props: map<string, Ref>

    constructor (isArray: bool, props: map<string, Ref>)
      ensures this.isArray == isArray && this.props == props
    {
      this.isArray, this.props := isArray, props;
    }
  }

  /** What a reference stands for, independent of the heap. */
  datatype Value = VUndefined | VNull | VPrimitive(text: string) | VObject(isArray: bool, fields: map<string, Value>)

  ghost predicate Tree(r: Ref, depth: nat, heap: set<Obj>)
    reads heap
    decreases depth
  {
    r.Object? ==>
      depth > 0 && r.o in heap && forall k :: k in r.o.props ==> Tree(r.o.props[k], depth - 1, heap)
  }

  ghost function Read(r: Ref, depth: nat, heap: set<Obj>): Value
    requires Tree(r, depth, heap)
    reads heap
    decreases depth
  {
    match r
    case Undefined => VUndefined
    case Null => VNull
    case Primitive(t) => VPrimitive(t)
    case Object(o) => VObject(o.isArray, map k | k in o.props :: Read(o.props[k], depth - 1, heap))
  }

  /** A tree is a tree of the same value under any larger bound and in any larger part of the heap. */
  lemma {:induction false} TreeIn(r: Ref, depth: nat, heap: set<Obj>, deeper: nat, more: set<Obj>)
    requires Tree(r, depth, heap) && depth <= deeper && heap <= more
    ensures Tree(r, deeper, more) && Read(r, deeper, more) == Read(r, depth, heap)
    decreases depth
  {
    if r.Object? {
      forall k | k in r.o.props
        ensures Tree(r.o.props[k], deeper - 1, more)
        ensures Read(r.o.props[k], deeper - 1, more) == Read(r.o.props[k], depth - 1, heap)
      {
        TreeIn(r.o.props[k], depth - 1, heap, deeper - 1, more);
      }
    }
  }

  /** What JSON.parse(JSON.stringify(v)) gives: no undefined properties, and null for undefined array elements. */
  function Cloned(v: Value): Value
    decreases v, 0
  {
    if v.VObject? then
      VObject(v.isArray,
              map k | k in v.fields && (v.isArray || v.fields[k] != VUndefined) :: ClonedField(v.fields[k]))
    else v
  }

  function ClonedField(v: Value): Value
    decreases v, 1
  {
    if v == VUndefined then VNull else Cloned(v)
  }

  /** The keys a clone of the object has. */
  function ClonedKeys(o: Obj): set<string>
    reads o
  {
    set k | k in o.props && (o.isArray || o.props[k] != Undefined)
  }

  /** The clone of each property is a new tree. */
  ghost predicate Clones(copied: map<string, Ref>, made: set<Obj>, o: Obj, depth: nat, heap: set<Obj>)
    requires forall k :: k in o.props ==> Tree(o.props[k], depth, heap)
    reads o, made, heap
  {
    forall k :: k in copied ==>
      k in o.props && Tree(copied[k], depth, made) &&
      Read(copied[k], depth, made) == ClonedField(Read(o.props[k], depth, heap))
  }

  lemma ClonesIn(copied: map<string, Ref>, made: set<Obj>, more: set<Obj>, o: Obj, depth: nat, heap: set<Obj>)
    requires forall k :: k in o.props ==> Tree(o.props[k], depth, heap)
    requires Clones(copied, made, o, depth, heap) && made <= more
    ensures Clones(copied, more, o, depth, heap)
  {
    forall k | k in copied
      ensures Tree(copied[k], depth, more) && Read(copied[k], depth, more) == Read(copied[k], depth, made)
    {
      TreeIn(copied[k], depth, made, depth, more);
    }
  }

  /** deepcopy: everything the copy consists of is new. */
  method DeepCopy(r: Ref, ghost depth: nat, ghost heap: set<Obj>) returns (copy: Ref, ghost made: set<Obj>)
    requires Tree(r, depth, heap)
    ensures fresh(made) && Tree(copy, depth, made) && Read(copy, depth, made) == Cloned(Read(r, depth, heap))
    decreases depth, 1
  {
    if !r.Object? {
      return r, {};
    }
    var copied;
    copied, made := CopyProperties(r.o, depth - 1, heap);
    var target := new Obj(r.o.isArray, copied);
    ClonesIn(copied, made, made + {target}, r.o, depth - 1, heap);
    made := made + {target};
    copy := Object(target);
    CloneReads(r, depth, heap, target, made);
  }

  lemma CloneReads(r: Ref, depth: nat, heap: set<Obj>, target: Obj, made: set<Obj>)
    requires r.Object? && Tree(r, depth, heap) && target in made && target.isArray == r.o.isArray
    requires target.props.Keys == ClonedKeys(r.o) && Clones(target.props, made, r.o, depth - 1, heap)
    ensures Tree(Object(target), depth, made)
    ensures Read(Object(target), depth, made) == Cloned(Read(r, depth, heap))
  {
    var got, want := Read(Object(target), depth, made).fields, Cloned(Read(r, depth, heap)).fields;
    forall k | k in r.o.props
      ensures Read(r.o.props[k], depth - 1, heap) == VUndefined <==> r.o.props[k] == Undefined
    {
    }
    assert got.Keys == want.Keys;
    assert got == want;
  }

  method CopyProperties(o: Obj, ghost depth: nat, ghost heap: set<Obj>)
    returns (copied: map<string, Ref>, ghost made: set<Obj>)
    requires forall k :: k in o.props ==> Tree(o.props[k], depth, heap)
    ensures fresh(made) && copied.Keys == ClonedKeys(o) && Clones(copied, made, o, depth, heap)
    decreases depth + 1, 0
  {
    var keys := o.props.Keys;
    copied, made := map[], {};
    while keys != {}
      invariant keys <= o.props.Keys
      invariant fresh(made) && copied.Keys == ClonedKeys(o) - keys && Clones(copied, made, o, depth, heap)
      decreases keys
    {
      var k :| k in keys;
      var prop := o.props[k];
      if prop == Undefined {
        if o.isArray {
          copied := copied[k := Null];
        }
      } else {
        var c;
        ghost var part;
        c, part := DeepCopy(prop, depth, heap);
        ClonesIn(copied, made, made + part, o, depth, heap);
        TreeIn(c, depth, part, depth, made + part);
        made := made + part;
        copied := copied[k := c];
      }
      keys := keys - {k};
    }
  }

  // ---------------------------------------------------------------- inheriting

  predicate IsEmpty(r: Ref)
    reads if r.Object? then {r.o} else {}
  {
    r.Undefined? || r.Null? || (r.Object? && r.o.props == map[])
  }

  predicate IsEmptyValue(v: Value) {
    v.VUndefined? || v.VNull? || (v.VObject? && v.fields == map[])
  }

  predicate Chosen(properties: Option<seq<string>>, k: string) {
    properties.None? || k in properties.value
  }

  /** The target's properties after one call, as values. */
  function Inherited(dst: map<string, Value>, src: map<string, Value>, properties: Option<seq<string>>)
    : map<string, Value>
  {
    dst + map k | k in src && Chosen(properties, k) && !IsEmptyValue(src[k]) :: Cloned(src[k])
  }

  ghost predicate AllTrees(props: map<string, Ref>, depth: nat, heap: set<Obj>)
    reads heap
  {
    forall k :: k in props ==> Tree(props[k], depth, heap)
  }

  /** The values of references, all read in one part of the heap. */
  ghost function Values(props: map<string, Ref>, depth: nat, heap: set<Obj>): map<string, Value>
    requires AllTrees(props, depth, heap)
    reads heap
  {
    map k | k in props :: Read(props[k], depth, heap)
  }

  ghost predicate Trees(o: Obj, depth: nat, heap: set<Obj>)
    reads o, heap
  {
    AllTrees(o.props, depth, heap)
  }

  ghost function Contents(o: Obj, depth: nat, heap: set<Obj>): map<string, Value>
    requires Trees(o, depth, heap)
    reads o, heap
  {
    Values(o.props, depth, heap)
  }

  lemma EmptyReads(r: Ref, depth: nat, heap: set<Obj>)
    requires Tree(r, depth, heap)
    ensures IsEmpty(r) <==> IsEmptyValue(Read(r, depth, heap))
  {
    if r.Object? {
      assert Read(r, depth, heap).fields.Keys == r.o.props.Keys;
      assert r.o.props == map[] <==> r.o.props.Keys == {};
    }
  }

  lemma InheritedOne(dst: map<string, Value>, src: map<string, Value>, prop: string)
    ensures Inherited(dst, src, Some([prop])) ==
            if prop in src && !IsEmptyValue(src[prop]) then dst[prop := Cloned(src[prop])] else dst
  {
  }

  lemma ValuesIn(props: map<string, Ref>, depth: nat, heap: set<Obj>, deeper: nat, more: set<Obj>)
    requires AllTrees(props, depth, heap) && depth <= deeper && heap <= more
    ensures AllTrees(props, deeper, more)
    ensures Values(props, deeper, more) == Values(props, depth, heap)
  {
    forall k | k in props
      ensures Tree(props[k], deeper, more) && Read(props[k], deeper, more) == Read(props[k], depth, heap)
    {
      TreeIn(props[k], depth, heap, deeper, more);
    }
  }

  lemma ValuesUpdate(props: map<string, Ref>, prop: string, r: Ref, depth: nat, heap: set<Obj>)
    requires AllTrees(props, depth, heap) && Tree(r, depth, heap)
    ensures AllTrees(props[prop := r], depth, heap)
    ensures Values(props[prop := r], depth, heap) == Values(props, depth, heap)[prop := Read(r, depth, heap)]
  {
  }

  // ---------------------------------------------------------------- sources, which may hold the target

  /** A value with the target in some places. */
  datatype Shape = Leaf(v: Value) | Target | Parts(isArray: bool, fields: map<string, Shape>)

  /** A tree but for the target, whose properties are not looked at. */
  ghost predicate TreeBut(r: Ref, depth: nat, heap: set<Obj>, dst: Obj)
    reads heap
    decreases depth
  {
    r.Object? && r.o != dst ==>
      depth > 0 && r.o in heap && forall k :: k in r.o.props ==> TreeBut(r.o.props[k], depth - 1, heap, dst)
  }

  ghost function ShapeOf(r: Ref, depth: nat, heap: set<Obj>, dst: Obj): Shape
    requires TreeBut(r, depth, heap, dst)
    reads heap
    decreases depth
  {
    match r
    case Undefined => Leaf(VUndefined)
    case Null => Leaf(VNull)
    case Primitive(t) => Leaf(VPrimitive(t))
    case Object(o) =>
      if o == dst then Target
      else Parts(o.isArray, map k | k in o.props :: ShapeOf(o.props[k], depth - 1, heap, dst))
  }

  /** The value, the target being this one. */
  function Filled(s: Shape, target: Value): Value {
    match s
    case Leaf(v) => v
    case Target => target
    case Parts(isArray, fields) => VObject(isArray, map k | k in fields :: Filled(fields[k], target))
  }

  ghost predicate TreesBut(src: Obj, depth: nat, heap: set<Obj>, dst: Obj)
    reads src, heap
  {
    forall k :: k in src.props ==> TreeBut(src.props[k], depth, heap, dst)
  }

  ghost function Shapes(src: Obj, depth: nat, heap: set<Obj>, dst: Obj): map<string, Shape>
    requires TreesBut(src, depth, heap, dst)
    reads src, heap
  {
    map k | k in src.props :: ShapeOf(src.props[k], depth, heap, dst)
  }

  /** With the target a tree of its own, the whole is a tree, and its value the shape filled with the target's. */
  lemma {:induction false} FilledReads(r: Ref, depth: nat, heap: set<Obj>, dst: Obj, deep: nat, own: set<Obj>)
    requires dst !in heap && TreeBut(r, depth, heap, dst) && Trees(dst, deep, own)
    ensures var all, bound := heap + {dst} + own, depth + deep + 1;
            && Tree(r, bound, all)
            && Read(r, bound, all) ==
                 Filled(ShapeOf(r, depth, heap, dst), VObject(dst.isArray, Contents(dst, deep, own)))
    decreases depth
  {
    var all, bound := heap + {dst} + own, depth + deep + 1;
    if r.Object? {
      if r.o == dst {
        ValuesIn(dst.props, deep, own, bound - 1, all);
        assert Read(r, bound, all).fields == Values(dst.props, bound - 1, all);
      } else {
        forall k | k in r.o.props
          ensures Tree(r.o.props[k], bound - 1, all)
          ensures Read(r.o.props[k], bound - 1, all) ==
                  Filled(ShapeOf(r.o.props[k], depth - 1, heap, dst), VObject(dst.isArray, Contents(dst, deep, own)))
        {
          FilledReads(r.o.props[k], depth - 1, heap, dst, deep, own);
        }
      }
    }
  }

  /** A tree that does not hold the target has one value, whatever the target is. */
  lemma {:induction false} WholeTree(r: Ref, depth: nat, heap: set<Obj>, dst: Obj, target: Value)
    requires dst !in heap && Tree(r, depth, heap)
    ensures TreeBut(r, depth, heap, dst) && Filled(ShapeOf(r, depth, heap, dst), target) == Read(r, depth, heap)
    decreases depth
  {
    if r.Object? {
      forall k | k in r.o.props
        ensures TreeBut(r.o.props[k], depth - 1, heap, dst)
        ensures Filled(ShapeOf(r.o.props[k], depth - 1, heap, dst), target) == Read(r.o.props[k], depth - 1, heap)
      {
        WholeTree(r.o.props[k], depth - 1, heap, dst, target);
      }
    }
  }

  /** One property of forEach on values; the source's value is read with the target as it is by then. */
  function Step(dst: map<string, Value>, isArray: bool, src: map<string, Shape>, prop: string): map<string, Value> {
    if prop !in src then dst
    else
      var v := Filled(src[prop], VObject(isArray, dst));
      if IsEmptyValue(v) then dst else dst[prop := Cloned(v)]
  }

  function Steps(dst: map<string, Value>, isArray: bool, src: map<string, Shape>, list: seq<string>)
    : map<string, Value>
  {
    if list == [] then dst
    else Step(Steps(dst, isArray, src, list[..|list| - 1]), isArray, src, list[|list| - 1])
  }

  /** dst[prop] = deepcopy(val). */
  method AssignCopy(dst: Obj, prop: string, val: Ref,
                    ghost depth: nat, ghost heap: set<Obj>, ghost deep: nat, ghost own: set<Obj>)
    returns (ghost made: set<Obj>)
    requires dst !in own && deep <= depth && Tree(val, depth, heap) && Trees(dst, deep, own)
    modifies dst`props
    ensures fresh(made) && Trees(dst, depth, own + made)
    ensures Contents(dst, depth, own + made) ==
            old(Contents(dst, deep, own))[prop := Cloned(old(Read(val, depth, heap)))]
  {
    var copy;
    copy, made := DeepCopy(val, depth, heap);
    Assigned(dst.props, prop, copy, deep, own, depth, made);
    ghost var values := Values(dst.props[prop := copy], depth, own + made);
    dst.props := dst.props[prop := copy];
    assert Contents(dst, depth, own + made) == Values(dst.props, depth, own + made) == values;
  }

  /** One property of forEach: nothing happens if its value is empty. */
  method InheritProperty(dst: Obj, src: Obj, prop: string,
                         ghost depth: nat, ghost heap: set<Obj>, ghost deep: nat, ghost own: set<Obj>)
    returns (ghost made: set<Obj>, ghost deeper: nat)
    requires dst !in heap && dst !in own && dst != src
    requires TreesBut(src, depth, heap, dst) && Trees(dst, deep, own)
    modifies dst`props
    ensures fresh(made) && deep <= deeper && Trees(dst, deeper, own + made)
    ensures Contents(dst, deeper, own + made) ==
            Step(old(Contents(dst, deep, own)), dst.isArray, Shapes(src, depth, heap, dst), prop)
  {
    made, deeper := {}, deep;
    assert own + {} == own;
    if prop !in src.props {
      return;
    }
    var val := src.props[prop];
    FilledReads(val, depth, heap, dst, deep, own);
    EmptyReads(val, depth + deep + 1, heap + {dst} + own);
    if IsEmpty(val) {
      return;
    }
    deeper := depth + deep + 1;
    made := AssignCopy(dst, prop, val, deeper, heap + {dst} + own, deep, own);
  }

  lemma Assigned(props: map<string, Ref>, prop: string, copy: Ref, deep: nat, own: set<Obj>, deeper: nat,
                 made: set<Obj>)
    requires AllTrees(props, deep, own) && Tree(copy, deeper, made) && deep <= deeper
    ensures AllTrees(props[prop := copy], deeper, own + made)
    ensures Values(props[prop := copy], deeper, own + made) ==
        Values(props, deep, own)[prop := Read(copy, deeper, made)]
  {
    TreeIn(copy, deeper, made, deeper, own + made);
    ValuesIn(props, deep, own, deeper, own + made);
    ValuesUpdate(props, prop, copy, deeper, own + made);
  }

  /** What one property is after a call. */
  function InheritedAt(dst: map<string, Value>, src: map<string, Value>, chosen: bool, k: string): Option<Value> {
    if k in src && chosen && !IsEmptyValue(src[k]) then Some(Cloned(src[k]))
    else if k in dst then Some(dst[k])
    else None
  }

  function Lookup(m: map<string, Value>, k: string): Option<Value> {
    if k in m then Some(m[k]) else None
  }

  lemma InheritedLookup(dst: map<string, Value>, src: map<string, Value>, properties: Option<seq<string>>, k: string)
    ensures Lookup(Inherited(dst, src, properties), k) == InheritedAt(dst, src, Chosen(properties, k), k)
  {
  }

  lemma SameLookup(a: map<string, Value>, b: map<string, Value>)
    requires forall k :: Lookup(a, k) == Lookup(b, k)
    ensures a == b
  {
    assert forall k :: k in a <==> Lookup(a, k).Some?;
    assert forall k :: k in b <==> Lookup(b, k).Some?;
    assert forall k | k in a :: Lookup(a, k) == Some(a[k]) && Lookup(b, k) == Some(b[k]);
  }

  lemma InheritedSnoc(dst: map<string, Value>, src: map<string, Value>, done: seq<string>, prop: string)
    ensures Inherited(Inherited(dst, src, Some(done)), src, Some([prop])) == Inherited(dst, src, Some(done + [prop]))
  {
    var first := Inherited(dst, src, Some(done));
    forall k
      ensures Lookup(Inherited(first, src, Some([prop])), k) == Lookup(Inherited(dst, src, Some(done + [prop])), k)
    {
      InheritedLookup(dst, src, Some(done), k);
      InheritedLookup(first, src, Some([prop]), k);
      InheritedLookup(dst, src, Some(done + [prop]), k);
    }
    SameLookup(Inherited(first, src, Some([prop])), Inherited(dst, src, Some(done + [prop])));
  }

  /** Object.keys. */
  method Keys(o: Obj) returns (keys: seq<string>)
    ensures forall k :: k in keys <==> k in o.props
  {
    var todo := o.props.Keys;
    keys := [];
    while todo != {}
      invariant todo <= o.props.Keys
      invariant forall k :: k in keys <==> k in o.props.Keys - todo
      decreases todo
    {
      var k :| k in todo;
      keys := keys + [k];
      todo := todo - {k};
    }
  }

  lemma InheritedNothing(dst: map<string, Value>, src: map<string, Value>)
    ensures Inherited(dst, src, Some([])) == dst
    ensures forall properties :: Inherited(dst, map[], properties) == dst
  {
  }

  lemma InheritedKeys(dst: map<string, Value>, src: map<string, Value>, keys: seq<string>)
    requires forall k :: k in src ==> k in keys
    ensures Inherited(dst, src, Some(keys)) == Inherited(dst, src, None)
  {
  }

  /** The forEach loop over a list of properties. */
  method InheritList(dst: Obj, src: Obj, list: seq<string>,
                     ghost depth: nat, ghost heap: set<Obj>, ghost deep: nat, ghost own: set<Obj>)
    returns (ghost made: set<Obj>, ghost deeper: nat)
    requires dst !in heap && dst !in own && dst != src
    requires TreesBut(src, depth, heap, dst) && Trees(dst, deep, own)
    modifies dst`props
    ensures fresh(made) && deep <= deeper && Trees(dst, deeper, own + made)
    ensures Contents(dst, deeper, own + made) ==
            Steps(old(Contents(dst, deep, own)), dst.isArray, Shapes(src, depth, heap, dst), list)
  {
    made, deeper := {}, deep;
    ghost var before, shapes := Contents(dst, deep, own), Shapes(src, depth, heap, dst);
    assert own + {} == own;
    for i := 0 to |list|
      invariant fresh(made) && deep <= deeper && Trees(dst, deeper, own + made) && TreesBut(src, depth, heap, dst)
      invariant Shapes(src, depth, heap, dst) == shapes
      invariant Contents(dst, deeper, own + made) == Steps(before, dst.isArray, shapes, list[..i])
    {
      ghost var part;
      part, deeper := InheritProperty(dst, src, list[i], depth, heap, deeper, own + made);
      assert own + made + part == own + (made + part);
      made := made + part;
      assert list[..i + 1][..i] == list[..i];
    }
    assert list[..|list|] == list;
  }

  /** A source that does not hold the target gives the same values throughout. */
  lemma {:induction false} StepsInherit(before: map<string, Value>, src: Obj, depth: nat, heap: set<Obj>, dst: Obj,
                                        list: seq<string>)
    requires dst !in heap && Trees(src, depth, heap)
    ensures TreesBut(src, depth, heap, dst)
    ensures Steps(before, dst.isArray, Shapes(src, depth, heap, dst), list) ==
            Inherited(before, Contents(src, depth, heap), Some(list))
  {
    var given := Contents(src, depth, heap);
    InheritedNothing(before, given);
    forall k | k in src.props
      ensures TreeBut(src.props[k], depth, heap, dst)
    {
      WholeTree(src.props[k], depth, heap, dst, VNull);
    }
    if list != [] {
      var front, prop := list[..|list| - 1], list[|list| - 1];
      StepsInherit(before, src, depth, heap, dst, front);
      var mid := Inherited(before, given, Some(front));
      if prop in src.props {
        WholeTree(src.props[prop], depth, heap, dst, VObject(dst.isArray, mid));
      }
      InheritedOne(mid, given, prop);
      InheritedSnoc(before, given, front, prop);
      assert front + [prop] == list;
    }
  }

  /** The properties, as values, that a source gives; an empty source gives nothing. */
  ghost function Given(src: Ref, depth: nat, heap: set<Obj>): map<string, Value>
    requires src.Object? ==> Trees(src.o, depth, heap)
    reads heap, if src.Object? then {src.o} else {}
  {
    if src.Object? then Contents(src.o, depth, heap) else map[]
  }

  /** A source other than the target, which may hold the target below its properties. */
  ghost predicate Source(src: Ref, depth: nat, heap: set<Obj>, dst: Obj)
    reads heap, if src.Object? then {src.o} else {}
  {
    !src.Primitive? && src != Object(dst) && (src.Object? ==> TreesBut(src.o, depth, heap, dst))
  }

  ghost function SourceShapes(src: Ref, depth: nat, heap: set<Obj>, dst: Obj): map<string, Shape>
    requires Source(src, depth, heap, dst)
    reads heap, if src.Object? then {src.o} else {}
  {
    if src.Object? then Shapes(src.o, depth, heap, dst) else map[]
  }

  /** The order in which the properties are visited: the given one, or some order of the source's keys. */
  ghost predicate Visits(order: seq<string>, src: map<string, Shape>, properties: Option<seq<string>>) {
    if properties.Some? then order == properties.value else forall k :: k in order <==> k in src
  }

  /**
    inheritDefinedProperties.  `own` is where the target's old values live and `made` is new: together they hold the
    target's values afterwards, so the target shares no object with the source if it did not before.
  */
  method InheritDefinedProperties(dst: Obj, src: Ref, properties: Option<seq<string>>,
                                  ghost depth: nat, ghost heap: set<Obj>, ghost deep: nat, ghost own: set<Obj>)
    returns (ghost made: set<Obj>, ghost deeper: nat, ghost order: seq<string>)
    requires dst !in heap && dst !in own
    requires Source(src, depth, heap, dst) && Trees(dst, deep, own)
    modifies dst`props
    ensures fresh(made) && deep <= deeper && Trees(dst, deeper, own + made)
    ensures Visits(order, SourceShapes(src, depth, heap, dst), properties)
    ensures Contents(dst, deeper, own + made) ==
            Steps(old(Contents(dst, deep, own)), dst.isArray, SourceShapes(src, depth, heap, dst), order)
    ensures (src.Object? ==> Trees(src.o, depth, heap)) ==>
              Contents(dst, deeper, own + made) ==
              Inherited(old(Contents(dst, deep, own)), Given(src, depth, heap), properties)
  {
    ghost var before := Contents(dst, deep, own);
    if IsEmpty(src) {
      made, deeper, order := {}, deep, if properties.Some? then properties.value else [];
      assert own + {} == own;
      NothingToVisit(before, dst.isArray, order);
      assert SourceShapes(src, depth, heap, dst) == map[];
    } else {
      var list: seq<string>;
      if properties.Some? {
        list := properties.value;
      } else {
        list := Keys(src.o);
      }
      order := list;
      made, deeper := InheritList(dst, src.o, list, depth, heap, deep, own);
    }
    if src.Object? ==> Trees(src.o, depth, heap) {
      SourceInherits(before, src, depth, heap, dst, properties, order);
    }
  }

  lemma SourceInherits(before: map<string, Value>, src: Ref, depth: nat, heap: set<Obj>, dst: Obj,
                       properties: Option<seq<string>>, order: seq<string>)
    requires dst !in heap && Source(src, depth, heap, dst) && (src.Object? ==> Trees(src.o, depth, heap))
    requires Visits(order, SourceShapes(src, depth, heap, dst), properties)
    ensures Steps(before, dst.isArray, SourceShapes(src, depth, heap, dst), order) ==
            Inherited(before, Given(src, depth, heap), properties)
  {
    if src.Object? {
      StepsInherit(before, src.o, depth, heap, dst, order);
      if properties.None? {
        InheritedKeys(before, Contents(src.o, depth, heap), order);
      }
    } else {
      NothingToVisit(before, dst.isArray, order);
      InheritedNothing(before, map[]);
    }
  }

  lemma {:induction false} NothingToVisit(before: map<string, Value>, isArray: bool, list: seq<string>)
    ensures Steps(before, isArray, map[], list) == before
  {
    if list != [] {
      NothingToVisit(before, isArray, list[..|list| - 1]);
    }
  }

  /** A source that holds the target: what it gives depends on what the target has inherited by then. */
  lemma HeldTargetExample()
    ensures var v, src := VPrimitive("1"), map["a" := Leaf(VPrimitive("1")), "b" := Target];
            && Steps(map[], false, src, ["a", "b"]) == map["a" := v, "b" := VObject(false, map["a" := v])]
            && Steps(map[], false, src, ["b", "a"]) == map["a" := v]
  {
    var v, src := VPrimitive("1"), map["a" := Leaf(VPrimitive("1")), "b" := Target];
    var none: map<string, Value> := map[];
    assert ["a", "b"][..1] == ["a"] && ["b", "a"][..1] == ["b"] && ["a"][..0] == [] && ["b"][..0] == [];
    var one := map["a" := v];
    assert Steps(none, false, src, ["a"]) == Step(none, false, src, "a") == one;
    assert Steps(none, false, src, ["b"]) == Step(none, false, src, "b") == none;
    var clone := Cloned(VObject(false, one));
    assert ClonedField(v) == v && clone.fields.Keys == {"a"} && clone.fields["a"] == v;
    assert clone.fields == one;
    assert Step(one, false, src, "b") == one["b" := clone];
    assert clone == VObject(false, one);
  }

  // ---------------------------------------------------------------- several sources in turn

  /** A source of this shape. */
  ghost predicate Shaped(src: Ref, shape: map<string, Shape>, depth: nat, heap: set<Obj>, dst: Obj)
    reads heap, if src.Object? then {src.o} else {}
  {
    Source(src, depth, heap, dst) && SourceShapes(src, depth, heap, dst) == shape
  }

  /** A source that does not hold the target and gives these values. */
  ghost predicate Gives(src: Ref, given: map<string, Value>, depth: nat, heap: set<Obj>)
    reads heap, if src.Object? then {src.o} else {}
  {
    (src.Object? ==> Trees(src.o, depth, heap)) && Given(src, depth, heap) == given
  }

  function StepsAll(dst: map<string, Value>, isArray: bool, srcs: seq<map<string, Shape>>, orders: seq<seq<string>>)
    : map<string, Value>
    requires |srcs| == |orders|
  {
    if srcs == [] then dst
    else
      var n := |srcs| - 1;
      Steps(StepsAll(dst, isArray, srcs[..n], orders[..n]), isArray, srcs[n], orders[n])
  }

  function InheritedAll(dst: map<string, Value>, srcs: seq<map<string, Value>>, properties: Option<seq<string>>)
    : map<string, Value>
  {
    if srcs == [] then dst
    else Inherited(InheritedAll(dst, srcs[..|srcs| - 1], properties), srcs[|srcs| - 1], properties)
  }

  /** The last source that gives the property a value that is not empty. */
  function LastGiving(srcs: seq<map<string, Value>>, properties: Option<seq<string>>, k: string): (r: Option<nat>)
    ensures r.Some? ==> r.value < |srcs| && k in srcs[r.value]
  {
    if srcs == [] || !Chosen(properties, k) then None
    else
      var last := |srcs| - 1;
      if k in srcs[last] && !IsEmptyValue(srcs[last][k]) then Some(last)
      else LastGiving(srcs[..last], properties, k)
  }

  /** After any number of sources each property is a copy of the last value given that was not empty, or unchanged. */
  lemma {:induction false} LastValueWins(dst: map<string, Value>, srcs: seq<map<string, Value>>,
                                         properties: Option<seq<string>>, k: string)
    ensures var after, last := InheritedAll(dst, srcs, properties), LastGiving(srcs, properties, k);
            if last.Some? then k in after && after[k] == Cloned(srcs[last.value][k])
            else (k in after <==> k in dst) && (k in dst ==> after[k] == dst[k])
  {
    if srcs != [] {
      LastValueWins(dst, srcs[..|srcs| - 1], properties, k);
    }
  }

  lemma InheritedTwice(dst: map<string, Value>, src: map<string, Value>, properties: Option<seq<string>>)
    ensures Inherited(Inherited(dst, src, properties), src, properties) == Inherited(dst, src, properties)
  {
  }

  /** A second call with the same source, if this does not hold the target, leaves all values as they are. */
  method RepeatingIsNoOp(dst: Obj, src: Ref, properties: Option<seq<string>>,
                         ghost depth: nat, ghost heap: set<Obj>, ghost deep: nat, ghost own: set<Obj>)
    returns (ghost once: map<string, Value>, ghost made: set<Obj>, ghost deeper: nat)
    requires dst !in heap && dst !in own
    requires Source(src, depth, heap, dst) && (src.Object? ==> Trees(src.o, depth, heap)) && Trees(dst, deep, own)
    modifies dst`props
    ensures fresh(made) && Trees(dst, deeper, own + made)
    ensures once == Inherited(old(Contents(dst, deep, own)), Given(src, depth, heap), properties)
    ensures Contents(dst, deeper, own + made) == once
  {
    ghost var order, more;
    made, deeper, order := InheritDefinedProperties(dst, src, properties, depth, heap, deep, own);
    once := Contents(dst, deeper, own + made);
    more, deeper, order := InheritDefinedProperties(dst, src, properties, depth, heap, deeper, own + made);
    InheritedTwice(old(Contents(dst, deep, own)), Given(src, depth, heap), properties);
    assert own + made + more == own + (made + more);
    made := made + more;
  }

  /** What is cloned once stays the same when cloned again, so chains of inheritance lose nothing further. */
  lemma {:induction false} ClonedTwice(v: Value)
    ensures Cloned(Cloned(v)) == Cloned(v)
  {
    if v.VObject? {
      var c := Cloned(v);
      forall k | k in c.fields
        ensures ClonedField(c.fields[k]) == c.fields[k]
      {
        var w := v.fields[k];
        assert c.fields[k] == ClonedField(w);
        if w != VUndefined {
          ClonedTwice(w);
        }
      }
      assert Cloned(c).fields.Keys == c.fields.Keys;
      assert Cloned(c).fields == c.fields;
    }
  }

  /** A value JSON has a text for: nothing in it is undefined. */
  predicate HasText(v: Value) {
    v.VObject? ==> forall k :: k in v.fields ==> v.fields[k] != VUndefined && HasText(v.fields[k])
  }

  /** A copy is an array exactly if the original is; it is the same value exactly if JSON has a text for it. */
  lemma {:induction false} ClonedIff(v: Value)
    ensures HasText(Cloned(v)) && (Cloned(v) == v <==> HasText(v))
    ensures Cloned(v).VObject? <==> v.VObject?
    ensures v.VObject? ==>
              && Cloned(v).isArray == v.isArray
              && Cloned(v).fields.Keys == set k | k in v.fields && (v.isArray || v.fields[k] != VUndefined)
  {
    if v.VObject? {
      var c := Cloned(v);
      forall k | k in v.fields
        ensures HasText(ClonedField(v.fields[k])) && ClonedField(v.fields[k]) != VUndefined
        ensures ClonedField(v.fields[k]) == v.fields[k] <==> v.fields[k] != VUndefined && HasText(v.fields[k])
      {
        ClonedIff(v.fields[k]);
      }
      if HasText(v) {
        assert c.fields == v.fields;
      }
      if c == v {
        assert c.fields.Keys == v.fields.Keys;
        forall k | k in v.fields
          ensures v.fields[k] != VUndefined && HasText(v.fields[k])
        {
          assert c.fields[k] == ClonedField(v.fields[k]) == v.fields[k];
        }
      }
    }
  }

  /**
    Only null, undefined and objects and arrays without properties give nothing, and properties that are not asked
    for; every other value is copied.
  */
  lemma GivesNothingIff(dst: map<string, Value>, k: string, v: Value, properties: Option<seq<string>>)
    ensures var after := Inherited(dst, map[k := v], properties);
            if v == VNull || v == VUndefined || (v.VObject? && v.fields == map[]) then after == dst
            else if properties.Some? && k !in properties.value then after == dst
            else after == dst[k := Cloned(v)]
  {
  }

  ghost predicate AllShaped(srcs: seq<Ref>, shapes: seq<map<string, Shape>>, depth: nat, heap: set<Obj>, dst: Obj)
    reads heap, set r | r in srcs && r.Object? :: r.o
  {
    |shapes| == |srcs| && forall i :: 0 <= i < |srcs| ==> Shaped(srcs[i], shapes[i], depth, heap, dst)
  }

  ghost predicate AllVisited(orders: seq<seq<string>>, shapes: seq<map<string, Shape>>,
                             properties: Option<seq<string>>) {
    |orders| == |shapes| && forall i :: 0 <= i < |shapes| ==> Visits(orders[i], shapes[i], properties)
  }

  lemma OneMore(before: map<string, Value>, isArray: bool, shapes: seq<map<string, Shape>>, i: nat,
                orders: seq<seq<string>>, order: seq<string>, properties: Option<seq<string>>)
    requires i < |shapes| && AllVisited(orders, shapes[..i], properties) && Visits(order, shapes[i], properties)
    ensures AllVisited(orders + [order], shapes[..i + 1], properties)
    ensures StepsAll(before, isArray, shapes[..i + 1], orders + [order]) ==
            Steps(StepsAll(before, isArray, shapes[..i], orders), isArray, shapes[i], order)
  {
    assert shapes[..i + 1][..i] == shapes[..i] && (orders + [order])[..i] == orders;
  }

  /** A chain of calls; `shapes` is what the sources look like. */
  method InheritChain(dst: Obj, srcs: seq<Ref>, properties: Option<seq<string>>, ghost shapes: seq<map<string, Shape>>,
                      ghost depth: nat, ghost heap: set<Obj>, ghost deep: nat, ghost own: set<Obj>)
    returns (ghost made: set<Obj>, ghost deeper: nat, ghost orders: seq<seq<string>>)
    requires dst !in heap && dst !in own
    requires AllShaped(srcs, shapes, depth, heap, dst) && Trees(dst, deep, own)
    modifies dst`props
    ensures fresh(made) && Trees(dst, deeper, own + made)
    ensures AllVisited(orders, shapes, properties)
    ensures Contents(dst, deeper, own + made) == StepsAll(old(Contents(dst, deep, own)), dst.isArray, shapes, orders)
  {
    made, deeper, orders := {}, deep, [];
    ghost var before := Contents(dst, deep, own);
    assert own + {} == own;
    for i := 0 to |srcs|
      invariant fresh(made) && Trees(dst, deeper, own + made)
      invariant AllShaped(srcs, shapes, depth, heap, dst) && AllVisited(orders, shapes[..i], properties)
      invariant Contents(dst, deeper, own + made) == StepsAll(before, dst.isArray, shapes[..i], orders)
    {
      ghost var part, order;
      assert Shaped(srcs[i], shapes[i], depth, heap, dst);
      part, deeper, order := InheritDefinedProperties(dst, srcs[i], properties, depth, heap, deeper, own + made);
      assert own + made + part == own + (made + part);
      made := made + part;
      OneMore(before, dst.isArray, shapes, i, orders, order, properties);
      orders := orders + [order];
    }
    assert shapes[..|srcs|] == shapes;
  }

  /**
    Afterwards the target's values live outside every source; `given` is what the sources hold if none of them holds
    the target.
  */
  method InheritFromAll(dst: Obj, srcs: seq<Ref>, properties: Option<seq<string>>,
                        ghost shapes: seq<map<string, Shape>>, ghost given: seq<map<string, Value>>,
                        ghost depth: nat, ghost heap: set<Obj>, ghost deep: nat, ghost own: set<Obj>)
    returns (ghost made: set<Obj>, ghost deeper: nat, ghost orders: seq<seq<string>>)
    requires dst !in heap && dst !in own && |given| == |srcs|
    requires AllShaped(srcs, shapes, depth, heap, dst) && Trees(dst, deep, own)
    modifies dst`props
    ensures fresh(made) && Trees(dst, deeper, own + made)
    ensures own !! heap ==> own + made !! heap
    ensures AllVisited(orders, shapes, properties)
    ensures Contents(dst, deeper, own + made) == StepsAll(old(Contents(dst, deep, own)), dst.isArray, shapes, orders)
    ensures (forall i :: 0 <= i < |srcs| ==> Gives(srcs[i], given[i], depth, heap)) ==>
              Contents(dst, deeper, own + made) == InheritedAll(old(Contents(dst, deep, own)), given, properties)
  {
    ghost var before := Contents(dst, deep, own);
    made, deeper, orders := InheritChain(dst, srcs, properties, shapes, depth, heap, deep, own);
    if forall i :: 0 <= i < |srcs| ==> Gives(srcs[i], given[i], depth, heap) {
      AllInherit(before, srcs, shapes, given, orders, properties, depth, heap, dst);
    }
  }

  lemma {:induction false} AllInherit(before: map<string, Value>, srcs: seq<Ref>, shapes: seq<map<string, Shape>>,
                                      given: seq<map<string, Value>>, orders: seq<seq<string>>,
                                      properties: Option<seq<string>>, depth: nat, heap: set<Obj>, dst: Obj)
    requires dst !in heap && |given| == |srcs|
    requires AllShaped(srcs, shapes, depth, heap, dst) && AllVisited(orders, shapes, properties)
    requires forall i :: 0 <= i < |srcs| ==> Gives(srcs[i], given[i], depth, heap)
    ensures StepsAll(before, dst.isArray, shapes, orders) == InheritedAll(before, given, properties)
  {
    if srcs != [] {
      var n := |srcs| - 1;
      assert Shaped(srcs[n], shapes[n], depth, heap, dst) && Gives(srcs[n], given[n], depth, heap);
      assert Visits(orders[n], shapes[n], properties);
      AllInherit(before, srcs[..n], shapes[..n], given[..n], orders[..n], properties, depth, heap, dst);
      SourceInherits(InheritedAll(before, given[..n], properties), srcs[n], depth, heap, dst, properties, orders[n]);
    }
  }
}
