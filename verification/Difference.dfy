/**
  The structural difference the migration compares items with (migration/src/assert.ts).

  A JSON array is an object whose keys are indices; a string can be indexed like one.
*/
module Difference {
  import opened Prelude

  datatype Key = Name(name: string) | Index(index: nat)

  datatype Json =
    | Null
    | Bool(flag: bool)
    | Number(value: real)
    | Text(text: string)
    | Node(isArray: bool, fields: map<Key, Json>)

  /** The enumerable own properties a for-in loop visits. */
  function Fields(j: Json): map<Key, Json> {
    match j
    case Node(_, fields) => fields
    case Text(t) => map i | 0 <= i < |t| :: Index(i) := Text([t[i]])
    case _ => map[]
  }

  /** The keys on which two property maps disagree, a missing property being different from every value. */
  function Disagreements(o: map<Key, Json>, b: map<Key, Json>): set<Key> {
    set k | k in o && !(k in b && b[k] == o[k])
  }

  /** The inner function `changes`: what the properties of `object` add to or alter in `base`. */
  function Changes(object_: Json, base: map<Key, Json>): (r: map<Key, Json>)
    ensures r.Keys == Disagreements(Fields(object_), base)
  {
    var o := Fields(object_);
    map k | k in Disagreements(o, base) ::
      if o[k].Node? && k in base && base[k].Node? then Node(o[k].isArray, Changes(o[k], base[k].fields)) else o[k]
  }

  /** The loop of _.transform, which visits the properties one by one and assigns result[key]. */
  method Transform(object_: Json, base: map<Key, Json>) returns (result: map<Key, Json>)
    ensures result == Changes(object_, base)
    decreases object_
  {
    var o := Fields(object_);
    var todo := o.Keys;
    result := map[];
    while todo != {}
      invariant todo <= o.Keys
      invariant result.Keys == Disagreements(o, base) - todo
      invariant forall k :: k in result ==> result[k] == Changes(object_, base)[k]
      decreases todo
    {
      var key :| key in todo;
      var value := o[key];
      if !(key in base && base[key] == value) {
        if value.Node? && key in base && base[key].Node? {
          var inner := Transform(value, base[key].fields);
          result := result[key := Node(value.isArray, inner)];
        } else {
          result := result[key := value];
        }
      }
      todo := todo - {key};
    }
  }

  datatype TypeError = TypeError

  /**
    `difference` on optional values: an undefined object has no properties; reading a property of an undefined or
    null base throws.
  */
  function Diff(object_: Option<Json>, base: Option<Json>): Result<map<Key, Json>, TypeError> {
    if object_ == None then Ok(map[])
    else if base == None || base == Some(Null) then
      if Fields(object_.value) == map[] then Ok(map[]) else Err(TypeError)
    else Ok(Changes(object_.value, Fields(base.value)))
  }

  /** No complaint: every top-level property of the object is found, deep-equal, in the base. */
  predicate Covered(object_: Option<Json>, base: Option<Json>) {
    object_ == None ||
    var o := Fields(object_.value);
    if base == None || base == Some(Null) then o == map[]
    else forall k :: k in o ==> k in Fields(base.value) && Fields(base.value)[k] == o[k]
  }

  lemma EmptyDiffIff(object_: Option<Json>, base: Option<Json>)
    ensures Diff(object_, base) == Ok(map[]) <==> Covered(object_, base)
  {
    if object_.Some? && base.Some? && base.value != Null {
      var o, b := Fields(object_.value), Fields(base.value);
      var r := Changes(object_.value, b);
      assert r == map[] <==> r.Keys == {};
      assert r.Keys == {} <==> forall k :: k in o ==> k !in Disagreements(o, b);
    }
  }

  // ---------------------------------------------------------------- what the difference means

  /** Deep merge of a difference onto a base. */
  function Merge(base: Json, diff: Json): Json
    decreases diff
  {
    if base.Node? && diff.Node? then
      Node(base.isArray,
           map k | k in base.fields.Keys + diff.fields.Keys ::
             if k !in diff.fields then base.fields[k]
             else if k in base.fields then Merge(base.fields[k], diff.fields[k])
             else diff.fields[k])
    else diff
  }

  /** Everything in o is found at the same place in x; x may hold more, and arrays count as objects. */
  predicate Embeds(o: Json, x: Json) {
    if o.Node? then x.Node? && forall k :: k in o.fields ==> k in x.fields && Embeds(o.fields[k], x.fields[k])
    else x == o
  }

  lemma {:induction false} EmbedsItself(o: Json)
    ensures Embeds(o, o)
  {
    if o.Node? {
      forall k | k in o.fields
        ensures Embeds(o.fields[k], o.fields[k])
      {
        EmbedsItself(o.fields[k]);
      }
    }
  }

  /** Applying the difference to the base repairs it: the object embeds in the outcome, at every depth. */
  lemma {:induction false} MergeRepairs(o: Json, b: Json)
    requires o.Node? && b.Node?
    ensures Embeds(o, Merge(b, Node(o.isArray, Changes(o, b.fields))))
  {
    var d := Node(o.isArray, Changes(o, b.fields));
    var x := Merge(b, d);
    forall k | k in o.fields
      ensures k in x.fields && Embeds(o.fields[k], x.fields[k])
    {
      var v := o.fields[k];
      if k in d.fields {
        if v.Node? && k in b.fields && b.fields[k].Node? {
          MergeRepairs(v, b.fields[k]);
          assert d.fields[k] == Node(v.isArray, Changes(v, b.fields[k].fields));
          assert x.fields[k] == Merge(b.fields[k], d.fields[k]);
        } else {
          EmbedsItself(v);
          assert d.fields[k] == v;
          assert k in b.fields ==> Merge(b.fields[k], v) == v;
        }
      } else {
        EmbedsItself(v);
      }
    }
  }

  /** What stands at a path below the value. */
  function At(j: Json, path: seq<Key>): Option<Json>
    decreases path
  {
    if path == [] then Some(j)
    else if j.Node? && path[0] in j.fields then At(j.fields[path[0]], path[1..])
    else None
  }

  /**
    The difference holds nothing superfluous, at any depth: it has a place exactly where the object has one and the
    base does not have the same there; and at its leaves it has what the object has.
  */
  lemma {:induction false} DiffAtPaths(o: Json, b: Json, path: seq<Key>)
    requires o.Node? && b.Node? && path != []
    ensures var d := At(Node(o.isArray, Changes(o, b.fields)), path);
            && (d.Some? <==> At(o, path).Some? && At(b, path) != At(o, path))
            && (d.Some? && !At(o, path).value.Node? ==> d == At(o, path))
            && (d.Some? && At(o, path).value.Node? ==>
                  d.value.Node? && d.value.isArray == At(o, path).value.isArray)
    decreases path
  {
    var k, d := path[0], Changes(o, b.fields);
    if k in d {
      var v := o.fields[k];
      if v.Node? && k in b.fields && b.fields[k].Node? {
        assert d[k] == Node(v.isArray, Changes(v, b.fields[k].fields));
        if path[1..] != [] {
          DiffAtPaths(v, b.fields[k], path[1..]);
        }
      } else {
        assert d[k] == v;
      }
    }
  }
}
