/** Small shared datatypes and sequence functions. */
module Prelude {

  datatype Option<+T> = None | Some(value: T)

  datatype Result<+T, +E> = Ok(value: T) | Err(error: E)

  /** The concatenation of all the parts, in order. */
  function Flatten<T>(parts: seq<seq<T>>): seq<T> {
    if parts == [] then [] else parts[0] + Flatten(parts[1..])
  }

  lemma ConcatAssoc<T>(a: seq<T>, b: seq<T>, c: seq<T>)
    ensures (a + b) + c == a + (b + c)
  {
  }

  lemma SplitAt<T>(s: seq<T>, k: nat)
    requires k < |s|
    ensures s[..k + 1] == s[..k] + [s[k]] && s == s[..k + 1] + s[k + 1..]
  {
  }

  /** `part` is what `whole` holds at the places `at`, from left to right. */
  ghost predicate PickedAt<T>(whole: seq<T>, at: seq<nat>, part: seq<T>) {
    && |part| == |at|
    && (forall i, j :: 0 <= i < j < |at| ==> at[i] < at[j])
    && forall i :: 0 <= i < |at| ==> at[i] < |whole| && part[i] == whole[at[i]]
  }

  /** The same places, one further on. */
  function Moved(at: seq<nat>): (r: seq<nat>)
    ensures |r| == |at| && forall i :: 0 <= i < |at| ==> r[i] == at[i] + 1
  {
    seq(|at|, i requires 0 <= i < |at| => at[i] + 1)
  }

  lemma MovedMembers(at: seq<nat>, k: nat)
    ensures k in Moved(at) <==> k > 0 && k - 1 in at
  {
    if k > 0 && k - 1 in at {
      var i :| 0 <= i < |at| && at[i] == k - 1;
      assert Moved(at)[i] == k;
    }
  }

  lemma PickedMoved<T>(whole: seq<T>, at: seq<nat>, part: seq<T>)
    requires whole != [] && PickedAt(whole[1..], at, part)
    ensures PickedAt(whole, Moved(at), part)
  {
  }

  lemma PickedFirst<T>(whole: seq<T>, at: seq<nat>, part: seq<T>)
    requires whole != [] && PickedAt(whole[1..], at, part)
    ensures PickedAt(whole, [0] + Moved(at), [whole[0]] + part)
  {
    PickedMoved(whole, at, part);
  }

  /** The elements with the property. */
  function Filter<T>(s: seq<T>, p: T -> bool): seq<T> {
    if s == [] then [] else if p(s[0]) then [s[0]] + Filter(s[1..], p) else Filter(s[1..], p)
  }

  /** The places where the property holds. */
  function Places<T>(s: seq<T>, p: T -> bool): seq<nat> {
    if s == [] then [] else if p(s[0]) then [0] + Moved(Places(s[1..], p)) else Moved(Places(s[1..], p))
  }

  lemma {:induction false} PlacesMembers<T>(s: seq<T>, p: T -> bool, k: nat)
    ensures k in Places(s, p) <==> k < |s| && p(s[k])
  {
    if s != [] {
      MovedMembers(Places(s[1..], p), k);
      if k > 0 {
        PlacesMembers(s[1..], p, k - 1);
      }
    }
  }

  lemma {:induction false} PlacesPick<T>(s: seq<T>, p: T -> bool)
    ensures PickedAt(s, Places(s, p), Filter(s, p))
  {
    if s != [] {
      PlacesPick(s[1..], p);
      if p(s[0]) {
        PickedFirst(s, Places(s[1..], p), Filter(s[1..], p));
      } else {
        PickedMoved(s, Places(s[1..], p), Filter(s[1..], p));
      }
    }
  }

  /** The elements with the property are picked at exactly the places where it holds. */
  lemma FilterPicks<T>(s: seq<T>, p: T -> bool) returns (at: seq<nat>)
    ensures PickedAt(s, at, Filter(s, p))
    ensures forall k :: 0 <= k < |s| ==> (k in at <==> p(s[k]))
  {
    at := Places(s, p);
    PlacesPick(s, p);
    forall k | 0 <= k < |s|
      ensures k in at <==> p(s[k])
    {
      PlacesMembers(s, p, k);
    }
  }

  lemma {:induction false} FlattenAppend<T>(a: seq<seq<T>>, b: seq<seq<T>>)
    ensures Flatten(a + b) == Flatten(a) + Flatten(b)
  {
    if a == [] {
      assert a + b == b;
    } else {
      FlattenAppend(a[1..], b);
      assert (a + b)[1..] == a[1..] + b;
      ConcatAssoc(a[0], Flatten(a[1..]), Flatten(b));
    }
  }

  lemma FlattenSnoc<T>(a: seq<seq<T>>, last: seq<T>)
    ensures Flatten(a + [last]) == Flatten(a) + last
  {
    FlattenAppend(a, [last]);
    assert Flatten([last]) == last + Flatten<T>([]);
  }
}
