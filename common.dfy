/** Shared vocabulary of the backend model: identifiers, optional values,
    route replies, and the order-preserving queries (`find`, `findOne`,
    `Array.prototype.filter`) the route handlers run over their tables. */
module Common {

  /** A document identifier (a Mongo ObjectId, generated by the store). */
  type Id = nat

  /** A date, treated as an opaque comparable value. */
  type Date = int

  datatype Option<+T> = None | Some(value: T)

  /** The outcome of a database call that either resolves or throws. */
  datatype Result<+T, +E> = Success(value: T) | Failure(error: E)

  /** What a route handler sends back: a success status with its payload,
      or an error status with the JSON `message` it carries. */
  datatype Reply<+T> = Ok(status: int, value: T) | Err(status: int, message: string)

  /** The message of a Mongoose `ValidationError` raised by `save` on a
      document of the named model (the per-path details are not modelled). */
  function ValidationFailed(model: string): string {
    model + " validation failed"
  }

  /** The 404 messages the centre and user lookups of several routes share. */
  const CentreNotFound := "Training centre not found"
  const UserNotFound := "User not found"

  /** `String.prototype.startsWith`. */
  predicate StartsWith(s: string, prefix: string) {
    |prefix| <= |s| && s[..|prefix|] == prefix
  }

  /** The elements of `s` satisfying `p`, in their original order
      (`Array.prototype.filter`, and Mongo's `find` in natural order). */
  function Keep<T>(s: seq<T>, p: T -> bool): (r: seq<T>)
    ensures |r| <= |s|
    ensures forall i :: 0 <= i < |r| ==> p(r[i])
  {
    if s == [] then [] else (if p(s[0]) then [s[0]] else []) + Keep(s[1..], p)
  }

  lemma {:induction false} KeepMembership<T>(s: seq<T>, p: T -> bool, x: T)
    ensures x in Keep(s, p) <==> x in s && p(x)
  {
    if s != [] {
      KeepMembership(s[1..], p, x);
      assert s == [s[0]] + s[1..];
    }
  }

  /** Filtering distributes over concatenation: it keeps the relative order. */
  lemma {:induction false} KeepAppend<T>(a: seq<T>, b: seq<T>, p: T -> bool)
    ensures Keep(a + b, p) == Keep(a, p) + Keep(b, p)
  {
    if a == [] {
      assert a + b == b;
    } else {
      assert (a + b)[1..] == a[1..] + b;
      KeepAppend(a[1..], b, p);
    }
  }

  /** When every element passes, filtering changes nothing. */
  lemma {:induction false} KeepAll<T>(s: seq<T>, p: T -> bool)
    requires forall i :: 0 <= i < |s| ==> p(s[i])
    ensures Keep(s, p) == s
  {
    if s != [] {
      KeepAll(s[1..], p);
    }
  }

  /** The index of the first element satisfying `p` (`findOne`, `findById`). */
  function FirstIndex<T>(s: seq<T>, p: T -> bool): (r: Option<nat>)
    ensures r.Some? ==> r.value < |s| && p(s[r.value])
    ensures r.Some? ==> forall j :: 0 <= j < r.value ==> !p(s[j])
    ensures r.None? ==> forall j :: 0 <= j < |s| ==> !p(s[j])
  {
    if s == [] then None
    else if p(s[0]) then Some(0)
    else match FirstIndex(s[1..], p)
      case None => None
      case Some(k) => Some(k + 1)
  }

  /** No two elements share a key. */
  ghost predicate UniqueKeys<T>(s: seq<T>, key: T -> Id) {
    forall i, j :: 0 <= i < j < |s| ==> key(s[i]) != key(s[j])
  }

  /** Every key is below `bound`, so `bound` and above are fresh. */
  ghost predicate KeysBelow<T>(s: seq<T>, key: T -> Id, bound: Id) {
    forall i :: 0 <= i < |s| ==> key(s[i]) < bound
  }

  /** A key bound can always be raised. */
  lemma KeysBelowMono<T>(s: seq<T>, key: T -> Id, bound: Id, bound': Id)
    requires KeysBelow(s, key, bound) && bound <= bound'
    ensures KeysBelow(s, key, bound')
  {
  }

  /** Appending an element carrying a fresh key keeps the keys unique. */
  lemma AppendFresh<T>(s: seq<T>, key: T -> Id, bound: Id, x: T)
    requires UniqueKeys(s, key) && KeysBelow(s, key, bound) && key(x) == bound
    ensures UniqueKeys(s + [x], key) && KeysBelow(s + [x], key, bound + 1)
  {
  }

  /** Filtering keeps the keys unique. */
  lemma {:induction false} KeepUnique<T>(s: seq<T>, p: T -> bool, key: T -> Id)
    ensures UniqueKeys(s, key) ==> UniqueKeys(Keep(s, p), key)
  {
    if s != [] && UniqueKeys(s, key) {
      var rest := Keep(s[1..], p);
      KeepUnique(s[1..], p, key);
      forall x | x in rest ensures key(x) != key(s[0]) {
        KeepMembership(s[1..], p, x);
        var j :| 0 <= j < |s[1..]| && s[1..][j] == x;
        assert s[j + 1] == x;
      }
      var head := if p(s[0]) then [s[0]] else [];
      assert Keep(s, p) == head + rest;
      forall i, j | 0 <= i < j < |head + rest|
        ensures key((head + rest)[i]) != key((head + rest)[j])
      {
        if i < |head| {
          assert (head + rest)[j] in rest;
        }
      }
    }
  }

  /** A sequence drawn from the elements of another inherits its key bound. */
  lemma MembersKeysBelow<T>(s: seq<T>, t: seq<T>, key: T -> Id, bound: Id)
    requires KeysBelow(s, key, bound) && forall x :: x in t ==> x in s
    ensures KeysBelow(t, key, bound)
  {
    forall i | 0 <= i < |t| ensures key(t[i]) < bound {
      assert t[i] in s;
    }
  }

  /** `s` without its element at `k`. */
  function RemoveAt<T>(s: seq<T>, k: nat): (r: seq<T>)
    requires k < |s|
    ensures |r| == |s| - 1
    ensures forall i :: 0 <= i < k ==> r[i] == s[i]
    ensures forall i :: k <= i < |r| ==> r[i] == s[i + 1]
  {
    s[..k] + s[k + 1..]
  }

  /** Removing one element keeps the keys unique and below the bound. */
  lemma RemoveAtKeys<T>(s: seq<T>, k: nat, key: T -> Id, bound: Id)
    requires k < |s| && UniqueKeys(s, key) && KeysBelow(s, key, bound)
    ensures UniqueKeys(RemoveAt(s, k), key) && KeysBelow(RemoveAt(s, k), key, bound)
  {
  }

  /** Replacing an element by one with the same key keeps the keys as they were. */
  lemma ReplaceKeys<T>(s: seq<T>, k: nat, x: T, key: T -> Id, bound: Id)
    requires k < |s| && key(x) == key(s[k])
    requires UniqueKeys(s, key) && KeysBelow(s, key, bound)
    ensures UniqueKeys(s[k := x], key) && KeysBelow(s[k := x], key, bound)
  {
  }
}
