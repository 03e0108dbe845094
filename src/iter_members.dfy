/** Reflection over an object's attributes (pysk/utils/iterMembers.py). An object is a map from
    attribute name to value, methods included; `dir()` lists the names in sorted order. */
module Members {
  import opened Wrappers
  import opened Strs

  /** An attribute value; `VCallable` stands for a bound method or any other callable. */
  datatype Value = VNone | VInt(i: int) | VStr(s: string) | VCallable(name: string)

  type Object = map<string, Value>

  predicate IsDunder(name: string) {
    IsPrefix("__", name)
  }

  // ---------------------------------------------------------------------------------------------
  // `dir(obj)`: the attribute names in ascending order.

  predicate IsLeast(m: string, s: set<string>) {
    m in s && forall x :: x in s ==> x == m || StrLess(m, x)
  }

  lemma {:induction false} LeastExists(s: set<string>)
    requires s != {}
    ensures exists m :: IsLeast(m, s)
    decreases |s|
  {
    var y :| y in s;
    var t := s - {y};
    if t == {} {
      assert s == {y};
      assert IsLeast(y, s);
    } else {
      LeastExists(t);
      var m :| IsLeast(m, t);
      StrLessTotal(y, m);
      if StrLess(y, m) {
        forall x | x in s ensures x == y || StrLess(y, x) {
          if x != y && x != m { StrLessTransitive(y, m, x); }
        }
        assert IsLeast(y, s);
      } else {
        assert IsLeast(m, s);
      }
    }
  }

  lemma LeastUnique(a: string, b: string, s: set<string>)
    requires IsLeast(a, s) && IsLeast(b, s)
    ensures a == b
  {
    if a != b {
      assert StrLess(a, b) && StrLess(b, a);
      StrLessTransitive(a, b, a);
      StrLessIrreflexive(a);
    }
  }

  /** The smallest name of a non-empty set. */
  function Least(s: set<string>): (m: string)
    requires s != {}
    ensures IsLeast(m, s)
  {
    LeastExists(s);
    assert forall a, b :: IsLeast(a, s) && IsLeast(b, s) ==> a == b by {
      forall a, b | IsLeast(a, s) && IsLeast(b, s) ensures a == b { LeastUnique(a, b, s); }
    }
    var m :| IsLeast(m, s);
    m
  }

  /** The names of `s` in ascending order. */
  function SortedNames(s: set<string>): (r: seq<string>)
    ensures |r| == |s|
    ensures forall x :: x in s <==> x in r
    decreases |s|
  {
    if s == {} then [] else [Least(s)] + SortedNames(s - {Least(s)})
  }

  predicate Ascending(names: seq<string>) {
    forall i, j :: 0 <= i < j < |names| ==> StrLess(names[i], names[j])
  }

  /** `SortedNames` lists the names in ascending order. */
  lemma {:induction false} SortedNamesAscending(s: set<string>)
    ensures Ascending(SortedNames(s))
    decreases |s|
  {
    if s != {} {
      var m := Least(s);
      var rest := SortedNames(s - {m});
      var r := [m] + rest;
      SortedNamesAscending(s - {m});
      forall i, j | 0 <= i < j < |r| ensures StrLess(r[i], r[j]) {
        if i == 0 {
          assert r[j] == rest[j - 1] && r[j] in s - {m};
        } else {
          assert r[i] == rest[i - 1] && r[j] == rest[j - 1];
        }
      }
    }
  }

  /** `dir(obj)`. */
  function Dir(o: Object): seq<string> {
    SortedNames(o.Keys)
  }

  // ---------------------------------------------------------------------------------------------
  // `iterMembers(cls, ignore)`: the (name, value) pairs of the data attributes. A missing or
  // empty `ignore` is the empty set.

  /** The attributes `iterMembers` yields: present, not `__…`, not ignored and not callable. */
  predicate Yielded(o: Object, ignore: set<string>, name: string) {
    name in o && !IsDunder(name) && name !in ignore && !o[name].VCallable?
  }

  /** The pairs yielded for the names `names`, in their order. */
  function Pairs(o: Object, names: seq<string>, ignore: set<string>): (r: seq<(string, Value)>)
    requires forall n :: n in names ==> n in o
    ensures forall n, v :: (n, v) in r <==> n in names && Yielded(o, ignore, n) && v == o[n]
  {
    if names == [] then []
    else
      var n := names[0];
      var rest := Pairs(o, names[1..], ignore);
      assert forall x :: x in names <==> x == n || x in names[1..] by {
        assert names == [n] + names[1..];
      }
      if Yielded(o, ignore, n) then [(n, o[n])] + rest else rest
  }

  function IterMembers(o: Object, ignore: set<string>): (r: seq<(string, Value)>)
    ensures forall n, v :: (n, v) in r <==> Yielded(o, ignore, n) && v == o[n]
  {
    Pairs(o, Dir(o), ignore)
  }

  // ---------------------------------------------------------------------------------------------
  // `copyMembers(src, dest, ignore)`.

  /** The attributes `iterMembers` yields, as a set. */
  function YieldedNames(o: Object, ignore: set<string>): set<string> {
    set n | n in o.Keys && Yielded(o, ignore, n)
  }

  /** What `copyMembers` leaves in `dest`: the yielded attributes of `src`, and the rest of `dest`. */
  function Copied(dest: Object, src: Object, ignore: set<string>): (r: Object)
    ensures forall n :: n in r <==> n in dest || Yielded(src, ignore, n)
    ensures forall n :: Yielded(src, ignore, n) ==> r[n] == src[n]
    ensures forall n :: n in dest && !Yielded(src, ignore, n) ==> r[n] == dest[n]
  {
    map n | n in dest.Keys + YieldedNames(src, ignore) :: if Yielded(src, ignore, n) then src[n] else dest[n]
  }

  /** An object that agrees with `Copied` name by name is `Copied`. */
  lemma CopiedExactly(a: Object, dest: Object, src: Object, ignore: set<string>)
    requires forall n :: n in a <==> n in dest || Yielded(src, ignore, n)
    requires forall n :: Yielded(src, ignore, n) ==> a[n] == src[n]
    requires forall n :: n in dest && !Yielded(src, ignore, n) ==> a[n] == dest[n]
    ensures a == Copied(dest, src, ignore)
  {
    var c := Copied(dest, src, ignore);
    assert a.Keys == c.Keys;
    forall n | n in a ensures a[n] == c[n] {
      if Yielded(src, ignore, n) { } else { }
    }
  }

  /** An object whose attributes `setattr` changes in place. */
  class Instance {
    var attrs: Object

    constructor (attrs: Object)
      ensures this.attrs == attrs
    {
      this.attrs := attrs;
    }

    /** `copyMembers(src, self, ignore)`. */
    method CopyMembers(src: Object, ignore: set<string>)
      modifies this
      ensures forall n :: n in attrs <==> n in old(attrs) || Yielded(src, ignore, n)
      ensures forall n :: Yielded(src, ignore, n) ==> attrs[n] == src[n]
      ensures forall n :: n in old(attrs) && !Yielded(src, ignore, n) ==> attrs[n] == old(attrs)[n]
      ensures attrs == Copied(old(attrs), src, ignore)
    {
      var items := IterMembers(src, ignore);
      ghost var dest := attrs;
      ghost var done: set<string> := {};
      for i := 0 to |items|
        invariant forall n :: n in done ==> Yielded(src, ignore, n)
        invariant forall j :: 0 <= j < i ==> items[j].0 in done
        invariant forall n :: n in attrs <==> n in dest || n in done
        invariant forall n :: n in done ==> attrs[n] == src[n]
        invariant forall n :: n in dest && n !in done ==> attrs[n] == dest[n]
      {
        var (n, v) := items[i];
        assert (n, v) in items;
        attrs := attrs[n := v];
        done := done + {n};
      }
      forall n | Yielded(src, ignore, n) ensures n in done {
        assert (n, src[n]) in items;
        var j :| 0 <= j < |items| && items[j] == (n, src[n]);
      }
      CopiedExactly(attrs, dest, src, ignore);
    }
  }

  // ---------------------------------------------------------------------------------------------
  // `equalMembers(cls1, cls2, ignore)`.

  /** The early-returning comparison over the given pairs: `getattr` on `o2` raises
      AttributeError for a missing name. */
  function EqualFrom(items: seq<(string, Value)>, o2: Object): (r: Result<bool>)
    ensures r == Ok(true) <==> forall p :: p in items ==> p.0 in o2 && o2[p.0] == p.1
    ensures r == Ok(false) ==> exists p :: p in items && p.0 in o2 && o2[p.0] != p.1
    ensures r.Err? ==> exists p :: p in items && p.0 !in o2 && r.error == AttributeError(p.0)
  {
    if items == [] then Ok(true)
    else
      var (n, v) := items[0];
      assert forall p :: p in items <==> p == items[0] || p in items[1..] by {
        assert items == [items[0]] + items[1..];
      }
      if n !in o2 then Err(AttributeError(n))
      else if v != o2[n] then Ok(false)
      else EqualFrom(items[1..], o2)
  }

  function EqualMembers(o1: Object, o2: Object, ignore: set<string>): (r: Result<bool>)
    ensures r == Ok(true) <==> forall n :: Yielded(o1, ignore, n) ==> n in o2 && o2[n] == o1[n]
    ensures r == Ok(false) ==> exists n :: Yielded(o1, ignore, n) && n in o2 && o2[n] != o1[n]
    ensures r.Err? ==> exists n :: Yielded(o1, ignore, n) && n !in o2 && r.error == AttributeError(n)
  {
    var items := IterMembers(o1, ignore);
    var r := EqualFrom(items, o2);
    assert (forall n :: Yielded(o1, ignore, n) ==> n in o2 && o2[n] == o1[n]) ==> r == Ok(true) by {
      if forall n :: Yielded(o1, ignore, n) ==> n in o2 && o2[n] == o1[n] {
        forall p | p in items ensures p.0 in o2 && o2[p.0] == p.1 {
          var (n, v) := p;
          assert (n, v) in items;
        }
      }
    }
    assert r == Ok(true) ==> forall n :: Yielded(o1, ignore, n) ==> n in o2 && o2[n] == o1[n] by {
      if r == Ok(true) {
        forall n | Yielded(o1, ignore, n) ensures n in o2 && o2[n] == o1[n] {
          assert (n, o1[n]) in items;
        }
      }
    }
    assert r.Ok? && !r.value ==> exists n :: Yielded(o1, ignore, n) && n in o2 && o2[n] != o1[n] by {
      if r.Ok? && !r.value {
        var p :| p in items && p.0 in o2 && o2[p.0] != p.1;
        var (n, v) := p;
        assert (n, v) in items;
      }
    }
    assert r.Err? ==> exists n :: Yielded(o1, ignore, n) && n !in o2 && r.error == AttributeError(n) by {
      if r.Err? {
        var p :| p in items && p.0 !in o2 && r.error == AttributeError(p.0);
        var (n, v) := p;
        assert (n, v) in items;
      }
    }
    r
  }

  /** `equalMembers(o, o)` holds for every object. */
  lemma EqualMembersReflexive(o: Object, ignore: set<string>)
    ensures EqualMembers(o, o, ignore) == Ok(true)
  {
  }

  /** Ignoring the only attribute in which two objects differ makes them compare equal. */
  lemma IgnoringTheDifference(o1: Object, o2: Object, ignore: set<string>, n: string)
    requires forall m :: Yielded(o1, ignore, m) && m != n ==> m in o2 && o2[m] == o1[m]
    ensures EqualMembers(o1, o2, ignore + {n}) == Ok(true)
  {
    forall m | Yielded(o1, ignore + {n}, m) ensures m in o2 && o2[m] == o1[m] {
      assert Yielded(o1, ignore, m);
    }
  }

  /** After `copyMembers(src, dest)`, `equalMembers(src, dest)` holds. */
  lemma CopyThenEqual(dest: Object, src: Object, ignore: set<string>)
    ensures EqualMembers(src, Copied(dest, src, ignore), ignore) == Ok(true)
  {
  }
}
