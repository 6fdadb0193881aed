/** Small sequence vocabulary shared by every model: the database queries of the
    original (`findFirst`, `findMany`, `deleteMany`) and the array calls `find` and
    `filter` are all read as `First` and `Filter` over rows kept in creation order. */
module Collections {

  datatype Option<+T> = None | Some(value: T)

  datatype Result<+T, +E> = Ok(value: T) | Err(error: E)

  /** The first element satisfying `p`. */
  function First<T(!new)>(s: seq<T>, p: T -> bool): (r: Option<T>)
    ensures r.Some? ==> r.value in s && p(r.value)
    ensures r.None? ==> forall x :: x in s ==> !p(x)
  {
    if s == [] then None
    else if p(s[0]) then Some(s[0])
    else First(s[1..], p)
  }

  /** The elements satisfying `p`, in order. */
  function Filter<T(!new)>(s: seq<T>, p: T -> bool): (r: seq<T>)
    ensures forall x :: x in r <==> x in s && p(x)
    ensures |r| <= |s|
  {
    if s == [] then []
    else
      var rest := Filter(s[..|s| - 1], p);
      assert s == s[..|s| - 1] + [s[|s| - 1]];
      if p(s[|s| - 1]) then rest + [s[|s| - 1]] else rest
  }

  lemma {:induction false} FilterConcat<T(!new)>(s: seq<T>, t: seq<T>, p: T -> bool)
    ensures Filter(s + t, p) == Filter(s, p) + Filter(t, p)
    decreases |t|
  {
    if t == [] {
      assert s + t == s;
    } else {
      var n := |t| - 1;
      assert (s + t)[..|s + t| - 1] == s + t[..n];
      FilterConcat(s, t[..n], p);
    }
  }

  /** Filtering twice keeps what both conditions keep. */
  lemma {:induction false} FilterTwice<T(!new)>(s: seq<T>, p: T -> bool, q: T -> bool, both: T -> bool)
    requires forall x :: both(x) <==> p(x) && q(x)
    ensures Filter(Filter(s, p), q) == Filter(s, both)
  {
    if s != [] {
      var n := |s| - 1;
      FilterTwice(s[..n], p, q, both);
      FilterConcat(Filter(s[..n], p), [s[n]], q);
      assert [s[n]][..0] == [];
    }
  }

  /** A condition that rejects nothing keeps everything; one that rejects all keeps nothing. */
  lemma {:induction false} FilterAll<T(!new)>(s: seq<T>, p: T -> bool)
    requires forall x :: x in s ==> p(x)
    ensures Filter(s, p) == s
  {
    if s != [] {
      var n := |s| - 1;
      assert s == s[..n] + [s[n]];
      FilterAll(s[..n], p);
    }
  }

  lemma {:induction false} FilterNone<T(!new)>(s: seq<T>, p: T -> bool)
    requires forall x :: x in s ==> !p(x)
    ensures Filter(s, p) == []
  {
    if s != [] {
      var n := |s| - 1;
      assert s == s[..n] + [s[n]];
      FilterNone(s[..n], p);
    }
  }

  /** Two conditions that agree on the elements filter alike. */
  lemma {:induction false} FilterSame<T(!new)>(s: seq<T>, p: T -> bool, q: T -> bool)
    requires forall x :: x in s ==> (p(x) <==> q(x))
    ensures Filter(s, p) == Filter(s, q)
  {
    if s != [] {
      var n := |s| - 1;
      assert s == s[..n] + [s[n]];
      FilterSame(s[..n], p, q);
    }
  }

  /** A condition true at one place only keeps that one element. */
  lemma {:induction false} FilterOne<T(!new)>(s: seq<T>, p: T -> bool, i: int)
    requires 0 <= i < |s| && p(s[i])
    requires forall j :: 0 <= j < |s| && j != i ==> !p(s[j])
    ensures Filter(s, p) == [s[i]]
  {
    var n := |s| - 1;
    if i == n {
      forall x | x in s[..n] ensures !p(x) {
        var j :| 0 <= j < n && s[..n][j] == x;
        assert s[j] == x;
      }
      FilterNone(s[..n], p);
    } else {
      FilterOne(s[..n], p, i);
    }
  }

  ghost predicate FromElsewhere<T>(s: seq<T>, i: int, x: T) {
    exists m :: 0 <= m < |s| && m != i && s[m] == x
  }

  /** An element that is kept has one place in the result; the other places hold other elements. */
  lemma {:induction false} FilterKeepsPlace<T(!new)>(s: seq<T>, p: T -> bool, i: nat) returns (j: nat)
    requires i < |s| && p(s[i])
    ensures j < |Filter(s, p)| && Filter(s, p)[j] == s[i]
    ensures forall k :: 0 <= k < |Filter(s, p)| && k != j ==> FromElsewhere(s, i, Filter(s, p)[k])
  {
    var n := |s| - 1;
    var rest := Filter(s[..n], p);
    if i < n {
      j := FilterKeepsPlace(s[..n], p, i);
      forall k | 0 <= k < |rest| && k != j ensures FromElsewhere(s, i, rest[k]) {
        var m :| 0 <= m < n && m != i && s[..n][m] == rest[k];
        assert s[m] == rest[k];
      }
      assert p(s[n]) ==> FromElsewhere(s, i, s[n]);
    } else {
      j := |rest|;
      forall k | 0 <= k < |rest| ensures FromElsewhere(s, i, rest[k]) {
        assert rest[k] in rest;
        var m :| 0 <= m < n && s[..n][m] == rest[k];
        assert s[m] == rest[k];
      }
    }
  }
}
