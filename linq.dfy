/** The LINQ operators the report drivers rely on for its ordering guarantees:
    `Distinct` (first occurrences, in order), `Where` and `GroupBy`
    (groups in order of their key's first appearance, members in input order). */
module Linq {
  import opened Common

  predicate NoDuplicates<T(==)>(s: seq<T>)
  {
    forall i, j :: 0 <= i < j < |s| ==> s[i] != s[j]
  }

  /** `Enumerable.Distinct`: an element is kept where it occurs for the first time. */
  function Distinct<T(==)>(s: seq<T>): seq<T>
  {
    if s == [] then []
    else if s[|s| - 1] in s[..|s| - 1] then Distinct(s[..|s| - 1])
    else Distinct(s[..|s| - 1]) + [s[|s| - 1]]
  }

  lemma {:induction false} DistinctElements<T>(s: seq<T>)
    ensures forall x :: x in Distinct(s) <==> x in s
  {
    if s != [] {
      var init := s[..|s| - 1];
      DistinctElements(init);
      assert s == init + [s[|s| - 1]];
    }
  }

  lemma {:induction false} DistinctNoDuplicates<T>(s: seq<T>)
    ensures NoDuplicates(Distinct(s))
  {
    if s != [] {
      var init := s[..|s| - 1];
      DistinctNoDuplicates(init);
      DistinctElements(init);
    }
  }

  /** A sequence without repetitions is its own `Distinct`. */
  lemma {:induction false} DistinctOfNoDuplicates<T>(s: seq<T>)
    requires NoDuplicates(s)
    ensures Distinct(s) == s
  {
    if s != [] {
      var init := s[..|s| - 1];
      DistinctOfNoDuplicates(init);
      assert s == init + [s[|s| - 1]];
    }
  }

  lemma DistinctIdempotent<T>(s: seq<T>)
    ensures Distinct(Distinct(s)) == Distinct(s)
  {
    DistinctNoDuplicates(s);
    DistinctOfNoDuplicates(Distinct(s));
  }

  /** What `Distinct` emits for a prefix is a prefix of what it emits for the whole. */
  lemma {:induction false} DistinctPrefix<T>(s: seq<T>, j: nat)
    requires j <= |s|
    ensures Distinct(s[..j]) <= Distinct(s)
    decreases |s| - j
  {
    if j < |s| {
      DistinctPrefix(s, j + 1);
      assert s[..j + 1][..j] == s[..j];
    } else {
      assert s[..j] == s;
    }
  }

  /** The first occurrence of an element is emitted right after everything emitted
      for the elements before it. */
  lemma DistinctFirstOccurrence<T>(s: seq<T>, i: nat)
    requires i < |s| && s[i] !in s[..i]
    ensures |Distinct(s[..i])| < |Distinct(s)|
    ensures Distinct(s)[|Distinct(s[..i])|] == s[i]
  {
    var pre := s[..i + 1];
    assert pre[..i] == s[..i];
    assert Distinct(pre) == Distinct(s[..i]) + [s[i]];
    DistinctPrefix(s, i + 1);
  }

  /** `Distinct` keeps the order of first occurrences. */
  lemma DistinctKeepsOrder<T>(s: seq<T>, i: nat, j: nat)
    requires i < j < |s| && s[i] !in s[..i] && s[j] !in s[..j]
    ensures |Distinct(s[..i])| < |Distinct(s[..j])| < |Distinct(s)|
    ensures Distinct(s)[|Distinct(s[..i])|] == s[i]
    ensures Distinct(s)[|Distinct(s[..j])|] == s[j]
  {
    DistinctFirstOccurrence(s, i);
    DistinctFirstOccurrence(s, j);
    var sj := s[..j];
    assert sj[..i] == s[..i];
    assert sj[..i + 1] == s[..i + 1];
    assert s[..i + 1][..i] == s[..i];
    DistinctPrefix(sj, i + 1);
    assert Distinct(s[..i + 1]) == Distinct(s[..i]) + [s[i]];
  }

  /** `Enumerable.Where`: the elements satisfying `p`, in order. */
  function Filter<T(!new)>(p: T -> bool, s: seq<T>): (r: seq<T>)
    ensures |r| <= |s|
  {
    if s == [] then []
    else
      var init := s[..|s| - 1];
      assert s == init + [s[|s| - 1]];
      if p(s[|s| - 1]) then Filter(p, init) + [s[|s| - 1]] else Filter(p, init)
  }

  /** `Where` keeps exactly the elements satisfying `p`. */
  lemma {:induction false} FilterMembers<T(!new)>(p: T -> bool, s: seq<T>)
    ensures forall x :: x in Filter(p, s) <==> x in s && p(x)
  {
    if s != [] {
      var init, last := s[..|s| - 1], s[|s| - 1];
      FilterMembers(p, init);
      assert s == init + [last];
    }
  }

  /** When every element satisfies `p`, `Where` yields the sequence itself. */
  lemma {:induction false} FilterAll<T(!new)>(p: T -> bool, s: seq<T>)
    requires forall j :: 0 <= j < |s| ==> p(s[j])
    ensures Filter(p, s) == s
  {
    if s != [] {
      var init := s[..|s| - 1];
      FilterAll(p, init);
      assert s == init + [s[|s| - 1]];
    }
  }

  /** When exactly one element satisfies `p`, `Where` yields that element alone. */
  lemma {:induction false} FilterSingle<T(!new)>(p: T -> bool, s: seq<T>, k: nat)
    requires k < |s| && p(s[k])
    requires forall j :: 0 <= j < |s| && j != k ==> !p(s[j])
    ensures Filter(p, s) == [s[k]]
  {
    var init := s[..|s| - 1];
    if k == |s| - 1 {
      FilterNone(p, init);
    } else {
      FilterSingle(p, init, k);
    }
  }

  /** When no element satisfies `p`, `Where` yields nothing. */
  lemma {:induction false} FilterNone<T(!new)>(p: T -> bool, s: seq<T>)
    requires forall j :: 0 <= j < |s| ==> !p(s[j])
    ensures Filter(p, s) == []
  {
    if s != [] {
      FilterNone(p, s[..|s| - 1]);
    }
  }

  lemma {:induction false} FilterAppend<T(!new)>(p: T -> bool, a: seq<T>, b: seq<T>)
    ensures Filter(p, a + b) == Filter(p, a) + Filter(p, b)
    decreases |b|
  {
    if b == [] {
      assert a + b == a;
    } else {
      var binit, last := b[..|b| - 1], b[|b| - 1];
      FilterAppend(p, a, binit);
      assert b == binit + [last];
      assert a + b == (a + binit) + [last];
      FilterSnoc(p, a + binit, last);
      FilterSnoc(p, binit, last);
      var tail := if p(last) then [last] else [];
      assert (Filter(p, a) + Filter(p, binit)) + tail == Filter(p, a) + (Filter(p, binit) + tail);
    }
  }

  /** `Where` over one more element. */
  lemma FilterSnoc<T(!new)>(p: T -> bool, s: seq<T>, x: T)
    ensures Filter(p, s + [x]) == Filter(p, s) + (if p(x) then [x] else [])
  {
    assert (s + [x])[..|s|] == s;
  }

  /** The keys of key/value pairs, in order. */
  function Keys<K, V>(pairs: seq<(K, V)>): (ks: seq<K>)
    ensures |ks| == |pairs|
    ensures forall i :: 0 <= i < |pairs| ==> ks[i] == pairs[i].0
  {
    seq(|pairs|, i requires 0 <= i < |pairs| => pairs[i].0)
  }

  /** The values paired with `k`, in input order. */
  function ValuesOf<K(==), V>(pairs: seq<(K, V)>, k: K): seq<V>
  {
    if pairs == [] then []
    else
      var init := pairs[..|pairs| - 1];
      var last := pairs[|pairs| - 1];
      if last.0 == k then ValuesOf(init, k) + [last.1] else ValuesOf(init, k)
  }

  lemma {:induction false} ValuesOfMembers<K, V>(pairs: seq<(K, V)>, k: K)
    ensures forall v :: v in ValuesOf(pairs, k) <==> (k, v) in pairs
  {
    if pairs != [] {
      var init := pairs[..|pairs| - 1];
      ValuesOfMembers(init, k);
      assert pairs == init + [pairs[|pairs| - 1]];
    }
  }

  /** `Enumerable.GroupBy`: one group per key, in order of the key's first appearance. */
  function GroupBy<K(==), V>(pairs: seq<(K, V)>): seq<(K, seq<V>)>
  {
    var ks := Distinct(Keys(pairs));
    seq(|ks|, i requires 0 <= i < |ks| => (ks[i], ValuesOf(pairs, ks[i])))
  }

  /** Every input pair lands in exactly one group, that of its key; group keys are
      distinct and groups are never empty. */
  lemma GroupByPartitions<K, V>(pairs: seq<(K, V)>)
    ensures NoDuplicates(Keys(GroupBy(pairs)))
    ensures forall k, v :: (k, v) in pairs <==> exists g :: g in GroupBy(pairs) && g.0 == k && v in g.1
    ensures forall g :: g in GroupBy(pairs) ==> g.1 != [] && g.1 == ValuesOf(pairs, g.0)
  {
    var ks := Distinct(Keys(pairs));
    var gs := GroupBy(pairs);
    DistinctNoDuplicates(Keys(pairs));
    DistinctElements(Keys(pairs));
    assert Keys(gs) == ks;
    forall k, v
      ensures (k, v) in pairs <==> exists g :: g in gs && g.0 == k && v in g.1
    {
      ValuesOfMembers(pairs, k);
      if (k, v) in pairs {
        var i :| 0 <= i < |pairs| && pairs[i] == (k, v);
        assert Keys(pairs)[i] == k;
        assert k in Keys(pairs);
        assert k in ks;
        var j :| 0 <= j < |ks| && ks[j] == k;
        assert gs[j] in gs;
      }
    }
    forall g | g in gs
      ensures g.1 != [] && g.1 == ValuesOf(pairs, g.0)
    {
      var j :| 0 <= j < |gs| && gs[j] == g;
      assert ks[j] in Keys(pairs);
      var i :| 0 <= i < |pairs| && Keys(pairs)[i] == ks[j];
      ValuesOfMembers(pairs, g.0);
      assert pairs[i] in pairs;
    }
  }

  /** `source.Select(f)` enumerated until `f` throws: the images of the elements
      before the first failure. */
  function Images<T, U>(f: T -> Result<U>, s: seq<T>): seq<U>
  {
    if s == [] then []
    else
      var init := s[..|s| - 1];
      if FirstFailure(f, init).Some? || f(s[|s| - 1]).Err? then Images(f, init)
      else Images(f, init) + [f(s[|s| - 1]).value]
  }

  /** The exception that stops the enumeration of `source.Select(f)`, if any. */
  function FirstFailure<T, U>(f: T -> Result<U>, s: seq<T>): Option<string>
  {
    if s == [] then None
    else
      var init := s[..|s| - 1];
      if FirstFailure(f, init).Some? then FirstFailure(f, init)
      else if f(s[|s| - 1]).Err? then Some(f(s[|s| - 1]).error)
      else None
  }

  /** Without a failure every element is mapped, in order. */
  lemma {:induction false} ImagesWithoutFailure<T, U>(f: T -> Result<U>, s: seq<T>)
    requires forall i :: 0 <= i < |s| ==> f(s[i]).Ok?
    ensures FirstFailure(f, s).None?
    ensures |Images(f, s)| == |s|
    ensures forall i :: 0 <= i < |s| ==> Images(f, s)[i] == f(s[i]).value
  {
    if s != [] {
      ImagesWithoutFailure(f, s[..|s| - 1]);
    }
  }

  /** The first element `f` rejects ends the enumeration: the images are those of the
      elements before it, and its exception is the one raised, whatever follows. */
  lemma {:induction false} StopsAtFirstFailure<T, U>(f: T -> Result<U>, s: seq<T>, i: nat)
    requires i < |s| && f(s[i]).Err?
    requires forall j :: 0 <= j < i ==> f(s[j]).Ok?
    ensures Images(f, s) == Images(f, s[..i])
    ensures FirstFailure(f, s) == Some(f(s[i]).error)
    decreases |s|
  {
    if |s| - 1 == i {
      ImagesWithoutFailure(f, s[..i]);
      assert s[..|s| - 1] == s[..i];
    } else {
      var init := s[..|s| - 1];
      assert init[..i] == s[..i];
      StopsAtFirstFailure(f, init, i);
    }
  }

  /** `Images` and `FirstFailure` of one more element. */
  lemma ImagesSnoc<T, U>(f: T -> Result<U>, s: seq<T>, x: T)
    ensures (s + [x])[..|s|] == s
    ensures FirstFailure(f, s).None? && f(x).Ok? ==>
              Images(f, s + [x]) == Images(f, s) + [f(x).value] && FirstFailure(f, s + [x]).None?
    ensures FirstFailure(f, s).None? && f(x).Err? ==>
              Images(f, s + [x]) == Images(f, s) && FirstFailure(f, s + [x]) == Some(f(x).error)
  {
    assert (s + [x])[..|s|] == s;
  }

  /** The images of a prefix of the input begin the images of the whole input. */
  lemma {:induction false} ImagesPrefix<T, U>(f: T -> Result<U>, s: seq<T>, k: nat)
    requires k <= |s|
    ensures Images(f, s[..k]) <= Images(f, s)
  {
    if k < |s| {
      var init := s[..|s| - 1];
      assert init[..k] == s[..k];
      ImagesPrefix(f, init, k);
    } else {
      assert s[..k] == s;
    }
  }

  /** The images are exactly the values `f` gives the elements the enumeration
      reaches, those before the first element `f` rejects. */
  lemma ImagesMembers<T, U>(f: T -> Result<U>, s: seq<T>)
    ensures forall x :: x in Images(f, s) <==> exists i :: 0 <= i < |s| && FirstFailure(f, s[..i]).None? && f(s[i]) == Ok(x)
  {
    forall x
      ensures x in Images(f, s) <==> exists i :: 0 <= i < |s| && FirstFailure(f, s[..i]).None? && f(s[i]) == Ok(x)
    {
      if x in Images(f, s) {
        ImageReached(f, s, x);
      }
      if exists i :: 0 <= i < |s| && FirstFailure(f, s[..i]).None? && f(s[i]) == Ok(x) {
        var i :| 0 <= i < |s| && FirstFailure(f, s[..i]).None? && f(s[i]) == Ok(x);
        ReachedImage(f, s, i);
      }
    }
  }

  /** Every image is the value of an element the enumeration reached. */
  lemma {:induction false} ImageReached<T, U>(f: T -> Result<U>, s: seq<T>, x: U)
    requires x in Images(f, s)
    ensures exists i :: 0 <= i < |s| && FirstFailure(f, s[..i]).None? && f(s[i]) == Ok(x)
  {
    var init := s[..|s| - 1];
    if x in Images(f, init) {
      ImageReached(f, init, x);
      var i :| 0 <= i < |init| && FirstFailure(f, init[..i]).None? && f(init[i]) == Ok(x);
      assert s[..i] == init[..i] && s[i] == init[i];
    } else {
      assert s[..|init|] == init;
      assert FirstFailure(f, s[..|init|]).None? && f(s[|init|]) == Ok(x);
    }
  }

  /** An element the enumeration reaches and `f` maps has its value among the images. */
  lemma ReachedImage<T, U>(f: T -> Result<U>, s: seq<T>, i: nat)
    requires i < |s| && FirstFailure(f, s[..i]).None? && f(s[i]).Ok?
    ensures f(s[i]).value in Images(f, s)
  {
    assert s[..i + 1] == s[..i] + [s[i]];
    ImagesSnoc(f, s[..i], s[i]);
    ImagesPrefix(f, s, i + 1);
  }

  /** The enumeration fails exactly when some element fails to map. */
  lemma {:induction false} NoFailureIffAllMap<T, U>(f: T -> Result<U>, s: seq<T>)
    ensures FirstFailure(f, s).None? <==> forall j :: 0 <= j < |s| ==> f(s[j]).Ok?
  {
    if s != [] {
      var init := s[..|s| - 1];
      NoFailureIffAllMap(f, init);
      assert forall j :: 0 <= j < |init| ==> init[j] == s[j];
    }
  }

  /** Once the enumeration of a prefix has failed, the rest of the input is never
      looked at. */
  lemma {:induction false} FailureIsFinal<T, U>(f: T -> Result<U>, s: seq<T>, i: nat)
    requires i <= |s| && FirstFailure(f, s[..i]).Some?
    ensures Images(f, s) == Images(f, s[..i])
    ensures FirstFailure(f, s) == FirstFailure(f, s[..i])
    decreases |s| - i
  {
    if i < |s| {
      assert s[..i + 1][..i] == s[..i];
      FailureIsFinal(f, s, i + 1);
    } else {
      assert s[..i] == s;
    }
  }

  /** `Distinct` of one more element. */
  lemma DistinctSnoc<T>(s: seq<T>, x: T)
    ensures Distinct(s + [x]) == if x in s then Distinct(s) else Distinct(s) + [x]
  {
    assert (s + [x])[..|s|] == s;
  }

  /** One more element of a lazily consumed `Select(f).Distinct()` that maps: its
      image joins the distinct images unless it is already among them. */
  lemma DistinctImagesSnoc<T, U(!new)>(f: T -> Result<U>, s: seq<T>, i: nat)
    requires i < |s| && FirstFailure(f, s[..i]).None? && f(s[i]).Ok?
    ensures FirstFailure(f, s[..i + 1]).None?
    ensures var seen := Distinct(Images(f, s[..i]));
            Distinct(Images(f, s[..i + 1])) == if f(s[i]).value in seen then seen else seen + [f(s[i]).value]
  {
    var init, x := s[..i], s[i];
    assert s[..i + 1] == init + [x];
    ImagesSnoc(f, init, x);
    var images := Images(f, init);
    assert Images(f, s[..i + 1]) == images + [f(x).value];
    DistinctSnoc(images, f(x).value);
    DistinctElements(images);
  }

  /** An element that fails to map ends the enumeration: the images are those of
      the elements before it, and its failure is the first. */
  lemma FailureEndsImages<T, U>(f: T -> Result<U>, s: seq<T>, i: nat)
    requires i < |s| && FirstFailure(f, s[..i]).None? && f(s[i]).Err?
    ensures Images(f, s) == Images(f, s[..i]) && FirstFailure(f, s) == Some(f(s[i]).error)
  {
    FailsAt(f, s, i);
    FailureIsFinal(f, s, i + 1);
  }

  /** The prefix ending with the first element `f` rejects fails with its exception. */
  lemma FailsAt<T, U>(f: T -> Result<U>, s: seq<T>, i: nat)
    requires i < |s| && FirstFailure(f, s[..i]).None? && f(s[i]).Err?
    ensures FirstFailure(f, s[..i + 1]) == Some(f(s[i]).error)
    ensures Images(f, s[..i + 1]) == Images(f, s[..i])
  {
    assert s[..i + 1][..i] == s[..i];
  }
}
