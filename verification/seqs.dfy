/** Sequence helpers: first match, order-preserving filtering, and the "keep the first
    record per id" pass the provider client runs with a Go map of seen ids. */
module Seqs {
  import opened Base

  /** The index of the first element satisfying `p`, if any. */
  function FindIndex<T>(xs: seq<T>, p: T -> bool): (r: Option<nat>)
    ensures r.Some? ==> r.value < |xs| && p(xs[r.value]) && forall j :: 0 <= j < r.value ==> !p(xs[j])
    ensures r.None? ==> forall i :: 0 <= i < |xs| ==> !p(xs[i])
    decreases |xs|
  {
    if xs == [] then None
    else if p(xs[0]) then Some(0)
    else match FindIndex(xs[1..], p)
      case None => None
      case Some(k) => Some(k + 1)
  }

  /** The first match depends only on which positions satisfy `p`. */
  lemma FindIndexSame<T>(xs: seq<T>, ys: seq<T>, p: T -> bool)
    requires |xs| == |ys| && forall i :: 0 <= i < |xs| ==> p(xs[i]) == p(ys[i])
    ensures FindIndex(xs, p) == FindIndex(ys, p)
  {
  }

  /** Appending an element changes the first match only when there was none. */
  lemma FindIndexSnoc<T>(xs: seq<T>, x: T, p: T -> bool)
    ensures FindIndex(xs + [x], p) ==
      if FindIndex(xs, p).Some? then FindIndex(xs, p) else if p(x) then Some(|xs|) else None
  {
    assert forall i :: 0 <= i < |xs| ==> (xs + [x])[i] == xs[i];
    assert (xs + [x])[|xs|] == x;
  }

  /** A store's `FindOne`: the first record satisfying `p` in the store's
      natural order, NoDocuments when there is none, or the call's failure. */
  function FindOne<T>(s: seq<T>, p: T -> bool, fault: Option<Error>): (r: Result<T>)
    ensures fault.Some? ==> r == Err(fault.value)
    ensures fault.None? ==> (r == Err(NoDocuments) <==> forall i :: 0 <= i < |s| ==> !p(s[i]))
    ensures fault.None? ==> (r.Ok? || r == Err(NoDocuments))
    ensures r.Ok? ==> exists i :: 0 <= i < |s| && s[i] == r.value && p(s[i]) && forall j :: 0 <= j < i ==> !p(s[j])
  {
    if fault.Some? then Err(fault.value)
    else match FindIndex(s, p)
      case None => Err(NoDocuments)
      case Some(i) => Ok(s[i])
  }

  /** The elements of `xs` satisfying `p`, in their original order. */
  function Filter<T>(xs: seq<T>, p: T -> bool): (r: seq<T>)
    ensures |r| <= |xs|
    ensures forall i :: 0 <= i < |r| ==> p(r[i]) && r[i] in xs
    ensures forall i :: 0 <= i < |xs| && p(xs[i]) ==> xs[i] in r
  {
    if xs == [] then [] else (if p(xs[0]) then [xs[0]] else []) + Filter(xs[1..], p)
  }

  /** Filtering distributes over appending one element. */
  lemma {:induction false} FilterSnoc<T>(xs: seq<T>, x: T, p: T -> bool)
    ensures Filter(xs + [x], p) == Filter(xs, p) + (if p(x) then [x] else [])
  {
    if xs != [] {
      FilterSnoc(xs[1..], x, p);
      assert (xs + [x])[1..] == xs[1..] + [x];
    }
  }

  /** Filtering keeps every eligible element as often as it occurs and drops
      every other one: the multiplicities of the result are those of `xs`
      restricted to `p`. */
  lemma {:induction false} FilterCounts<T>(xs: seq<T>, p: T -> bool)
    ensures forall a :: multiset(Filter(xs, p))[a] == if p(a) then multiset(xs)[a] else 0
  {
    if xs != [] {
      FilterCounts(xs[1..], p);
      assert xs == [xs[0]] + xs[1..];
      assert multiset(xs) == multiset{xs[0]} + multiset(xs[1..]);
    }
  }

  /** Filtering preserves order: filtering a prefix of `xs` gives a prefix of
      the filtered `xs`. */
  lemma {:induction false} FilterPrefix<T>(xs: seq<T>, n: nat, p: T -> bool)
    requires n <= |xs|
    ensures Filter(xs[..n], p) <= Filter(xs, p)
    decreases |xs| - n
  {
    if n == |xs| {
      assert xs[..n] == xs;
    } else {
      FilterPrefix(xs, n + 1, p);
      assert xs[..n + 1] == xs[..n] + [xs[n]];
      FilterSnoc(xs[..n], xs[n], p);
    }
  }

  /** Every prefix of `xs` filters to a prefix of the filtered `xs`. */
  lemma FilterPrefixes<T>(xs: seq<T>, p: T -> bool)
    ensures forall n :: 0 <= n <= |xs| ==> Filter(xs[..n], p) <= Filter(xs, p)
  {
    forall n | 0 <= n <= |xs|
      ensures Filter(xs[..n], p) <= Filter(xs, p)
    {
      FilterPrefix(xs, n, p);
    }
  }

  /** Reference definition of first-seen de-duplication: `x` is kept when it
      is eligible, its id was not seen before the pass and no earlier eligible
      element of `xs` carries the same id. */
  function FirstOccurrences<T>(seen: set<string>, xs: seq<T>, key: T -> string, ok: T -> bool): seq<T>
    decreases |xs|
  {
    if xs == [] then []
    else
      var pre := xs[..|xs| - 1];
      var x := xs[|xs| - 1];
      FirstOccurrences(seen, pre, key, ok)
        + (if ok(x) && key(x) !in seen && !(exists j :: 0 <= j < |pre| && ok(pre[j]) && key(pre[j]) == key(x))
           then [x] else [])
  }

  /** The accumulated output of a de-duplicating pass and the ids it has seen
      (the Go code's result slice and its `map[string]...` of ids). */
  datatype Kept<T> = Kept(items: seq<T>, ids: set<string>)

  /** One pass over `xs`, front to back: an eligible element whose id is not
      yet in `ids` is appended and its id recorded; anything else is skipped. */
  function Keep<T>(k: Kept<T>, xs: seq<T>, key: T -> string, ok: T -> bool): Kept<T>
    decreases |xs|
  {
    if xs == [] then k
    else
      var k0 := Keep(k, xs[..|xs| - 1], key, ok);
      var x := xs[|xs| - 1];
      if ok(x) && key(x) !in k0.ids then Kept(k0.items + [x], k0.ids + {key(x)}) else k0
  }

  /** A pass over one element. */
  lemma KeepOne<T>(k: Kept<T>, x: T, key: T -> string, ok: T -> bool)
    ensures Keep(k, [x], key, ok) == if ok(x) && key(x) !in k.ids then Kept(k.items + [x], k.ids + {key(x)}) else k
  {
    assert [x][..0] == [];
  }

  /** The ids of the eligible elements of `xs`. */
  function EligibleIds<T>(xs: seq<T>, key: T -> string, ok: T -> bool): set<string>
  {
    set j | 0 <= j < |xs| && ok(xs[j]) :: key(xs[j])
  }

  /** `ids` is exactly the set of ids of `items`, and those ids are distinct. */
  ghost predicate Consistent<T>(k: Kept<T>, key: T -> string)
  {
    && k.ids == (set j | 0 <= j < |k.items| :: key(k.items[j]))
    && forall i, j :: 0 <= i < j < |k.items| ==> key(k.items[i]) != key(k.items[j])
  }

  /** After a pass the seen ids are the old ones plus every eligible id. */
  lemma {:induction false} KeepIds<T>(k: Kept<T>, xs: seq<T>, key: T -> string, ok: T -> bool)
    ensures Keep(k, xs, key, ok).ids == k.ids + EligibleIds(xs, key, ok)
    decreases |xs|
  {
    if xs != [] {
      var pre := xs[..|xs| - 1];
      KeepIds(k, pre, key, ok);
      assert EligibleIds(xs, key, ok) == EligibleIds(pre, key, ok)
        + (if ok(xs[|xs| - 1]) then {key(xs[|xs| - 1])} else {}) by {
        forall i | 0 <= i < |pre| ensures pre[i] == xs[i] { }
      }
    }
  }

  /** The pass computes exactly the reference first-seen de-duplication. */
  lemma {:induction false} KeepIsFirstOccurrences<T>(k: Kept<T>, xs: seq<T>, key: T -> string, ok: T -> bool)
    ensures Keep(k, xs, key, ok).items == k.items + FirstOccurrences(k.ids, xs, key, ok)
    decreases |xs|
  {
    if xs != [] {
      var pre := xs[..|xs| - 1];
      var x := xs[|xs| - 1];
      KeepIsFirstOccurrences(k, pre, key, ok);
      KeepIds(k, pre, key, ok);
      var k0 := Keep(k, pre, key, ok);
      if ok(x) {
        assert key(x) in EligibleIds(pre, key, ok) <==>
          exists j :: 0 <= j < |pre| && ok(pre[j]) && key(pre[j]) == key(x);
      }
    }
  }

  /** Appending an element with an unseen id keeps a pass consistent. */
  lemma AppendConsistent<T>(k0: Kept<T>, x: T, key: T -> string)
    requires Consistent(k0, key) && key(x) !in k0.ids
    ensures Consistent(Kept(k0.items + [x], k0.ids + {key(x)}), key)
  {
    var r := Kept(k0.items + [x], k0.ids + {key(x)});
    forall j | 0 <= j < |k0.items| ensures r.items[j] == k0.items[j] { }
    assert r.ids == (set j | 0 <= j < |r.items| :: key(r.items[j])) by {
      forall id | id in r.ids ensures id in (set j | 0 <= j < |r.items| :: key(r.items[j])) {
        if id == key(x) {
          assert key(r.items[|r.items| - 1]) == id;
        } else {
          var j :| 0 <= j < |k0.items| && key(k0.items[j]) == id;
          assert key(r.items[j]) == id;
        }
      }
    }
    forall i, j | 0 <= i < j < |r.items| ensures key(r.items[i]) != key(r.items[j]) {
      if j == |k0.items| {
        assert key(k0.items[i]) in k0.ids;
      }
    }
  }

  /** A pass keeps the seen set in step with the kept items, never keeps two
      items with one id, and keeps only eligible elements of its input. */
  lemma {:induction false} KeepConsistent<T>(k: Kept<T>, xs: seq<T>, key: T -> string, ok: T -> bool)
    requires Consistent(k, key)
    ensures Consistent(Keep(k, xs, key, ok), key)
    ensures var r := Keep(k, xs, key, ok);
      |k.items| <= |r.items| && r.items[..|k.items|] == k.items
      && forall i :: |k.items| <= i < |r.items| ==> ok(r.items[i]) && r.items[i] in xs
    decreases |xs|
  {
    if xs != [] {
      var pre := xs[..|xs| - 1];
      var x := xs[|xs| - 1];
      KeepConsistent(k, pre, key, ok);
      var k0 := Keep(k, pre, key, ok);
      if ok(x) && key(x) !in k0.ids {
        AppendConsistent(k0, x, key);
        var r := Kept(k0.items + [x], k0.ids + {key(x)});
        forall i | |k.items| <= i < |r.items| ensures ok(r.items[i]) && r.items[i] in xs {
          if i < |k0.items| {
            assert r.items[i] == k0.items[i];
            assert k0.items[i] in pre;
          }
        }
        assert r.items[..|k.items|] == k0.items[..|k.items|];
      } else {
        forall i | |k.items| <= i < |k0.items| ensures k0.items[i] in xs {
          assert k0.items[i] in pre;
        }
      }
    }
  }

  /** Two passes in a row are one pass over the concatenation. */
  lemma {:induction false} KeepAppend<T>(k: Kept<T>, xs: seq<T>, ys: seq<T>, key: T -> string, ok: T -> bool)
    ensures Keep(Keep(k, xs, key, ok), ys, key, ok) == Keep(k, xs + ys, key, ok)
    decreases |ys|
  {
    if ys == [] {
      assert xs + ys == xs;
    } else {
      var pre := ys[..|ys| - 1];
      KeepAppend(k, xs, pre, key, ok);
      assert (xs + ys)[..|xs + ys| - 1] == xs + pre;
      assert (xs + ys)[|xs + ys| - 1] == ys[|ys| - 1];
    }
  }
}
