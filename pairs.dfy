/**
 * The flat list of form fields built from the scalar and array entries
 * (`getParamsList`): every scalar pair first, then each array list expanded
 * element by element. The functions take the entries in the multimaps'
 * iteration order, which is whatever order the sequences list them in.
 */
module Pairs {
  import opened Entries

  /** The fields one array entry contributes: its name with each value, in list order. */
  function ListPairs(name: string, values: seq<string>): (r: seq<NameValuePair>)
    ensures |r| == |values|
    ensures forall i :: 0 <= i < |values| ==> r[i] == NameValuePair(name, values[i])
  {
    if values == [] then []
    else ListPairs(name, values[..|values| - 1]) + [NameValuePair(name, values[|values| - 1])]
  }

  /** One field per scalar entry, in iteration order. */
  function ScalarPairs(scalars: seq<ScalarEntry>): (r: seq<NameValuePair>)
    ensures |r| == |scalars|
    ensures forall i :: 0 <= i < |scalars| ==> r[i] == NameValuePair(scalars[i].0, scalars[i].1)
  {
    if scalars == [] then []
    else
      var last := scalars[|scalars| - 1];
      ScalarPairs(scalars[..|scalars| - 1]) + [NameValuePair(last.0, last.1)]
  }

  /** How many values the array entries hold altogether. */
  function TotalLength(arrays: seq<ArrayEntry>): nat {
    if arrays == [] then 0
    else TotalLength(arrays[..|arrays| - 1]) + |arrays[|arrays| - 1].1|
  }

  /** Every array entry expanded into one field per value. */
  function ExpandArrays(arrays: seq<ArrayEntry>): (r: seq<NameValuePair>)
    ensures |r| == TotalLength(arrays)
  {
    if arrays == [] then []
    else
      var last := arrays[|arrays| - 1];
      ExpandArrays(arrays[..|arrays| - 1]) + ListPairs(last.0, last.1)
  }

  /** The fields of the URL-encoded body: scalar entries first, then the expanded arrays. */
  function ParamsList(scalars: seq<ScalarEntry>, arrays: seq<ArrayEntry>): (r: seq<NameValuePair>)
    ensures |r| == |scalars| + TotalLength(arrays)
    ensures forall i :: 0 <= i < |scalars| ==> r[i] == NameValuePair(scalars[i].0, scalars[i].1)
  {
    ScalarPairs(scalars) + ExpandArrays(arrays)
  }

  /** A field comes from a list exactly when it carries the list's name and one of its values. */
  lemma ListPairsMembers(name: string, values: seq<string>, p: NameValuePair)
    ensures p in ListPairs(name, values) <==> p.name == name && p.value in values
  {
    var r := ListPairs(name, values);
    if p.name == name && p.value in values {
      var i :| 0 <= i < |values| && values[i] == p.value;
      assert r[i] == p;
    }
  }

  /** A field of the expanded arrays is a value of some array entry under that entry's name, and back. */
  lemma {:induction false} ExpandArraysMembers(arrays: seq<ArrayEntry>, p: NameValuePair)
    ensures p in ExpandArrays(arrays) <==>
            exists j :: 0 <= j < |arrays| && arrays[j].0 == p.name && p.value in arrays[j].1
  {
    if arrays != [] {
      var init, last := arrays[..|arrays| - 1], arrays[|arrays| - 1];
      ExpandArraysMembers(init, p);
      ListPairsMembers(last.0, last.1, p);
      if p in ExpandArrays(init) {
        var j :| 0 <= j < |init| && init[j].0 == p.name && p.value in init[j].1;
        assert arrays[j] == init[j];
      } else if p in ListPairs(last.0, last.1) {
        assert arrays[|arrays| - 1] == last;
      }
      if exists j :: 0 <= j < |arrays| && arrays[j].0 == p.name && p.value in arrays[j].1 {
        var j :| 0 <= j < |arrays| && arrays[j].0 == p.name && p.value in arrays[j].1;
        if j < |init| {
          assert init[j] == arrays[j];
        }
      }
    }
  }

  /**
   * The URL-encoded fields are exactly the scalar entries and the values of
   * the array lists under their names: nothing else, and nothing left out.
   */
  lemma ParamsListMembers(scalars: seq<ScalarEntry>, arrays: seq<ArrayEntry>, p: NameValuePair)
    ensures p in ParamsList(scalars, arrays) <==>
            (p.name, p.value) in scalars ||
            exists j :: 0 <= j < |arrays| && arrays[j].0 == p.name && p.value in arrays[j].1
  {
    var s := ScalarPairs(scalars);
    ExpandArraysMembers(arrays, p);
    if (p.name, p.value) in scalars {
      var i :| 0 <= i < |scalars| && scalars[i] == (p.name, p.value);
      assert s[i] == p;
    }
    if p in s {
      var i :| 0 <= i < |s| && s[i] == p;
      assert scalars[i] == (p.name, p.value);
    }
  }

  /** Once no entry carries `name`, no URL-encoded field does either. */
  lemma ParamsListWithoutName(scalars: seq<ScalarEntry>, arrays: seq<ArrayEntry>, name: string)
    requires forall e :: e in scalars ==> e.0 != name
    requires forall e :: e in arrays ==> e.0 != name
    ensures forall p :: p in ParamsList(scalars, arrays) ==> p.name != name
  {
    forall p | p in ParamsList(scalars, arrays)
      ensures p.name != name
    {
      ParamsListMembers(scalars, arrays, p);
      if (p.name, p.value) !in scalars {
        var j :| 0 <= j < |arrays| && arrays[j].0 == p.name && p.value in arrays[j].1;
        assert arrays[j] in arrays;
      }
    }
  }

  /** Applies `f` to each element and concatenates the results, in order. */
  function FlatMap<T, U>(xs: seq<T>, f: T -> seq<U>): seq<U> {
    if xs == [] then [] else FlatMap(xs[..|xs| - 1], f) + f(xs[|xs| - 1])
  }

  lemma {:induction false} FlatMapAppend<T, U>(xs: seq<T>, ys: seq<T>, f: T -> seq<U>)
    ensures FlatMap(xs + ys, f) == FlatMap(xs, f) + FlatMap(ys, f)
    decreases |ys|
  {
    if ys == [] {
      assert xs + ys == xs;
    } else {
      var init := ys[..|ys| - 1];
      assert (xs + ys)[..|xs + ys| - 1] == xs + init;
      FlatMapAppend(xs, init, f);
    }
  }

  lemma FlatMapSingleton<T, U>(x: T, f: T -> seq<U>)
    ensures FlatMap([x], f) == f(x)
  {
    assert [x][..0] == [];
  }

  /** Taking one element out of the middle takes its results out of the concatenation. */
  lemma FlatMapRemoveAt<T, U>(ys: seq<T>, j: nat, f: T -> seq<U>)
    requires j < |ys|
    ensures multiset(FlatMap(ys, f)) == multiset(FlatMap(ys[..j] + ys[j + 1..], f)) + multiset(f(ys[j]))
  {
    var front, mid, back := FlatMap(ys[..j], f), f(ys[j]), FlatMap(ys[j + 1..], f);
    FlatMapSplitAt(ys, j, f);
    FlatMapAppend(ys[..j], ys[j + 1..], f);
    assert multiset(front + mid + back) == multiset(front + back) + multiset(mid);
  }

  /** The results of `ys`, split around the element at `j`. */
  lemma FlatMapSplitAt<T, U>(ys: seq<T>, j: nat, f: T -> seq<U>)
    requires j < |ys|
    ensures FlatMap(ys, f) == FlatMap(ys[..j], f) + f(ys[j]) + FlatMap(ys[j + 1..], f)
  {
    var before, x, after := ys[..j], ys[j], ys[j + 1..];
    assert ys == (before + [x]) + after;
    FlatMapAppend(before + [x], after, f);
    FlatMapAppend(before, [x], f);
    FlatMapSingleton(x, f);
  }

  lemma MultisetRemoveAt<T>(ys: seq<T>, j: nat)
    requires j < |ys|
    ensures multiset(ys[..j] + ys[j + 1..]) == multiset(ys) - multiset{ys[j]}
  {
    assert ys == ys[..j] + [ys[j]] + ys[j + 1..];
  }

  /** Reordering the elements reorders the concatenated results and nothing more. */
  lemma {:induction false} FlatMapPermutation<T, U>(xs: seq<T>, ys: seq<T>, f: T -> seq<U>)
    requires multiset(xs) == multiset(ys)
    ensures multiset(FlatMap(xs, f)) == multiset(FlatMap(ys, f))
    decreases |xs|
  {
    if xs == [] {
      assert |multiset(ys)| == 0;
    } else {
      var init, last := xs[..|xs| - 1], xs[|xs| - 1];
      MultisetRemoveAt(xs, |xs| - 1);
      assert xs[..|xs| - 1] + xs[|xs|..] == init;
      assert last in multiset(ys);
      var j :| 0 <= j < |ys| && ys[j] == last;
      MultisetRemoveAt(ys, j);
      FlatMapPermutation(init, ys[..j] + ys[j + 1..], f);
      FlatMapRemoveAt(ys, j, f);
    }
  }

  function ScalarPair(e: ScalarEntry): seq<NameValuePair> {
    [NameValuePair(e.0, e.1)]
  }

  function ArrayPairs(e: ArrayEntry): seq<NameValuePair> {
    ListPairs(e.0, e.1)
  }

  lemma {:induction false} ScalarPairsIsFlatMap(scalars: seq<ScalarEntry>)
    ensures ScalarPairs(scalars) == FlatMap(scalars, ScalarPair)
  {
    if scalars != [] {
      ScalarPairsIsFlatMap(scalars[..|scalars| - 1]);
    }
  }

  lemma {:induction false} ExpandArraysIsFlatMap(arrays: seq<ArrayEntry>)
    ensures ExpandArrays(arrays) == FlatMap(arrays, ArrayPairs)
  {
    if arrays != [] {
      ExpandArraysIsFlatMap(arrays[..|arrays| - 1]);
    }
  }

  /**
   * The multimaps' iteration order does not matter to what is sent: any two
   * listings of the same entries yield the same fields, possibly reordered.
   */
  lemma ParamsListOrderIndependent(scalars: seq<ScalarEntry>, scalars': seq<ScalarEntry>,
                                   arrays: seq<ArrayEntry>, arrays': seq<ArrayEntry>)
    requires multiset(scalars) == multiset(scalars')
    requires multiset(arrays) == multiset(arrays')
    ensures multiset(ParamsList(scalars, arrays)) == multiset(ParamsList(scalars', arrays'))
  {
    ScalarPairsIsFlatMap(scalars);
    ScalarPairsIsFlatMap(scalars');
    ExpandArraysIsFlatMap(arrays);
    ExpandArraysIsFlatMap(arrays');
    FlatMapPermutation(scalars, scalars', ScalarPair);
    FlatMapPermutation(arrays, arrays', ArrayPairs);
  }
}
