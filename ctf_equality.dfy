/** The equality operators of the CTF records.  Sample, sequence and dataset
    equality walk the elements of the left-hand side with the three-argument
    std::equal, which reads the right-hand side in step without looking at its
    length.  Each walk is therefore defined only while it stays inside the
    right-hand side (it stops at the first mismatch), and where it is defined it
    tells whether the left-hand side agrees with the START of the right-hand side. */
module CtfEquality {
  import opened CtfTypes

  // ----- values -----

  /** CTFValue::operator==: same index, same kind and same number.  Numbers are exact
      here, so the comparison is equality of values. */
  function ValueEq(a: Value, b: Value): (r: bool)
    ensures r <==> a == b
  {
    a.index == b.index && a.kind == b.kind && a.value == b.value
  }

  /** The walk over `xs` stays inside `ys`: it ends when `xs` is exhausted or at the
      first pair that differs, before `ys` runs out. */
  predicate ValuesWalkDefined(xs: seq<Value>, ys: seq<Value>)
  {
    xs == [] || (ys != [] && (ValueEq(xs[0], ys[0]) ==> ValuesWalkDefined(xs[1..], ys[1..])))
  }

  /** std::equal over two value lists: `xs` is the start of `ys`. */
  function ValuesEqual(xs: seq<Value>, ys: seq<Value>): (r: bool)
    requires ValuesWalkDefined(xs, ys)
    ensures r <==> |xs| <= |ys| && xs == ys[..|xs|]
  {
    if xs == [] then true
    else if !ValueEq(xs[0], ys[0]) then false
    else
      var rest := ValuesEqual(xs[1..], ys[1..]);
      assert |xs| <= |ys| && xs == ys[..|xs|] ==> xs[1..] == ys[1..][..|xs| - 1];
      assert |xs| <= |ys| && xs[1..] == ys[1..][..|xs| - 1] ==> xs == [xs[0]] + xs[1..] == ys[..|xs|];
      rest
  }

  /** The value walk leaves the right-hand list exactly when the left-hand list is longer
      and starts with all of it. */
  lemma {:induction false} ValuesWalkDefinedIff(xs: seq<Value>, ys: seq<Value>)
    ensures ValuesWalkDefined(xs, ys) <==> |xs| <= |ys| || xs[..|ys|] != ys
  {
    if xs != [] && ys != [] {
      ValuesWalkDefinedIff(xs[1..], ys[1..]);
      if |xs| > |ys| {
        assert xs[..|ys|] == [xs[0]] + xs[1..][..|ys| - 1];
        assert ys == [ys[0]] + ys[1..];
      }
    }
  }

  // ----- samples -----

  /** `a` agrees with the start of `b`: the same input name, and `a`'s values begin `b`'s. */
  predicate SamplePrefix(a: Sample, b: Sample)
  {
    a.inputName == b.inputName && |a.values| <= |b.values| && a.values == b.values[..|a.values|]
  }

  /** The names are compared first; the value walk happens only when they agree. */
  predicate SampleWalkDefined(a: Sample, b: Sample)
  {
    a.inputName != b.inputName || ValuesWalkDefined(a.values, b.values)
  }

  /** CTFSample::operator==. */
  function SampleEq(a: Sample, b: Sample): (r: bool)
    requires SampleWalkDefined(a, b)
    ensures r <==> SamplePrefix(a, b)
  {
    a.inputName == b.inputName && ValuesEqual(a.values, b.values)
  }

  predicate SamplesWalkDefined(xs: seq<Sample>, ys: seq<Sample>)
  {
    xs == [] ||
    (ys != [] && SampleWalkDefined(xs[0], ys[0]) &&
     (SampleEq(xs[0], ys[0]) ==> SamplesWalkDefined(xs[1..], ys[1..])))
  }

  /** std::equal over two sample lists: `xs` is no longer than `ys` and each of its
      samples agrees with the start of the sample of `ys` at the same place. */
  function SamplesEqual(xs: seq<Sample>, ys: seq<Sample>): (r: bool)
    requires SamplesWalkDefined(xs, ys)
    ensures r <==> |xs| <= |ys| && forall i :: 0 <= i < |xs| ==> SamplePrefix(xs[i], ys[i])
  {
    if xs == [] then true
    else if !SampleEq(xs[0], ys[0]) then false
    else
      var rest := SamplesEqual(xs[1..], ys[1..]);
      assert rest ==> forall i :: 1 <= i < |xs| ==> SamplePrefix(xs[i], ys[i]) by {
        if rest {
          forall i | 1 <= i < |xs| ensures SamplePrefix(xs[i], ys[i]) {
            assert SamplePrefix(xs[1..][i - 1], ys[1..][i - 1]);
          }
        }
      }
      assert !rest && |xs| <= |ys| ==> exists i :: 0 <= i < |xs| && !SamplePrefix(xs[i], ys[i]) by {
        if !rest && |xs| <= |ys| {
          var i :| 0 <= i < |xs| - 1 && !SamplePrefix(xs[1..][i], ys[1..][i]);
          assert !SamplePrefix(xs[i + 1], ys[i + 1]);
        }
      }
      rest
  }

  // ----- sequences -----

  /** `a` agrees with the start of `b`: the same id, no more samples, and each sample
      agreeing with the start of its counterpart.  Comments play no part. */
  predicate SequencePrefix(a: Sequence, b: Sequence)
  {
    a.sequenceId == b.sequenceId && |a.samples| <= |b.samples| &&
    forall i :: 0 <= i < |a.samples| ==> SamplePrefix(a.samples[i], b.samples[i])
  }

  predicate SequenceWalkDefined(a: Sequence, b: Sequence)
  {
    a.sequenceId != b.sequenceId || SamplesWalkDefined(a.samples, b.samples)
  }

  /** CTFSequence::operator==. */
  function SequenceEq(a: Sequence, b: Sequence): (r: bool)
    requires SequenceWalkDefined(a, b)
    ensures r <==> SequencePrefix(a, b)
  {
    a.sequenceId == b.sequenceId && SamplesEqual(a.samples, b.samples)
  }

  // ----- datasets -----

  /** The smallest element of a non-empty set of ids. */
  ghost function Least(s: set<nat>): (m: nat)
    requires s != {}
    ensures m in s && forall k :: k in s ==> m <= k
    decreases |s|
  {
    var x :| x in s;
    if s == {x} then x
    else
      var y := Least(s - {x});
      assert forall k :: k in s ==> k == x || k in s - {x};
      if x < y then x else y
  }

  /** The ids of a set in increasing order: the order in which std::map iterates. */
  ghost function SortedIds(s: set<nat>): (r: seq<nat>)
    ensures |r| == |s|
    ensures forall i :: 0 <= i < |r| ==> r[i] in s
    ensures forall i :: 0 <= i < |r| ==> forall j :: i < j < |r| ==> r[i] < r[j]
    decreases |s|
  {
    if s == {} then []
    else
      var m := Least(s);
      var rest := SortedIds(s - {m});
      assert |s - {m}| == |s| - 1;
      [m] + rest
  }

  /** Every id of the set is listed. */
  lemma {:induction false} SortedIdsCover(s: set<nat>, k: nat)
    requires k in s
    ensures k in SortedIds(s)
    decreases |s|
  {
    var m := Least(s);
    if k != m {
      SortedIdsCover(s - {m}, k);
    }
  }

  /** The (id, sequence) pairs of a dataset in iteration order. */
  ghost function Entries(d: Dataset): (es: seq<(nat, Sequence)>)
    ensures |es| == |d|
    ensures forall i :: 0 <= i < |es| ==> es[i].0 == SortedIds(d.Keys)[i] && es[i].0 in d && es[i].1 == d[es[i].0]
  {
    EntriesOf(d, SortedIds(d.Keys))
  }

  ghost function EntriesOf(d: Dataset, ids: seq<nat>): (es: seq<(nat, Sequence)>)
    requires forall i :: 0 <= i < |ids| ==> ids[i] in d
    ensures |es| == |ids|
    ensures forall i :: 0 <= i < |es| ==> es[i].0 == ids[i] && es[i].1 == d[ids[i]]
  {
    if ids == [] then [] else [(ids[0], d[ids[0]])] + EntriesOf(d, ids[1..])
  }

  /** A set of ids is determined by its ordered listing. */
  lemma SortedIdsDetermineSet(s: set<nat>, t: set<nat>)
    requires SortedIds(s) == SortedIds(t)
    ensures s == t
  {
    forall k | k in s ensures k in t { SortedIdsCover(s, k); }
    forall k | k in t ensures k in s { SortedIdsCover(t, k); }
  }

  /** std::pair equality compares the ids first, then the sequences. */
  predicate EntryWalkDefined(p: (nat, Sequence), q: (nat, Sequence))
  {
    p.0 != q.0 || SequenceWalkDefined(p.1, q.1)
  }

  function EntryEq(p: (nat, Sequence), q: (nat, Sequence)): (r: bool)
    requires EntryWalkDefined(p, q)
    ensures r <==> p.0 == q.0 && SequencePrefix(p.1, q.1)
  {
    p.0 == q.0 && SequenceEq(p.1, q.1)
  }

  /** Two entries in iteration order that match: the same id, and the left-hand
      sequence agreeing with the start of the right-hand one. */
  predicate EntryPrefix(p: (nat, Sequence), q: (nat, Sequence))
  {
    p.0 == q.0 && SequencePrefix(p.1, q.1)
  }

  predicate EntriesWalkDefined(xs: seq<(nat, Sequence)>, ys: seq<(nat, Sequence)>)
  {
    xs == [] ||
    (ys != [] && EntryWalkDefined(xs[0], ys[0]) &&
     (EntryEq(xs[0], ys[0]) ==> EntriesWalkDefined(xs[1..], ys[1..])))
  }

  function EntriesEqual(xs: seq<(nat, Sequence)>, ys: seq<(nat, Sequence)>): (r: bool)
    requires EntriesWalkDefined(xs, ys)
    ensures r <==> |xs| <= |ys| && forall i :: 0 <= i < |xs| ==> EntryPrefix(xs[i], ys[i])
  {
    if xs == [] then true
    else if !EntryEq(xs[0], ys[0]) then false
    else
      var rest := EntriesEqual(xs[1..], ys[1..]);
      assert rest ==> forall i :: 1 <= i < |xs| ==> EntryPrefix(xs[i], ys[i]) by {
        if rest {
          forall i | 1 <= i < |xs| ensures EntryPrefix(xs[i], ys[i]) {
            assert EntryPrefix(xs[1..][i - 1], ys[1..][i - 1]);
          }
        }
      }
      assert !rest && |xs| <= |ys| ==> exists i :: 0 <= i < |xs| && !EntryPrefix(xs[i], ys[i]) by {
        if !rest && |xs| <= |ys| {
          var i :| 0 <= i < |xs| - 1 && !EntryPrefix(xs[1..][i], ys[1..][i]);
          assert !EntryPrefix(xs[i + 1], ys[i + 1]);
        }
      }
      rest
  }

  ghost predicate DatasetWalkDefined(a: Dataset, b: Dataset)
  {
    EntriesWalkDefined(Entries(a), Entries(b))
  }

  /** CTFDataset::operator==: the entries of `a`, in id order, match the first entries
      of `b`. */
  ghost function DatasetEq(a: Dataset, b: Dataset): (r: bool)
    requires DatasetWalkDefined(a, b)
    ensures r <==> |a| <= |b| && forall i :: 0 <= i < |a| ==> EntryPrefix(Entries(a)[i], Entries(b)[i])
  {
    EntriesEqual(Entries(a), Entries(b))
  }

  // ----- what the comparisons mean -----

  /** Between datasets of the same size the comparison holds exactly when they have the
      same ids and each sequence of `a` agrees with the start of its namesake in `b`. */
  lemma DatasetEqSameSize(a: Dataset, b: Dataset)
    requires DatasetWalkDefined(a, b) && |a| == |b|
    ensures DatasetEq(a, b) <==> a.Keys == b.Keys && forall k :: k in a ==> SequencePrefix(a[k], b[k])
  {
    if DatasetEq(a, b) {
      SameIdsWhenEqual(a, b);
      forall k | k in a ensures SequencePrefix(a[k], b[k]) {
        SortedIdsCover(a.Keys, k);
        var i :| 0 <= i < |a| && SortedIds(a.Keys)[i] == k;
        assert EntryPrefix(Entries(a)[i], Entries(b)[i]);
      }
    }
    if a.Keys == b.Keys && forall k :: k in a ==> SequencePrefix(a[k], b[k]) {
      forall i | 0 <= i < |a| ensures EntryPrefix(Entries(a)[i], Entries(b)[i]) {
        assert Entries(a)[i].0 == Entries(b)[i].0;
      }
    }
  }

  lemma SameIdsWhenEqual(a: Dataset, b: Dataset)
    requires DatasetWalkDefined(a, b) && |a| == |b| && DatasetEq(a, b)
    ensures a.Keys == b.Keys
  {
    var ia, ib := SortedIds(a.Keys), SortedIds(b.Keys);
    var ea, eb := Entries(a), Entries(b);
    forall i | 0 <= i < |ia| ensures ia[i] == ib[i] {
      assert EntryPrefix(ea[i], eb[i]);
      assert ea[i].0 == ia[i] && eb[i].0 == ib[i];
    }
    assert ia == ib;
    SortedIdsDetermineSet(a.Keys, b.Keys);
  }

  /** The comment of a sequence plays no part in the comparison. */
  lemma CommentIgnored(s: Sequence, comment: string)
    ensures SequenceWalkDefined(s, s.(comment := comment)) && SequenceEq(s, s.(comment := comment))
  {
    SamplesSelfDefined(s.samples);
  }

  lemma {:induction false} SamplesSelfDefined(xs: seq<Sample>)
    ensures SamplesWalkDefined(xs, xs)
  {
    if xs != [] {
      ValuesWalkDefinedIff(xs[0].values, xs[0].values);
      SamplesSelfDefined(xs[1..]);
    }
  }

  /** The comparison is not symmetric: a sample with no values equals any sample of the
      same name, while comparing the other way round walks off the end of the empty list. */
  lemma ShorterSampleMatchesLonger(name: string, v: Value)
    ensures SampleWalkDefined(Sample(name, []), Sample(name, [v]))
    ensures SampleEq(Sample(name, []), Sample(name, [v]))
    ensures !SampleWalkDefined(Sample(name, [v]), Sample(name, []))
  {
  }

  /** An empty dataset compares equal to every dataset. */
  lemma EmptyDatasetMatchesAll(d: Dataset)
    ensures DatasetWalkDefined(map[], d) && DatasetEq(map[], d)
  {
  }
}
