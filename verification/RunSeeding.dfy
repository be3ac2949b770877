// The filler loop of `_seed_runs`: how many runs fail, where, and when they started.
module RunSeeding {

  // A filler run: whether it failed, and how many minutes before now it started.
  datatype Filler = Filler(failed: bool, minutesAgo: int)

  function CountFailed(rows: seq<Filler>): nat {
    if rows == [] then 0 else CountFailed(rows[..|rows| - 1]) + if rows[|rows| - 1].failed then 1 else 0
  }

  function CountTrue(named: seq<bool>): nat {
    if named == [] then 0 else CountTrue(named[..|named| - 1]) + if named[|named| - 1] then 1 else 0
  }

  function Max(a: int, b: int): int {
    if a > b then a else b
  }

  function Min(a: int, b: int): int {
    if a < b then a else b
  }

  // Multiples of the stride below `n`.
  function Multiples(n: nat, stride: nat): nat
    requires stride > 0
  {
    (n + stride - 1) / stride
  }

  lemma DivisionBounds(x: int, d: int)
    requires d > 0
    ensures d * (x / d) <= x < d * (x / d) + d
  {
  }

  lemma QuotientIs(x: int, d: int, q: int)
    requires d > 0 && d * q <= x < d * q + d
    ensures x / d == q
  {
    DivisionBounds(x, d);
    var p := x / d;
    assert p < q ==> d * (p + 1) <= d * q;
    assert p > q ==> d * (q + 1) <= d * p;
  }

  // Distance between failures, 0 when the filler has none to place.
  function Stride(bulk: nat, failures: nat): nat {
    if failures == 0 then 0 else Max(1, bulk / failures)
  }

  lemma NoMultiples(stride: nat)
    ensures stride > 0 ==> Multiples(0, stride) == 0
  {
  }

  // One more offset is one more multiple exactly when it is one.
  lemma NextMultiple(n: nat, stride: nat)
    requires stride > 0
    ensures Multiples(n + 1, stride) == Multiples(n, stride) + if n % stride == 0 then 1 else 0
    ensures n % stride == 0 ==> Multiples(n, stride) == n / stride
  {
    var q, r := n / stride, n % stride;
    assert n == stride * q + r;
    if r == 0 {
      QuotientIs(n + stride - 1, stride, q);
      assert stride * (q + 1) == stride * q + stride;
      QuotientIs(n + stride, stride, q + 1);
    } else {
      assert stride * (q + 1) == stride * q + stride;
      QuotientIs(n + stride - 1, stride, q + 1);
      QuotientIs(n + stride, stride, q + 1);
    }
  }

  // The stride leaves room for all the failures, unless there are fewer runs than failures.
  lemma StrideFits(bulk: nat, failures: nat)
    requires failures > 0
    ensures Stride(bulk, failures) > 0
    ensures Min(failures, Multiples(bulk, Stride(bulk, failures))) == Min(failures, bulk)
  {
    var stride := Stride(bulk, failures);
    DivisionBounds(bulk, failures);
    if bulk < failures {
      QuotientIs(bulk, failures, 0);
      assert stride == 1 && Multiples(bulk, 1) == bulk;
    } else {
      var q := bulk / failures;
      assert q <= 0 ==> failures * q <= 0;
      assert stride == q;
      assert stride * failures <= bulk;
      DivisionBounds(bulk + stride - 1, stride);
      var m := Multiples(bulk, stride);
      assert m < failures ==> stride * (m + 1) <= stride * failures;
    }
  }

  // Minutes before now at which the run of an index started: the runs spread over eighteen hours.
  function MinutesAgo(index: nat, total: int): int {
    index * 1080 / Max(1, total) + 5
  }

  lemma StartInWindow(index: nat, total: int)
    requires index < total
    ensures 5 <= MinutesAgo(index, total) < 1085
  {
    DivisionBounds(index * 1080, total);
    var q := index * 1080 / total;
    assert q >= 1080 ==> total * q >= total * 1080;
    assert q < 0 ==> total * q + total <= 0;
  }

  lemma {:induction false} StartsInOrder(early: nat, late: nat, total: int)
    requires early <= late
    ensures MinutesAgo(early, total) <= MinutesAgo(late, total)
  {
    var d := Max(1, total);
    DivisionBounds(early * 1080, d);
    DivisionBounds(late * 1080, d);
    var p, q := early * 1080 / d, late * 1080 / d;
    assert p > q ==> d * (q + 1) <= d * p;
  }

  // Whether the filler run at an offset is to fail: at the multiples of the stride, as many as wanted.
  predicate Fails(offset: nat, stride: nat, failures: nat) {
    stride > 0 && offset % stride == 0 && offset / stride < failures
  }

  // Counting the failures placed so far decides as the offset alone does.
  lemma CountDecides(offset: nat, stride: nat, failures: nat)
    ensures stride > 0 ==>
      Min(failures, Multiples(offset + 1, stride))
        == Min(failures, Multiples(offset, stride)) + if Fails(offset, stride, failures) then 1 else 0
    ensures Fails(offset, stride, failures)
       <==> stride > 0 && Min(failures, Multiples(offset, stride)) < failures && offset % stride == 0
  {
    if stride > 0 {
      NextMultiple(offset, stride);
    }
  }

  // -- What these amount to --

  // The stride is the largest one that leaves room for all the failures, and 1 if none does.
  lemma StrideIs(bulk: nat, failures: nat)
    ensures failures == 0 ==> Stride(bulk, failures) == 0
    ensures 0 < failures <= bulk ==> failures * Stride(bulk, failures) <= bulk < failures * (Stride(bulk, failures) + 1)
    ensures bulk < failures ==> Stride(bulk, failures) == 1
  {
    if failures > 0 {
      DivisionBounds(bulk, failures);
      var q := bulk / failures;
      assert failures * (q + 1) == failures * q + failures;
      if bulk < failures {
        QuotientIs(bulk, failures, 0);
      } else {
        assert q <= 0 ==> failures * q <= 0;
        assert Stride(bulk, failures) == q;
      }
    }
  }

  // The runs that fail stand at 0, one stride, two strides, and so on.
  lemma FailuresAre(offset: nat, stride: nat, failures: nat)
    ensures Fails(offset, stride, failures) <==> stride > 0 && exists j: nat :: j < failures && offset == stride * j
  {
    if stride > 0 {
      DivisionBounds(offset, stride);
      if Fails(offset, stride, failures) {
        assert offset == stride * (offset / stride);
      }
      if j: nat :| j < failures && offset == stride * j {
        QuotientIs(offset, stride, j);
      }
    }
  }

  // The start lies 5 minutes plus the whole minutes of `index / total` of 1080 minutes back.
  lemma MinutesAre(index: nat, total: int)
    requires total > 0
    ensures var m := MinutesAgo(index, total) - 5; total * m <= index * 1080 < total * (m + 1)
  {
    DivisionBounds(index * 1080, total);
    var q := index * 1080 / total;
    assert total * (q + 1) == total * q + total;
  }

  function TrueAt(named: seq<bool>): set<int> {
    set i | 0 <= i < |named| && named[i]
  }

  lemma {:induction false} CountTrueIs(named: seq<bool>)
    ensures CountTrue(named) == |TrueAt(named)|
  {
    if named == [] {
      assert TrueAt(named) == {};
    } else {
      var n := |named| - 1;
      CountTrueIs(named[..n]);
      assert TrueAt(named) == TrueAt(named[..n]) + if named[n] then {n} else {};
    }
  }

  function FailedAt(rows: seq<Filler>): set<int> {
    set i | 0 <= i < |rows| && rows[i].failed
  }

  lemma {:induction false} CountFailedIs(rows: seq<Filler>)
    ensures CountFailed(rows) == |FailedAt(rows)|
  {
    if rows == [] {
      assert FailedAt(rows) == {};
    } else {
      var n := |rows| - 1;
      CountFailedIs(rows[..n]);
      assert FailedAt(rows) == FailedAt(rows[..n]) + if rows[n].failed then {n} else {};
    }
  }

  // `named` says which of the named runs failed; the filler makes up for the rest of the failure
  // target. Failures stand at the multiples of the stride, as many as are wanted, or all runs if
  // there are fewer; starts lie 5 to 1084 minutes back and never get later along the index.
  method SeedFiller(named: seq<bool>, total: int, target: int) returns (rows: seq<Filler>)
    ensures |rows| == Max(0, total - |named|)
    ensures CountFailed(rows) == Min(Max(0, target - CountTrue(named)), |rows|)
    ensures
      var failures := Max(0, target - CountTrue(named));
      forall k :: 0 <= k < |rows| ==> (rows[k].failed <==> Fails(k, Stride(|rows|, failures), failures))
    ensures forall k :: 0 <= k < |rows| ==> rows[k].minutesAgo == MinutesAgo(|named| + k, total)
    ensures forall k :: 0 <= k < |rows| ==> 5 <= rows[k].minutesAgo < 1085
    ensures forall j, k :: 0 <= j <= k < |rows| ==> rows[j].minutesAgo <= rows[k].minutesAgo
  {
    hide MinutesAgo, Fails, Multiples;
    var bulk := Max(0, total - |named|);
    var failures := Max(0, target - CountTrue(named));
    var stride := Stride(bulk, failures);
    NoMultiples(stride);
    var placed := 0;
    rows := [];
    for index := |named| to Max(|named|, total)
      invariant |rows| == index - |named|
      invariant placed == CountFailed(rows)
      invariant placed == if stride == 0 then 0 else Min(failures, Multiples(|rows|, stride))
      invariant forall k :: 0 <= k < |rows| ==> (rows[k].failed <==> Fails(k, stride, failures))
      invariant forall k :: 0 <= k < |rows| ==> rows[k].minutesAgo == MinutesAgo(|named| + k, total)
    {
      var offset := index - |named|;
      var failed := placed < failures && stride != 0 && offset % stride == 0;
      CountDecides(offset, stride, failures);
      assert failed <==> Fails(offset, stride, failures);
      if failed {
        placed := placed + 1;
      }
      var row := Filler(failed, MinutesAgo(index, total));
      assert (rows + [row])[..|rows|] == rows;
      rows := rows + [row];
    }
    if failures != 0 {
      StrideFits(bulk, failures);
    }
    forall k | 0 <= k < |rows|
      ensures 5 <= rows[k].minutesAgo < 1085
    {
      StartInWindow(|named| + k, total);
    }
    forall j, k | 0 <= j <= k < |rows|
      ensures rows[j].minutesAgo <= rows[k].minutesAgo
    {
      StartsInOrder(|named| + j, |named| + k, total);
    }
  }
}
