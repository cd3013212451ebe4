/** Partitioning the subtitle list into request batches: the
    `for (let i = 0; i < items.length; i += batchSize) chunks.push(items.slice(i, i + batchSize))`
    loop at the start of a translation run. */
module Chunking {

  function Min(a: int, b: int): int
  {
    if a <= b then a else b
  }

  /** The chunks of `s`: consecutive slices of `b` elements, the last one possibly shorter. */
  function Chunks<T>(s: seq<T>, b: nat): seq<seq<T>>
    requires b >= 1
    decreases |s|
  {
    if |s| == 0 then []
    else if |s| <= b then [s]
    else [s[..b]] + Chunks(s[b..], b)
  }

  function Flatten<T>(c: seq<seq<T>>): seq<T>
  {
    if |c| == 0 then [] else c[0] + Flatten(c[1..])
  }

  lemma {:induction false} FlattenAppend<T>(a: seq<seq<T>>, b: seq<seq<T>>)
    ensures Flatten(a + b) == Flatten(a) + Flatten(b)
  {
    if |a| > 0 {
      assert (a + b)[1..] == a[1..] + b;
      FlattenAppend(a[1..], b);
    } else {
      assert a + b == b;
    }
  }

  /** Taking one more chunk adds that chunk's elements at the end. */
  lemma FlattenStep<T>(c: seq<seq<T>>, i: nat)
    requires i < |c|
    ensures Flatten(c[..i + 1]) == Flatten(c[..i]) + c[i]
  {
    assert c[..i + 1] == c[..i] + [c[i]];
    FlattenAppend(c[..i], [c[i]]);
    assert Flatten([c[i]]) == c[i] + Flatten([]);
  }

  /** The chunks cover the list exactly once, in order. */
  lemma {:induction false} ChunksFlatten<T>(s: seq<T>, b: nat)
    requires b >= 1
    ensures Flatten(Chunks(s, b)) == s
    decreases |s|
  {
    if |s| > b {
      ChunksFlatten(s[b..], b);
      assert [s[..b]] + Chunks(s[b..], b) == Chunks(s, b);
      assert s == s[..b] + s[b..];
    } else if |s| > 0 {
      assert Flatten([s]) == s + Flatten([]);
    }
  }

  /** There are ceil(n / b) chunks (the least count whose capacity covers the list);
      each is non-empty and holds at most `b` items, and every chunk but the last holds
      exactly `b`. */
  lemma {:induction false} ChunksShape<T>(s: seq<T>, b: nat)
    requires b >= 1
    ensures |Chunks(s, b)| * b >= |s|
    ensures |s| > 0 ==> (|Chunks(s, b)| - 1) * b < |s|
    ensures |Chunks(s, b)| == 0 <==> |s| == 0
    ensures forall k :: 0 <= k < |Chunks(s, b)| ==> 1 <= |Chunks(s, b)[k]| <= b
    ensures forall k :: 0 <= k < |Chunks(s, b)| - 1 ==> |Chunks(s, b)[k]| == b
    decreases |s|
  {
    var c := Chunks(s, b);
    if |s| > b {
      var rest := Chunks(s[b..], b);
      ChunksShape(s[b..], b);
      assert c == [s[..b]] + rest;
      assert |c| * b == |rest| * b + b;
      forall k | 1 <= k < |c| ensures c[k] == rest[k - 1] { }
    }
  }

  lemma SliceOfSuffix<T>(s: seq<T>, b: nat, i: nat, j: nat)
    requires b <= |s| && i <= j <= |s| - b
    ensures s[b..][i..j] == s[b + i..b + j]
  {
  }

  lemma MulStep(k: nat, b: nat)
    requires k > 0
    ensures k * b == (k - 1) * b + b
  {
  }

  /** Chunk `k` is the slice `s[k*b .. min(k*b + b, n)]`, as `items.slice(i, i + batchSize)`. */
  lemma {:induction false} ChunkAt<T>(s: seq<T>, b: nat, k: nat)
    requires b >= 1 && k < |Chunks(s, b)|
    ensures k * b < |s|
    ensures Chunks(s, b)[k] == s[k * b..Min(k * b + b, |s|)]
    decreases |s|
  {
    if k > 0 {
      assert |s| > b;
      var rest := s[b..];
      assert Chunks(s, b)[k] == Chunks(rest, b)[k - 1];
      ChunkAt(rest, b, k - 1);
      var j := (k - 1) * b;
      MulStep(k, b);
      var lo := k * b;
      assert lo == j + b;
      var m := Min(j + b, |rest|);
      assert m + b == Min(lo + b, |s|) by {
        assert |rest| + b == |s|;
        if j + b <= |rest| {
          assert m == j + b && lo + b <= |s|;
        } else {
          assert m == |rest| && lo + b > |s|;
        }
      }
      SliceOfSuffix(s, b, j, m);
    }
  }

  /** After the first `i` chunks, min(i*b, n) items have been processed. */
  lemma {:induction false} ProcessedAfter<T>(s: seq<T>, b: nat, i: nat)
    requires b >= 1 && i <= |Chunks(s, b)|
    ensures |Flatten(Chunks(s, b)[..i])| == Min(i * b, |s|)
    decreases |s|
  {
    var c := Chunks(s, b);
    if i > 0 {
      if |s| <= b {
        assert c[..i] == [s];
        assert Flatten([s]) == s + Flatten([]);
      } else {
        ProcessedAfter(s[b..], b, i - 1);
        assert c[..i] == [s[..b]] + Chunks(s[b..], b)[..i - 1];
        assert (i - 1) * b + b == i * b;
      }
    }
  }

  /** The chunk-building loop of a run. */
  method MakeChunks<T>(items: seq<T>, b: nat) returns (chunks: seq<seq<T>>)
    requires b >= 1
    ensures chunks == Chunks(items, b)
  {
    chunks := [];
    var i := 0;
    while i < |items|
      invariant 0 <= i
      invariant i < |items| ==> chunks + Chunks(items[i..], b) == Chunks(items, b)
      invariant i >= |items| ==> chunks == Chunks(items, b)
    {
      var chunk := items[i..Min(i + b, |items|)];
      assert chunks + Chunks(items[i..], b) == chunks + [chunk] + Chunks(items[Min(i + b, |items|)..], b) by {
        var rest := items[i..];
        if |rest| <= b {
          assert chunk == rest;
          assert items[Min(i + b, |items|)..] == [];
        } else {
          assert rest[..b] == chunk && rest[b..] == items[i + b..];
        }
      }
      chunks := chunks + [chunk];
      i := i + b;
    }
  }

  /** 25 items in batches of 10 make three chunks of 10, 10 and 5 items. */
  lemma TwentyFiveInTens<T>(s: seq<T>)
    requires |s| == 25
    ensures |Chunks(s, 10)| == 3
    ensures |Chunks(s, 10)[0]| == 10 && |Chunks(s, 10)[1]| == 10 && |Chunks(s, 10)[2]| == 5
  {
    var c := Chunks(s, 10);
    assert c == [s[..10]] + Chunks(s[10..], 10);
    assert Chunks(s[10..], 10) == [s[10..][..10]] + Chunks(s[10..][10..], 10);
    assert Chunks(s[10..][10..], 10) == [s[10..][10..]];
  }
}
