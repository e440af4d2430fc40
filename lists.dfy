/** Python's list comprehension with a condition, `[x for x in s if keep(x)]`, and the facts
    about it that the model relies on: membership, concatenation and kept order. */
module Lists {

  function Filter<T>(s: seq<T>, keep: T -> bool): (r: seq<T>)
    ensures |r| <= |s|
    ensures forall i :: 0 <= i < |r| ==> keep(r[i])
  {
    if s == [] then []
    else (if keep(s[0]) then [s[0]] else []) + Filter(s[1..], keep)
  }

  /** Every element of the filtered list comes from the input. */
  lemma {:induction false} FilterFrom<T>(s: seq<T>, keep: T -> bool, i: nat)
    requires i < |Filter(s, keep)|
    ensures Filter(s, keep)[i] in s
  {
    var h := if keep(s[0]) then 1 else 0;
    if i >= h {
      FilterFrom(s[1..], keep, i - h);
      assert Filter(s, keep)[i] == Filter(s[1..], keep)[i - h];
    }
  }

  /** The filtered list is empty exactly when no element passes. */
  lemma {:induction false} FilterEmpty<T>(s: seq<T>, keep: T -> bool)
    ensures Filter(s, keep) == [] <==> forall k :: 0 <= k < |s| ==> !keep(s[k])
  {
    if s != [] {
      FilterEmpty(s[1..], keep);
      assert forall k :: 1 <= k < |s| ==> s[k] == s[1..][k - 1];
    }
  }

  /** Filtering distributes over concatenation: filtering a list piece by piece and joining
      the pieces gives the same list as filtering it whole. */
  lemma {:induction false} FilterAppend<T>(a: seq<T>, b: seq<T>, keep: T -> bool)
    ensures Filter(a + b, keep) == Filter(a, keep) + Filter(b, keep)
  {
    if a == [] {
      assert a + b == b;
    } else {
      assert (a + b)[1..] == a[1..] + b;
      FilterAppend(a[1..], b, keep);
    }
  }

  /** The positions of the kept elements. */
  function KeptPositions<T>(s: seq<T>, keep: T -> bool): seq<nat>
  {
    if s == [] then []
    else
      var rest := KeptPositions(s[1..], keep);
      (if keep(s[0]) then [0] else []) + seq(|rest|, i requires 0 <= i < |rest| => rest[i] + 1)
  }

  lemma {:induction false} KeptPositionsLength<T>(s: seq<T>, keep: T -> bool)
    ensures |KeptPositions(s, keep)| == |Filter(s, keep)|
  {
    if s != [] {
      KeptPositionsLength(s[1..], keep);
    }
  }

  /** The i-th element of the filtered list is the input's element at the i-th kept
      position. */
  lemma {:induction false} KeptPositionsAt<T>(s: seq<T>, keep: T -> bool)
    ensures |KeptPositions(s, keep)| == |Filter(s, keep)|
    ensures forall i :: 0 <= i < |KeptPositions(s, keep)| ==>
      KeptPositions(s, keep)[i] < |s| && Filter(s, keep)[i] == s[KeptPositions(s, keep)[i]]
  {
    KeptPositionsLength(s, keep);
    forall i | 0 <= i < |KeptPositions(s, keep)|
      ensures KeptPositions(s, keep)[i] < |s| && Filter(s, keep)[i] == s[KeptPositions(s, keep)[i]]
    {
      KeptPositionAt(s, keep, i);
    }
  }

  /** One kept position at a time, by induction on the list. */
  lemma {:induction false} KeptPositionAt<T>(s: seq<T>, keep: T -> bool, i: nat)
    requires i < |KeptPositions(s, keep)|
    ensures KeptPositions(s, keep)[i] < |s| && i < |Filter(s, keep)|
    ensures Filter(s, keep)[i] == s[KeptPositions(s, keep)[i]]
  {
    KeptPositionsLength(s, keep);
    var rest := KeptPositions(s[1..], keep);
    var tail := Filter(s[1..], keep);
    var h := if keep(s[0]) then 1 else 0;
    assert Filter(s, keep) == (if keep(s[0]) then [s[0]] else []) + tail;
    if i >= h {
      KeptPositionAt(s[1..], keep, i - h);
      assert KeptPositions(s, keep)[i] == rest[i - h] + 1;
      assert Filter(s, keep)[i] == tail[i - h];
      assert s[1..][rest[i - h]] == s[rest[i - h] + 1];
    }
  }

  /** Kept positions strictly increase. */
  lemma {:induction false} KeptPositionsIncrease<T>(s: seq<T>, keep: T -> bool)
    ensures forall i, j :: 0 <= i < j < |KeptPositions(s, keep)| ==>
      KeptPositions(s, keep)[i] < KeptPositions(s, keep)[j]
  {
    if s != [] {
      KeptPositionsIncrease(s[1..], keep);
    }
  }

  /** Every position whose element is kept is a kept position. */
  lemma {:induction false} KeptPositionsComplete<T>(s: seq<T>, keep: T -> bool)
    ensures forall k :: 0 <= k < |s| && keep(s[k]) ==> k in KeptPositions(s, keep)
  {
    if s != [] {
      KeptPositionsComplete(s[1..], keep);
      var rest := KeptPositions(s[1..], keep);
      var ks := KeptPositions(s, keep);
      var h := if keep(s[0]) then 1 else 0;
      forall k | 0 <= k < |s| && keep(s[k]) ensures k in ks {
        if k > 0 {
          assert s[1..][k - 1] == s[k];
          var i :| 0 <= i < |rest| && rest[i] == k - 1;
          assert ks[h + i] == k;
        } else {
          assert ks[0] == 0;
        }
      }
    }
  }

  /** The filtered list is the input's kept elements at strictly increasing positions, and
      every kept element is among them: filtering drops, never reorders. */
  lemma KeepsOrder<T>(s: seq<T>, keep: T -> bool)
    ensures var ks := KeptPositions(s, keep);
      && |ks| == |Filter(s, keep)|
      && (forall i :: 0 <= i < |ks| ==> ks[i] < |s| && Filter(s, keep)[i] == s[ks[i]])
      && (forall i, j :: 0 <= i < j < |ks| ==> ks[i] < ks[j])
      && (forall k :: 0 <= k < |s| && keep(s[k]) ==> k in ks)
  {
    KeptPositionsAt(s, keep);
    KeptPositionsIncrease(s, keep);
    KeptPositionsComplete(s, keep);
  }

  /** Filtering adds nothing: every element of the filtered list comes from the input. */
  lemma FilterFromAll<T>(s: seq<T>, keep: T -> bool)
    ensures forall i :: 0 <= i < |Filter(s, keep)| ==> Filter(s, keep)[i] in s
  {
    forall i | 0 <= i < |Filter(s, keep)| ensures Filter(s, keep)[i] in s {
      FilterFrom(s, keep, i);
    }
  }

  /** Filtering loses nothing that passes: every element that passes the test is kept. */
  lemma {:induction false} FilterKeepsPassing<T>(s: seq<T>, keep: T -> bool)
    ensures forall k :: 0 <= k < |s| && keep(s[k]) ==> s[k] in Filter(s, keep)
  {
    if s != [] {
      FilterKeepsPassing(s[1..], keep);
      forall k | 0 <= k < |s| && keep(s[k]) ensures s[k] in Filter(s, keep) {
        if k > 0 {
          assert s[1..][k - 1] == s[k];
        }
      }
    }
  }
}
