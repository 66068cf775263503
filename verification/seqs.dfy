/**
 Boolean-mask selection over sequences, the model of pandas' `df[mask]`:
 the kept elements, and the positions they were kept from.
 */
module Seqs {

  /** The elements of `s` that satisfy `f`, in their original order. */
  function Filter<T>(f: T -> bool, s: seq<T>): (r: seq<T>)
    ensures |r| <= |s|
    ensures forall k :: 0 <= k < |r| ==> f(r[k])
    ensures forall x :: x in r ==> x in s && f(x)
    ensures forall i :: 0 <= i < |s| && f(s[i]) ==> s[i] in r
  {
    if |s| == 0 then []
    else if f(s[0]) then [s[0]] + Filter(f, s[1..])
    else Filter(f, s[1..])
  }

  /** Every position of `s` plus one. */
  function Shift(ix: seq<nat>): (r: seq<nat>)
    ensures |r| == |ix|
    ensures forall k :: 0 <= k < |r| ==> r[k] == ix[k] + 1
  {
    seq(|ix|, k requires 0 <= k < |ix| => ix[k] + 1)
  }

  /** The positions of `s` whose elements satisfy `f`, in increasing order. */
  function Selected<T>(f: T -> bool, s: seq<T>): seq<nat>
  {
    if |s| == 0 then []
    else if f(s[0]) then [0] + Shift(Selected(f, s[1..]))
    else Shift(Selected(f, s[1..]))
  }

  /** One selected position per kept element. */
  lemma {:induction false} SelectedLength<T>(f: T -> bool, s: seq<T>)
    ensures |Selected(f, s)| == |Filter(f, s)|
  {
    if |s| > 0 {
      SelectedLength(f, s[1..]);
    }
  }

  /** The k-th kept element sits at the k-th selected position, which satisfies `f`. */
  lemma {:induction false} SelectedAligned<T>(f: T -> bool, s: seq<T>)
    ensures |Selected(f, s)| == |Filter(f, s)|
    ensures forall k :: 0 <= k < |Selected(f, s)| ==>
              Selected(f, s)[k] < |s| && Filter(f, s)[k] == s[Selected(f, s)[k]]
  {
    SelectedLength(f, s);
    if |s| > 0 {
      var tail := s[1..];
      SelectedAligned(f, tail);
      var rest := Selected(f, tail);
      var kept := Filter(f, tail);
      var shifted := Shift(rest);
      forall k | 0 <= k < |shifted| ensures shifted[k] < |s| && kept[k] == s[shifted[k]] {
        assert tail[rest[k]] == s[rest[k] + 1];
      }
      var r := Selected(f, s);
      var out := Filter(f, s);
      if f(s[0]) {
        assert r == [0] + shifted;
        assert out == [s[0]] + kept;
        forall k | 0 <= k < |r| ensures r[k] < |s| && out[k] == s[r[k]] {
          if k > 0 {
            assert r[k] == shifted[k - 1] && out[k] == kept[k - 1];
          }
        }
      } else {
        assert r == shifted && out == kept;
      }
    }
  }

  /** Selected positions increase strictly and are all at least zero. */
  lemma {:induction false} SelectedIncreasing<T>(f: T -> bool, s: seq<T>)
    ensures forall k, l :: 0 <= k < l < |Selected(f, s)| ==> Selected(f, s)[k] < Selected(f, s)[l]
  {
    if |s| > 0 {
      SelectedIncreasing(f, s[1..]);
      var shifted := Shift(Selected(f, s[1..]));
      if f(s[0]) {
        var r := [0] + shifted;
        assert Selected(f, s) == r;
        forall k, l | 0 <= k < l < |r| ensures r[k] < r[l] {
          if k > 0 {
            assert r[k] == shifted[k - 1] && r[l] == shifted[l - 1];
          } else {
            assert r[l] == shifted[l - 1];
          }
        }
      }
    }
  }

  /** Every position whose element satisfies `f` is selected. */
  lemma {:induction false} SelectedComplete<T>(f: T -> bool, s: seq<T>)
    ensures forall i :: 0 <= i < |s| && f(s[i]) ==> i in Selected(f, s)
  {
    if |s| > 0 {
      var tail := s[1..];
      SelectedComplete(f, tail);
      var rest := Selected(f, tail);
      var shifted := Shift(rest);
      forall i | 1 <= i < |s| && f(s[i]) ensures i in shifted {
        assert tail[i - 1] == s[i];
        var k :| 0 <= k < |rest| && rest[k] == i - 1;
        assert shifted[k] == i;
      }
    }
  }

  /**
   `Filter` keeps exactly the satisfying elements, in order: the k-th kept
   element is the element at the k-th selected position, the positions
   increase strictly, each selected position satisfies `f`, and every
   position whose element satisfies `f` is selected.
   */
  lemma SelectedSpec<T>(f: T -> bool, s: seq<T>)
    ensures |Selected(f, s)| == |Filter(f, s)|
    ensures forall k :: 0 <= k < |Selected(f, s)| ==>
              Selected(f, s)[k] < |s| && Filter(f, s)[k] == s[Selected(f, s)[k]] && f(s[Selected(f, s)[k]])
    ensures forall k, l :: 0 <= k < l < |Selected(f, s)| ==> Selected(f, s)[k] < Selected(f, s)[l]
    ensures forall i :: 0 <= i < |s| && f(s[i]) ==> i in Selected(f, s)
  {
    SelectedAligned(f, s);
    SelectedIncreasing(f, s);
    SelectedComplete(f, s);
  }

  /** No element occurs twice in `s`. */
  predicate Distinct<T(==)>(s: seq<T>)
  {
    forall i, j :: 0 <= i < j < |s| ==> s[i] != s[j]
  }

  /** Filtering a sequence without repetitions gives a sequence without repetitions. */
  lemma {:induction false} FilterDistinct<T>(f: T -> bool, s: seq<T>)
    requires Distinct(s)
    ensures Distinct(Filter(f, s))
  {
    if |s| > 0 {
      FilterDistinct(f, s[1..]);
      if f(s[0]) {
        var r := Filter(f, s);
        forall j | 0 < j < |r| ensures r[0] != r[j] {
          assert r[j] in Filter(f, s[1..]);
          assert r[j] in s[1..];
        }
      }
    }
  }
}
