/** `_find_all_reset_markers` of cam_reverse/handlers.py: JPEG restart markers RSTm, the
    byte pairs X'FFD0' to X'FFD7' (ITU-T T.81 section B.1.1.3, Table B.1). */
module RestartMarkers {
  import opened Bytes

  predicate IsMarker(b: Chunk, i: int) {
    0 <= i && i + 1 < |b| && b[i] == 0xFF && 0xD0 <= b[i + 1] <= 0xD7
  }

  /** The eight restart markers RST0 to RST7, and no other pair of bytes. */
  lemma {:induction false} MarkerBytes(a: Byte, b: Byte)
    ensures IsMarker([a, b], 0) <==>
      [a, b] in {[0xFF, 0xD0], [0xFF, 0xD1], [0xFF, 0xD2], [0xFF, 0xD3],
                 [0xFF, 0xD4], [0xFF, 0xD5], [0xFF, 0xD6], [0xFF, 0xD7]}
  {
    assert [a, b][0] == a && [a, b][1] == b;
    assert IsMarker([a, b], 0) ==> [a, b] == [0xFF, b] && 0xD0 <= b <= 0xD7;
  }

  predicate Ascending(m: seq<nat>) {
    forall i, j :: 0 <= i < j < |m| ==> m[i] < m[j]
  }

  /** `m` lists the positions of the markers of `b`, in order. */
  ghost predicate Lists(m: seq<nat>, b: Chunk) {
    Ascending(m) && forall i: nat :: i in m <==> IsMarker(b, i)
  }

  /** The markers before position `n`. */
  function MarkersBelow(b: Chunk, n: nat): (m: seq<nat>)
    ensures forall k :: 0 <= k < |m| ==> m[k] < n
    ensures Ascending(m)
    ensures forall i: nat :: i in m <==> i < n && IsMarker(b, i)
  {
    if n == 0 then []
    else if IsMarker(b, n - 1) then MarkersBelow(b, n - 1) + [n - 1]
    else MarkersBelow(b, n - 1)
  }

  function Markers(b: Chunk): (m: seq<nat>)
    ensures Lists(m, b)
  {
    MarkersBelow(b, |b|)
  }

  method FindAllResetMarkers(b: Chunk) returns (ret: seq<nat>)
    ensures ret == Markers(b)
  {
    ret := [];
    for i := 0 to Max(0, |b| - 1)
      invariant ret == MarkersBelow(b, i)
    {
      if b[i] == 0xFF && 0xD0 <= b[i + 1] <= 0xD7 {
        ret := ret + [i];
      }
    }
  }

  /** An ascending list is determined by its elements. */
  lemma {:induction false} AscendingUnique(m: seq<nat>, n: seq<nat>)
    requires Ascending(m) && Ascending(n)
    requires forall i: nat :: i in m <==> i in n
    ensures m == n
  {
    assert |n| > 0 ==> n[0] in m;
    assert |m| > 0 ==> m[0] in n;
    if m != [] && n != [] {
      var p, q := m[..|m| - 1], n[..|n| - 1];
      assert m[|m| - 1] in n && n[|n| - 1] in m;
      assert m[|m| - 1] == n[|n| - 1];
      forall i: nat
        ensures i in p <==> i in q
      {
        assert i in m <==> i in p || i == m[|m| - 1];
        assert i in n <==> i in q || i == n[|n| - 1];
      }
      AscendingUnique(p, q);
    }
  }

  function Shift(m: seq<nat>, to: nat, from: nat): seq<nat>
    requires forall i :: 0 <= i < |m| ==> from <= m[i]
  {
    seq(|m|, i requires 0 <= i < |m| => m[i] - from + to)
  }

  /** The two pieces joined by the repair of a gap. */
  function CutLeft(left: Chunk): (r: Chunk)
    requires Markers(left) != []
    ensures |r| + 1 < |left| && IsMarker(left, |r|) && r == left[..|r|]
    ensures forall i :: |r| < i ==> !IsMarker(left, i)
  {
    var m := Markers(left);
    assert m[|m| - 1] in m;
    assert forall i: nat :: IsMarker(left, i) ==> i in m;
    left[..m[|m| - 1]]
  }

  function CutRight(right: Chunk): (r: Chunk)
    requires Markers(right) != []
    ensures 2 <= |r| <= |right| && IsMarker(right, |right| - |r|) && r == right[|right| - |r|..]
    ensures forall i :: i < |right| - |r| ==> !IsMarker(right, i)
  {
    var m := Markers(right);
    assert m[0] in m;
    assert forall i: nat :: IsMarker(right, i) ==> i in m;
    right[m[0]..]
  }

  /** No marker of the joined bytes straddles the join: each lies wholly in the left
      piece, where it is a marker of the left chunk other than its last, or wholly in
      the right piece, where it is a marker of the right chunk. */
  lemma {:induction false} JoinMarker(left: Chunk, right: Chunk, i: nat)
    requires Markers(left) != [] && Markers(right) != []
    ensures var l, r := CutLeft(left), CutRight(right);
            IsMarker(l + r, i) <==>
            (i + 1 < |l| && IsMarker(left, i)) || (|l| <= i && IsMarker(right, i - |l| + (|right| - |r|)))
    ensures i < |CutLeft(left)| && IsMarker(left, i) ==> i + 1 < |CutLeft(left)|
  {
  }

  /** At a repaired join the scan is compositional: the markers of the joined bytes are
      the left chunk's without the last, then all of the right chunk's, shifted. */
  lemma {:induction false} JoinMarkers(left: Chunk, right: Chunk)
    requires Markers(left) != [] && Markers(right) != []
    ensures var l, r, ml, mr := CutLeft(left), CutRight(right), Markers(left), Markers(right);
            && (forall i :: 0 <= i < |mr| ==> mr[0] <= mr[i])
            && Markers(l + r) == ml[..|ml| - 1] + Shift(mr, |l|, mr[0])
            && |Markers(l + r)| == |ml| + |mr| - 1
  {
    var l, r, ml, mr := CutLeft(left), CutRight(right), Markers(left), Markers(right);
    var joined := ml[..|ml| - 1] + Shift(mr, |l|, mr[0]);
    assert ml[|ml| - 1] == |l| && mr[0] == |right| - |r| by {
      assert ml[|ml| - 1] in ml && mr[0] in mr;
    }
    forall i: nat
      ensures i in joined <==> IsMarker(l + r, i)
    {
      JoinMarker(left, right, i);
      if |l| <= i {
        assert i in joined <==> i - |l| + mr[0] in mr by {
          if i - |l| + mr[0] in mr {
            var k :| 0 <= k < |mr| && mr[k] == i - |l| + mr[0];
            assert joined[|ml| - 1 + k] == i;
          }
        }
      } else {
        assert i in joined <==> i in ml;
      }
    }
    AscendingUnique(Markers(l + r), joined);
  }
}
