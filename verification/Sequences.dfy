/** What several components need of sequences. */
module Sequences {
  ghost predicate Distinct<T>(s: seq<T>) {
    forall i, j :: 0 <= i < j < |s| ==> s[i] != s[j]
  }

  lemma Associate<T>(a: seq<T>, b: seq<T>, c: seq<T>)
    ensures a + (b + c) == (a + b) + c
  {
  }

  // ----- Joining -----

  /** All pieces, one after another. */
  function Joined<T>(pieces: seq<seq<T>>): seq<T> {
    if pieces == [] then [] else pieces[0] + Joined(pieces[1..])
  }

  /** Piece `j` is what is found between `starts[j]` and `starts[j + 1]`, and the last one ends with the whole. */
  ghost predicate InPieces<T>(whole: seq<T>, pieces: seq<seq<T>>, starts: seq<nat>) {
    && |starts| == |pieces| + 1 && starts[0] == 0 && starts[|pieces|] == |whole|
    && forall j :: 0 <= j < |pieces| ==>
         starts[j + 1] == starts[j] + |pieces[j]| <= |whole| && whole[starts[j]..starts[j + 1]] == pieces[j]
  }

  lemma {:induction false} JoinedConcat<T>(a: seq<seq<T>>, b: seq<seq<T>>)
    ensures Joined(a + b) == Joined(a) + Joined(b)
  {
    if a == [] {
      assert a + b == b;
    } else {
      assert (a + b)[1..] == a[1..] + b;
      JoinedConcat(a[1..], b);
      Associate(a[0], Joined(a[1..]), Joined(b));
    }
  }

  lemma JoinedOne<T>(piece: seq<T>)
    ensures Joined([piece]) == piece
  {
    assert Joined([piece]) == piece + Joined([piece][1..]);
  }

  /** One piece more. */
  lemma JoinedNext<T>(pieces: seq<seq<T>>, i: nat)
    requires i < |pieces|
    ensures Joined(pieces[..i + 1]) == Joined(pieces[..i]) + pieces[i]
  {
    assert pieces[..i + 1] == pieces[..i] + [pieces[i]];
    JoinedConcat(pieces[..i], [pieces[i]]);
    JoinedOne(pieces[i]);
  }

  /** A piece more in front: the others begin later by its length. */
  lemma PieceInFront<T>(piece: seq<T>, whole: seq<T>, pieces: seq<seq<T>>, later: seq<nat>, starts: seq<nat>)
    requires InPieces(whole, pieces, later) && |starts| == |later| + 1 && starts[0] == 0
    requires forall j :: 0 <= j < |later| ==> starts[j + 1] == |piece| + later[j]
    ensures InPieces(piece + whole, [piece] + pieces, starts)
  {
    var all := [piece] + pieces;
    forall j | 0 <= j < |all|
      ensures starts[j + 1] == starts[j] + |all[j]| <= |piece + whole|
      ensures (piece + whole)[starts[j]..starts[j + 1]] == all[j]
    {
      if j > 0 {
        assert all[j] == pieces[j - 1] == whole[later[j - 1]..later[j]];
      }
    }
  }

  /** The pieces are found in what they are joined to. */
  lemma {:induction false} JoinedIsPieces<T>(pieces: seq<seq<T>>) returns (starts: seq<nat>)
    ensures InPieces(Joined(pieces), pieces, starts)
  {
    if pieces == [] {
      starts := [0];
    } else {
      var later := JoinedIsPieces(pieces[1..]);
      starts := [0] + seq(|pieces|, j requires 0 <= j < |pieces| => |pieces[0]| + later[j]);
      PieceInFront(pieces[0], Joined(pieces[1..]), pieces[1..], later, starts);
      assert [pieces[0]] + pieces[1..] == pieces;
    }
  }
}
