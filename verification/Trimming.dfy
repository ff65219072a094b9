/** Chunks and what is left of them when the end of each may be missing: which elements of the whole
    survive, and when those are its first ones. */
module Trimming {
  import opened Sequences

  /** Each piece is the start of the chunk at the same place. */
  ghost predicate Trims<T>(pieces: seq<seq<T>>, chunks: seq<seq<T>>) {
    |pieces| == |chunks| && forall k :: 0 <= k < |pieces| ==> pieces[k] <= chunks[k]
  }

  /** Once a piece is short of its chunk, every later piece is empty. */
  ghost predicate StopsShort<T>(pieces: seq<seq<T>>, chunks: seq<seq<T>>)
    requires |pieces| == |chunks|
  {
    forall j, k :: 0 <= j < k < |pieces| && pieces[j] != chunks[j] ==> pieces[k] == []
  }

  ghost predicate Distinct<T>(s: seq<T>) { forall j, k :: 0 <= j < k < |s| ==> s[j] != s[k] }

  /** `short` is `long` with some elements left out: element j stands at `places[j]` of `long`. */
  ghost predicate Embeds<T>(places: seq<nat>, short: seq<T>, long: seq<T>) {
    && |places| == |short|
    && (forall j, k :: 0 <= j < k < |places| ==> places[j] < places[k])
    && forall j :: 0 <= j < |places| ==> places[j] < |long| && long[places[j]] == short[j]
  }

  /** Where in the whole the elements of the pieces come from. */
  ghost function Places<T>(pieces: seq<seq<T>>, chunks: seq<seq<T>>): seq<nat>
    requires |pieces| == |chunks|
  {
    if pieces == [] then []
    else
      var n := |pieces| - 1;
      Places(pieces[..n], chunks[..n]) + seq(|pieces[n]|, i requires 0 <= i => |Concat(chunks[..n])| + i)
  }

  ghost predicate InPlace(places: seq<nat>) { forall j :: 0 <= j < |places| ==> places[j] == j }

  lemma PrefixLength<T>(piece: seq<T>, chunk: seq<T>)
    requires piece <= chunk
    ensures |piece| <= |chunk| && (|piece| == |chunk| <==> piece == chunk)
  {
    assert chunk[..|chunk|] == chunk;
  }

  lemma SameSnoc<T>(s: seq<T>, x: T, t: seq<T>, y: T)
    requires |s| == |t|
    ensures s + [x] == t + [y] <==> s == t && x == y
  {
    if s + [x] == t + [y] {
      assert s == (s + [x])[..|s|] && t == (t + [y])[..|t|];
      assert x == (s + [x])[|s|] && y == (t + [y])[|t|];
    }
  }

  /** Trimming shortens, and by nothing only if nothing is missing. */
  lemma {:induction false} TrimsLength<T>(pieces: seq<seq<T>>, chunks: seq<seq<T>>)
    requires Trims(pieces, chunks)
    ensures |Concat(pieces)| <= |Concat(chunks)|
    ensures |Concat(pieces)| == |Concat(chunks)| <==> pieces == chunks
  {
    if pieces != [] {
      var n := |pieces| - 1;
      TrimsLength(pieces[..n], chunks[..n]);
      PrefixLength(pieces[n], chunks[n]);
      ConcatSnoc(pieces[..n], pieces[n]);
      ConcatSnoc(chunks[..n], chunks[n]);
      hide Concat, Trims;
      assert pieces == pieces[..n] + [pieces[n]] && chunks == chunks[..n] + [chunks[n]];
      SameSnoc(pieces[..n], pieces[n], chunks[..n], chunks[n]);
    }
  }

  lemma EmbedsMore<T>(places: seq<nat>, short: seq<T>, long: seq<T>, piece: seq<T>, chunk: seq<T>)
    requires Embeds(places, short, long) && piece <= chunk
    ensures Embeds(places + seq(|piece|, i requires 0 <= i => |long| + i), short + piece, long + chunk)
  {}

  /** What survives is the whole with elements left out, at the places where it was sent. */
  lemma {:induction false} PlacesEmbed<T>(pieces: seq<seq<T>>, chunks: seq<seq<T>>)
    requires Trims(pieces, chunks)
    ensures Embeds(Places(pieces, chunks), Concat(pieces), Concat(chunks))
  {
    if pieces != [] {
      var n := |pieces| - 1;
      PlacesEmbed(pieces[..n], chunks[..n]);
      EmbedsMore(Places(pieces[..n], chunks[..n]), Concat(pieces[..n]), Concat(chunks[..n]), pieces[n], chunks[n]);
    }
  }

  lemma InPlaceMore(places: seq<nat>, from: nat, n: nat)
    ensures InPlace(places + seq(n, i requires 0 <= i => from + i)) <==> InPlace(places) && (n == 0 || from == |places|)
  {
    var all := places + seq(n, i requires 0 <= i => from + i);
    assert forall j :: 0 <= j < |places| ==> all[j] == places[j];
    assert n > 0 ==> all[|places|] == from;
  }

  lemma StopsMore<T>(pieces: seq<seq<T>>, chunks: seq<seq<T>>)
    requires |pieces| == |chunks| > 0
    ensures var n := |pieces| - 1;
            StopsShort(pieces, chunks)
            <==> StopsShort(pieces[..n], chunks[..n]) && (pieces[n] == [] || pieces[..n] == chunks[..n])
  {
    var n := |pieces| - 1;
    assert forall j :: 0 <= j < n ==> pieces[..n][j] == pieces[j] && chunks[..n][j] == chunks[j];
  }

  /** The survivors are the first elements of the whole exactly when trimming stops at its first cut. */
  lemma {:induction false} InPlaceIffStops<T>(pieces: seq<seq<T>>, chunks: seq<seq<T>>)
    requires Trims(pieces, chunks)
    ensures InPlace(Places(pieces, chunks)) <==> StopsShort(pieces, chunks)
  {
    if pieces != [] {
      var n := |pieces| - 1;
      InPlaceIffStops(pieces[..n], chunks[..n]);
      TrimsLength(pieces[..n], chunks[..n]);
      PlacesEmbed(pieces[..n], chunks[..n]);
      var before := Places(pieces[..n], chunks[..n]);
      InPlaceMore(before, |Concat(chunks[..n])|, |pieces[n]|);
      StopsMore(pieces, chunks);
    }
  }

  /** Survivors that are the whole's first elements are a prefix of it; when the whole repeats no element
      that is the only way to be one. */
  lemma PrefixIffStops<T>(pieces: seq<seq<T>>, chunks: seq<seq<T>>)
    requires Trims(pieces, chunks)
    ensures StopsShort(pieces, chunks) ==> Concat(pieces) <= Concat(chunks)
    ensures Distinct(Concat(chunks)) ==> (Concat(pieces) <= Concat(chunks) <==> StopsShort(pieces, chunks))
  {
    PlacesEmbed(pieces, chunks);
    InPlaceIffStops(pieces, chunks);
    TrimsLength(pieces, chunks);
    var places, short, long := Places(pieces, chunks), Concat(pieces), Concat(chunks);
    hide StopsShort, Places, Concat, Trims;
    if InPlace(places) {
      assert forall j :: 0 <= j < |short| ==> long[j] == short[j];
    }
    if Distinct(long) && short <= long {
      assert forall j :: 0 <= j < |short| ==> long[j] == short[j] == long[places[j]];
    }
  }
}
