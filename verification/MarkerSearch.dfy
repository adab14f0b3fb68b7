/** waitForAnyMarker: searching a growing log chunk by chunk agrees with searching the whole log. */
module MarkerSearch {
  import opened Common

  predicate OccursAt(text: string, marker: string, i: nat) {
    i + |marker| <= |text| && text[i..i + |marker|] == marker
  }

  predicate Contains(text: string, marker: string) {
    exists i | 0 <= i <= |text| :: OccursAt(text, marker, i)
  }

  /** matchMarker: the first marker, in argument order, that the window contains, or "". */
  function MatchMarker(window: string, markers: seq<string>): string {
    if markers == [] then ""
    else if Contains(window, markers[0]) then markers[0]
    else MatchMarker(window, markers[1..])
  }

  /** The markers before the first empty one; an empty marker is contained everywhere but counts as "no match". */
  function Effective(markers: seq<string>): nat {
    if markers == [] || markers[0] == "" then 0 else 1 + Effective(markers[1..])
  }

  lemma {:induction false} EffectiveNonEmpty(markers: seq<string>)
    ensures Effective(markers) <= |markers|
    ensures forall i | 0 <= i < Effective(markers) :: markers[i] != ""
    ensures Effective(markers) < |markers| ==> markers[Effective(markers)] == ""
  {
    if markers != [] && markers[0] != "" {
      EffectiveNonEmpty(markers[1..]);
      assert forall i | 1 <= i < |markers| :: markers[i] == markers[1..][i - 1];
    }
  }

  /** Marker i is effective, contained, and the first contained one. */
  predicate FirstHit(window: string, markers: seq<string>, i: nat) {
    && i < |markers| && i < Effective(markers)
    && Contains(window, markers[i])
    && forall j | 0 <= j < i :: !Contains(window, markers[j])
  }

  /**
   What matchMarker decides: it reports a marker exactly when one that precedes every empty marker is
   contained, and then the first such one in argument order.
   */
  lemma {:induction false} MatchMarkerIsFirst(window: string, markers: seq<string>)
    ensures MatchMarker(window, markers) != "" <==> exists i: nat :: FirstHit(window, markers, i)
    ensures forall i: nat | FirstHit(window, markers, i) :: MatchMarker(window, markers) == markers[i]
  {
    if markers != [] {
      var rest := markers[1..];
      MatchMarkerIsFirst(window, rest);
      assert OccursAt(window, "", 0);
      if Contains(window, markers[0]) {
        assert markers[0] != "" ==> FirstHit(window, markers, 0);
      } else {
        assert forall j | 0 <= j < |rest| :: markers[j + 1] == rest[j];
        forall i: nat ensures FirstHit(window, rest, i) <==> FirstHit(window, markers, i + 1) {
          assert forall j | 1 <= j < i + 1 <= |rest| :: markers[j] == rest[j - 1];
        }
        assert forall i: nat | FirstHit(window, markers, i) :: i > 0 && FirstHit(window, rest, i - 1);
      }
    }
  }

  lemma ContainsTransitive(text: string, middle: string, marker: string)
    requires Contains(text, middle) && Contains(middle, marker)
    ensures Contains(text, marker)
  {
    var i :| 0 <= i <= |text| && OccursAt(text, middle, i);
    var j :| 0 <= j <= |middle| && OccursAt(middle, marker, j);
    var k := i + j;
    assert k + |marker| <= |text|;
    forall x | 0 <= x < |marker| ensures text[k..k + |marker|][x] == marker[x] {
      assert text[i..i + |middle|][j + x] == middle[j + x] == middle[j..j + |marker|][x];
    }
    assert text[k..k + |marker|] == marker;
    assert OccursAt(text, marker, k);
  }

  lemma {:induction false} SomeHitIsAHit(window: string, markers: seq<string>, i: nat)
    requires i < |markers| && i < Effective(markers) && Contains(window, markers[i])
    ensures MatchMarker(window, markers) != ""
  {
    if !Contains(window, markers[0]) { SomeHitIsAHit(window, markers[1..], i - 1); }
  }

  /** Whenever a non-empty marker is present, something is reported. */
  ghost predicate EveryMarkerCounts(markers: seq<string>) {
    forall window, i | 0 <= i < |markers| && markers[i] != "" && Contains(window, markers[i]) :: MatchMarker(window, markers) != ""
  }

  /**
   An empty marker hides the ones after it: every marker counts exactly when each non-empty marker
   contains one that precedes the first empty marker.
   */
  lemma EveryMarkerCountsIff(markers: seq<string>)
    ensures EveryMarkerCounts(markers) <==>
            forall i | 0 <= i < |markers| && markers[i] != "" ::
              exists j | 0 <= j < Effective(markers) && j < |markers| :: Contains(markers[i], markers[j])
  {
    if EveryMarkerCounts(markers) {
      forall i | 0 <= i < |markers| && markers[i] != ""
        ensures exists j | 0 <= j < Effective(markers) && j < |markers| :: Contains(markers[i], markers[j])
      {
        assert OccursAt(markers[i], markers[i], 0);
        MatchMarkerIsFirst(markers[i], markers);
        var j: nat :| FirstHit(markers[i], markers, j);
      }
    }
    if forall i | 0 <= i < |markers| && markers[i] != "" ::
         exists j | 0 <= j < Effective(markers) && j < |markers| :: Contains(markers[i], markers[j]) {
      forall window, i | 0 <= i < |markers| && markers[i] != "" && Contains(window, markers[i])
        ensures MatchMarker(window, markers) != ""
      {
        var j :| 0 <= j < Effective(markers) && j < |markers| && Contains(markers[i], markers[j]);
        ContainsTransitive(window, markers[i], markers[j]);
        SomeHitIsAHit(window, markers, j);
      }
    }
  }

  // ---------------------------------------------------------------- the window

  /** The last bytes of the stream, at most `overlap` of them. */
  function Last(stream: string, overlap: nat): string {
    if |stream| <= overlap then stream else stream[|stream| - overlap..]
  }

  /** An occurrence in a suffix is the shifted occurrence in the whole, and back. */
  lemma OccursInSuffix(text: string, d: nat, marker: string, i: nat)
    requires d <= |text|
    ensures OccursAt(text[d..], marker, i) <==> OccursAt(text, marker, d + i)
  {
    if d + i + |marker| <= |text| {
      assert text[d..][i..i + |marker|] == text[d + i..d + i + |marker|];
    }
  }

  lemma OccursInPrefix(text: string, more: string, marker: string, i: nat)
    requires i + |marker| <= |text| && OccursAt(text + more, marker, i)
    ensures OccursAt(text, marker, i)
  {
    assert text[i..i + |marker|] == (text + more)[i..i + |marker|];
  }

  lemma LastIsSuffix(stream: string, chunk: string, overlap: nat) returns (d: nat)
    ensures d == |stream| - |Last(stream, overlap)| && d <= |stream + chunk| && (d > 0 ==> d == |stream| - overlap)
    ensures (stream + chunk)[d..] == Last(stream, overlap) + chunk
  {
    d := |stream| - |Last(stream, overlap)|;
    assert (stream + chunk)[d..] == stream[d..] + chunk;
  }

  /** A marker that the stream did not contain yet is in the stream with the new chunk exactly if it is in the window. */
  lemma WindowSuffices(stream: string, chunk: string, overlap: nat, marker: string)
    requires marker != "" && |marker| <= overlap && !Contains(stream, marker)
    ensures Contains(stream + chunk, marker) <==> Contains(Last(stream, overlap) + chunk, marker)
  {
    var all, window := stream + chunk, Last(stream, overlap) + chunk;
    var d := LastIsSuffix(stream, chunk, overlap);
    if Contains(all, marker) {
      var i :| 0 <= i <= |all| && OccursAt(all, marker, i);
      if i + |marker| <= |stream| { OccursInPrefix(stream, chunk, marker, i); }
      assert i >= d;
      OccursInSuffix(all, d, marker, i - d);
    }
    if Contains(window, marker) {
      var i :| 0 <= i <= |window| && OccursAt(window, marker, i);
      OccursInSuffix(all, d, marker, i);
    }
  }

  /** Searching the window finds what searching the whole stream would. */
  lemma {:induction false} WindowAgrees(stream: string, chunk: string, overlap: nat, markers: seq<string>)
    requires forall m <- markers :: |m| <= overlap
    requires MatchMarker(stream, markers) == ""
    ensures MatchMarker(Last(stream, overlap) + chunk, markers) == MatchMarker(stream + chunk, markers)
  {
    if markers != [] {
      var m := markers[0];
      if m == "" {
        assert OccursAt(stream + chunk, "", 0) && OccursAt(Last(stream, overlap) + chunk, "", 0);
      } else {
        WindowSuffices(stream, chunk, overlap, m);
        WindowAgrees(stream, chunk, overlap, markers[1..]);
      }
    }
  }

  /** The tail kept for the next poll, from the previous one and the chunk alone. */
  function NextTail(previousTail: string, payload: string, overlap: nat): string {
    if |payload| >= overlap then payload[|payload| - overlap..]
    else Last(previousTail + payload, overlap)
  }

  lemma NextTailIsLast(stream: string, payload: string, overlap: nat)
    ensures NextTail(Last(stream, overlap), payload, overlap) == Last(stream + payload, overlap)
  {
    var tail, d := Last(stream, overlap), |stream| - |Last(stream, overlap)|;
    assert (stream + payload)[d..] == tail + payload;
    if |payload| >= overlap {
      assert (stream + payload)[|stream|..] == payload;
    }
  }

  // ---------------------------------------------------------------- the loop

  /** The bytes read so far: readSince returns what was appended since the last successful read, or fails. */
  function Stream(chunks: seq<Option<string>>): string {
    if chunks == [] then ""
    else Stream(chunks[..|chunks| - 1]) + if chunks[|chunks| - 1].Some? then chunks[|chunks| - 1].value else ""
  }

  lemma StreamStep(chunks: seq<Option<string>>, k: nat)
    requires k < |chunks|
    ensures Stream(chunks[..k + 1]) == Stream(chunks[..k]) + if chunks[k].Some? then chunks[k].value else ""
  {
    assert chunks[..k + 1][..k] == chunks[..k];
  }

  /** No search of the log so far would have reported anything. */
  ghost predicate Quiet(chunks: seq<Option<string>>, markers: seq<string>, polls: nat)
    requires polls <= |chunks|
  {
    forall k | 0 <= k <= polls :: MatchMarker(Stream(chunks[..k]), markers) == ""
  }

  /**
   waitForAnyMarker over the polls that fit into the deadline. It returns at the first poll after which
   the whole log so far holds a marker, with the marker a search of the whole log would report, however
   the log was split into chunks; it times out only if no such poll exists.
   */
  method WaitForAnyMarker(chunks: seq<Option<string>>, markers: seq<string>) returns (matched: string, polls: nat)
    ensures polls <= |chunks| && matched == MatchMarker(Stream(chunks[..polls]), markers)
    ensures if matched == "" then polls == |chunks| && Quiet(chunks, markers, polls) else polls > 0 && Quiet(chunks, markers, polls - 1)
  {
    var overlap := Overlap(markers);
    NothingInEmpty(markers);
    var previousTail := "";
    polls := 0;
    matched := "";
    while polls < |chunks|
      invariant polls <= |chunks| && previousTail == Last(Stream(chunks[..polls]), overlap)
      invariant Quiet(chunks, markers, polls) && matched == ""
    {
      StreamStep(chunks, polls);
      if chunks[polls].Some? {
        matched, previousTail := Poll(Stream(chunks[..polls]), previousTail, chunks[polls].value, overlap, markers);
        if matched != "" { return matched, polls + 1; }
      } else {
        assert Stream(chunks[..polls]) + "" == Stream(chunks[..polls]);
      }
      polls := polls + 1;
    }
  }

  method Overlap(markers: seq<string>) returns (overlap: nat)
    ensures overlap >= 4096 && forall m <- markers :: |m| <= overlap
  {
    overlap := 4096;
    for i := 0 to |markers|
      invariant overlap >= 4096 && forall j | 0 <= j < i :: |markers[j]| <= overlap
    {
      if |markers[i]| > overlap { overlap := |markers[i]|; }
    }
  }

  /** One successful poll: search the window, keep a tail. `stream` is the whole log before it. */
  method Poll(ghost stream: string, previousTail: string, payload: string, overlap: nat, markers: seq<string>)
    returns (matched: string, tail: string)
    requires forall m <- markers :: |m| <= overlap
    requires MatchMarker(stream, markers) == "" && previousTail == Last(stream, overlap)
    ensures matched == MatchMarker(stream + payload, markers) && tail == Last(stream + payload, overlap)
  {
    var window := payload;
    if |previousTail| > 0 { window := previousTail + payload; }
    assert window == previousTail + payload;
    WindowAgrees(stream, payload, overlap, markers);
    matched := MatchMarker(window, markers);
    NextTailIsLast(stream, payload, overlap);
    tail := NextTail(previousTail, payload, overlap);
  }

  lemma {:induction false} NothingInEmpty(markers: seq<string>)
    ensures MatchMarker("", markers) == ""
  {
    if markers != [] { NothingInEmpty(markers[1..]); }
  }
}
