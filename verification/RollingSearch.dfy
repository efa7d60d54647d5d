/**
 The rolling-window marker search of bdd/lib/python-exception-stderr.ts: only the last 4096
 characters are kept, and the window is cut before it is searched.
 */
module RollingSearch {
  import opened Common

  const WINDOW: nat := 4096

  /** The stream a list of chunks makes. */
  function Stream(chunks: seq<string>): string {
    if chunks == [] then "" else Stream(chunks[..|chunks| - 1]) + chunks[|chunks| - 1]
  }

  /** `text.slice(-4096)`. */
  function LastOf(text: string): string {
    if |text| <= WINDOW then text else text[|text| - WINDOW..]
  }

  /** What the handler has seen: the window after each chunk was searched. */
  predicate Found(chunks: seq<string>, marker: string) {
    chunks != [] &&
    (Found(chunks[..|chunks| - 1], marker) || Contains(LastOf(Stream(chunks)), marker))
  }

  function TotalBytes(byteLength: string -> nat, chunks: seq<string>): nat {
    if chunks == [] then 0
    else TotalBytes(byteLength, chunks[..|chunks| - 1]) + byteLength(chunks[|chunks| - 1])
  }

  datatype Verdict = Passed | Oversized | Missing

  class Search {
    const marker: string
    const maxBytes: nat
    var byteCount: nat
    var markerFound: bool
    var rollingSuffix: string
    var oversized: bool
    ghost var chunks: seq<string>

    ghost predicate Valid(byteLength: string -> nat) reads this {
      && rollingSuffix == LastOf(Stream(chunks))
      && (markerFound <==> Found(chunks, marker))
      && byteCount == TotalBytes(byteLength, chunks)
      && (oversized <==> byteCount > maxBytes)
    }

    constructor (marker: string, maxBytes: nat, ghost byteLength: string -> nat)
      ensures Valid(byteLength) && chunks == [] && this.marker == marker && this.maxBytes == maxBytes
    {
      this.marker, this.maxBytes := marker, maxBytes;
      byteCount, markerFound, rollingSuffix, oversized := 0, false, "", false;
      chunks := [];
    }

    method OnData(text: string, byteLength: string -> nat)
      requires Valid(byteLength)
      modifies this
      ensures Valid(byteLength) && chunks == old(chunks) + [text]
    {
      SnocFront(chunks, text);
      WindowOfWindow(Stream(chunks), text);
      byteCount := byteCount + byteLength(text);
      oversized := oversized || byteCount > maxBytes;
      rollingSuffix := LastOf(rollingSuffix + text);
      markerFound := markerFound || Contains(rollingSuffix, marker);
      chunks := chunks + [text];
    }

    /** The verdict when the stream ends: the byte budget is judged before the marker. */
    function OnEnd(): Verdict reads this {
      if oversized then Oversized else if !markerFound then Missing else Passed
    }
  }

  /** The stream read to its end. */
  method AssertExceptionOnStderr(chunks: seq<string>, marker: string, maxBytes: nat, byteLength: string -> nat)
      returns (verdict: Verdict)
    ensures verdict == if TotalBytes(byteLength, chunks) > maxBytes then Oversized
                       else if Found(chunks, marker) then Passed else Missing
  {
    var search := new Search(marker, maxBytes, byteLength);
    for i := 0 to |chunks|
      invariant fresh(search) && search.Valid(byteLength) && search.chunks == chunks[..i]
      invariant search.marker == marker && search.maxBytes == maxBytes
    {
      search.OnData(chunks[i], byteLength);
    }
    assert chunks[..|chunks|] == chunks;
    return search.OnEnd();
  }

  /** Cutting the window and then adding a chunk loses nothing the next window needs. */
  lemma {:induction false} WindowOfWindow(stream: string, chunk: string)
    ensures LastOf(LastOf(stream) + chunk) == LastOf(stream + chunk)
  {
    if |stream| > WINDOW {
      var cut := |stream| - WINDOW;
      assert stream == stream[..cut] + stream[cut..];
      assert (stream + chunk)[cut..] == stream[cut..] + chunk;
      assert LastOf(stream[cut..] + chunk) == LastOf(stream + chunk);
    }
  }

  // ----- The budget ----------------------------------------------------------------------------------

  /** Texts put together have as many bytes as they have apart. */
  ghost predicate CountsBytes(byteLength: string -> nat) {
    byteLength("") == 0 && forall a, b :: byteLength(a + b) == byteLength(a) + byteLength(b)
  }

  /** However the stream is cut, what is counted are its bytes. */
  lemma {:induction false} TotalIsOfTheStream(byteLength: string -> nat, chunks: seq<string>)
    requires CountsBytes(byteLength)
    ensures TotalBytes(byteLength, chunks) == byteLength(Stream(chunks))
  {
    if chunks != [] {
      TotalIsOfTheStream(byteLength, chunks[..|chunks| - 1]);
    }
  }

  // ----- Sound, complete, and when -----------------------------------------------------------------

  lemma {:induction false} InWindow(text: string, marker: string)
    ensures Contains(LastOf(text), marker) <==>
      exists i | 0 <= i <= |text| :: OccursAt(text, marker, i) && i + WINDOW >= |text|
  {
    var cut := |text| - |LastOf(text)|;
    assert LastOf(text) == text[cut..];
    if Contains(LastOf(text), marker) {
      var i :| 0 <= i <= |LastOf(text)| && OccursAt(LastOf(text), marker, i);
      assert text[cut..][i..i + |marker|] == text[cut + i..cut + i + |marker|];
      assert OccursAt(text, marker, cut + i);
    }
    if exists i | 0 <= i <= |text| :: OccursAt(text, marker, i) && i + WINDOW >= |text| {
      var i :| 0 <= i <= |text| && OccursAt(text, marker, i) && i + WINDOW >= |text|;
      assert text[cut..][i - cut..i - cut + |marker|] == text[i..i + |marker|];
      assert OccursAt(LastOf(text), marker, i - cut);
    }
  }

  lemma {:induction false} OccursStays(text: string, more: string, marker: string, i: int)
    requires OccursAt(text, marker, i)
    ensures OccursAt(text + more, marker, i)
  {
    assert (text + more)[i..i + |marker|] == text[i..i + |marker|];
  }

  /** Soundness: for any chunks, a marker that is found is in the stream. */
  lemma {:induction false} FoundIsThere(chunks: seq<string>, marker: string)
    requires Found(chunks, marker)
    ensures Contains(Stream(chunks), marker)
  {
    var front := chunks[..|chunks| - 1];
    if Found(front, marker) {
      FoundIsThere(front, marker);
      var i :| 0 <= i <= |Stream(front)| && OccursAt(Stream(front), marker, i);
      OccursStays(Stream(front), chunks[|chunks| - 1], marker, i);
    } else {
      InWindow(Stream(chunks), marker);
    }
  }

  /** An occurrence the search saw whole: after some chunk it lay inside the window. */
  predicate SeenWhole(chunks: seq<string>, marker: string, i: nat) {
    chunks != [] &&
    (SeenWhole(chunks[..|chunks| - 1], marker, i)
     || (i + |marker| <= |Stream(chunks)| && i + WINDOW >= |Stream(chunks)|))
  }

  lemma {:induction false} SeenWholeIsFound(chunks: seq<string>, marker: string, i: nat)
    requires SeenWhole(chunks, marker, i) && OccursAt(Stream(chunks), marker, i)
    ensures Found(chunks, marker)
  {
    var front, last := chunks[..|chunks| - 1], chunks[|chunks| - 1];
    if SeenWhole(front, marker, i) {
      SeenWholeFits(front, marker, i);
      assert Stream(front)[i..i + |marker|] == Stream(chunks)[i..i + |marker|];
      SeenWholeIsFound(front, marker, i);
    } else {
      InWindow(Stream(chunks), marker);
    }
  }

  lemma {:induction false} SeenWholeFits(chunks: seq<string>, marker: string, i: nat)
    requires SeenWhole(chunks, marker, i)
    ensures i + |marker| <= |Stream(chunks)|
  {
    if SeenWhole(chunks[..|chunks| - 1], marker, i) {
      SeenWholeFits(chunks[..|chunks| - 1], marker, i);
    }
  }

  lemma {:induction false} FoundWasSeen(chunks: seq<string>, marker: string) returns (i: nat)
    requires Found(chunks, marker)
    ensures SeenWhole(chunks, marker, i) && OccursAt(Stream(chunks), marker, i)
  {
    var front := chunks[..|chunks| - 1];
    if Found(front, marker) {
      i := FoundWasSeen(front, marker);
      OccursStays(Stream(front), chunks[|chunks| - 1], marker, i);
    } else {
      InWindow(Stream(chunks), marker);
      var at :| 0 <= at <= |Stream(chunks)| && OccursAt(Stream(chunks), marker, at) && at + WINDOW >= |Stream(chunks)|;
      i := at;
    }
  }

  /** Exactly: the search succeeds when and only when some occurrence was inside one of the windows. */
  lemma {:induction false} FoundExactlyWhenSeenWhole(chunks: seq<string>, marker: string)
    ensures Found(chunks, marker) <==>
      exists i: nat | i <= |Stream(chunks)| :: SeenWhole(chunks, marker, i) && OccursAt(Stream(chunks), marker, i)
  {
    if Found(chunks, marker) {
      var i := FoundWasSeen(chunks, marker);
      assert i <= |Stream(chunks)| && SeenWhole(chunks, marker, i) && OccursAt(Stream(chunks), marker, i);
    }
    if exists i: nat | i <= |Stream(chunks)| :: SeenWhole(chunks, marker, i) && OccursAt(Stream(chunks), marker, i) {
      var i: nat :| i <= |Stream(chunks)| && SeenWhole(chunks, marker, i) && OccursAt(Stream(chunks), marker, i);
      SeenWholeIsFound(chunks, marker, i);
    }
  }

  /** No chunk is so long that a marker ending in it can start before its window. */
  predicate SmallChunks(chunks: seq<string>, marker: string) {
    forall i :: 0 <= i < |chunks| ==> |chunks[i]| + |marker| <= WINDOW + 1
  }

  lemma {:induction false} SmallChunksSeeAll(chunks: seq<string>, marker: string, i: nat)
    requires marker != "" && SmallChunks(chunks, marker) && OccursAt(Stream(chunks), marker, i)
    ensures SeenWhole(chunks, marker, i)
  {
    var front := chunks[..|chunks| - 1];
    if i + |marker| <= |Stream(front)| {
      assert Stream(front)[i..i + |marker|] == Stream(chunks)[i..i + |marker|];
      SmallChunksSeeAll(front, marker, i);
    }
  }

  /** Completeness: with chunks of at most 4096 - (m - 1) characters the search is exact. */
  lemma {:induction false} SmallChunksAreComplete(chunks: seq<string>, marker: string)
    requires marker != "" && SmallChunks(chunks, marker)
    ensures Found(chunks, marker) <==> Contains(Stream(chunks), marker)
  {
    if Found(chunks, marker) {
      FoundIsThere(chunks, marker);
    }
    if Contains(Stream(chunks), marker) {
      var i: nat :| i <= |Stream(chunks)| && OccursAt(Stream(chunks), marker, i);
      SmallChunksSeeAll(chunks, marker, i);
      SeenWholeIsFound(chunks, marker, i);
    }
  }

  function Filler(c: char, n: nat): string {
    seq(n, _ => c)
  }

  lemma {:induction false} LastCharacter(text: string, part: string, i: int)
    requires part != "" && OccursAt(text, part, i)
    ensures text[i + |part| - 1] == part[|part| - 1] && part[|part| - 1] in part
  {
    assert text[i..i + |part|][|part| - 1] == part[|part| - 1];
  }

  /** The bound is tight: one character more in one chunk, and a marker can be missed. */
  lemma {:induction false} BoundIsTight(marker: string, c: char)
    requires 0 < |marker| <= WINDOW && c !in marker
    ensures var m := |marker|;
      var chunks := [marker[..m - 1], marker[m - 1..] + Filler(c, WINDOW - m + 1)];
      && |chunks[0]| < WINDOW && |chunks[1]| == WINDOW - (m - 1) + 1
      && Contains(Stream(chunks), marker) && !Found(chunks, marker)
  {
    var m := |marker|;
    var filler := Filler(c, WINDOW - m + 1);
    var chunks := [marker[..m - 1], marker[m - 1..] + filler];
    assert chunks[..1] == [marker[..m - 1]] && chunks[..1][..0] == [];
    assert Stream(chunks[..1]) == marker[..m - 1];
    assert marker[..m - 1] + (marker[m - 1..] + filler) == marker + filler;
    var stream := Stream(chunks);
    assert stream == marker + filler;
    assert OccursAt(stream, marker, 0) by { assert stream[0..m] == marker; }
    forall i | 0 <= i <= |stream| && OccursAt(stream, marker, i) ensures i == 0 {
      LastCharacter(stream, marker, i);
    }
    InWindow(stream, marker);
    ShorterMissesMarker(chunks[..1], marker);
  }

  lemma {:induction false} ShorterMissesMarker(chunks: seq<string>, marker: string)
    requires |Stream(chunks)| < |marker|
    ensures !Found(chunks, marker)
  {
    if Found(chunks, marker) {
      FoundIsThere(chunks, marker);
    }
  }
}
