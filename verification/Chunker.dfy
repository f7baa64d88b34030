/** Splitting a document into overlapping chunks. Text is a sequence of runes. */
module Chunker {

  datatype Chunk = Chunk(index: nat, text: string, offset: nat)

  /** The chunk size and overlap after defaults and clamps. */
  function Size(chunkSize: int): (r: int)
    ensures r >= 1
  {
    if chunkSize <= 0 then 1000 else chunkSize
  }

  function Overlap(chunkSize: int, overlap: int): (r: nat)
    ensures r < Size(chunkSize)
  {
    var o := if overlap < 0 then 200 else overlap;
    if o >= Size(chunkSize) then Size(chunkSize) / 5 else o
  }

  /** Each later chunk without the part it shares with the one before. */
  function Rebuild(chunks: seq<Chunk>, overlap: nat): string
    requires forall i :: 0 < i < |chunks| ==> |chunks[i].text| >= overlap
  {
    if chunks == [] then ""
    else if |chunks| == 1 then chunks[0].text
    else Rebuild(chunks[..|chunks| - 1], overlap) + chunks[|chunks| - 1].text[overlap..]
  }

  /** Chunk `i` starts `i` steps into the text and is full unless the text ends first. */
  predicate Placed(text: string, size: int, overlap: nat, c: Chunk, i: nat)
    requires overlap < size
  {
    && c.index == i && c.offset == i * (size - overlap) && c.offset < |text|
    && c.text == text[c.offset..if c.offset + size <= |text| then c.offset + size else |text|]
  }

  /** The chunks made so far: all full and in place, together the text up to where the last one ends. */
  ghost predicate SoFar(text: string, size: int, overlap: nat, chunks: seq<Chunk>, offset: nat)
    requires overlap < size
  {
    && offset == |chunks| * (size - overlap)
    && (forall i :: 0 <= i < |chunks| ==> Placed(text, size, overlap, chunks[i], i) && |chunks[i].text| == size)
    && (chunks != [] ==> offset + overlap < |text| && Rebuild(chunks, overlap) == text[..offset + overlap])
  }

  /** One more chunk extends what can be rebuilt to its own end. */
  lemma RebuildMore(text: string, size: int, overlap: nat, chunks: seq<Chunk>, offset: nat, end: nat)
    requires overlap < size && SoFar(text, size, overlap, chunks, offset) && offset < |text|
    requires end == if offset + size > |text| then |text| else offset + size
    ensures var more := chunks + [Chunk(|chunks|, text[offset..end], offset)];
            && (forall i :: 0 <= i < |more| ==> Placed(text, size, overlap, more[i], i))
            && (forall i :: 0 < i < |more| ==> |more[i].text| > overlap)
            && Rebuild(more, overlap) == text[..end]
  {
    hide Rebuild, Placed;
    var c := Chunk(|chunks|, text[offset..end], offset);
    NewPlaced(text, size, overlap, |chunks|, offset, end);
    RebuildSnoc(chunks, c, overlap);
    if chunks == [] {
      assert text[0..end] == text[..end];
    } else {
      assert text[offset..end][overlap..] == text[offset + overlap..end];
      assert text[..offset + overlap] + text[offset + overlap..end] == text[..end];
    }
  }

  lemma NewPlaced(text: string, size: int, overlap: nat, k: nat, offset: nat, end: nat)
    requires overlap < size && offset == k * (size - overlap) && offset < |text|
    requires end == if offset + size > |text| then |text| else offset + size
    ensures Placed(text, size, overlap, Chunk(k, text[offset..end], offset), k)
  {
  }

  lemma RebuildSnoc(chunks: seq<Chunk>, c: Chunk, overlap: nat)
    requires (forall i :: 0 < i < |chunks| ==> |chunks[i].text| >= overlap) && (chunks != [] ==> |c.text| >= overlap)
    ensures Rebuild(chunks + [c], overlap) == if chunks == [] then c.text else Rebuild(chunks, overlap) + c.text[overlap..]
  {
  }

  lemma NextOffset(k: nat, step: int)
    ensures (k + 1) * step == k * step + step
  {
  }

  method Clamp(chunkSize: int, overlap: int) returns (size: int, shared: nat)
    ensures size == Size(chunkSize) && shared == Overlap(chunkSize, overlap)
  {
    size := chunkSize;
    if size <= 0 {
      size := 1000;
    }
    var wanted := overlap;
    if wanted < 0 {
      wanted := 200;
    }
    if wanted >= size {
      wanted := size / 5;
    }
    shared := wanted;
  }

  method ChunkText(text: string, chunkSize: int, overlap: int) returns (chunks: seq<Chunk>)
    ensures text == "" <==> chunks == []
    ensures forall i :: 0 <= i < |chunks| ==> Placed(text, Size(chunkSize), Overlap(chunkSize, overlap), chunks[i], i)
    ensures forall i :: 0 <= i < |chunks| - 1 ==> |chunks[i].text| == Size(chunkSize)
    ensures forall i :: 0 < i < |chunks| ==> |chunks[i].text| > Overlap(chunkSize, overlap)
    ensures Rebuild(chunks, Overlap(chunkSize, overlap)) == text
  {
    hide Placed, Size, Overlap, Rebuild;
    var size, shared := Clamp(chunkSize, overlap);
    var n := |text|;
    chunks := [];
    if n == 0 {
      NothingToRebuild(shared);
      return;
    }
    var step := size - shared;
    var offset := 0;
    while offset < n
      invariant 0 <= offset < n && SoFar(text, size, shared, chunks, offset)
      decreases n - offset
    {
      var end := if offset + size > n then n else offset + size;
      RebuildMore(text, size, shared, chunks, offset, end);
      NextOffset(|chunks|, step);
      chunks := chunks + [Chunk(|chunks|, text[offset..end], offset)];
      if end == n {
        assert text[..n] == text;
        break;
      }
      offset := offset + step;
    }
  }

  lemma NothingToRebuild(overlap: nat)
    ensures Rebuild([], overlap) == ""
  {
  }
}
