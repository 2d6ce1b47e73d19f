/**
 * The chunk builder of rag/chunker.py: one retrieval chunk per function
 * record, numbered in order.
 */
module Chunker {
  import opened PyText
  import opened Analyzer

  /** A `{id, text, file}` chunk. */
  datatype Chunk = Chunk(id: nat, text: string, file: string)

  const LinePrefix := " at line "

  /** The chunk text of a function record. */
  function ChunkText(fn: Declaration): string {
    "Function " + fn.name + " in " + fn.file + LinePrefix + Decimal(fn.line)
  }

  /**
   * The loop of the script: each record gives one chunk whose id is the number
   * of chunks before it and whose file is the record's file.
   */
  method BuildChunks(functions: seq<Declaration>) returns (chunks: seq<Chunk>)
    ensures |chunks| == |functions|
    ensures forall i :: 0 <= i < |chunks| ==> chunks[i] == Chunk(i, ChunkText(functions[i]), functions[i].file)
  {
    chunks := [];
    for k := 0 to |functions|
      invariant |chunks| == k
      invariant forall i :: 0 <= i < k ==> chunks[i] == Chunk(i, ChunkText(functions[i]), functions[i].file)
    {
      var fn := functions[k];
      chunks := chunks + [Chunk(|chunks|, ChunkText(fn), fn.file)];
    }
  }

  /** The text names the function and its file, and ends with the line number. */
  lemma ChunkTextParts(fn: Declaration)
    ensures StartsWith(ChunkText(fn), "Function " + fn.name + " in " + fn.file)
    ensures EndsWith(ChunkText(fn), LinePrefix + Decimal(fn.line))
  {
    var head := "Function " + fn.name + " in " + fn.file;
    var tail := LinePrefix + Decimal(fn.line);
    assert ChunkText(fn) == head + tail;
    assert (head + tail)[..|head|] == head;
    assert (head + tail)[|head|..] == tail;
  }

  /** Two records with the same name and file give the same text only when their lines agree too. */
  lemma ChunkTextDeterminesLine(f: Declaration, g: Declaration)
    requires f.name == g.name && f.file == g.file
    ensures ChunkText(f) == ChunkText(g) <==> f == g
  {
    if ChunkText(f) == ChunkText(g) {
      var head := "Function " + f.name + " in " + f.file + LinePrefix;
      assert ChunkText(f) == head + Decimal(f.line);
      assert ChunkText(g) == head + Decimal(g.line);
      assert Decimal(f.line) == (head + Decimal(f.line))[|head|..];
      assert Decimal(g.line) == (head + Decimal(g.line))[|head|..];
      DecimalRoundTrip(f.line);
      DecimalRoundTrip(g.line);
    }
  }
}
