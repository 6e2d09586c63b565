/** The splitting loop of read_in_blocks (jpl_ephemeris_data/jpl_ephemeris_parser.py):
    the lines of the ASCII ephemeris files, read one after another, are cut into data
    blocks at the "<n> 1018" lines that head each block.

    The source accumulates a block as the concatenation of its raw lines and tests the
    string for emptiness. Every line readlines() returns holds at least one character,
    so that string is empty exactly when no line has been added; the model keeps the
    block as its list of lines. Turning a block's tokens into floats is not modelled. */
module BlockReader {
  import opened TextLines

  /** A header line: exactly two tokens, the second "1018". */
  predicate IsBlockHeader(line: Line)
  {
    |line| == 2 && line[1] == "1018"
  }

  /** The loop state: the closed blocks and the block being collected. */
  datatype Split = Split(blocks: seq<seq<Line>>, current: seq<Line>)

  /** One turn of the loop: a two-token line closes the current block when it is a header
      and the block is non-empty, and is dropped in every case; any other line, blank
      ones included, joins the current block. */
  function SplitLine(s: Split, line: Line): Split
  {
    if |line| == 2 then
      if line[1] == "1018" then
        Split(if |s.current| > 0 then s.blocks + [s.current] else s.blocks, [])
      else s
    else Split(s.blocks, s.current + [line])
  }

  /** The loop state after a prefix of the lines. */
  function Scan(lines: seq<Line>): Split
  {
    if |lines| == 0 then Split([], [])
    else SplitLine(Scan(lines[..|lines| - 1]), lines[|lines| - 1])
  }

  /** What read_in_blocks returns, before conversion: the closed blocks and, last, the
      block still open at the end of input. */
  function SplitBlocks(lines: seq<Line>): seq<seq<Line>>
  {
    Scan(lines).blocks + [Scan(lines).current]
  }

  /** The splitting loop of read_in_blocks. */
  method ReadInBlocks(lines: seq<Line>) returns (blocks: seq<seq<Line>>)
    ensures blocks == SplitBlocks(lines)
  {
    blocks := [];
    var current: seq<Line> := [];
    var i := 0;
    while i < |lines|
      invariant 0 <= i <= |lines|
      invariant Scan(lines[..i]) == Split(blocks, current)
    {
      assert lines[..i + 1][..i] == lines[..i];
      var line := lines[i];
      if |line| == 2 {
        if line[1] == "1018" {
          if |current| > 0 {
            blocks := blocks + [current];
          }
          current := [];
        }
      } else {
        current := current + [line];
      }
      i := i + 1;
    }
    assert lines[..i] == lines;
    blocks := blocks + [current];
  }

  // ---------------------------------------------------------------------------
  // Properties

  /** The lines that are not two-token lines, in order: all the lines a block keeps. */
  function DataLines(lines: seq<Line>): seq<Line>
  {
    if |lines| == 0 then []
    else DataLines(lines[..|lines| - 1]) + (if |lines[|lines| - 1]| == 2 then [] else [lines[|lines| - 1]])
  }

  /** Along the loop: the closed blocks followed by the open one are exactly the data
      lines seen so far, and no closed block is empty. */
  lemma {:induction false} ScanInvariant(lines: seq<Line>)
    ensures Concat(Scan(lines).blocks) + Scan(lines).current == DataLines(lines)
    ensures forall b :: b in Scan(lines).blocks ==> |b| > 0
  {
    if |lines| > 0 {
      var init := lines[..|lines| - 1];
      var line := lines[|lines| - 1];
      var s := Scan(init);
      ScanInvariant(init);
      if |line| == 2 && line[1] == "1018" && |s.current| > 0 {
        ConcatAppend(s.blocks, [s.current]);
        ConcatSingle(s.current);
      }
    }
  }

  /** The blocks concatenate to the file's lines without the two-token lines; every
      block but the last is non-empty; and there is always at least one block, the last
      possibly empty. */
  lemma SplitBlocksProperties(lines: seq<Line>)
    ensures |SplitBlocks(lines)| >= 1
    ensures Concat(SplitBlocks(lines)) == DataLines(lines)
    ensures forall i :: 0 <= i < |SplitBlocks(lines)| - 1 ==> |SplitBlocks(lines)[i]| > 0
  {
    var s := Scan(lines);
    ScanInvariant(lines);
    ConcatAppend(s.blocks, [s.current]);
    ConcatSingle(s.current);
    forall i | 0 <= i < |SplitBlocks(lines)| - 1
      ensures |SplitBlocks(lines)[i]| > 0
    {
      assert SplitBlocks(lines)[i] == s.blocks[i];
      assert s.blocks[i] in s.blocks;
    }
  }

  /** After a point where no block is open, the loop goes on as if started afresh: the
      blocks it closes are those the rest of the input closes on its own. */
  lemma {:induction false} ScanAfterReset(before: seq<Line>, after: seq<Line>)
    requires Scan(before).current == []
    ensures Scan(before + after) == Split(Scan(before).blocks + Scan(after).blocks, Scan(after).current)
    decreases |after|
  {
    if |after| == 0 {
      assert before + after == before;
    } else {
      var init := after[..|after| - 1];
      assert (before + after)[..|before + after| - 1] == before + init;
      assert (before + after)[|before + after| - 1] == after[|after| - 1];
      ScanAfterReset(before, init);
      var bb := Scan(before).blocks;
      var s := Scan(init);
      assert bb + (s.blocks + [s.current]) == (bb + s.blocks) + [s.current];
    }
  }

  /** Where a block ends: a header line closes the block open before it, which is kept
      when non-empty and dropped when empty, and the lines after the header are split as
      if they were the whole input. */
  lemma SplitAtHeader(before: seq<Line>, header: Line, after: seq<Line>)
    requires IsBlockHeader(header)
    ensures SplitBlocks(before + [header] + after)
         == Scan(before).blocks
            + (if |Scan(before).current| > 0 then [Scan(before).current] else [])
            + SplitBlocks(after)
  {
    var s := Scan(before);
    var t := Scan(after);
    ScanAtHeader(before, header);
    ScanAfterReset(before + [header], after);
    assert SplitBlocks(before + [header] + after) == (Closed(s) + t.blocks) + [t.current];
  }

  /** The blocks closed once the open one, if non-empty, is closed too. */
  function Closed(s: Split): seq<seq<Line>>
  {
    s.blocks + (if |s.current| > 0 then [s.current] else [])
  }

  lemma ScanAtHeader(before: seq<Line>, header: Line)
    requires IsBlockHeader(header)
    ensures Scan(before + [header]) == Split(Closed(Scan(before)), [])
  {
    assert (before + [header])[..|before|] == before;
  }

  /** Input without a header line is one block: all its data lines. */
  lemma {:induction false} NoHeaderOneBlock(lines: seq<Line>)
    requires forall i :: 0 <= i < |lines| ==> !IsBlockHeader(lines[i])
    ensures Scan(lines) == Split([], DataLines(lines))
    ensures SplitBlocks(lines) == [DataLines(lines)]
  {
    if |lines| > 0 {
      var init := lines[..|lines| - 1];
      forall i | 0 <= i < |init|
        ensures !IsBlockHeader(init[i])
      {
        assert init[i] == lines[i];
      }
      NoHeaderOneBlock(init);
    }
  }

  /** A two-token line other than a header neither closes a block nor is kept. */
  lemma OtherPairDropped(s: Split, line: Line)
    requires |line| == 2 && !IsBlockHeader(line)
    ensures SplitLine(s, line) == s
  {
  }

  /** Input that ends right after a header line leaves an empty last block. */
  lemma TrailingHeaderLeavesEmptyBlock(lines: seq<Line>, header: Line)
    requires IsBlockHeader(header)
    ensures SplitBlocks(lines + [header])[|SplitBlocks(lines + [header])| - 1] == []
  {
    assert (lines + [header])[..|lines + [header]| - 1] == lines;
  }
}
