/** Splitting a long reply into Discord messages of at most 2000
    characters: the reply is cut at `"\n"` and the lines are packed
    greedily, a chunk being closed when the next line would not fit. The
    same packing serves the mention handler and the `/ask` command.

    The packing counts one separator even when the current chunk is still
    empty. So a line of `maxLength` characters or more that arrives when
    nothing is pending closes an empty chunk first. Blank lines that arrive
    when nothing is pending vanish, and an over-long line is kept whole. */
module ResponseChunker {
  import opened Python

  /** Discord's limit on the length of one message. */
  const MaxMessageLength := 2000

  /** The loop state: the closed chunks and the chunk being filled. */
  datatype Packing = Packing(chunks: seq<string>, current: string)

  /** One iteration of the packing loop. */
  function PackLine(p: Packing, line: string, maxLength: int): Packing {
    if |p.current| + |line| + 1 > maxLength then Packing(p.chunks + [p.current], line)
    else Packing(p.chunks, if p.current != "" then p.current + "\n" + line else line)
  }

  /** The packing loop over a list of lines. */
  function Pack(lines: seq<string>, maxLength: int): Packing
    decreases |lines|
  {
    if lines == [] then Packing([], "")
    else PackLine(Pack(lines[..|lines| - 1], maxLength), lines[|lines| - 1], maxLength)
  }

  /** The chunks of a reply: pack its lines, then keep the pending chunk
      when it is not empty. */
  function Chunks(response: string, maxLength: int): seq<string> {
    var p := Pack(SplitOn(response, "\n"), maxLength);
    if p.current != "" then p.chunks + [p.current] else p.chunks
  }

  /** The messages `_send_response` sends, in order: the reply itself when
      it fits, its chunks otherwise. */
  function Outgoing(response: string, maxLength: int): seq<string> {
    if |response| <= maxLength then [response] else Chunks(response, maxLength)
  }

  /** The loop of `_send_response` that builds the chunk list. */
  method ChunkResponse(response: string, maxLength: int) returns (chunks: seq<string>)
    ensures chunks == Chunks(response, maxLength)
  {
    var lines := SplitOn(response, "\n");
    chunks := [];
    var current := "";
    for i := 0 to |lines|
      invariant Packing(chunks, current) == Pack(lines[..i], maxLength)
    {
      assert lines[..i + 1][..i] == lines[..i];
      var line := lines[i];
      if |current| + |line| + 1 > maxLength {
        chunks := chunks + [current];
        current := line;
      } else {
        current := if current != "" then current + "\n" + line else line;
      }
    }
    assert lines[..|lines|] == lines;
    if current != "" {
      chunks := chunks + [current];
    }
  }

  // ---------------------------------------------------------------------
  // Every chunk fits
  // ---------------------------------------------------------------------

  predicate AllFit(lines: seq<string>, maxLength: int) {
    forall i :: 0 <= i < |lines| ==> |lines[i]| <= maxLength
  }

  lemma {:induction false} PackFits(lines: seq<string>, maxLength: int)
    requires maxLength >= 0 && AllFit(lines, maxLength)
    ensures AllFit(Pack(lines, maxLength).chunks, maxLength)
    ensures |Pack(lines, maxLength).current| <= maxLength
    decreases |lines|
  {
    if lines != [] {
      var init := lines[..|lines| - 1];
      assert AllFit(init, maxLength) by {
        assert forall i :: 0 <= i < |init| ==> init[i] == lines[i];
      }
      PackFits(init, maxLength);
      assert |lines[|lines| - 1]| <= maxLength;
    }
  }

  /** When no line of the reply is longer than the limit, no chunk is. */
  lemma ChunksFit(response: string, maxLength: int)
    requires maxLength >= 0 && AllFit(SplitOn(response, "\n"), maxLength)
    ensures AllFit(Chunks(response, maxLength), maxLength)
  {
    PackFits(SplitOn(response, "\n"), maxLength);
  }

  /** So nothing `_send_response` sends is over the limit. */
  lemma OutgoingFits(response: string, maxLength: int)
    requires maxLength >= 0 && AllFit(SplitOn(response, "\n"), maxLength)
    ensures AllFit(Outgoing(response, maxLength), maxLength)
  {
    ChunksFit(response, maxLength);
  }

  // ---------------------------------------------------------------------
  // Nothing is lost when every line is short and non-empty
  // ---------------------------------------------------------------------

  predicate ShortNonEmpty(lines: seq<string>, maxLength: int) {
    forall i :: 0 <= i < |lines| ==> 0 < |lines[i]| < maxLength
  }

  /** Growing the last piece by a separator and more text grows the join
      the same way. */
  lemma JoinWithExtendLast(parts: seq<string>, last: string, sep: string, more: string)
    ensures JoinWith(parts + [last + sep + more], sep) == JoinWith(parts + [last], sep) + sep + more
  {
    if parts != [] {
      JoinWithAppend(parts, last + sep + more, sep);
      JoinWithAppend(parts, last, sep);
    }
  }

  lemma {:induction false} PackJoins(lines: seq<string>, maxLength: int)
    requires ShortNonEmpty(lines, maxLength) && lines != []
    ensures var p := Pack(lines, maxLength);
      p.current != "" && JoinWith(p.chunks + [p.current], "\n") == JoinWith(lines, "\n")
    decreases |lines|
  {
    var init, line := lines[..|lines| - 1], lines[|lines| - 1];
    assert lines == init + [line];
    assert 0 < |line| < maxLength;
    if init == [] {
      assert Pack(lines, maxLength) == Packing([], line);
    } else {
      assert ShortNonEmpty(init, maxLength) by {
        assert forall i :: 0 <= i < |init| ==> init[i] == lines[i];
      }
      PackJoins(init, maxLength);
      var p := Pack(init, maxLength);
      JoinWithAppend(init, line, "\n");
      if |p.current| + |line| + 1 > maxLength {
        JoinWithAppend(p.chunks + [p.current], line, "\n");
      } else {
        JoinWithExtendLast(p.chunks, p.current, "\n", line);
      }
    }
  }

  /** When every line is non-empty and shorter than the limit, joining the
      chunks with `"\n"` gives back the reply exactly. */
  lemma ChunksRoundTrip(response: string, maxLength: int)
    requires ShortNonEmpty(SplitOn(response, "\n"), maxLength)
    ensures JoinWith(Chunks(response, maxLength), "\n") == response
  {
    PackJoins(SplitOn(response, "\n"), maxLength);
    JoinSplit(response, "\n");
  }

  // ---------------------------------------------------------------------
  // The edge cases of the `+ 1`
  // ---------------------------------------------------------------------

  /** Packing more lines only adds chunks after the ones already closed. */
  lemma {:induction false} PackChunksGrow(lines: seq<string>, k: nat, maxLength: int)
    requires k <= |lines|
    ensures var before := Pack(lines[..k], maxLength).chunks;
      |before| <= |Pack(lines, maxLength).chunks| && Pack(lines, maxLength).chunks[..|before|] == before
    decreases |lines|
  {
    if k < |lines| {
      var init := lines[..|lines| - 1];
      assert init[..k] == lines[..k];
      PackChunksGrow(init, k, maxLength);
    } else {
      assert lines[..k] == lines;
    }
  }

  /** A line of `maxLength` characters or more that arrives when nothing
      is pending closes an empty chunk and becomes the pending chunk. */
  lemma LongLineClosesEmptyChunk(p: Packing, line: string, maxLength: int)
    requires p.current == "" && |line| >= maxLength
    ensures PackLine(p, line, maxLength) == Packing(p.chunks + [""], line)
  {
  }

  /** Whenever line `k` is `maxLength` characters or more and nothing is
      pending before it, the chunk closed next is empty. */
  lemma PackLongLine(lines: seq<string>, k: nat, maxLength: int)
    requires k < |lines| && Pack(lines[..k], maxLength).current == "" && |lines[k]| >= maxLength
    ensures var n := |Pack(lines[..k], maxLength).chunks|;
      n < |Pack(lines, maxLength).chunks| && Pack(lines, maxLength).chunks[n] == ""
  {
    var before := Pack(lines[..k], maxLength);
    assert lines[..k + 1][..k] == lines[..k];
    LongLineClosesEmptyChunk(before, lines[k], maxLength);
    PackChunksGrow(lines, k + 1, maxLength);
  }

  /** The same for the chunks of a reply: a long line met when nothing is
      pending, first or later, gives an empty message. */
  lemma LongLineGivesEmptyChunk(response: string, k: nat, maxLength: int)
    requires k < |SplitOn(response, "\n")|
    requires Pack(SplitOn(response, "\n")[..k], maxLength).current == ""
    requires |SplitOn(response, "\n")[k]| >= maxLength
    ensures var n := |Pack(SplitOn(response, "\n")[..k], maxLength).chunks|;
      n < |Chunks(response, maxLength)| && Chunks(response, maxLength)[n] == ""
  {
    var lines := SplitOn(response, "\n");
    PackLongLine(lines, k, maxLength);
    var p := Pack(lines, maxLength);
    assert Chunks(response, maxLength)[..|p.chunks|] == p.chunks;
  }

  /** A first line of `maxLength` characters or more closes an empty chunk
      before anything else is sent. */
  lemma LongFirstLineGivesEmptyChunk(response: string, maxLength: int)
    requires |SplitOn(response, "\n")[0]| >= maxLength
    ensures |Chunks(response, maxLength)| >= 1 && Chunks(response, maxLength)[0] == ""
  {
    var lines := SplitOn(response, "\n");
    assert lines[..0] == [];
    LongLineGivesEmptyChunk(response, 0, maxLength);
  }

  /** A reply with no line break longer than the limit is sent as an empty
      chunk followed by the whole reply. For 2500 characters with no line
      break, the messages are `""` and the 2500 characters. */
  lemma UnbrokenLongReply(response: string, maxLength: int)
    requires maxLength >= 0 && '\n' !in response && |response| > maxLength
    ensures Outgoing(response, maxLength) == ["", response]
  {
    SingleLine(response);
    var lines := SplitOn(response, "\n");
    assert lines[..|lines| - 1] == [];
    assert Pack(lines, maxLength) == Packing([""], response);
  }

  lemma {:induction false} PackBlankLines(lines: seq<string>, maxLength: int)
    requires maxLength >= 1
    requires forall i :: 0 <= i < |lines| ==> lines[i] == ""
    ensures Pack(lines, maxLength) == Packing([], "")
    decreases |lines|
  {
    if lines != [] {
      PackBlankLines(lines[..|lines| - 1], maxLength);
    }
  }

  /** A reply made only of line breaks, longer than the limit, sends
      nothing at all: every blank line meets an empty pending chunk. */
  lemma BlankReplySendsNothing(response: string, maxLength: int)
    requires maxLength >= 1 && |response| > maxLength
    requires forall i :: 0 <= i < |response| ==> response[i] == '\n'
    ensures Outgoing(response, maxLength) == []
  {
    var lines := SplitOn(response, "\n");
    SplitOfSeparatorsOnly(response, '\n');
    assert forall i :: 0 <= i < |lines| ==> lines[i] in lines;
    PackBlankLines(lines, maxLength);
  }
}
