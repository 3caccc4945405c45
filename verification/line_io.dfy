/**
 The line protocol over the child's pipes: `recv`, a bounded line reader over a buffered pipe that
 delivers the stream in arbitrary pieces, and `send`.
 */
module LineIO {
  import opened Text
  import opened Utf8
  import opened Wrappers

  const NEWLINE: byte := 10

  // ---------------------------------------------------------------------------
  // What one line of a stream is
  // ---------------------------------------------------------------------------

  /** The length of the first line with its newline, or of the whole stream if there is none. */
  function LineLength(s: seq<byte>): (n: nat)
    ensures n <= |s| && (n == 0 <==> s == [])
    ensures forall j :: 0 <= j < n - 1 ==> s[j] != NEWLINE
    ensures n < |s| ==> n > 0 && s[n - 1] == NEWLINE
  {
    if s == [] then 0
    else if s[0] == NEWLINE then 1
    else 1 + LineLength(s[1..])
  }

  /** The bytes that one call of `recv` takes from the stream. */
  function FirstLine(s: seq<byte>, limit: nat): (line: seq<byte>)
    ensures line <= s
  {
    if LineLength(s) <= limit then s[..LineLength(s)] else s[..limit]
  }

  datatype RecvError = InvalidData

  /** What `recv` answers for the bytes it took. */
  function Answer(line: seq<byte>): Result<Option<seq<byte>>, RecvError> {
    if !ValidUtf8(line) then Err(InvalidData)
    else if line == [] then Ok(None)
    else Ok(Some(line))
  }

  // ---------------------------------------------------------------------------
  // The process side of the pipes
  // ---------------------------------------------------------------------------

  function Flatten(pieces: seq<seq<byte>>): seq<byte> {
    if pieces == [] then [] else pieces[0] + Flatten(pieces[1..])
  }

  lemma {:induction false} FlattenAppends(first: seq<seq<byte>>, later: seq<seq<byte>>)
    ensures Flatten(first + later) == Flatten(first) + Flatten(later)
    decreases |first|
  {
    if first == [] {
      assert first + later == later;
    } else {
      assert (first + later)[1..] == first[1..] + later;
      FlattenAppends(first[1..], later);
      SnocAssociates(first[0], Flatten(first[1..]), Flatten(later));
    }
  }

  /** Bytes after which a call of `recv` needs more: no line end yet, and the limit not reached. */
  predicate IsOpen(bytes: seq<byte>, limit: nat) {
    NEWLINE !in bytes && |bytes| < limit
  }

  /**
   The pipe has been read `k` more times, and the last of these reads was needed: without it the bytes
   at hand were an unfinished line.
   */
  ghost predicate ReadsOnDemand(buffer: seq<byte>, incoming: seq<seq<byte>>, left: seq<seq<byte>>, k: nat,
                                limit: nat)
  {
    && k <= |incoming| && left == incoming[k..]
    && (k > 0 ==> IsOpen(buffer + Flatten(incoming[..k - 1]), limit))
  }

  class Pipes {
    /** Everything written to the child's standard input. */
    var stdin: seq<byte>
    /** What the buffered reader holds and has not handed out yet. */
    var buffer: seq<byte>
    /** What each further read of the pipe will return, until it is empty and reads return EOF. */
    var incoming: seq<seq<byte>>
    /** Whether a read has come to the end of the pipe; while the child lives, such a read waits. */
    var reachedEof: bool
    const maxRecvLineBytes: nat

    ghost predicate Valid()
      reads this
    {
      maxRecvLineBytes > 0 && forall piece :: piece in incoming ==> piece != []
    }

    /** The rest of the stream, however it is cut into pieces. */
    ghost function Pending(): seq<byte>
      reads this
    {
      buffer + Flatten(incoming)
    }

    constructor (pieces: seq<seq<byte>>, maxRecvLineBytes: nat)
      requires maxRecvLineBytes > 0 && forall piece :: piece in pieces ==> piece != []
      ensures Valid() && Pending() == Flatten(pieces) && stdin == [] && !reachedEof
      ensures this.maxRecvLineBytes == maxRecvLineBytes
    {
      stdin, buffer, incoming, reachedEof := [], [], pieces, false;
      this.maxRecvLineBytes := maxRecvLineBytes;
    }

    /** `fill_buf`: reads the pipe only when nothing is buffered. */
    method FillBuf()
      requires Valid()
      modifies this`buffer, this`incoming, this`reachedEof
      ensures Valid() && Pending() == old(Pending())
      ensures buffer == [] ==> Pending() == [] && reachedEof
      ensures reachedEof == (old(reachedEof) || old(Pending()) == [])
      ensures if old(buffer) != [] || old(incoming) == [] then buffer == old(buffer) && incoming == old(incoming)
              else buffer == old(incoming)[0] && incoming == old(incoming)[1..]
    {
      if buffer == [] && incoming != [] {
        assert incoming[0] in incoming;
        assert forall piece :: piece in incoming[1..] ==> piece in incoming;
        buffer, incoming := incoming[0], incoming[1..];
      } else if buffer == [] {
        reachedEof := true;
      }
    }

    /** `consume`. */
    method Consume(n: nat)
      requires Valid() && n <= |buffer|
      modifies this`buffer
      ensures Valid() && buffer == old(buffer)[n..] && Pending() == old(Pending())[n..]
    {
      buffer := buffer[n..];
    }

    /** One round of the reader: what is buffered, up to the first newline and to `max` bytes. */
    method TakePiece(max: nat) returns (used: seq<byte>)
      requires Valid() && max > 0
      modifies this`buffer
      ensures Valid() && old(buffer) == used + buffer && old(Pending()) == used + Pending()
      ensures LineLength(used) == |used| <= max && (used == [] ==> old(buffer) == [])
    {
      var available := if |buffer| <= max then buffer else buffer[..max];
      used := available[..LineLength(available)];
      LengthOfLine(available);
      assert used <= buffer <= Pending();
      Consume(|used|);
    }

    /**
     Takes one line, or as much of it as the limit allows, from the stream.  The answer and what is
     left depend on the stream alone, not on how it arrived.  The pipe is read no further than the
     line needs, and to its end only if no line ends before it, so a call never waits for what comes
     after its line.
     */
    method Recv() returns (r: Result<Option<seq<byte>>, RecvError>)
      requires Valid()
      modifies this`buffer, this`incoming, this`reachedEof
      ensures Valid()
      ensures var line := FirstLine(old(Pending()), maxRecvLineBytes);
              r == Answer(line) && Pending() == old(Pending())[|line|..]
      ensures exists k: nat :: ReadsOnDemand(old(buffer), old(incoming), incoming, k, maxRecvLineBytes)
      ensures reachedEof == (old(reachedEof) || IsOpen(old(Pending()), maxRecvLineBytes))
    {
      var line: seq<byte> := [];
      var done := false;
      ghost var k := 0;
      while !done
        invariant Valid()
        invariant |line| <= maxRecvLineBytes
        invariant old(Pending()) == line + Pending()
        invariant !done ==> NEWLINE !in line
        invariant done ==> line == FirstLine(old(Pending()), maxRecvLineBytes)
        invariant ReadsOnDemand(old(buffer), old(incoming), incoming, k, maxRecvLineBytes)
        invariant !done ==> line + buffer == old(buffer) + Flatten(old(incoming)[..k])
        invariant reachedEof == (old(reachedEof) || (done && IsOpen(old(Pending()), maxRecvLineBytes)))
        decreases !done, maxRecvLineBytes - |line|
      {
        if |line| == maxRecvLineBytes {
          LineAtLimit(line, Pending());
          done := true;
        } else {
          if buffer == [] && incoming != [] {
            assert line + [] == line;
            ReadOnce(old(buffer), old(incoming), incoming, k, line, maxRecvLineBytes);
            k := k + 1;
          }
          FillBuf();
          var used := TakePiece(maxRecvLineBytes - |line|);
          SnocAssociates(line, used, buffer);
          SnocAssociates(line, used, Pending());
          done := used == [] || used[|used| - 1] == NEWLINE;
          if done {
            FinishedPiece(line, used, Pending(), maxRecvLineBytes);
          } else {
            UnfinishedPiece(used);
          }
          line := line + used;
        }
      }
      r := Answer(line);
    }

    /** `writeln!` and a flush. */
    method Send(line: seq<byte>)
      modifies this`stdin
      ensures stdin == old(stdin) + line + [NEWLINE]
    {
      stdin := stdin + line + [NEWLINE];
    }
  }

  /**
   A caller that receives until EOF or an error, from any stream at all.  It gets the lines up to
   the first that is not well-formed, in order; on a well-formed stream that is all of them exactly
   when no cut of the limit falls inside a character.
   */
  method RecvUntilEof(p: Pipes) returns (lines: seq<seq<byte>>, r: Result<(), RecvError>)
    requires p.Valid()
    modifies p`buffer, p`incoming, p`reachedEof
    ensures p.Valid()
    ensures lines <= AllLines(old(p.Pending()), p.maxRecvLineBytes) && forall line :: line in lines ==> ValidUtf8(line)
    ensures r.Ok? ==> lines == AllLines(old(p.Pending()), p.maxRecvLineBytes) && p.Pending() == []
    ensures r.Err? ==>
              exists bad :: !ValidUtf8(bad) && AllLines(old(p.Pending()), p.maxRecvLineBytes) ==
                                               lines + [bad] + AllLines(p.Pending(), p.maxRecvLineBytes)
    ensures ValidUtf8(old(p.Pending())) ==>
              (r.Ok? <==> CutsOnBoundaries(old(p.Pending()), p.maxRecvLineBytes))
  {
    lines := [];
    ghost var all := AllLines(p.Pending(), p.maxRecvLineBytes);
    while true
      invariant p.Valid()
      invariant all == lines + AllLines(p.Pending(), p.maxRecvLineBytes)
      invariant forall line :: line in lines ==> ValidUtf8(line)
      decreases |p.Pending()|
    {
      ghost var stream := p.Pending();
      NextAnswer(stream, p.maxRecvLineBytes);
      var next := p.Recv();
      if next.Err? {
        ghost var bad := FirstLine(stream, p.maxRecvLineBytes);
        SnocAssociates(lines, [bad], AllLines(p.Pending(), p.maxRecvLineBytes));
        assert bad == all[|lines|];
        BoundariesDecide(old(p.Pending()), p.maxRecvLineBytes);
        return lines, Err(next.error);
      }
      if next.value.None? {
        BoundariesDecide(old(p.Pending()), p.maxRecvLineBytes);
        return lines, Ok(());
      }
      SnocAssociates(lines, [next.value.value], AllLines(p.Pending(), p.maxRecvLineBytes));
      lines := lines + [next.value.value];
    }
  }

  /** What was read of the pipe before the last of `k` reads is not yet all of `wanted` bytes. */
  ghost predicate ReadsAtMost(buffer: seq<byte>, incoming: seq<seq<byte>>, left: seq<seq<byte>>, k: nat, wanted: int)
  {
    && k <= |incoming| && left == incoming[k..]
    && (k > 0 ==> |buffer| + |Flatten(incoming[..k - 1])| < wanted)
  }

  /** How many bytes have been taken since the reader held `buffer0` and the pipe `incoming0`. */
  ghost function Taken(buffer0: seq<byte>, incoming0: seq<seq<byte>>, buffer: seq<byte>,
                       incoming: seq<seq<byte>>): int
  {
    |buffer0| + |Flatten(incoming0)| - |buffer| - |Flatten(incoming)|
  }

  /** One line that was sent; `k` counts the reads since the pipe held `incoming0`. */
  method RecvSent(p: Pipes, ghost line: seq<byte>, ghost after: seq<byte>,
                  ghost buffer0: seq<byte>, ghost incoming0: seq<seq<byte>>, ghost k: nat)
    returns (r: Result<Option<seq<byte>>, RecvError>, ghost k': nat)
    requires p.Valid() && p.Pending() == line + [NEWLINE] + after
    requires ValidUtf8(line) && FitsOneRecv(line, p.maxRecvLineBytes)
    requires ReadsAtMost(buffer0, incoming0, p.incoming, k, Taken(buffer0, incoming0, p.buffer, p.incoming))
    modifies p`buffer, p`incoming, p`reachedEof
    ensures p.Valid() && p.Pending() == after
    ensures r == Ok(Some(line + [NEWLINE])) && p.reachedEof == old(p.reachedEof)
    ensures ReadsAtMost(buffer0, incoming0, p.incoming, k', Taken(buffer0, incoming0, p.buffer, p.incoming))
  {
    ghost var buffer, incoming := p.buffer, p.incoming;
    SentLineIsFirst(line, after, p.maxRecvLineBytes);
    r := p.Recv();
    ghost var more: nat :| ReadsOnDemand(buffer, incoming, p.incoming, more, p.maxRecvLineBytes);
    ReadsAddUp(buffer0, incoming0, k, buffer, incoming, p.incoming, more, line, p.maxRecvLineBytes);
    assert |p.Pending()| == |buffer + Flatten(incoming)| - |line| - 1;
    k' := k + more;
  }

  /**
   A caller that receives as many lines as it sent to a child that echoes them.  It never waits for the
   child to exit, and reads no piece of the pipe once it has been given all the lines.
   */
  method RecvLines(p: Pipes, n: nat, ghost lines: seq<seq<byte>>, ghost rest: seq<byte>)
    returns (got: seq<Result<Option<seq<byte>>, RecvError>>)
    requires p.Valid() && n == |lines|
    requires p.Pending() == Flatten(Terminated(lines)) + rest
    requires forall line :: line in lines ==> ValidUtf8(line) && FitsOneRecv(line, p.maxRecvLineBytes)
    modifies p`buffer, p`incoming, p`reachedEof
    ensures p.Valid() && p.Pending() == rest
    ensures |got| == n && forall i :: 0 <= i < n ==> got[i] == Ok(Some(lines[i] + [NEWLINE]))
    ensures p.reachedEof == old(p.reachedEof)
    ensures exists k: nat ::
              ReadsAtMost(old(p.buffer), old(p.incoming), p.incoming, k, |Flatten(Terminated(lines))|)
  {
    got := [];
    ghost var buffer0, incoming0, k: nat := p.buffer, p.incoming, 0;
    for i := 0 to n
      invariant p.Valid() && p.Pending() == Flatten(Terminated(lines[i..])) + rest
      invariant |got| == i && forall j :: 0 <= j < i ==> got[j] == Ok(Some(lines[j] + [NEWLINE]))
      invariant p.reachedEof == old(p.reachedEof)
      invariant ReadsAtMost(buffer0, incoming0, p.incoming, k, Taken(buffer0, incoming0, p.buffer, p.incoming))
    {
      assert lines[i..][1..] == lines[i + 1..];
      NextSentLine(lines[i..], rest);
      var r;
      r, k := RecvSent(p, lines[i], Flatten(Terminated(lines[i + 1..])) + rest, buffer0, incoming0, k);
      got := got + [r];
    }
    assert lines[n..] == [];
    assert Taken(buffer0, incoming0, p.buffer, p.incoming) == |Flatten(Terminated(lines))|;
    assert ReadsAtMost(buffer0, incoming0, p.incoming, k, |Flatten(Terminated(lines))|);
  }

  /** A caller that sends several lines. */
  method SendAll(p: Pipes, lines: seq<seq<byte>>)
    modifies p`stdin
    ensures p.stdin == old(p.stdin) + Flatten(Terminated(lines))
  {
    for i := 0 to |lines|
      invariant p.stdin + Flatten(Terminated(lines[i..])) == old(p.stdin) + Flatten(Terminated(lines))
    {
      assert Terminated(lines[i..])[1..] == Terminated(lines[i + 1..]);
      p.Send(lines[i]);
    }
    assert lines[|lines|..] == [];
  }

  // ---------------------------------------------------------------------------
  // When the reader may stop
  // ---------------------------------------------------------------------------

  lemma {:induction false} LengthSkips(line: seq<byte>, rest: seq<byte>)
    requires NEWLINE !in line
    ensures LineLength(line + rest) == |line| + LineLength(rest)
    decreases |line|
  {
    if line == [] {
      assert line + rest == rest;
    } else {
      assert (line + rest)[1..] == line[1..] + rest;
      assert line[0] in line;
      LengthSkips(line[1..], rest);
    }
  }

  /** Without its last piece, what one call has read of a stream that starts with a line is within that line. */
  lemma ReadsStayInLine(buffer: seq<byte>, incoming: seq<seq<byte>>, left: seq<seq<byte>>, k: nat, line: seq<byte>,
                        limit: nat)
    requires ReadsOnDemand(buffer, incoming, left, k, limit) && k > 0
    requires line + [NEWLINE] <= buffer + Flatten(incoming)
    ensures |buffer| + |Flatten(incoming[..k - 1])| <= |line|
  {
    var before := buffer + Flatten(incoming[..k - 1]);
    FlattenAppends(incoming[..k - 1], incoming[k - 1..]);
    assert incoming == incoming[..k - 1] + incoming[k - 1..];
    SnocAssociates(buffer, Flatten(incoming[..k - 1]), Flatten(incoming[k - 1..]));
    var stream := buffer + Flatten(incoming);
    assert stream[|line|] == (line + [NEWLINE])[|line|] == NEWLINE;
    assert forall j :: 0 <= j < |before| ==> before[j] == stream[j] != NEWLINE;
  }

  lemma FlattenSplits(pieces: seq<seq<byte>>, k: nat)
    requires k <= |pieces|
    ensures |Flatten(pieces)| == |Flatten(pieces[..k])| + |Flatten(pieces[k..])|
  {
    assert pieces == pieces[..k] + pieces[k..];
    FlattenAppends(pieces[..k], pieces[k..]);
  }

  /** The bytes read so far are those taken and those that are buffered. */
  lemma TakenAndBuffered(incoming0: seq<seq<byte>>, k: nat, more: nat)
    requires k + more <= |incoming0|
    ensures |Flatten(incoming0[..k + more])| - |Flatten(incoming0[k..][..more])|
            == |Flatten(incoming0)| - |Flatten(incoming0[k..])|
  {
    FlattenSplits(incoming0, k);
    FlattenSplits(incoming0[..k + more], k);
    assert incoming0[..k + more][..k] == incoming0[..k];
    assert incoming0[..k + more][k..] == incoming0[k..][..more];
  }

  lemma DropTwice<T>(s: seq<T>, k: nat, more: nat)
    requires k + more <= |s|
    ensures s[k..][more..] == s[k + more..]
  {
  }

  /** The reads of one more call, which takes a whole line, after the reads of earlier calls. */
  lemma ReadsAddUp(buffer0: seq<byte>, incoming0: seq<seq<byte>>, k: nat, buffer: seq<byte>,
                   incoming: seq<seq<byte>>, left: seq<seq<byte>>, more: nat, line: seq<byte>, limit: nat)
    requires ReadsAtMost(buffer0, incoming0, incoming, k, Taken(buffer0, incoming0, buffer, incoming))
    requires ReadsOnDemand(buffer, incoming, left, more, limit)
    requires line + [NEWLINE] <= buffer + Flatten(incoming)
    ensures ReadsAtMost(buffer0, incoming0, left, k + more,
                        Taken(buffer0, incoming0, buffer, incoming) + |line| + 1)
  {
    DropTwice(incoming0, k, more);
    if more > 0 {
      ReadsStayInLine(buffer, incoming, left, more, line, limit);
      TakenAndBuffered(incoming0, k, more - 1);
      assert k + (more - 1) == k + more - 1;
    }
  }

  /** Reading once more when nothing is buffered and the line is unfinished is reading on demand. */
  lemma ReadOnce(buffer: seq<byte>, incoming: seq<seq<byte>>, left: seq<seq<byte>>, k: nat, line: seq<byte>,
                 limit: nat)
    requires ReadsOnDemand(buffer, incoming, left, k, limit) && left != []
    requires line == buffer + Flatten(incoming[..k]) && IsOpen(line, limit)
    ensures ReadsOnDemand(buffer, incoming, left[1..], k + 1, limit)
    ensures line + left[0] == buffer + Flatten(incoming[..k + 1])
  {
    var last := [left[0]];
    assert last[1..] == [] && Flatten(last) == left[0] + [] == left[0];
    assert incoming[..k + 1] == incoming[..k] + last;
    FlattenAppends(incoming[..k], last);
    SnocAssociates(buffer, Flatten(incoming[..k]), left[0]);
  }

  lemma LineAtLimit(line: seq<byte>, rest: seq<byte>)
    requires NEWLINE !in line
    ensures FirstLine(line + rest, |line|) == line
  {
    LengthSkips(line, rest);
    assert (line + rest)[..|line|] == line;
  }

  lemma {:induction false} LengthOfTerminated(used: seq<byte>, rest: seq<byte>)
    requires used != [] && used[|used| - 1] == NEWLINE && LineLength(used) == |used|
    ensures LineLength(used + rest) == |used|
    decreases |used|
  {
    if |used| > 1 {
      assert (used + rest)[1..] == used[1..] + rest;
      LengthOfTerminated(used[1..], rest);
    }
  }

  lemma {:induction false} LengthOfLine(s: seq<byte>)
    ensures LineLength(s[..LineLength(s)]) == LineLength(s)
    decreases |s|
  {
    if s != [] && s[0] != NEWLINE {
      LengthOfLine(s[1..]);
      assert s[..LineLength(s)][1..] == s[1..][..LineLength(s[1..])];
    }
  }

  /** A piece that is taken whole and does not end in a newline has none. */
  lemma UnfinishedPiece(used: seq<byte>)
    requires LineLength(used) == |used| && used != [] && used[|used| - 1] != NEWLINE
    ensures NEWLINE !in used
  {
  }

  /** A piece that ends where its first line ends, if it is empty or terminated, completes the line. */
  lemma FinishedPiece(line: seq<byte>, used: seq<byte>, left: seq<byte>, limit: nat)
    requires NEWLINE !in line && |line| + |used| <= limit
    requires LineLength(used) == |used|
    requires if used == [] then left == [] else used[|used| - 1] == NEWLINE
    ensures line + used == FirstLine(line + used + left, limit)
  {
    if used == [] {
      LineAtEnd(line, limit);
      assert line + used == line;
      assert line + left == line + [];
    } else {
      LineEnds(line, used, left, limit);
    }
  }

  lemma LineAtEnd(line: seq<byte>, limit: nat)
    requires NEWLINE !in line && |line| <= limit
    ensures FirstLine(line + [], limit) == line
  {
    LengthSkips(line, []);
    assert line + [] == line;
  }

  lemma LineEnds(line: seq<byte>, used: seq<byte>, left: seq<byte>, limit: nat)
    requires NEWLINE !in line && |line| + |used| <= limit
    requires used != [] && used[|used| - 1] == NEWLINE && LineLength(used) == |used|
    ensures FirstLine(line + used + left, limit) == line + used
  {
    LengthOfTerminated(used, left);
    LengthSkips(line, used + left);
    assert line + used + left == line + (used + left);
    assert (line + used + left)[..|line| + |used|] == line + used;
  }

  // ---------------------------------------------------------------------------
  // The whole stream, call after call
  // ---------------------------------------------------------------------------

  /** What successive calls of `recv` take from a stream, up to the first that takes nothing. */
  function AllLines(s: seq<byte>, limit: nat): seq<seq<byte>>
    requires limit > 0
    decreases |s|
  {
    if s == [] then []
    else
      var line := FirstLine(s, limit);
      [line] + AllLines(s[|line|..], limit)
  }

  /** A piece that `recv` may answer when it is, or is not, the last of the stream. */
  predicate IsPiece(line: seq<byte>, limit: nat, last: bool) {
    && 0 < |line| <= limit
    && NEWLINE !in line[..|line| - 1]
    && (line[|line| - 1] == NEWLINE || |line| == limit || last)
  }

  ghost predicate ArePieces(lines: seq<seq<byte>>, limit: nat) {
    forall i :: 0 <= i < |lines| ==> IsPiece(lines[i], limit, i == |lines| - 1)
  }

  lemma FirstLineIsPiece(s: seq<byte>, limit: nat)
    requires s != [] && limit > 0
    ensures var line := FirstLine(s, limit); IsPiece(line, limit, |line| == |s|)
  {
    var line := FirstLine(s, limit);
    assert forall j :: 0 <= j < |line| - 1 ==> line[..|line| - 1][j] == s[j];
  }

  /** The pieces make up the stream, and each is of the promised form. */
  lemma {:induction false} LinesMakeUpStream(s: seq<byte>, limit: nat)
    requires limit > 0
    ensures Flatten(AllLines(s, limit)) == s && ArePieces(AllLines(s, limit), limit)
    decreases |s|
  {
    if s != [] {
      var line := FirstLine(s, limit);
      FirstLineIsPiece(s, limit);
      LinesMakeUpStream(s[|line|..], limit);
      var lines := AllLines(s, limit);
      assert lines[1..] == AllLines(s[|line|..], limit);
      assert s[|line|..] == [] <==> |line| == |s|;
      forall i | 0 < i < |lines| ensures IsPiece(lines[i], limit, i == |lines| - 1) {
        assert lines[i] == lines[1..][i - 1];
      }
    }
  }

  /** A piece that is followed by others is the first line of what they make up. */
  lemma PieceIsFirstLine(line: seq<byte>, rest: seq<byte>, limit: nat)
    requires limit > 0 && IsPiece(line, limit, rest == [])
    ensures FirstLine(line + rest, limit) == line
  {
    var n := |line| - 1;
    assert line == line[..n] + [line[n]];
    assert line + rest == line[..n] + ([line[n]] + rest);
    LengthSkips(line[..n], [line[n]] + rest);
    if line[n] != NEWLINE {
      assert ([line[n]] + rest)[1..] == rest;
    }
    assert (line + rest)[..|line|] == line;
  }

  /** There is only one way to cut a stream into pieces of that form. */
  lemma {:induction false} PiecesAreUnique(lines: seq<seq<byte>>, limit: nat)
    requires limit > 0 && ArePieces(lines, limit)
    ensures AllLines(Flatten(lines), limit) == lines
    decreases |lines|
  {
    if lines != [] {
      var rest := lines[1..];
      forall i | 0 <= i < |rest| ensures IsPiece(rest[i], limit, i == |rest| - 1) {
        assert rest[i] == lines[i + 1];
      }
      PiecesAreUnique(rest, limit);
      assert rest != [] ==> IsPiece(rest[0], limit, |rest| == 1) && Flatten(rest) != [];
      PieceIsFirstLine(lines[0], Flatten(rest), limit);
      assert Flatten(lines)[|lines[0]|..] == Flatten(rest);
    }
  }

  /** The two together characterise what successive `recv` calls take. */
  lemma RecvTakesExactly(s: seq<byte>, limit: nat, lines: seq<seq<byte>>)
    requires limit > 0
    ensures lines == AllLines(s, limit) <==> Flatten(lines) == s && ArePieces(lines, limit)
  {
    LinesMakeUpStream(s, limit);
    if Flatten(lines) == s && ArePieces(lines, limit) {
      PiecesAreUnique(lines, limit);
    }
  }

  /** EOF is answered at the end of the stream and nowhere else. */
  lemma NoneOnlyAtEof(s: seq<byte>, limit: nat)
    requires limit > 0
    ensures Answer(FirstLine(s, limit)) == Ok(None) <==> s == []
  {
    if s != [] {
      FirstLineIsPiece(s, limit);
    }
  }

  /** One call: EOF at the end of the stream, else the next line if it is well-formed. */
  lemma NextAnswer(s: seq<byte>, limit: nat)
    requires limit > 0
    ensures var line := FirstLine(s, limit);
            && (s == [] ==> Answer(line) == Ok(None))
            && (s != [] ==> line != [] && Answer(line) == if ValidUtf8(line) then Ok(Some(line)) else Err(InvalidData))
            && (s != [] ==> AllLines(s, limit) == [line] + AllLines(s[|line|..], limit))
  {
    NoneOnlyAtEof(s, limit);
  }

  // ---------------------------------------------------------------------------
  // When a call fails on well-formed text
  // ---------------------------------------------------------------------------

  /** The limit ends the next line, and ends it inside a character. */
  predicate CutsCharacter(s: seq<byte>, limit: nat) {
    limit < LineLength(s) && IsTail(s[limit])
  }

  /** On well-formed text a call fails exactly if the limit cuts a character; the rest stays well-formed if not. */
  lemma FailsOnlyInsideCharacter(s: seq<byte>, limit: nat)
    requires ValidUtf8(s) && limit > 0
    ensures Answer(FirstLine(s, limit)).Err? <==> CutsCharacter(s, limit)
    ensures !CutsCharacter(s, limit) ==> ValidUtf8(s[|FirstLine(s, limit)|..])
  {
    var n := |FirstLine(s, limit)|;
    PrefixIsValid(s, n);
    if LineLength(s) <= limit && n < |s| {
      AsciiEndsCharacter(s, n - 1);
    }
    if !CutsCharacter(s, limit) {
      SuffixIsValid(s, n);
    }
  }

  /** No call cuts a character, from here to the end of the stream. */
  ghost predicate CutsOnBoundaries(s: seq<byte>, limit: nat)
    requires limit > 0
    decreases |s|
  {
    s != [] ==> !CutsCharacter(s, limit) && CutsOnBoundaries(s[|FirstLine(s, limit)|..], limit)
  }

  /** Well-formed text is answered line by line to its end exactly if no call cuts a character. */
  lemma {:induction false} BoundariesDecide(s: seq<byte>, limit: nat)
    requires limit > 0
    ensures ValidUtf8(s) ==>
              ((forall line :: line in AllLines(s, limit) ==> ValidUtf8(line)) <==> CutsOnBoundaries(s, limit))
    decreases |s|
  {
    if s != [] && ValidUtf8(s) {
      var line := FirstLine(s, limit);
      FailsOnlyInsideCharacter(s, limit);
      NextAnswer(s, limit);
      BoundariesDecide(s[|line|..], limit);
      assert line in AllLines(s, limit);
      assert forall l :: l in AllLines(s, limit) <==> l == line || l in AllLines(s[|line|..], limit);
    }
  }

  /** An ASCII stream is well-formed and never makes `recv` fail. */
  lemma {:induction false} AsciiNeverFails(s: seq<byte>, limit: nat)
    requires limit > 0 && IsAscii(s)
    ensures ValidUtf8(s) && CutsOnBoundaries(s, limit)
    decreases |s|
  {
    AsciiIsValid(s);
    if s != [] {
      var n := |FirstLine(s, limit)|;
      assert forall b :: b in s[n..] ==> b in s;
      assert limit < LineLength(s) ==> s[limit] in s;
      AsciiNeverFails(s[n..], limit);
    }
  }

  /** Other streams may: whatever the limit, it cuts some two-byte character in half. */
  lemma LimitMayCutACharacter(limit: nat)
    requires limit > 0
    ensures exists s :: ValidUtf8(s) && CutsCharacter(s, limit) && Answer(FirstLine(s, limit)) == Err(InvalidData)
  {
    var head: seq<byte> := seq(limit - 1, _ => 0x61);
    var accented: seq<byte> := [0xc3, 0xa9];
    assert ValidUtf8(accented) by {
      assert accented[2..] == [];
    }
    AsciiIsValid(head);
    ValidAppends(head, accented);
    var s := head + accented;
    LengthSkips(s, []);
    assert s + [] == s;
    FailsOnlyInsideCharacter(s, limit);
  }

  // ---------------------------------------------------------------------------
  // Send, echo, receive
  // ---------------------------------------------------------------------------

  /** What `send` writes for each line, one after the other. */
  function Terminated(lines: seq<seq<byte>>): (sent: seq<seq<byte>>)
    ensures |sent| == |lines| && forall i :: 0 <= i < |lines| ==> sent[i] == lines[i] + [NEWLINE]
  {
    seq(|lines|, i requires 0 <= i < |lines| => lines[i] + [NEWLINE])
  }

  predicate FitsOneRecv(line: seq<byte>, limit: nat) {
    NEWLINE !in line && |line| < limit
  }

  /**
   Lines sent to a child that echoes bytes unchanged come back one for one, each with its newline,
   exactly when every line is newline-free and shorter than the limit.
   */
  lemma EchoRoundTrip(lines: seq<seq<byte>>, limit: nat)
    requires limit > 0
    ensures AllLines(Flatten(Terminated(lines)), limit) == Terminated(lines)
            <==> forall line :: line in lines ==> FitsOneRecv(line, limit)
  {
    var sent := Terminated(lines);
    RecvTakesExactly(Flatten(sent), limit, sent);
    forall i | 0 <= i < |lines|
      ensures FitsOneRecv(lines[i], limit) <==> IsPiece(sent[i], limit, i == |lines| - 1)
    {
      assert sent[i][..|sent[i]| - 1] == lines[i];
    }
    if ArePieces(sent, limit) {
      forall line | line in lines ensures FitsOneRecv(line, limit) {
        var i :| 0 <= i < |lines| && lines[i] == line;
        assert IsPiece(sent[i], limit, i == |lines| - 1);
      }
    }
  }

  /** A line given to `send` is a string; with its newline it is one again, so `recv` answers it. */
  lemma SentLineIsAnswered(line: seq<byte>)
    requires ValidUtf8(line)
    ensures Answer(line + [NEWLINE]) == Ok(Some(line + [NEWLINE]))
  {
    AsciiIsValid([NEWLINE]);
    ValidAppends(line, [NEWLINE]);
  }

  /** The next call answers the next line that was sent, whatever follows. */
  lemma SentLineIsFirst(line: seq<byte>, after: seq<byte>, limit: nat)
    requires ValidUtf8(line) && FitsOneRecv(line, limit)
    ensures var stream, sent := line + [NEWLINE] + after, line + [NEWLINE];
            && FirstLine(stream, limit) == sent && Answer(sent) == Ok(Some(sent)) && !IsOpen(stream, limit)
            && sent <= stream && stream[|sent|..] == after
  {
    var sent := line + [NEWLINE];
    assert sent[..|sent| - 1] == line;
    PieceIsFirstLine(sent, after, limit);
    SentLineIsAnswered(line);
    DropPrefix(sent, after, 0);
    assert (sent + after)[|line|] == NEWLINE;
  }

  lemma NextSentLine(lines: seq<seq<byte>>, rest: seq<byte>)
    requires lines != []
    ensures Flatten(Terminated(lines)) + rest == lines[0] + [NEWLINE] + (Flatten(Terminated(lines[1..])) + rest)
  {
    assert Terminated(lines)[1..] == Terminated(lines[1..]);
    SnocAssociates(lines[0] + [NEWLINE], Flatten(Terminated(lines[1..])), rest);
  }
}
