/**
 `follow_log_file` (cli/src/device_service.rs): polling a log file and printing
 what was appended. The file is whatever other processes make of it, so each
 poll brings the length `metadata` reported and the contents a read would find
 a moment later.
 */
module LogFollow {
  import opened Common

  type Bytes = seq<bv8>

  datatype Poll =
    | StatFailed
    | Stat(len: nat, contents: Option<Bytes>) // contents: None when opening or reading fails

  /** One read: the offset it started from, what it printed, the offset kept afterwards. */
  datatype Chunk = Chunk(start: nat, bytes: Bytes, next: nat)

  datatype Trace = Trace(chunks: seq<Chunk>, offset: nat, failed: bool)

  /** Reading from an offset past the end yields nothing. */
  function ReadFrom(contents: Bytes, offset: nat): Bytes {
    if offset <= |contents| then contents[offset..] else []
  }

  function Follow(offset: nat, polls: seq<Poll>): Trace
    decreases |polls|
  {
    if polls == [] then
      Trace([], offset, false)
    else
      match polls[0]
      case StatFailed => Follow(0, polls[1..])
      case Stat(len, contents) =>
        var start := if len < offset then 0 else offset;
        if len == start then
          Follow(start, polls[1..])
        else if contents.None? then
          Trace([], start, true)
        else
          var rest := Follow(len, polls[1..]);
          Trace([Chunk(start, ReadFrom(contents.value, start), len)] + rest.chunks, rest.offset, rest.failed)
  }

  function Printed(chunks: seq<Chunk>): Bytes {
    if chunks == [] then [] else chunks[0].bytes + Printed(chunks[1..])
  }

  /** The polling loop, stopped when the given polls are used up. */
  method FollowLogFile(initial: nat, polls: seq<Poll>) returns (output: Bytes, offset: nat, failed: bool)
    ensures output == Printed(Follow(initial, polls).chunks)
    ensures offset == Follow(initial, polls).offset
    ensures failed == Follow(initial, polls).failed
  {
    output, offset, failed := [], initial, false;
    for i := 0 to |polls|
      invariant !failed
      invariant output + Printed(Follow(offset, polls[i..]).chunks) == Printed(Follow(initial, polls).chunks)
      invariant Follow(offset, polls[i..]).offset == Follow(initial, polls).offset
      invariant Follow(offset, polls[i..]).failed == Follow(initial, polls).failed
    {
      assert polls[i..][1..] == polls[i + 1..];
      match polls[i]
      case StatFailed =>
        offset := 0;
      case Stat(len, contents) =>
        if len < offset {
          offset := 0;
        }
        if len != offset {
          if contents.None? {
            assert Follow(offset, polls[i..]).chunks == [];
            return output, offset, true;
          }
          var bytes := ReadFrom(contents.value, offset);
          ghost var rest := Follow(len, polls[i + 1..]).chunks;
          assert ([Chunk(offset, bytes, len)] + rest)[1..] == rest;
          output := output + bytes;
          offset := len;
        }
    }
    assert polls[|polls|..] == [];
  }

  // ------------------------------------------------------- any file at all

  /** The offset before the i-th poll: what the poll before it saw. */
  function OffsetBefore(initial: nat, polls: seq<Poll>, i: nat): nat
    requires i <= |polls|
  {
    if i == 0 then initial else if polls[i - 1].StatFailed? then 0 else polls[i - 1].len
  }

  /** Where the i-th poll reads from, if it does: over again from 0 when the file got shorter. */
  function ReadStart(initial: nat, polls: seq<Poll>, i: nat): nat
    requires i < |polls| && polls[i].Stat?
  {
    if polls[i].len < OffsetBefore(initial, polls, i) then 0 else OffsetBefore(initial, polls, i)
  }

  /** The i-th poll reads the file: its length is not what has been accounted for. */
  predicate Reads(initial: nat, polls: seq<Poll>, i: nat)
    requires i < |polls|
  {
    polls[i].Stat? && polls[i].len != ReadStart(initial, polls, i)
  }

  /** The i-th poll cannot open or read the file. */
  predicate Breaks(initial: nat, polls: seq<Poll>, i: nat)
    requires i < |polls|
  {
    Reads(initial, polls, i) && polls[i].contents.None?
  }

  /** What the i-th poll prints. */
  function PrintedBy(initial: nat, polls: seq<Poll>, i: nat): Bytes
    requires i < |polls| && !Breaks(initial, polls, i)
  {
    if Reads(initial, polls, i) then ReadFrom(polls[i].contents.value, ReadStart(initial, polls, i)) else []
  }

  lemma {:induction false} FollowConcat(initial: nat, a: seq<Poll>, b: seq<Poll>)
    ensures var t, u := Follow(initial, a), Follow(Follow(initial, a).offset, b);
      if t.failed then Follow(initial, a + b) == t
      else Follow(initial, a + b).failed == u.failed && Follow(initial, a + b).offset == u.offset &&
           Printed(Follow(initial, a + b).chunks) == Printed(t.chunks) + Printed(u.chunks)
    decreases |a|
  {
    if a == [] {
      assert a + b == b;
    } else {
      assert (a + b)[1..] == a[1..] + b;
      match a[0]
      case StatFailed => FollowConcat(0, a[1..], b);
      case Stat(len, contents) =>
        var start := if len < initial then 0 else initial;
        if len == start {
          FollowConcat(start, a[1..], b);
        } else if contents.Some? {
          FollowConcat(len, a[1..], b);
          var c := Chunk(start, ReadFrom(contents.value, start), len);
          var rest := Follow(len, a[1..]).chunks;
          assert ([c] + rest)[1..] == rest;
          assert ([c] + Follow(len, a[1..] + b).chunks)[1..] == Follow(len, a[1..] + b).chunks;
        }
    }
  }

  /** For every file, growing, truncated or failing: following ends with an error exactly when a
      poll that has to read cannot, until then the offset is what the last poll saw, */
  lemma {:induction false} FailsExactlyWhenAReadFails(initial: nat, polls: seq<Poll>)
    ensures Follow(initial, polls).failed <==> exists i :: 0 <= i < |polls| && Breaks(initial, polls, i)
    ensures !Follow(initial, polls).failed ==> Follow(initial, polls).offset == OffsetBefore(initial, polls, |polls|)
  {
    if polls != [] {
      var n := |polls| - 1;
      var before := polls[..n];
      FailsExactlyWhenAReadFails(initial, before);
      assert polls == before + [polls[n]];
      FollowConcat(initial, before, [polls[n]]);
      forall i | 0 <= i < n ensures Breaks(initial, before, i) <==> Breaks(initial, polls, i) {}
      assert OffsetBefore(initial, before, n) == OffsetBefore(initial, polls, n);
      if Follow(initial, before).failed {
        var i :| 0 <= i < n && Breaks(initial, before, i);
        assert Breaks(initial, polls, i);
      } else {
        FollowOne(OffsetBefore(initial, polls, n), polls[n]);
        assert Breaks(OffsetBefore(initial, polls, n), [polls[n]], 0) <==> Breaks(initial, polls, n);
      }
    }
  }

  lemma FollowOne(offset: nat, poll: Poll)
    ensures var t := Follow(offset, [poll]);
      && t.failed == Breaks(offset, [poll], 0)
      && (!t.failed ==> t.offset == (if poll.StatFailed? then 0 else poll.len) &&
                        Printed(t.chunks) == PrintedBy(offset, [poll], 0))
  {
    assert [poll][1..] == [];
    if Reads(offset, [poll], 0) && poll.contents.Some? {
      var c := Chunk(ReadStart(offset, [poll], 0), PrintedBy(offset, [poll], 0), poll.len);
      assert Follow(offset, [poll]).chunks == [c] + [];
      assert ([c] + [])[1..] == [];
      assert Printed([c] + []) == c.bytes + [] == c.bytes;
    }
  }

  /** and each further poll prints what the file holds from where reading starts. */
  lemma PrintsPollByPoll(initial: nat, polls: seq<Poll>)
    requires polls != [] && !Follow(initial, polls).failed
    ensures var n := |polls| - 1;
      && !Follow(initial, polls[..n]).failed && !Breaks(initial, polls, n)
      && Printed(Follow(initial, polls).chunks)
           == Printed(Follow(initial, polls[..n]).chunks) + PrintedBy(initial, polls, n)
  {
    hide Follow, Printed, Breaks, PrintedBy, ReadStart, Reads;
    var n := |polls| - 1;
    var before, last := polls[..n], [polls[n]];
    assert polls == before + last;
    FollowConcat(initial, before, last);
    FailsExactlyWhenAReadFails(initial, before);
    assert OffsetBefore(initial, before, n) == OffsetBefore(initial, polls, n);
    FollowOne(OffsetBefore(initial, polls, n), polls[n]);
    OnePollAlone(initial, polls, n);
  }

  /** A poll does what it would do alone from the offset before it. */
  lemma OnePollAlone(initial: nat, polls: seq<Poll>, i: nat)
    requires i < |polls|
    ensures var offset, alone := OffsetBefore(initial, polls, i), [polls[i]];
      && (Breaks(offset, alone, 0) <==> Breaks(initial, polls, i))
      && (!Breaks(initial, polls, i) ==> PrintedBy(offset, alone, 0) == PrintedBy(initial, polls, i))
  {
  }

  // ------------------------------------------------------- growing log files

  /** The file only grows; looking at it may fail, but reading it does not, and each read sees
      at least what was counted. */
  predicate Growing(before: Bytes, polls: seq<Poll>)
    decreases |polls|
  {
    polls == [] ||
    match polls[0]
    case StatFailed => Growing(before, polls[1..])
    case Stat(len, contents) =>
      && contents.Some? && |before| <= len <= |contents.value| && before <= contents.value
      && Growing(contents.value, polls[1..])
  }

  function Final(before: Bytes, polls: seq<Poll>): Bytes
    requires Growing(before, polls)
    decreases |polls|
  {
    if polls == [] then before
    else if polls[0].StatFailed? then Final(before, polls[1..])
    else Final(polls[0].contents.value, polls[1..])
  }

  lemma {:induction false} FinalExtends(before: Bytes, polls: seq<Poll>)
    requires Growing(before, polls)
    ensures before <= Final(before, polls)
    decreases |polls|
  {
    if polls != [] {
      FinalExtends(if polls[0].StatFailed? then before else polls[0].contents.value, polls[1..]);
    }
  }

  /** How far the file has been accounted for: the last length that was seen. */
  function Reach(offset: nat, polls: seq<Poll>): nat
    decreases |polls|
  {
    if polls == [] then offset
    else Reach(if polls[0].StatFailed? then offset else polls[0].len, polls[1..])
  }

  /** Each chunk starts where the previous one was accounted for, or over again at 0, and prints
      at least up to `next`. */
  predicate Linked(start: nat, chunks: seq<Chunk>)
    decreases |chunks|
  {
    chunks == [] ||
    ((chunks[0].start == start || chunks[0].start == 0) && chunks[0].start < chunks[0].next &&
     chunks[0].next - chunks[0].start <= |chunks[0].bytes| &&
     Linked(chunks[0].next, chunks[1..]))
  }

  /** What a chunk printed up to `next` are the file's bytes at that place. */
  predicate Faithful(final: Bytes, chunks: seq<Chunk>) {
    forall c :: c in chunks ==>
      c.start <= c.next <= |final| && c.next - c.start <= |c.bytes| &&
      c.bytes[..c.next - c.start] == final[c.start..c.next]
  }

  ghost predicate Covered(i: nat, chunks: seq<Chunk>) {
    exists c :: c in chunks && c.start <= i < c.next
  }

  /** While the file grows nothing is skipped: chunks follow one another, or start over after the
      file could not be looked at, show what the file holds, and leave out no byte between the
      first offset and the last length seen. */
  lemma {:induction false} NeverSkips(before: Bytes, offset: nat, polls: seq<Poll>)
    requires Growing(before, polls) && offset <= |before|
    ensures var t := Follow(offset, polls);
      && !t.failed
      && Linked(offset, t.chunks)
      && Faithful(Final(before, polls), t.chunks)
      && offset <= Reach(offset, polls) <= |Final(before, polls)|
      && (t.offset == Reach(offset, polls) || t.offset == 0)
      && forall i: nat :: offset <= i < Reach(offset, polls) ==> Covered(i, t.chunks)
    decreases |polls|
  {
    hide Faithful, Covered;
    if polls == [] {
      NothingPrinted(before);
    } else if polls[0].StatFailed? {
      NeverSkips(before, 0, polls[1..]);
      ReachAfterFailure(before, offset, polls[1..]);
    } else {
      var contents, len := polls[0].contents.value, polls[0].len;
      NeverSkips(contents, len, polls[1..]);
      if len != offset {
        FinalExtends(contents, polls[1..]);
        var t := Follow(offset, polls);
        ChunkAdded(t.chunks[0], Follow(len, polls[1..]).chunks, Final(before, polls));
      }
    }
  }

  /** Starting over at 0 accounts for as much, unless nothing is seen any more. */
  lemma {:induction false} ReachAfterFailure(before: Bytes, offset: nat, polls: seq<Poll>)
    requires Growing(before, polls) && offset <= |before|
    ensures offset <= Reach(offset, polls) <= |Final(before, polls)|
    ensures if forall p :: p in polls ==> p.StatFailed?
            then Reach(0, polls) == 0 && Reach(offset, polls) == offset && Follow(0, polls) == Trace([], 0, false)
            else Reach(0, polls) == Reach(offset, polls)
    decreases |polls|
  {
    if polls != [] {
      var rest := polls[1..];
      assert polls == [polls[0]] + rest;
      if polls[0].StatFailed? {
        ReachAfterFailure(before, offset, rest);
      } else {
        ReachAfterFailure(polls[0].contents.value, polls[0].len, rest);
        assert polls[0] in polls;
      }
    }
  }

  lemma NothingPrinted(final: Bytes)
    ensures Faithful(final, [])
  {
  }

  lemma ChunkAdded(c: Chunk, rest: seq<Chunk>, final: Bytes)
    requires Faithful(final, rest)
    requires c.start <= c.next <= |final| && c.start + |c.bytes| <= |final| && c.next - c.start <= |c.bytes|
    requires c.bytes == final[c.start..c.start + |c.bytes|]
    ensures Faithful(final, [c] + rest)
    ensures forall i: nat :: c.start <= i < c.next || Covered(i, rest) ==> Covered(i, [c] + rest)
  {
    forall i: nat | c.start <= i < c.next || Covered(i, rest) ensures Covered(i, [c] + rest) {
      if c.start <= i < c.next {
        assert c in [c] + rest;
      } else {
        var d :| d in rest && d.start <= i < d.next;
        assert d in [c] + rest;
      }
    }
  }

  /** No byte arrives between counting the file and reading it, whenever it is read, and the file
      is not lost sight of after some of it was accounted for and seen again later. */
  predicate NothingRepeats(offset: nat, polls: seq<Poll>)
    decreases |polls|
  {
    polls == [] ||
    match polls[0]
    case StatFailed =>
      if offset == 0 then NothingRepeats(0, polls[1..]) else forall p :: p in polls[1..] ==> p.StatFailed?
    case Stat(len, contents) =>
      && (len != offset ==> contents.Some? && |contents.value| == len)
      && NothingRepeats(len, polls[1..])
  }

  lemma {:induction false} PrintsEnough(before: Bytes, offset: nat, polls: seq<Poll>)
    requires Growing(before, polls) && offset <= |before|
    ensures |Printed(Follow(offset, polls).chunks)| >= Reach(offset, polls) - offset
    decreases |polls|
  {
    if polls != [] {
      if polls[0].StatFailed? {
        PrintsEnough(before, 0, polls[1..]);
        ReachAfterFailure(before, offset, polls[1..]);
      } else {
        PrintsEnough(polls[0].contents.value, polls[0].len, polls[1..]);
        FirstPrinted(before, offset, polls);
      }
    }
  }

  lemma FirstPrinted(before: Bytes, offset: nat, polls: seq<Poll>)
    requires Growing(before, polls) && offset <= |before| && polls != [] && polls[0].Stat?
    ensures var contents, len := polls[0].contents.value, polls[0].len;
      Printed(Follow(offset, polls).chunks)
        == (if len == offset then [] else contents[offset..]) + Printed(Follow(len, polls[1..]).chunks)
  {
    var t, rest := Follow(offset, polls), Follow(polls[0].len, polls[1..]);
    if polls[0].len != offset {
      assert t.chunks[1..] == rest.chunks;
    }
  }

  /** The printed text is exactly the appended text when, and only when, no read overtakes its
      own length check and the file is not lost sight of in between; otherwise it is longer. */
  lemma {:induction false} RepeatsExactlyWhenOvertaken(before: Bytes, offset: nat, polls: seq<Poll>)
    requires Growing(before, polls) && offset <= |before|
    ensures var printed, reach := Printed(Follow(offset, polls).chunks), Reach(offset, polls);
      && offset <= reach <= |Final(before, polls)|
      && |printed| >= reach - offset
      && (printed == Final(before, polls)[offset..reach] <==> NothingRepeats(offset, polls))
      && (|printed| == reach - offset <==> NothingRepeats(offset, polls))
    decreases |polls|
  {
    PrintsEnough(before, offset, polls);
    ReachAfterFailure(before, offset, polls);
    if polls != [] {
      if polls[0].StatFailed? {
        RepeatsExactlyWhenOvertaken(before, 0, polls[1..]);
        ReachAfterFailure(before, offset, polls[1..]);
      } else {
        RepeatsAfterRead(before, offset, polls);
      }
    }
  }

  lemma {:induction false} RepeatsAfterRead(before: Bytes, offset: nat, polls: seq<Poll>)
    requires Growing(before, polls) && offset <= |before| && polls != [] && polls[0].Stat?
    ensures offset <= Reach(offset, polls) <= |Final(before, polls)|
    ensures var printed, reach := Printed(Follow(offset, polls).chunks), Reach(offset, polls);
      && (printed == Final(before, polls)[offset..reach] <==> NothingRepeats(offset, polls))
      && (|printed| == reach - offset <==> NothingRepeats(offset, polls))
    decreases |polls|, 0
  {
    var contents, len := polls[0].contents.value, polls[0].len;
    RepeatsExactlyWhenOvertaken(contents, len, polls[1..]);
    FirstPrinted(before, offset, polls);
    FinalExtends(contents, polls[1..]);
    var final, reach := Final(before, polls), Reach(offset, polls);
    if len != offset && NothingRepeats(offset, polls) {
      assert contents[offset..] == final[offset..len];
      assert final[offset..len] + final[len..reach] == final[offset..reach];
    }
  }

  /** Without such failures the chunks, cut off where they will be printed again, make up the
      file from the first offset to the last length seen. */
  lemma {:induction false} AccountsForTheFile(before: Bytes, offset: nat, polls: seq<Poll>)
    requires Growing(before, polls) && offset <= |before| && forall p :: p in polls ==> p.Stat?
    ensures var t := Follow(offset, polls);
      && Contiguous(offset, t.chunks)
      && offset <= t.offset <= |Final(before, polls)|
      && Accounted(offset, t.chunks) == Final(before, polls)[offset..t.offset]
    decreases |polls|
  {
    if polls != [] {
      assert polls[0] in polls;
      var contents, len := polls[0].contents.value, polls[0].len;
      AccountsForTheFile(contents, len, polls[1..]);
      if len != offset {
        FinalExtends(contents, polls[1..]);
        var t := Follow(offset, polls);
        assert t.chunks[1..] == Follow(len, polls[1..]).chunks;
        var final := Final(before, polls);
        assert contents[offset..][..len - offset] == final[offset..len];
        assert final[offset..len] + final[len..t.offset] == final[offset..t.offset];
      }
    }
  }

  /** Each chunk starts where the previous one was accounted for, and prints at least up to `next`. */
  predicate Contiguous(start: nat, chunks: seq<Chunk>)
    decreases |chunks|
  {
    chunks == [] ||
    (chunks[0].start == start && start < chunks[0].next &&
     chunks[0].next - start <= |chunks[0].bytes| &&
     Contiguous(chunks[0].next, chunks[1..]))
  }

  /** The chunks with the bytes that will be printed again cut off. */
  function Accounted(start: nat, chunks: seq<Chunk>): Bytes
    requires Contiguous(start, chunks)
    decreases |chunks|
  {
    if chunks == [] then []
    else chunks[0].bytes[..chunks[0].next - start] + Accounted(chunks[0].next, chunks[1..])
  }
}
