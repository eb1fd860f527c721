/** The read buffer of a socket in line mode: growing it, receiving into it, and the splitter
    loop that edits it in place. */
module ReadBuffers {
  import Buffers
  import opened Lines

  class ReadBuffer {
    var buffer: array?<int>
    var bufpos: nat
    var buflen: nat

    ghost predicate Valid()
      reads this
    {
      Buffers.Fits(buffer, bufpos, buflen)
    }

    ghost function Contents(): seq<int>
      requires Valid()
      reads this, buffer
    {
      Buffers.Held(buffer, bufpos)
    }

    /** What holds between the events of a socket in line mode. */
    ghost predicate LineMode()
      reads this, buffer
    {
      Valid() && bufpos < LIMIT && buflen in {0, 512, 1024, 2048}
    }

    constructor ()
      ensures Valid() && LineMode() && Contents() == []
    {
      buffer, bufpos, buflen := null, 0, 0;
    }

    /** The growth in front of recv: afterwards recv always has room, and in line mode the buffer
        never exceeds 2048 bytes. */
    method MakeRoom()
      requires Valid()
      modifies this`buffer, this`buflen
      ensures Valid() && Contents() == old(Contents()) && buflen > bufpos
      ensures old(LineMode()) ==> LineMode() && buflen - bufpos > 128
      ensures buffer == old(buffer) || fresh(buffer)
    {
      if buflen - bufpos <= 128 {
        var addsize := if buflen >= 2048 then 1024 else buflen;
        if addsize == 0 {
          addsize := 512;
        }
        buffer, buflen := Buffers.Increase(buffer, bufpos, buflen, buflen + addsize);
      }
    }

    /** recv: the system delivers what fits. */
    method Receive(chunk: seq<int>)
      requires Valid() && 1 <= |chunk| <= buflen - bufpos
      modifies this`bufpos, buffer
      ensures Valid() && Contents() == old(Contents()) + chunk
      ensures buffer == old(buffer) && buflen == old(buflen)
    {
      for i := 0 to |chunk|
        invariant Valid() && bufpos == old(bufpos) && buffer == old(buffer)
        invariant buffer[..bufpos + i] == old(buffer[..bufpos]) + chunk[..i]
      {
        buffer[bufpos + i] := chunk[i];
        assert buffer[..bufpos + i + 1] == buffer[..bufpos + i] + [chunk[i]];
        assert chunk[..i + 1] == chunk[..i] + [chunk[i]];
      }
      bufpos := bufpos + |chunk|;
      assert chunk[..|chunk|] == chunk;
    }

    /** The search for the byte at `i` in the delimiter table; it ends behind the table when the
        byte is none of them. */
    method FindDelimiter(c: int, delims: seq<int>) returns (j: nat)
      ensures j <= |delims| && (j < |delims| <==> c in delims)
    {
      j := 0;
      while j < |delims|
        invariant j <= |delims| && c !in delims[..j]
      {
        if c == delims[j] {
          return;
        }
        j := j + 1;
      }
      assert delims[..j] == delims;
    }

    // The inner loop that skips the rest of an over-long line; returns the new `used_bytes`.
    method SkipRest(start: nat, m: Mode, v: Variant, ghost s: seq<int>) returns (used: nat)
      requires Valid() && buffer != null && start < bufpos && buffer[start] == 0
      requires s != [] && s[1..] == buffer[start + 1..bufpos]
      ensures used == start + SkipLength(s, m, v)
    {
      var i := start;
      match v
      case AsWritten(_, past) =>
        if past == 0 {
          return start + 1;
        }
        i := start + 1;
        while i < bufpos && buffer[i] != past
          invariant start < i <= bufpos
          invariant ToByte(s[1..], past) == i - start - 1 + ToByte(buffer[i..bufpos], past)
        {
          assert buffer[i..bufpos][1..] == buffer[i + 1..bufpos];
          i := i + 1;
        }
        used := i + 1;
      case Repaired =>
        i := start + 1;
        while i < bufpos
          invariant start < i <= bufpos
          invariant ToDelimiter(s[1..], m.delims) == i - start - 1 + ToDelimiter(buffer[i..bufpos], m.delims)
        {
          assert buffer[i..bufpos][1..] == buffer[i + 1..bufpos];
          var j := FindDelimiter(buffer[i], m.delims);
          if j < |m.delims| {
            return i + 1;
          }
          i := i + 1;
        }
        used := i;
    }

    // The state of the splitter loop at byte `i`, its open line starting at `used`.
    ghost predicate Scanning(orig: seq<int>, i: nat, used: nat, lines: seq<seq<int>>, m: Mode, v: Variant)
      reads this, buffer
    {
      && Valid() && buffer != null && |orig| == bufpos
      && used <= i <= bufpos && i - used < LIMIT
      && buffer[used..bufpos] == orig[used..]
      && Pass(orig, m, v)
         == Prepend(lines, Scan(orig[used..i], if i == 0 then Before(v) else buffer[i - 1], orig[i..], m, v))
    }

    // A delimiter at `i` ends the line that started at `used`.
    method EndLine(i: nat, used: nat, lines: seq<seq<int>>, m: Mode, v: Variant, ghost orig: seq<int>)
      returns (lines': seq<seq<int>>)
      requires Scanning(orig, i, used, lines, m, v) && i < bufpos && buffer[i] in m.delims
      modifies buffer
      ensures Scanning(orig, i + 1, i + 1, lines', m, v)
    {
      CurrentByte(orig, i, used, lines, m, v);
      CutOff(i, used, orig);
      var kept := match v
        case AsWritten(before, _) => (if i > 0 then buffer[i - 1] else before) != 0
        case Repaired => i > used;
      lines' := if kept || m.parseEmpty then lines + [buffer[used..i]] else lines;
      assert orig[i + 1..i + 1] == [];
    }

    // The byte at `i` makes the line too long.
    method CutLine(i: nat, used: nat, lines: seq<seq<int>>, m: Mode, v: Variant, ghost orig: seq<int>)
      returns (next: nat, lines': seq<seq<int>>)
      requires Scanning(orig, i, used, lines, m, v) && i < bufpos && buffer[i] !in m.delims
      requires i + 1 - used >= LIMIT
      modifies buffer
      ensures next > i && buffer == old(buffer)
      ensures next > bufpos ==> Valid() && Pass(orig, m, v) == Overrun(lines')
      ensures next <= bufpos ==> Scanning(orig, next, next, lines', m, v)
    {
      ghost var prev := if i == 0 then Before(v) else buffer[i - 1];
      CurrentByte(orig, i, used, lines, m, v);
      CutIs(orig, i, used, lines, prev, m, v);
      CutOff(i, used, orig);
      lines' := lines + [buffer[used..i]];
      next := SkipRest(i, m, v, orig[i..]);
      if next <= bufpos {
        AfterCut(orig, i, next, m, v);
      }
    }

    // The byte at `i` is overwritten; the line and what follows stay.
    method CutOff(i: nat, used: nat, ghost orig: seq<int>)
      requires Valid() && buffer != null && |orig| == bufpos && used <= i < bufpos
      requires buffer[used..bufpos] == orig[used..]
      modifies buffer
      ensures buffer[i] == 0 && buffer[used..i] == orig[used..i] && buffer[i + 1..bufpos] == orig[i + 1..]
      ensures orig[i..][1..] == buffer[i + 1..bufpos] && forall k :: 0 <= k < i ==> buffer[k] == old(buffer[k])
    {
      ghost var was := buffer[..];
      buffer[i] := 0;
      assert buffer[..] == was[i := 0];
      Overwritten(was, used, i, bufpos, orig);
    }

    lemma Overwritten(a: seq<int>, used: nat, i: nat, end: nat, orig: seq<int>)
      requires used <= i < end <= |a| && |orig| == end && a[used..end] == orig[used..]
      ensures var b := a[i := 0];
        && a[i] == orig[i] && b[used..i] == orig[used..i]
        && b[i + 1..end] == orig[i + 1..] && orig[i..][1..] == b[i + 1..end]
    {
      var b := a[i := 0];
      assert a[i] == a[used..end][i - used] == orig[used..][i - used] == orig[i];
      forall k | used <= k < end && k != i
        ensures b[k] == orig[k]
      {
        assert b[k] == a[used..end][k - used] == orig[used..][k - used];
      }
      assert b[used..i] == orig[used..i] && b[i + 1..end] == orig[i + 1..];
    }

    lemma CurrentByte(orig: seq<int>, i: nat, used: nat, lines: seq<seq<int>>, m: Mode, v: Variant)
      requires Scanning(orig, i, used, lines, m, v) && i < bufpos
      ensures buffer[i] == orig[i]
    {
      assert buffer[used..bufpos][i - used] == orig[used..][i - used];
    }

    // What the cut comes to for the pass.
    lemma CutIs(orig: seq<int>, i: nat, used: nat, lines: seq<seq<int>>, prev: int, m: Mode, v: Variant)
      requires used <= i < |orig| && orig[i] !in m.delims && i + 1 - used >= LIMIT
      requires Pass(orig, m, v) == Prepend(lines, Scan(orig[used..i], prev, orig[i..], m, v))
      ensures var n, cut := SkipLength(orig[i..], m, v), lines + [orig[used..i]];
        Pass(orig, m, v) ==
          if i + n > |orig| then Overrun(cut)
          else Prepend(cut, Scan([], AfterSkip(orig[i..], n, v), orig[i + n..], m, v))
    {
      var s, n := orig[i..], SkipLength(orig[i..], m, v);
      if i + n <= |orig| {
        assert s[n..] == orig[i + n..];
        PrependTwice(lines, [orig[used..i]], Scan([], AfterSkip(s, n, v), s[n..], m, v));
      }
    }

    // The buffer in front of what follows the cut.
    lemma AfterCut(orig: seq<int>, i: nat, next: nat, m: Mode, v: Variant)
      requires Valid() && buffer != null && |orig| == bufpos && i < next <= bufpos
      requires buffer[i] == 0 && buffer[i + 1..bufpos] == orig[i + 1..]
      ensures buffer[next..bufpos] == orig[next..] && orig[next..next] == []
      ensures buffer[next - 1] == AfterSkip(orig[i..], next - i, v)
    {
      assert buffer[next..bufpos] == buffer[i + 1..bufpos][next - i - 1..];
      assert next > i + 1 ==> buffer[next - 1] == buffer[i + 1..bufpos][next - i - 2];
    }

    /** The splitter of iosocket_events_callback, lines 1098-1139: one pass over the buffer that
        zeroes the delimiters in place and moves the unfinished line to the front. `ok` is false
        when the pass overran. */
    method SplitPass(m: Mode, v: Variant) returns (lines: seq<seq<int>>, ok: bool)
      requires Valid() && buffer != null
      modifies this`bufpos, buffer
      ensures Valid() && buffer == old(buffer) && buflen == old(buflen)
      ensures match Pass(old(Contents()), m, v)
        case Scanned(delivered, rest) => ok && lines == delivered && Contents() == rest
        case Overrun(delivered) => !ok && lines == delivered
      ensures v.Repaired? ==>
        ok && Scanned(lines, Contents()) == Limited(Split(old(Contents()), m.delims), m.parseEmpty)
      ensures ok ==> bufpos < 1024
    {
      hide Scan, Scanning;
      ghost var orig := Contents();
      var i, used := 0, 0;
      lines := [];
      Begin(m, v);
      ScanIsLimited([], 0, orig, m);
      while i < bufpos
        invariant Scanning(orig, i, used, lines, m, v) && bufpos == old(bufpos)
        invariant Valid() && used <= i <= bufpos
      {
        var j := FindDelimiter(buffer[i], m.delims);
        if j < |m.delims| {
          lines := EndLine(i, used, lines, m, v, orig);
          i := i + 1;
          used := i;
        } else if i + 1 - used >= LIMIT {
          i, lines := CutLine(i, used, lines, m, v, orig);
          used := i;
          if used > bufpos {
            RepairedNeverOverruns([], 0, orig, m);
            return lines, false;
          }
        } else {
          KeepByte(orig, i, used, lines, m, v);
          i := i + 1;
        }
      }
      ok := true;
      End(orig, used, lines, m, v);
      MoveRest(used);
    }

    lemma Begin(m: Mode, v: Variant)
      requires Valid() && buffer != null
      ensures Scanning(Contents(), 0, 0, [], m, v)
    {
      var orig := Contents();
      assert orig[..0] == [] && orig[0..] == orig && orig[0..0] == [];
      var r := Scan([], Before(v), orig, m, v);
      assert Prepend([], r) == r;
    }

    lemma End(orig: seq<int>, used: nat, lines: seq<seq<int>>, m: Mode, v: Variant)
      requires Scanning(orig, bufpos, used, lines, m, v)
      ensures Pass(orig, m, v) == Scanned(lines, buffer[used..bufpos]) && bufpos - used < LIMIT
    {
      assert orig[bufpos..] == [] && orig[used..bufpos] == orig[used..] == buffer[used..bufpos];
      assert lines + [] == lines;
    }

    // Moves what is left behind `used` to the front.
    method MoveRest(used: nat)
      requires Valid() && buffer != null && used <= bufpos
      modifies this`bufpos, buffer
      ensures Valid() && Contents() == old(buffer[used..bufpos])
    {
      if used > 0 {
        forall k | 0 <= k < bufpos - used {
          buffer[k] := buffer[used + k];
        }
        bufpos := bufpos - used;
      }
    }

    /** The last recv left room in the buffer. */
    ghost predicate LastFits(rest: seq<int>, chunks: seq<seq<int>>, m: Mode, v: Variant)
      reads this
    {
      chunks != [] && var p := Passes(rest, chunks[..|chunks| - 1], m, v);
        p.Scanned? && |p.rest| + |chunks[|chunks| - 1]| < buflen
    }

    /** A read event in line mode: recv and split, again as long as recv filled the buffer. The
        system has the bytes `pending` and cuts them as it likes. In every such run the buffer
        stays within 2048 bytes and each recv has room. It stops when a recv does not fill the buffer. */
    method OnReadable(pending: seq<int>, m: Mode, v: Variant)
      returns (lines: seq<seq<int>>, taken: nat, ghost chunks: seq<seq<int>>, ok: bool)
      requires LineMode() && pending != []
      modifies this, buffer
      ensures 1 <= taken <= |pending| && Concat(chunks) == pending[..taken]
      ensures buffer == old(buffer) || fresh(buffer)
      ensures ok ==> LineMode() && Passes(old(Contents()), chunks, m, v) == Scanned(lines, Contents())
      ensures !ok ==> v.AsWritten? && Passes(old(Contents()), chunks, m, v) == Overrun(lines)
      ensures ok && taken < |pending| ==> LastFits(old(Contents()), chunks, m, v)
    {
      hide Pass;
      ghost var start := Contents();
      lines, taken, chunks, ok := [], 0, [], true;
      var full := true;
      while full && taken < |pending|
        invariant LineMode() && ok && taken <= |pending| && (taken == 0 ==> full)
        invariant buffer == old(buffer) || fresh(buffer)
        invariant Concat(chunks) == pending[..taken]
        invariant Passes(start, chunks, m, v) == Scanned(lines, Contents())
        invariant !full ==> LastFits(start, chunks, m, v)
        decreases |pending| - taken
      {
        ghost var rest := Contents();
        MakeRoom();
        var n: nat :| 1 <= n <= buflen - bufpos && n <= |pending| - taken;
        var chunk := pending[taken..taken + n];
        Receive(chunk);
        full := bufpos == buflen;
        PassesSnoc(start, chunks, chunk, m, v);
        ConcatSnoc(chunks, chunk);
        assert pending[..taken] + chunk == pending[..taken + n];
        assert (chunks + [chunk])[..|chunks|] == chunks;
        chunks := chunks + [chunk];
        taken := taken + n;
        var delivered;
        delivered, ok := SplitPass(m, v);
        lines := lines + delivered;
        if !ok {
          return;
        }
      }
    }

    /** Read events until a whole stream has been read, into a buffer that starts empty: if all its
        lines are short, the client gets those of its one-shot split, and the rest stays. */
    method ReadStream(stream: seq<int>, m: Mode) returns (lines: seq<seq<int>>)
      requires LineMode() && Contents() == []
      modifies this, buffer
      ensures LineMode()
      ensures Short(Split(stream, m.delims)) ==> Scanned(lines, Contents()) == OneShot(stream, m)
    {
      lines := [];
      var taken := 0;
      ghost var chunks: seq<seq<int>> := [];
      while taken < |stream|
        invariant LineMode() && taken <= |stream|
        invariant buffer == old(buffer) || fresh(buffer)
        invariant Concat(chunks) == stream[..taken]
        invariant Passes([], chunks, m, Repaired) == Scanned(lines, Contents())
        decreases |stream| - taken
      {
        var more, n, ok;
        ghost var next;
        ghost var rest := Contents();
        more, n, next, ok := OnReadable(stream[taken..], m, Repaired);
        PassesAppend([], chunks, next, m, Repaired);
        ConcatAppend(chunks, next);
        assert stream[..taken] + stream[taken..][..n] == stream[..taken + n];
        chunks := chunks + next;
        lines := lines + more;
        taken := taken + n;
      }
      assert stream[..taken] == stream;
      if Short(Split(stream, m.delims)) {
        ChunkInvariance(chunks, m);
      }
    }

    lemma KeepByte(orig: seq<int>, i: nat, used: nat, lines: seq<seq<int>>, m: Mode, v: Variant)
      requires Scanning(orig, i, used, lines, m, v) && i < bufpos && buffer[i] !in m.delims
      requires i + 1 - used < LIMIT
      ensures Scanning(orig, i + 1, used, lines, m, v)
    {
      assert buffer[i] == buffer[used..bufpos][i - used] == orig[i] == orig[i..][0];
      assert orig[used..i] + [orig[i]] == orig[used..i + 1];
      assert orig[i..][1..] == orig[i + 1..];
    }
  }
}
