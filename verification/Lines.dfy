/** The line splitter of iosocket_events_callback on values: what one pass over the read
    buffer delivers and keeps, and the one-shot split of a stream it is measured against. */
module Lines {

  // IOSOCKET_PARSE_LINE_LIMIT
  const LIMIT: nat := 1024

  /** The splitter settings of a socket. Characters are integers, so that signed buffer bytes
      and unsigned delimiters compare as they do in C. */
  datatype Mode = Mode(delims: seq<int>, parseEmpty: bool)

  /** The code reads two bytes that are not its own: the one in front of the buffer (line 1112
      with i = 0) and the one behind the delimiter table (line 1122 with j past the end).
      AsWritten takes them as given; Repaired tests the line itself for emptiness and skips to
      any delimiter, consuming no more than the buffer holds. */
  datatype Variant = AsWritten(before: int, past: int) | Repaired

  // ---------- the one-shot split ----------

  datatype Piece = Piece(line: seq<int>, delim: int)

  datatype Parts = Parts(pieces: seq<Piece>, rest: seq<int>)

  ghost predicate Clean(s: seq<int>, delims: seq<int>) {
    forall i :: 0 <= i < |s| ==> s[i] !in delims
  }

  ghost function Flatten(ps: seq<Piece>): seq<int> {
    if ps == [] then [] else ps[0].line + [ps[0].delim] + Flatten(ps[1..])
  }

  /** `p` cuts `s` at its delimiters and nothing is lost. */
  ghost predicate IsSplit(s: seq<int>, p: Parts, delims: seq<int>) {
    && s == Flatten(p.pieces) + p.rest
    && (forall i :: 0 <= i < |p.pieces| ==> Clean(p.pieces[i].line, delims) && p.pieces[i].delim in delims)
    && Clean(p.rest, delims)
  }

  lemma {:induction false} SplitUnique(s: seq<int>, p: Parts, r: Parts, delims: seq<int>)
    requires IsSplit(s, p, delims) && IsSplit(s, r, delims)
    ensures p == r
    decreases |p.pieces|
  {
    if p.pieces == [] && r.pieces == [] {
      assert s == p.rest && s == r.rest;
    } else if p.pieces != [] && r.pieces != [] {
      var a, b := p.pieces[0], r.pieces[0];
      var s' := Flatten(p.pieces[1..]) + p.rest;
      var t' := Flatten(r.pieces[1..]) + r.rest;
      assert s == a.line + [a.delim] + s';
      assert s == b.line + [b.delim] + t';
      FirstPiece(s, a, s', b, t', delims);
      SplitUnique(s', Parts(p.pieces[1..], p.rest), Parts(r.pieces[1..], r.rest), delims);
    } else if p.pieces != [] {
      DelimInFlatten(p.pieces, p.rest);
    } else {
      DelimInFlatten(r.pieces, r.rest);
    }
  }

  lemma FirstPiece(s: seq<int>, a: Piece, s': seq<int>, b: Piece, t': seq<int>, delims: seq<int>)
    requires s == a.line + [a.delim] + s' && Clean(a.line, delims) && a.delim in delims
    requires s == b.line + [b.delim] + t' && Clean(b.line, delims) && b.delim in delims
    ensures a == b && s' == t'
  {
    var m, n := |a.line|, |b.line|;
    assert s[m] == a.delim && s[n] == b.delim;
    assert forall i :: 0 <= i < m ==> s[i] == a.line[i];
    assert forall i :: 0 <= i < n ==> s[i] == b.line[i];
    assert a.line == s[..m] && b.line == s[..n];
    assert s' == s[m + 1..] && t' == s[n + 1..];
  }

  lemma DelimInFlatten(ps: seq<Piece>, rest: seq<int>)
    requires ps != []
    ensures |ps[0].line| < |Flatten(ps) + rest| && (Flatten(ps) + rest)[|ps[0].line|] == ps[0].delim
  {
  }

  /** The one-shot split of `cur + s`, of which the open line `cur` has been read. */
  ghost function SplitFrom(cur: seq<int>, s: seq<int>, delims: seq<int>): Parts
    decreases |s|
  {
    if s == [] then Parts([], cur)
    else if s[0] in delims then
      var p := SplitFrom([], s[1..], delims);
      Parts([Piece(cur, s[0])] + p.pieces, p.rest)
    else SplitFrom(cur + [s[0]], s[1..], delims)
  }

  ghost function Split(s: seq<int>, delims: seq<int>): Parts {
    SplitFrom([], s, delims)
  }

  lemma {:induction false} SplitFromIsSplit(cur: seq<int>, s: seq<int>, delims: seq<int>)
    requires Clean(cur, delims)
    ensures IsSplit(cur + s, SplitFrom(cur, s, delims), delims)
    decreases |s|
  {
    if s == [] {
      assert cur + s == cur == Flatten([]) + cur;
    } else if s[0] in delims {
      SplitFromIsSplit([], s[1..], delims);
      var p, r := SplitFrom([], s[1..], delims), SplitFrom(cur, s, delims);
      assert r.pieces[1..] == p.pieces;
      assert cur + s == cur + [s[0]] + ([] + s[1..]);
    } else {
      SplitFromIsSplit(cur + [s[0]], s[1..], delims);
      assert cur + [s[0]] + s[1..] == cur + s;
    }
  }

  /** The split loses nothing and is the only way to cut the stream at its delimiters. */
  lemma SplitSound(s: seq<int>, delims: seq<int>, p: Parts)
    ensures IsSplit(s, p, delims) <==> p == Split(s, delims)
  {
    SplitFromIsSplit([], s, delims);
    assert [] + s == s;
    if IsSplit(s, p, delims) {
      SplitUnique(s, p, Split(s, delims), delims);
    }
  }

  /** Splitting can stop anywhere and go on with what was left. */
  lemma {:induction false} SplitAppend(cur: seq<int>, a: seq<int>, b: seq<int>, delims: seq<int>)
    ensures var p := SplitFrom(cur, a, delims);
      var q := SplitFrom(p.rest, b, delims);
      SplitFrom(cur, a + b, delims) == Parts(p.pieces + q.pieces, q.rest)
    decreases |a|
  {
    if a == [] {
      assert a + b == b;
    } else {
      assert (a + b)[0] == a[0] && (a + b)[1..] == a[1..] + b;
      if a[0] in delims {
        SplitAppend([], a[1..], b, delims);
      } else {
        SplitAppend(cur + [a[0]], a[1..], b, delims);
      }
    }
  }

  lemma {:induction false} SplitOfClean(cur: seq<int>, s: seq<int>, delims: seq<int>)
    requires Clean(s, delims)
    ensures SplitFrom(cur, s, delims) == Parts([], cur + s)
    decreases |s|
  {
    if s == [] {
      assert cur + s == cur;
    } else {
      SplitOfClean(cur + [s[0]], s[1..], delims);
      assert cur + [s[0]] + s[1..] == cur + s;
    }
  }

  // ---------- one pass ----------

  /** The lines a client gets: empty ones only if it asked for them. */
  ghost function Delivered(ps: seq<Piece>, parseEmpty: bool): seq<seq<int>> {
    if ps == [] then []
    else (if ps[0].line != [] || parseEmpty then [ps[0].line] else []) + Delivered(ps[1..], parseEmpty)
  }

  lemma AppendTwice<T>(a: seq<T>, b: seq<T>, c: seq<T>)
    ensures a + (b + c) == a + b + c
  {
  }

  lemma {:induction false} DeliveredConcat(a: seq<Piece>, b: seq<Piece>, parseEmpty: bool)
    ensures Delivered(a + b, parseEmpty) == Delivered(a, parseEmpty) + Delivered(b, parseEmpty)
  {
    if a == [] {
      assert a + b == b;
    } else {
      DeliveredConcat(a[1..], b, parseEmpty);
      assert (a + b)[0] == a[0] && (a + b)[1..] == a[1..] + b;
      var head := if a[0].line != [] || parseEmpty then [a[0].line] else [];
      AppendTwice(head, Delivered(a[1..], parseEmpty), Delivered(b, parseEmpty));
    }
  }

  /** What a pass delivers and leaves in the buffer. In an Overrun more bytes are counted as used
      than the buffer holds, and the source then moves a block of a wrapped-around size. */
  datatype Scanned = Scanned(lines: seq<seq<int>>, rest: seq<int>) | Overrun(lines: seq<seq<int>>)

  ghost function Prepend(lines: seq<seq<int>>, r: Scanned): Scanned {
    if r.Scanned? then Scanned(lines + r.lines, r.rest) else Overrun(lines + r.lines)
  }

  // The emptiness test of line 1112; `prev` is what the buffer holds in front of the delimiter.
  predicate Keeps(cur: seq<int>, prev: int, m: Mode, v: Variant) {
    m.parseEmpty || if v.Repaired? then cur != [] else prev != 0
  }

  // How many bytes of an over-long line are skipped, from the one that reached the limit on;
  // that one has already been overwritten with 0.
  ghost function SkipLength(s: seq<int>, m: Mode, v: Variant): (n: nat)
    requires s != []
    ensures 1 <= n <= |s| + 1
    ensures v.Repaired? ==> n <= |s|
  {
    match v
    case Repaired => 1 + ToDelimiter(s[1..], m.delims)
    case AsWritten(_, past) => if past == 0 then 1 else 2 + ToByte(s[1..], past)
  }

  // Up to and including the first delimiter, or everything.
  ghost function ToDelimiter(s: seq<int>, delims: seq<int>): (n: nat)
    ensures n <= |s|
  {
    if s == [] then 0 else if s[0] in delims then 1 else 1 + ToDelimiter(s[1..], delims)
  }

  // In front of the first `c`, or everything.
  ghost function ToByte(s: seq<int>, c: int): (n: nat)
    ensures n <= |s|
  {
    if s == [] || s[0] == c then 0 else 1 + ToByte(s[1..], c)
  }

  /** A pass that still has to look at `s`, having read the open line `cur`. */
  ghost function Scan(cur: seq<int>, prev: int, s: seq<int>, m: Mode, v: Variant): Scanned
    decreases |s|
  {
    if s == [] then
      Scanned([], cur)
    else if s[0] in m.delims then
      Prepend(if Keeps(cur, prev, m, v) then [cur] else [], Scan([], 0, s[1..], m, v))
    else if |cur| + 1 >= LIMIT then
      var n := SkipLength(s, m, v);
      if n > |s| then Overrun([cur]) else Prepend([cur], Scan([], AfterSkip(s, n, v), s[n..], m, v))
    else
      Scan(cur + [s[0]], s[0], s[1..], m, v)
  }

  // The buffer byte in front of what follows a skip.
  ghost function AfterSkip(s: seq<int>, n: nat, v: Variant): int
    requires 1 <= n <= |s|
  {
    if n == 1 then 0 else s[n - 1]
  }

  ghost function Before(v: Variant): int {
    if v.AsWritten? then v.before else 0
  }

  ghost function Pass(s: seq<int>, m: Mode, v: Variant): Scanned {
    Scan([], Before(v), s, m, v)
  }

  ghost predicate Short(p: Parts) {
    (forall i :: 0 <= i < |p.pieces| ==> |p.pieces[i].line| < LIMIT) && |p.rest| < LIMIT
  }

  lemma {:induction false} SplitGrows(cur: seq<int>, s: seq<int>, delims: seq<int>)
    ensures var p := SplitFrom(cur, s, delims);
      |cur| <= if p.pieces == [] then |p.rest| else |p.pieces[0].line|
    decreases |s|
  {
    if s != [] && s[0] !in delims {
      SplitGrows(cur + [s[0]], s[1..], delims);
    }
  }

  /** A pass over short lines is the one-shot split. */
  lemma {:induction false} ScanIsSplit(cur: seq<int>, prev: int, s: seq<int>, m: Mode)
    requires Short(SplitFrom(cur, s, m.delims))
    ensures var p := SplitFrom(cur, s, m.delims);
      Scan(cur, prev, s, m, Repaired) == Scanned(Delivered(p.pieces, m.parseEmpty), p.rest)
    decreases |s|
  {
    if s == [] {
    } else if s[0] in m.delims {
      var p, q := SplitFrom(cur, s, m.delims), SplitFrom([], s[1..], m.delims);
      assert p.pieces[1..] == q.pieces && p.pieces[0].line == cur;
      assert forall i :: 0 <= i < |q.pieces| ==> q.pieces[i] == p.pieces[i + 1];
      ScanIsSplit([], 0, s[1..], m);
    } else {
      SplitGrows(cur + [s[0]], s[1..], m.delims);
      ScanIsSplit(cur + [s[0]], s[0], s[1..], m);
    }
  }

  /** Whatever it is given, a pass keeps less than a line. */
  lemma {:induction false} ScanRestBounded(cur: seq<int>, prev: int, s: seq<int>, m: Mode, v: Variant)
    requires |cur| < LIMIT
    ensures var r := Scan(cur, prev, s, m, v); r.Scanned? ==> |r.rest| < 1024
    decreases |s|
  {
    if s == [] {
    } else if s[0] in m.delims {
      ScanRestBounded([], 0, s[1..], m, v);
    } else if |cur| + 1 >= LIMIT {
      var n := SkipLength(s, m, v);
      if n <= |s| {
        ScanRestBounded([], AfterSkip(s, n, v), s[n..], m, v);
      }
    } else {
      ScanRestBounded(cur + [s[0]], s[0], s[1..], m, v);
    }
  }

  lemma {:induction false} RepairedNeverOverruns(cur: seq<int>, prev: int, s: seq<int>, m: Mode)
    ensures Scan(cur, prev, s, m, Repaired).Scanned?
    decreases |s|
  {
    if s == [] {
    } else if s[0] in m.delims {
      RepairedNeverOverruns([], 0, s[1..], m);
    } else if |cur| + 1 >= LIMIT {
      var n := SkipLength(s, m, Repaired);
      RepairedNeverOverruns([], AfterSkip(s, n, Repaired), s[n..], m);
    } else {
      RepairedNeverOverruns(cur + [s[0]], s[0], s[1..], m);
    }
  }

  // ---------- lines over the limit ----------

  /** Where a skip ends that starts with the byte at the limit: repaired, right behind the next
      delimiter, or with the buffer if there is none; as written right behind the next `past`, or
      one byte further than the buffer, and at once if `past` is 0. */
  lemma SkipMeans(s: seq<int>, m: Mode, v: Variant)
    requires s != []
    ensures var t, n := s[1..], SkipLength(s, m, v) - 1;
      if v.Repaired? then
        if n > 0 && t[n - 1] in m.delims then Clean(t[..n - 1], m.delims) else n == |t| && Clean(t, m.delims)
      else if v.past == 0 then n == 0
      else if 0 < n <= |t| && t[n - 1] == v.past then v.past !in t[..n - 1]
      else n == |t| + 1 && v.past !in t
  {
    match v
    case Repaired => DelimiterMeans(s[1..], m.delims);
    case AsWritten(_, past) => ByteMeans(s[1..], past);
  }

  lemma {:induction false} DelimiterMeans(s: seq<int>, delims: seq<int>)
    ensures var n := ToDelimiter(s, delims);
      if n > 0 && s[n - 1] in delims then Clean(s[..n - 1], delims) else n == |s| && Clean(s, delims)
  {
    if s != [] && s[0] !in delims {
      DelimiterMeans(s[1..], delims);
    }
  }

  lemma {:induction false} ByteMeans(s: seq<int>, c: int)
    ensures var n := ToByte(s, c); c !in s[..n] && (n < |s| ==> s[n] == c)
  {
    if s != [] && s[0] != c {
      ByteMeans(s[1..], c);
      var n := ToByte(s[1..], c);
      assert s[..n + 1] == [s[0]] + s[1..][..n];
    }
  }

  /** What a client gets for a line: one that reaches the limit is cut to a byte less. */
  ghost function Given(line: seq<int>, parseEmpty: bool): seq<seq<int>> {
    if |line| >= 1024 then [line[..1023]] else if line != [] || parseEmpty then [line] else []
  }

  ghost function AllGiven(ps: seq<Piece>, parseEmpty: bool): seq<seq<int>> {
    if ps == [] then [] else Given(ps[0].line, parseEmpty) + AllGiven(ps[1..], parseEmpty)
  }

  /** Every line of the split in order, long ones cut, and the open rest, which is cut and given at
      once if it is long. */
  ghost function Limited(p: Parts, parseEmpty: bool): Scanned {
    if |p.rest| < 1024 then Scanned(AllGiven(p.pieces, parseEmpty), p.rest)
    else Scanned(AllGiven(p.pieces, parseEmpty) + [p.rest[..1023]], [])
  }

  lemma LimitedCons(q: Piece, p: Parts, parseEmpty: bool)
    ensures Limited(Parts([q] + p.pieces, p.rest), parseEmpty)
         == Prepend(Given(q.line, parseEmpty), Limited(p, parseEmpty))
  {
    var ps := [q] + p.pieces;
    assert ps[0] == q && ps[1..] == p.pieces;
    if |p.rest| >= LIMIT {
      AppendTwice(Given(q.line, parseEmpty), AllGiven(p.pieces, parseEmpty), [p.rest[..LIMIT - 1]]);
    }
  }

  // The split of `s` goes on behind its first delimiter.
  lemma {:induction false} SplitAtDelimiter(cur: seq<int>, s: seq<int>, delims: seq<int>)
    ensures var n := ToDelimiter(s, delims);
      SplitFrom(cur, s, delims) ==
        if n > 0 && s[n - 1] in delims then
          var p := SplitFrom([], s[n..], delims);
          Parts([Piece(cur + s[..n - 1], s[n - 1])] + p.pieces, p.rest)
        else Parts([], cur + s)
    decreases |s|
  {
    if s == [] {
      assert cur + s == cur;
    } else if s[0] in delims {
      assert cur + s[..0] == cur;
    } else {
      SplitAtDelimiter(cur + [s[0]], s[1..], delims);
      var n := ToDelimiter(s[1..], delims);
      assert s[1..][n..] == s[n + 1..] && cur + [s[0]] + s[1..] == cur + s;
      if n > 0 {
        assert cur + [s[0]] + s[1..][..n - 1] == cur + s[..n];
      }
    }
  }

  lemma {:induction false} ScanIsLimited(cur: seq<int>, prev: int, s: seq<int>, m: Mode)
    requires |cur| < LIMIT
    ensures Scan(cur, prev, s, m, Repaired) == Limited(SplitFrom(cur, s, m.delims), m.parseEmpty)
    decreases |s|
  {
    if s == [] {
    } else if s[0] in m.delims {
      ScanIsLimited([], 0, s[1..], m);
      LimitedCons(Piece(cur, s[0]), SplitFrom([], s[1..], m.delims), m.parseEmpty);
    } else if |cur| + 1 >= LIMIT {
      CutIsLimited(cur, s, m);
    } else {
      ScanIsLimited(cur + [s[0]], s[0], s[1..], m);
    }
  }

  // The byte that reaches the limit, and what is skipped behind it.
  lemma {:induction false} CutIsLimited(cur: seq<int>, s: seq<int>, m: Mode)
    requires |cur| == LIMIT - 1 && s != [] && s[0] !in m.delims
    ensures var n := SkipLength(s, m, Repaired);
      Prepend([cur], Scan([], AfterSkip(s, n, Repaired), s[n..], m, Repaired))
      == Limited(SplitFrom(cur, s, m.delims), m.parseEmpty)
    decreases |s|, 0
  {
    var n := SkipLength(s, m, Repaired);
    SplitAtDelimiter(cur, s, m.delims);
    assert ToDelimiter(s, m.delims) == n;
    ScanIsLimited([], AfterSkip(s, n, Repaired), s[n..], m);
    if s[n - 1] in m.delims {
      var q := Piece(cur + s[..n - 1], s[n - 1]);
      assert q.line[..LIMIT - 1] == cur;
      LimitedCons(q, SplitFrom([], s[n..], m.delims), m.parseEmpty);
    } else {
      SkipMeans(s, m, Repaired);
      assert s[n..] == [] && (cur + s)[..LIMIT - 1] == cur;
    }
  }

  /** A repaired pass, whatever the length of the lines: short ones whole, of each long one its first
      1023 bytes, and the line behind it as if nothing had happened. */
  lemma PassIsLimited(s: seq<int>, m: Mode)
    ensures Pass(s, m, Repaired) == Limited(Split(s, m.delims), m.parseEmpty)
  {
    ScanIsLimited([], 0, s, m);
  }

  /** Also as written, a first line that reaches the limit is delivered, cut to 1023 bytes. */
  lemma {:induction false} FirstLineCut(cur: seq<int>, prev: int, s: seq<int>, m: Mode, v: Variant)
    requires |cur| < 1024 <= |cur| + |s| && Clean(s[..1024 - |cur|], m.delims)
    ensures var r := Scan(cur, prev, s, m, v); r.lines != [] && r.lines[0] == (cur + s)[..1023]
    decreases |s|
  {
    assert s[..1024 - |cur|][0] == s[0];
    if |cur| + 1 < LIMIT {
      var t := s[1..];
      assert t[..1023 - |cur|] == s[..1024 - |cur|][1..] && cur + [s[0]] + t == cur + s;
      FirstLineCut(cur + [s[0]], s[0], t, m, v);
    }
  }

  // ---------- many passes ----------

  ghost function Concat(chunks: seq<seq<int>>): seq<int> {
    if chunks == [] then [] else chunks[0] + Concat(chunks[1..])
  }

  /** One pass per chunk that recv returned, each over what the last one left and the chunk. */
  ghost function Passes(rest: seq<int>, chunks: seq<seq<int>>, m: Mode, v: Variant): Scanned
    decreases |chunks|
  {
    if chunks == [] then Scanned([], rest)
    else
      var r := Pass(rest + chunks[0], m, v);
      if r.Overrun? then r else Prepend(r.lines, Passes(r.rest, chunks[1..], m, v))
  }

  lemma {:induction false} PassesSnoc(rest: seq<int>, chunks: seq<seq<int>>, c: seq<int>, m: Mode, v: Variant)
    ensures var p := Passes(rest, chunks, m, v);
      Passes(rest, chunks + [c], m, v) == if p.Overrun? then p else Prepend(p.lines, Pass(p.rest + c, m, v))
    decreases |chunks|
  {
    if chunks == [] {
      var r := Pass(rest + c, m, v);
      assert ([] + [c])[1..] == [];
      assert r.Scanned? ==> Prepend(r.lines, Scanned([], r.rest)) == r;
      assert Prepend([], r) == r;
    } else {
      var r := Pass(rest + chunks[0], m, v);
      assert (chunks + [c])[1..] == chunks[1..] + [c];
      if r.Scanned? {
        PassesSnoc(r.rest, chunks[1..], c, m, v);
        var p := Passes(r.rest, chunks[1..], m, v);
        if p.Scanned? {
          PrependTwice(r.lines, p.lines, Pass(p.rest + c, m, v));
        }
      }
    }
  }

  lemma {:induction false} PassesAppend(rest: seq<int>, a: seq<seq<int>>, b: seq<seq<int>>, m: Mode, v: Variant)
    ensures var p := Passes(rest, a, m, v);
      Passes(rest, a + b, m, v) == if p.Overrun? then p else Prepend(p.lines, Passes(p.rest, b, m, v))
    decreases |a|
  {
    if a == [] {
      assert a + b == b;
      assert Prepend([], Passes(rest, b, m, v)) == Passes(rest, b, m, v);
    } else {
      assert (a + b)[0] == a[0] && (a + b)[1..] == a[1..] + b;
      var r := Pass(rest + a[0], m, v);
      if r.Scanned? {
        PassesAppend(r.rest, a[1..], b, m, v);
        var p := Passes(r.rest, a[1..], m, v);
        if p.Scanned? {
          PrependTwice(r.lines, p.lines, Passes(p.rest, b, m, v));
        }
      }
    }
  }

  lemma {:induction false} ConcatAppend(a: seq<seq<int>>, b: seq<seq<int>>)
    ensures Concat(a + b) == Concat(a) + Concat(b)
  {
    if a == [] {
      assert a + b == b;
    } else {
      ConcatAppend(a[1..], b);
      assert (a + b)[0] == a[0] && (a + b)[1..] == a[1..] + b;
      AppendTwice(a[0], Concat(a[1..]), Concat(b));
    }
  }

  lemma PrependTwice(a: seq<seq<int>>, b: seq<seq<int>>, r: Scanned)
    ensures Prepend(a, Prepend(b, r)) == Prepend(a + b, r)
  {
    AppendTwice(a, b, r.lines);
  }

  lemma {:induction false} ConcatSnoc(chunks: seq<seq<int>>, c: seq<int>)
    ensures Concat(chunks + [c]) == Concat(chunks) + c
  {
    if chunks == [] {
      assert ([] + [c])[1..] == [] && c + [] == [] + c;
    } else {
      assert (chunks + [c])[1..] == chunks[1..] + [c];
      ConcatSnoc(chunks[1..], c);
    }
  }

  ghost function OneShot(s: seq<int>, m: Mode): Scanned {
    var p := Split(s, m.delims);
    Scanned(Delivered(p.pieces, m.parseEmpty), p.rest)
  }

  lemma ShortJoined(p: Parts, q: Parts)
    requires Short(Parts(p.pieces + q.pieces, q.rest))
    requires |p.rest| <= if q.pieces == [] then |q.rest| else |q.pieces[0].line|
    ensures Short(p) && Short(q)
  {
    var w := p.pieces + q.pieces;
    assert forall i :: 0 <= i < |p.pieces| ==> p.pieces[i] == w[i];
    assert forall i :: 0 <= i < |q.pieces| ==> q.pieces[i] == w[|p.pieces| + i];
  }

  // A short whole has short parts.
  lemma ShortPrefix(cur: seq<int>, a: seq<int>, b: seq<int>, delims: seq<int>)
    requires Short(SplitFrom(cur, a + b, delims))
    ensures var p := SplitFrom(cur, a, delims); Short(p) && Short(SplitFrom(p.rest, b, delims))
  {
    var p := SplitFrom(cur, a, delims);
    SplitAppend(cur, a, b, delims);
    SplitGrows(p.rest, b, delims);
    ShortJoined(p, SplitFrom(p.rest, b, delims));
  }

  lemma {:induction false} PassesAreSplit(rest: seq<int>, chunks: seq<seq<int>>, m: Mode)
    requires Clean(rest, m.delims) && Short(SplitFrom(rest, Concat(chunks), m.delims))
    ensures var p := SplitFrom(rest, Concat(chunks), m.delims);
      Passes(rest, chunks, m, Repaired) == Scanned(Delivered(p.pieces, m.parseEmpty), p.rest)
    decreases |chunks|
  {
    if chunks != [] {
      var c, later := chunks[0], Concat(chunks[1..]);
      ShortPrefix(rest, c, later, m.delims);
      SplitAppend(rest, c, later, m.delims);
      var p := SplitFrom(rest, c, m.delims);
      SplitOfClean([], rest, m.delims);
      SplitAppend([], rest, c, m.delims);
      assert [] + rest == rest && [] + p.pieces == p.pieces;
      ScanIsSplit([], 0, rest + c, m);
      SplitFromIsSplit(rest, c, m.delims);
      PassesAreSplit(p.rest, chunks[1..], m);
      DeliveredConcat(p.pieces, SplitFrom(p.rest, later, m.delims).pieces, m.parseEmpty);
    }
  }

  /** Chunk invariance: however recv cuts a stream of short lines, the passes deliver the lines
      of the one-shot split and leave its rest. */
  lemma ChunkInvariance(chunks: seq<seq<int>>, m: Mode)
    requires Short(Split(Concat(chunks), m.delims))
    ensures Passes([], chunks, m, Repaired) == OneShot(Concat(chunks), m)
  {
    PassesAreSplit([], chunks, m);
  }

  // ---------- the code as written ----------

  lemma PrependInjective(a: seq<seq<int>>, r: Scanned, t: Scanned)
    ensures Prepend(a, r) == Prepend(a, t) <==> r == t
  {
    assert forall x: seq<seq<int>>, y: seq<seq<int>> :: a + x == a + y ==> x == (a + x)[|a|..] && y == (a + y)[|a|..];
  }

  /** A pass is the one-shot split only if every line is short. */
  lemma {:induction false} LongLinesAreCut(cur: seq<int>, prev: int, s: seq<int>, m: Mode)
    requires |cur| < LIMIT && !Short(SplitFrom(cur, s, m.delims))
    ensures var p := SplitFrom(cur, s, m.delims);
      Scan(cur, prev, s, m, Repaired) != Scanned(Delivered(p.pieces, m.parseEmpty), p.rest)
    decreases |s|
  {
    var p := SplitFrom(cur, s, m.delims);
    if s == [] {
    } else if s[0] in m.delims {
      var q := SplitFrom([], s[1..], m.delims);
      assert p.pieces == [Piece(cur, s[0])] + q.pieces;
      assert Short(q) ==> Short(p);
      LongLinesAreCut([], 0, s[1..], m);
      var a := if Keeps(cur, prev, m, Repaired) then [cur] else [];
      PrependInjective(a, Scan([], 0, s[1..], m, Repaired), Scanned(Delivered(q.pieces, m.parseEmpty), q.rest));
      assert p.pieces[1..] == q.pieces;
    } else {
      SplitGrows(cur + [s[0]], s[1..], m.delims);
      if |cur| + 1 < LIMIT {
        LongLinesAreCut(cur + [s[0]], s[0], s[1..], m);
      } else {
        assert Scan(cur, prev, s, m, Repaired).lines[0] == cur;
        assert p.pieces != [] ==> Delivered(p.pieces, m.parseEmpty)[0] == p.pieces[0].line;
      }
    }
  }

  lemma PassIsSplitIffShort(s: seq<int>, m: Mode)
    ensures Pass(s, m, Repaired) == OneShot(s, m) <==> Short(Split(s, m.delims))
  {
    if Short(Split(s, m.delims)) {
      ScanIsSplit([], 0, s, m);
    } else {
      LongLinesAreCut([], 0, s, m);
    }
  }

  /** The byte in front of each delimiter tells whether its line is empty. */
  ghost predicate Telling(cur: seq<int>, prev: int, s: seq<int>, delims: seq<int>) {
    && (s != [] && s[0] in delims ==> (prev != 0 <==> cur != []))
    && forall i :: 0 < i < |s| && s[i] in delims && s[i - 1] !in delims ==> s[i - 1] != 0
  }

  lemma TellingTail(cur: seq<int>, prev: int, s: seq<int>, delims: seq<int>)
    requires s != []
    ensures s[0] in delims ==>
      (Telling(cur, prev, s, delims) <==> (prev != 0 <==> cur != []) && Telling([], 0, s[1..], delims))
    ensures s[0] !in delims ==>
      (Telling(cur, prev, s, delims) <==> Telling(cur + [s[0]], s[0], s[1..], delims))
  {
    var t := s[1..];
    assert forall i :: 0 <= i < |t| ==> t[i] == s[i + 1];
    assert forall i :: 0 < i < |s| ==> s[i] == t[i - 1];
    if |s| > 1 {
      assert t[0] == s[1];
    }
  }

  // Dropping is all that the test as written can do wrong after the first line.
  lemma {:induction false} AsWrittenDelivers(cur: seq<int>, prev: int, s: seq<int>, m: Mode, v: Variant)
    requires v.AsWritten? && Short(SplitFrom(cur, s, m.delims)) && (cur == [] ==> prev == 0)
    ensures var w, r := Scan(cur, prev, s, m, v), Scan(cur, prev, s, m, Repaired);
      w.Scanned? && r.Scanned? && |w.lines| <= |r.lines|
    decreases |s|
  {
    if s == [] {
    } else if s[0] in m.delims {
      ShortTail(cur, s, m.delims);
      AsWrittenDelivers([], 0, s[1..], m, v);
    } else {
      SplitGrows(cur + [s[0]], s[1..], m.delims);
      AsWrittenDelivers(cur + [s[0]], s[0], s[1..], m, v);
    }
  }

  lemma ShortTail(cur: seq<int>, s: seq<int>, delims: seq<int>)
    requires s != [] && s[0] in delims && Short(SplitFrom(cur, s, delims))
    ensures Short(SplitFrom([], s[1..], delims))
  {
    var p, q := SplitFrom(cur, s, delims), SplitFrom([], s[1..], delims);
    assert forall i :: 0 <= i < |q.pieces| ==> q.pieces[i] == p.pieces[i + 1];
  }

  ghost predicate NoneEmpty(lines: seq<seq<int>>) {
    forall i :: 0 <= i < |lines| ==> lines[i] != []
  }

  lemma {:induction false} NoEmptyLines(cur: seq<int>, prev: int, s: seq<int>, m: Mode)
    requires !m.parseEmpty && Short(SplitFrom(cur, s, m.delims))
    ensures NoneEmpty(Scan(cur, prev, s, m, Repaired).lines)
    decreases |s|
  {
    if s == [] {
    } else if s[0] in m.delims {
      ShortTail(cur, s, m.delims);
      NoEmptyLines([], 0, s[1..], m);
    } else {
      SplitGrows(cur + [s[0]], s[1..], m.delims);
      NoEmptyLines(cur + [s[0]], s[0], s[1..], m);
    }
  }

  /** Over short lines the test as written gives the same pass exactly when those bytes tell. */
  lemma {:induction false} ScanAgreesIff(cur: seq<int>, prev: int, s: seq<int>, m: Mode, v: Variant)
    requires v.AsWritten? && Short(SplitFrom(cur, s, m.delims))
    ensures Scan(cur, prev, s, m, v) == Scan(cur, prev, s, m, Repaired)
      <==> m.parseEmpty || Telling(cur, prev, s, m.delims)
    decreases |s|
  {
    if s == [] {
    } else if s[0] in m.delims {
      ShortTail(cur, s, m.delims);
      TellingTail(cur, prev, s, m.delims);
      ScanAgreesIff([], 0, s[1..], m, v);
      AsWrittenDelivers([], 0, s[1..], m, v);
      var w, r := Scan([], 0, s[1..], m, v), Scan([], 0, s[1..], m, Repaired);
      if Keeps(cur, prev, m, v) == Keeps(cur, prev, m, Repaired) {
        PrependInjective(if Keeps(cur, prev, m, v) then [cur] else [], w, r);
      } else if Keeps(cur, prev, m, v) {
        NoEmptyLines([], 0, s[1..], m);
        assert Scan(cur, prev, s, m, v).lines[0] == [];
      } else {
        assert |Scan(cur, prev, s, m, v).lines| < |Scan(cur, prev, s, m, Repaired).lines|;
      }
    } else {
      SplitGrows(cur + [s[0]], s[1..], m.delims);
      TellingTail(cur, prev, s, m.delims);
      ScanAgreesIff(cur + [s[0]], s[0], s[1..], m, v);
    }
  }

  lemma {:induction false} PassesAgree(rest: seq<int>, chunks: seq<seq<int>>, m: Mode, v: Variant)
    requires v.AsWritten? && Clean(rest, m.delims) && Short(SplitFrom(rest, Concat(chunks), m.delims))
    requires m.parseEmpty || (v.before == 0 && 0 in m.delims)
    ensures Passes(rest, chunks, m, v) == Passes(rest, chunks, m, Repaired)
    decreases |chunks|
  {
    if chunks != [] {
      var c, later := chunks[0], Concat(chunks[1..]);
      ShortPrefix(rest, c, later, m.delims);
      SplitOfClean([], rest, m.delims);
      SplitAppend([], rest, c, m.delims);
      assert [] + rest == rest;
      var p := SplitFrom(rest, c, m.delims);
      assert [] + p.pieces == p.pieces;
      ScanIsSplit([], v.before, rest + c, m);
      ScanIsSplit([], 0, rest + c, m);
      ScanAgreesIff([], v.before, rest + c, m, v);
      SplitFromIsSplit(rest, c, m.delims);
      PassesAgree(p.rest, chunks[1..], m, v);
    }
  }

  /** The splitter as written is chunk invariant on all streams of short lines if and only if empty
      lines are wanted anyway, or the byte in front of the buffer is 0 and NUL is a delimiter. */
  lemma AsWrittenInvariantIff(m: Mode, v: Variant)
    requires v.AsWritten? && m.delims != []
    ensures (forall chunks :: Short(Split(Concat(chunks), m.delims)) ==>
               Passes([], chunks, m, v) == OneShot(Concat(chunks), m))
      <==> m.parseEmpty || (v.before == 0 && 0 in m.delims)
  {
    if m.parseEmpty || (v.before == 0 && 0 in m.delims) {
      forall chunks | Short(Split(Concat(chunks), m.delims))
        ensures Passes([], chunks, m, v) == OneShot(Concat(chunks), m)
      {
        PassesAgree([], chunks, m, v);
        ChunkInvariance(chunks, m);
      }
    } else {
      var s := if v.before != 0 then [m.delims[0]] else [0, m.delims[0]];
      AsWrittenFails(s, m, v);
      assert !(Short(Split(Concat([s]), m.delims)) ==> Passes([], [s], m, v) == OneShot(Concat([s]), m));
    }
  }

  // A lone delimiter, or NUL and a delimiter, received at once.
  lemma AsWrittenFails(s: seq<int>, m: Mode, v: Variant)
    requires v.AsWritten? && m.delims != [] && !m.parseEmpty
    requires (s == [m.delims[0]] && v.before != 0) || (s == [0, m.delims[0]] && 0 !in m.delims)
    ensures Concat([s]) == s && Short(Split(s, m.delims))
    ensures Passes([], [s], m, v) != OneShot(s, m)
  {
    assert Concat([s]) == s + [] == s && [] + s == s;
    var t := [m.delims[0]];
    assert t[1..] == [] && SplitFrom([0], t, m.delims).pieces == [Piece([0], t[0])];
    assert SplitFrom([], t, m.delims).pieces == [Piece([], t[0])];
    if |s| == 2 {
      assert s[1..] == t && [] + [0] == [0];
    }
    assert Short(Split(s, m.delims));
    ScanIsSplit([], v.before, s, m);
    ScanAgreesIff([], v.before, s, m, v);
    assert !Telling([], v.before, s, m.delims) by {
      assert |s| == 2 ==> s[1] in m.delims && s[1 - 1] == 0;
    }
    var r := Pass(s, m, v);
    assert r.Scanned? ==> Passes([], [s], m, v) == Prepend(r.lines, Scanned([], r.rest));
  }

  /** As written no pass overruns if the byte behind the delimiter table is 0. */
  lemma {:induction false} ZeroNeverOverruns(cur: seq<int>, prev: int, s: seq<int>, m: Mode, v: Variant)
    requires v.AsWritten? && v.past == 0
    ensures Scan(cur, prev, s, m, v).Scanned?
    decreases |s|
  {
    if s == [] {
    } else if s[0] in m.delims {
      ZeroNeverOverruns([], 0, s[1..], m, v);
    } else if |cur| + 1 >= LIMIT {
      ZeroNeverOverruns([], 0, s[1..], m, v);
    } else {
      ZeroNeverOverruns(cur + [s[0]], s[0], s[1..], m, v);
    }
  }

  // Enough copies of a byte that is neither a delimiter nor `past` reach the limit and are all skipped.
  lemma {:induction false} ManyOverrun(cur: seq<int>, prev: int, s: seq<int>, m: Mode, v: Variant, c: int)
    requires v.AsWritten? && v.past != 0 && c != v.past && c !in m.delims
    requires (forall i :: 0 <= i < |s| ==> s[i] == c) && s != [] && |cur| + |s| >= LIMIT > |cur|
    ensures Scan(cur, prev, s, m, v).Overrun?
    decreases |s|
  {
    if |cur| + 1 >= LIMIT {
      NotFound(s[1..], c, v.past);
    } else {
      ManyOverrun(cur + [s[0]], s[0], s[1..], m, v, c);
    }
  }

  lemma {:induction false} NotFound(s: seq<int>, c: int, past: int)
    requires c != past && forall i :: 0 <= i < |s| ==> s[i] == c
    ensures ToByte(s, past) == |s|
  {
    if s != [] {
      NotFound(s[1..], c, past);
    }
  }

  /** And only then: `c` is any byte that occurs in neither place. */
  lemma NeverOverrunsIff(m: Mode, v: Variant, c: int)
    requires v.AsWritten? && c != v.past && c !in m.delims
    ensures (forall s :: Pass(s, m, v).Scanned?) <==> v.past == 0
  {
    if v.past == 0 {
      forall s
        ensures Pass(s, m, v).Scanned?
      {
        ZeroNeverOverruns([], v.before, s, m, v);
      }
    } else {
      var s := seq(LIMIT, i => c);
      ManyOverrun([], v.before, s, m, v, c);
      assert !Pass(s, m, v).Scanned?;
    }
  }
}
