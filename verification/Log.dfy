/** The byte level of the log: newline-terminated records and how they are read back. */
module Log {
  import opened Wrappers
  import opened Model

  datatype Lines = Lines(complete: seq<Bytes>, tail: Bytes)

  /** The reference reading of a file: cut after every newline, byte by byte. */
  function Split(b: Bytes): Lines {
    if b == [] then Lines([], [])
    else
      var p := Split(b[..|b| - 1]);
      var x := b[|b| - 1];
      if x == NEWLINE then Lines(p.complete + [p.tail + [x]], []) else Lines(p.complete, p.tail + [x])
  }

  function Join(lines: seq<Bytes>): Bytes {
    if lines == [] then [] else Join(lines[..|lines| - 1]) + lines[|lines| - 1]
  }

  /** A complete record: one newline, at its end. */
  predicate IsLine(l: Bytes) {
    l != [] && l[|l| - 1] == NEWLINE && NEWLINE !in l[..|l| - 1]
  }

  lemma Regroup(a: Bytes, b: Bytes, c: Bytes)
    ensures (a + b) + c == a + (b + c)
  {
  }

  lemma {:induction false} SplitSnoc(b: Bytes, x: byte)
    ensures Split(b + [x]) ==
            if x == NEWLINE then Lines(Split(b).complete + [Split(b).tail + [x]], []) else Lines(Split(b).complete, Split(b).tail + [x])
  {
    assert (b + [x])[..|b + [x]| - 1] == b;
  }

  /** Newline-free bytes only lengthen the tail. */
  lemma {:induction false} SplitPlain(b: Bytes, t: Bytes)
    requires NEWLINE !in t
    ensures Split(b + t) == Lines(Split(b).complete, Split(b).tail + t)
    decreases |t|
  {
    hide Split;
    if t == [] {
      assert b + t == b;
      assert Split(b).tail + t == Split(b).tail;
    } else {
      var u := t[..|t| - 1];
      var x := t[|t| - 1];
      assert t == u + [x];
      SplitPlain(b, u);
      SplitSnoc(b + u, x);
      Regroup(b, u, [x]);
      Regroup(Split(b).tail, u, [x]);
    }
  }

  lemma {:induction false} SplitLine(b: Bytes, l: Bytes)
    requires IsLine(l) && Split(b).tail == []
    ensures Split(b + l) == Lines(Split(b).complete + [l], [])
  {
    hide Split;
    var u := l[..|l| - 1];
    assert l == u + [NEWLINE];
    SplitPlain(b, u);
    assert Split(b).tail + u == u;
    SplitSnoc(b + u, NEWLINE);
    Regroup(b, u, [NEWLINE]);
  }

  /** Records followed by a newline-free tail are read back as exactly those records and that tail. */
  lemma {:induction false} SplitJoin(lines: seq<Bytes>, tail: Bytes)
    requires forall l :: l in lines ==> IsLine(l)
    requires NEWLINE !in tail
    ensures Split(Join(lines) + tail) == Lines(lines, tail)
    decreases |lines|
  {
    if lines == [] {
      SplitPlain([], tail);
      assert [] + tail == tail;
    } else {
      var init := lines[..|lines| - 1];
      var last := lines[|lines| - 1];
      assert Join(lines) == Join(init) + last;
      hide Split, Join;
      SplitJoin(init, []);
      assert Join(init) + [] == Join(init);
      SplitLine(Join(init), last);
      SplitPlain(Join(lines), tail);
      assert [] + tail == tail;
      assert init + [last] == lines;
    }
  }

  lemma {:induction false} JoinSnoc(lines: seq<Bytes>, l: Bytes)
    ensures Join(lines + [l]) == Join(lines) + l
  {
    assert (lines + [l])[..|lines + [l]| - 1] == lines;
  }

  lemma ExactSnoc(b: Bytes, x: byte)
    requires Join(Split(b).complete) + Split(b).tail == b && NEWLINE !in Split(b).tail
    requires forall l :: l in Split(b).complete ==> IsLine(l)
    ensures Join(Split(b + [x]).complete) + Split(b + [x]).tail == b + [x]
    ensures NEWLINE !in Split(b + [x]).tail
    ensures forall l :: l in Split(b + [x]).complete ==> IsLine(l)
  {
    hide Split, Join;
    SplitSnoc(b, x);
    var p := Split(b);
    var t := p.tail + [x];
    Regroup(Join(p.complete), p.tail, [x]);
    if x == NEWLINE {
      assert t[..|t| - 1] == p.tail;
      JoinSnoc(p.complete, t);
      assert Join(p.complete + [t]) + [] == Join(p.complete + [t]);
    }
  }

  /** Cutting loses nothing: the lines are lines, the tail holds no newline, and together they are the file. */
  lemma {:induction false} SplitExact(b: Bytes)
    ensures Join(Split(b).complete) + Split(b).tail == b
    ensures NEWLINE !in Split(b).tail
    ensures forall l :: l in Split(b).complete ==> IsLine(l)
    decreases |b|
  {
    if b == [] {
      assert Split(b) == Lines([], []);
    } else {
      hide Split, Join;
      var init := b[..|b| - 1];
      var x := b[|b| - 1];
      assert b == init + [x];
      SplitExact(init);
      ExactSnoc(init, x);
    }
  }

  /** Where recovery truncates the file: right after the last newline. */
  function Good(b: Bytes): (n: nat)
    ensures n <= |b|
  {
    SplitExact(b);
    |Join(Split(b).complete)|
  }

  /** Truncation is idempotent and keeps every complete record. */
  lemma {:induction false} TruncateIdempotent(b: Bytes)
    ensures b[..Good(b)] == Join(Split(b).complete)
    ensures Split(b[..Good(b)]) == Lines(Split(b).complete, [])
    ensures Good(b[..Good(b)]) == Good(b)
  {
    SplitExact(b);
    var j := Join(Split(b).complete);
    assert b[..|j|] == j;
    SplitJoin(Split(b).complete, []);
    assert j + [] == j;
  }

  /** A torn write of a line leaves a newline-free tail unless it wrote the whole line. */
  lemma TornLine(l: Bytes, n: nat)
    requires IsLine(l) && n <= |l|
    ensures n < |l| ==> NEWLINE !in l[..n]
    ensures n == |l| ==> l[..n] == l
  {
    if n < |l| {
      forall i | 0 <= i < n ensures l[..n][i] != NEWLINE {
        assert l[..|l| - 1][i] == l[..n][i];
      }
    }
  }

  /** Reading on after a line does not disturb it. */
  lemma {:induction false} FirstLine(l: Bytes, rest: Bytes)
    requires IsLine(l)
    ensures Split(l + rest).complete != [] && Split(l + rest).complete[0] == l
    decreases |rest|
  {
    if rest == [] {
      SplitLine([], l);
      assert [] + l == l == l + rest;
    } else {
      var init := rest[..|rest| - 1];
      FirstLine(l, init);
      assert l + rest == (l + init) + [rest[|rest| - 1]];
      SplitSnoc(l + init, rest[|rest| - 1]);
    }
  }

  lemma LineAhead(data: Bytes, start: nat, before: nat, end: nat)
    requires start <= before < end <= |data|
    requires NEWLINE !in data[start..before] && IsLine(data[before..end])
    ensures IsLine(data[start..end])
    ensures Split(data[start..]).complete != [] && Split(data[start..]).complete[0] == data[start..end]
  {
    var l := data[start..end];
    assert l == data[start..before] + data[before..end];
    assert l[..|l| - 1] == data[start..before] + data[before..end][..end - before - 1];
    assert data[start..] == l + data[end..];
    FirstLine(l, data[end..]);
  }

  lemma NothingAhead(data: Bytes, start: nat)
    requires start <= |data| && NEWLINE !in data[start..]
    ensures Split(data[start..]).complete == []
  {
    SplitPlain([], data[start..]);
    assert [] + data[start..] == data[start..];
  }

  /* ---- the buffered reader ---- */

  datatype Fragment = Delimited(bytes: Bytes) | BufferFull(bytes: Bytes) | EndOfFile(bytes: Bytes)

  /** A buffered reader over a file, as far as `readRecord` can tell: it hands out fragments of
      whatever length the buffer allows. */
  class Reader {
    const data: Bytes
    var pos: nat

    ghost predicate Valid()
      reads this
    {
      pos <= |data|
    }

    constructor (data: Bytes)
      ensures Valid() && this.data == data && pos == 0
    {
      this.data := data;
      pos := 0;
    }

    /** `ReadSlice('\n')` with a buffer of `size` bytes. */
    method ReadSlice(size: nat) returns (f: Fragment)
      requires Valid() && size >= 1
      modifies this
      ensures Valid() && pos == old(pos) + |f.bytes| && f.bytes == data[old(pos)..pos]
      ensures f.Delimited? ==> IsLine(f.bytes)
      ensures !f.Delimited? ==> NEWLINE !in f.bytes
      ensures f.BufferFull? ==> |f.bytes| == size
      ensures f.EndOfFile? ==> pos == |data|
    {
      var start := pos;
      while pos < |data| && pos - start < size && data[pos] != NEWLINE
        invariant start <= pos <= |data| && pos - start <= size
        invariant NEWLINE !in data[start..pos]
      {
        assert data[start..pos + 1] == data[start..pos] + [data[pos]];
        pos := pos + 1;
      }
      if pos - start == size {
        f := BufferFull(data[start..pos]);
      } else if pos == |data| {
        f := EndOfFile(data[start..pos]);
      } else {
        pos := pos + 1;
        f := Delimited(data[start..pos]);
        assert f.bytes[..|f.bytes| - 1] == data[start..pos - 1];
      }
    }

    /** One record, whatever the fragmentation. `Some(l)` is a complete line, `None` the end of the file. */
    method ReadRecord(size: nat) returns (r: Result<Option<Bytes>, Error>)
      requires Valid() && size >= 1
      modifies this
      ensures Valid()
      ensures r.Err? <==> Split(data[old(pos)..]).complete != [] && |Split(data[old(pos)..]).complete[0]| > MAX_EVENT_BYTES
      ensures r.Err? ==> r.error == Oversize
      ensures r == Ok(None) <==> Split(data[old(pos)..]).complete == []
      ensures r.Ok? && r.value.Some? ==>
                && IsLine(r.value.value) && |r.value.value| <= MAX_EVENT_BYTES
                && pos == old(pos) + |r.value.value| && data[old(pos)..pos] == r.value.value
    {
      var record: Bytes := [];
      var total := 0;
      var oversized := false;
      ghost var start := pos;
      while true
        invariant Valid() && pos == start + total
        invariant NEWLINE !in data[start..pos]
        invariant oversized <==> total > MAX_EVENT_BYTES
        invariant !oversized ==> record == data[start..pos]
        decreases |data| - pos
      {
        var before := pos;
        var f := ReadSlice(size);
        total := total + |f.bytes|;
        assert data[start..pos] == data[start..before] + f.bytes;
        if total > MAX_EVENT_BYTES {
          oversized := true;
          record := [];
        } else if !oversized {
          record := record + f.bytes;
        }
        match f {
          case Delimited(_) =>
            LineAhead(data, start, before, pos);
            if oversized {
              return Err(Oversize);
            }
            return Ok(Some(record));
          case BufferFull(_) =>
          case EndOfFile(_) =>
            NothingAhead(data, start);
            return Ok(None);
        }
      }
    }
  }

  /** A reader that has consumed some lines goes on exactly where the reference reading goes on. */
  lemma {:induction false} SplitAfter(b: Bytes, rest: Bytes)
    requires Split(b).tail == []
    ensures Split(b + rest) == Lines(Split(b).complete + Split(rest).complete, Split(rest).tail)
    decreases |rest|
  {
    if rest == [] {
      assert b + rest == b;
      assert Split(b).complete + [] == Split(b).complete;
    } else {
      var init := rest[..|rest| - 1];
      var x := rest[|rest| - 1];
      SplitAfter(b, init);
      assert b + rest == (b + init) + [x];
      SplitSnoc(b + init, x);
    }
  }
}
