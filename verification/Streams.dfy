/**
  The two ends of a stream: a reader that may deliver its bytes in any fragments and
  stop for any reason, and a seekable in-memory sink that may fail at any operation.
*/
module Streams {
  import opened Prelude

  /**
    Why a reader stopped: `io.EOF`, `io.ErrUnexpectedEOF`, an error that merely wraps
    `io.EOF`, or any other fault.
  */
  datatype ReadEnd = EndOfFile | UnexpectedEnd | WrappedEnd | ReadFault

  /** One entry of a reader's plan: deliver at most `limit` bytes, with the end signal attached if `eager`. */
  datatype Fragment = Fragment(limit: nat, eager: bool)

  class Reader {
    var rest: Bytes           // the bytes not delivered yet
    var plan: seq<Fragment>   // how they will be fragmented; then as many as fit
    const end: ReadEnd        // what follows the last byte, on every later call

    constructor (rest: Bytes, plan: seq<Fragment>, end: ReadEnd)
      ensures this.rest == rest && this.plan == plan && this.end == end
    {
      this.rest, this.plan, this.end := rest, plan, end;
    }

    /** `io.Reader.Read` into the part of `buf` from index `from` on. */
    method Read(buf: array<Byte>, from: nat) returns (n: nat, err: Option<ReadEnd>)
      requires from < buf.Length
      modifies this`rest, this`plan, buf
      ensures from + n <= buf.Length && n <= |old(rest)|
      ensures buf[..] == old(buf[..from]) + old(rest)[..n] + old(buf[from + n..])
      ensures rest == old(rest)[n..]
      ensures err.Some? ==> rest == [] && err.value == end
      ensures |plan| <= |old(plan)|
      ensures n == 0 && err.None? ==> |plan| < |old(plan)|
    {
      var limit, eager := buf.Length, rest == [];
      if plan != [] {
        limit, eager, plan := plan[0].limit, plan[0].eager, plan[1..];
      }
      n := Min(limit, Min(buf.Length - from, |rest|));
      err := if eager && n == |rest| then Some(end) else None;
      forall i | 0 <= i < n {
        buf[from + i] := rest[i];
      }
      rest := rest[n..];
    }
  }

  /** What `io.ReadFull` reports for a buffer of `want` bytes when `have` were left. */
  function FullErr(want: nat, have: nat, end: ReadEnd): Option<ReadEnd> {
    if have >= want then None
    else if have > 0 && end == EndOfFile then Some(UnexpectedEnd)
    else Some(end)
  }

  /** `io.ReadFull`: however the reader fragments its bytes, the buffer gets as many as there are. */
  method ReadFull(r: Reader, buf: array<Byte>) returns (n: nat, err: Option<ReadEnd>)
    requires buf.Length > 0
    modifies r`rest, r`plan, buf
    ensures n == Min(buf.Length, |old(r.rest)|)
    ensures buf[..n] == old(r.rest)[..n]
    ensures r.rest == old(r.rest)[n..]
    ensures err == FullErr(buf.Length, |old(r.rest)|, r.end)
  {
    n, err := 0, None;
    ghost var all := r.rest;
    while n < buf.Length && err.None?
      invariant n <= buf.Length && n <= |all|
      invariant buf[..n] == all[..n] && r.rest == all[n..]
      invariant err.Some? ==> r.rest == [] && err.value == r.end
      decreases |r.rest|, |r.plan|, err.None?
    {
      ghost var before := buf[..];
      var k, e := r.Read(buf, n);
      assert buf[..n + k] == before[..n] + all[n..][..k];
      n, err := n + k, e;
    }
    if n >= buf.Length {
      err := None;
    } else if n > 0 && err == Some(EndOfFile) {
      err := Some(UnexpectedEnd);
    }
  }

  // ---- the sink ----

  function Padded(b: Bytes, size: nat): (p: Bytes)
    ensures |p| >= size && |p| >= |b| && p[..|b|] == b
  {
    if size > |b| then b + seq(size - |b|, _ => 0) else b
  }

  /** Writing `p` at `pos`: a gap is filled with zeros, bytes beyond `p` are kept. */
  function Overwrite(b: Bytes, pos: nat, p: Bytes): (s: Bytes)
    ensures |s| == if pos + |p| > |b| then pos + |p| else |b|
  {
    var q := Padded(b, pos + |p|);
    q[..pos] + p + q[pos + |p|..]
  }

  lemma OverwriteTwice(b: Bytes, pos: nat, p: Bytes, q: Bytes)
    ensures Overwrite(Overwrite(b, pos, p), pos + |p|, q) == Overwrite(b, pos, p + q)
  {
    var left, right := Overwrite(Overwrite(b, pos, p), pos + |p|, q), Overwrite(b, pos, p + q);
    assert |left| == |right|;
    forall i | 0 <= i < |left| ensures left[i] == right[i] {
      if pos + |p| <= i < pos + |p| + |q| {
        assert right[i] == (p + q)[i - pos];
      }
    }
  }

  class Sink {
    var buf: Bytes
    var pos: nat
    var faults: seq<bool>   // which of the coming operations fail; then none does

    constructor (faults: seq<bool>)
      ensures buf == [] && pos == 0 && this.faults == faults
    {
      buf, pos, this.faults := [], 0, faults;
    }

    predicate Healthy()
      reads this
    {
      true !in faults
    }

    method Operate() returns (ok: bool)
      modifies this`faults
      ensures old(Healthy()) ==> ok && Healthy()
    {
      ok := true;
      if faults != [] {
        ok, faults := !faults[0], faults[1..];
      }
    }

    method Write(p: Bytes) returns (ok: bool)
      modifies this
      ensures old(Healthy()) ==> ok && Healthy()
      ensures ok ==> buf == Overwrite(old(buf), old(pos), p) && pos == old(pos) + |p|
      ensures !ok ==> buf == old(buf) && pos == old(pos)
    {
      ok := Operate();
      if ok {
        buf, pos := Overwrite(buf, pos, p), pos + |p|;
      }
    }

    method SeekStart(offset: nat) returns (ok: bool)
      modifies this
      ensures old(Healthy()) ==> ok && Healthy()
      ensures buf == old(buf) && pos == if ok then offset else old(pos)
    {
      ok := Operate();
      if ok {
        pos := offset;
      }
    }

    method SeekEnd() returns (ok: bool)
      modifies this
      ensures old(Healthy()) ==> ok && Healthy()
      ensures buf == old(buf) && pos == if ok then |buf| else old(pos)
    {
      ok := Operate();
      if ok {
        pos := |buf|;
      }
    }
  }
}
