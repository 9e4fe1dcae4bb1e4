/** The circular buffer: two positions in a fixed block of bytes, refining a FIFO queue. */
module CircularBuffer {

  // ---------- The queue ----------

  function Min(a: nat, b: nat): nat { if a < b then a else b }

  /** A write of `src` to a queue of bounded capacity, and how many bytes it takes. */
  function Pushed(capacity: nat, q: seq<char>, src: seq<char>): (seq<char>, nat)
    requires |q| <= capacity
  {
    var k := Min(|src|, capacity - |q|);
    (q + src[..k], k)
  }

  /** A read of up to n bytes: what is left, and what is read. */
  function Popped(q: seq<char>, n: nat): (seq<char>, seq<char>) {
    var k := Min(n, |q|);
    (q[k..], q[..k])
  }

  datatype Op = Write(src: seq<char>) | Read(n: nat)

  /** The queue after a sequence of operations, all bytes accepted and all bytes returned. */
  function Replay(capacity: nat, q: seq<char>, ops: seq<Op>): (r: (seq<char>, seq<char>, seq<char>))
    requires |q| <= capacity
    ensures |r.0| <= capacity
    decreases |ops|
  {
    if ops == [] then (q, [], [])
    else
      match ops[0]
      case Write(src) =>
        var (q1, k) := Pushed(capacity, q, src);
        var (q2, written, read) := Replay(capacity, q1, ops[1..]);
        (q2, src[..k] + written, read)
      case Read(n) =>
        var (q1, out) := Popped(q, n);
        var (q2, written, read) := Replay(capacity, q1, ops[1..]);
        (q2, written, out + read)
  }

  /** Over any sequence of operations, what was there and what was written is what was read
      and what is there, in order. */
  lemma {:induction false} FirstInFirstOut(capacity: nat, q: seq<char>, ops: seq<Op>)
    requires |q| <= capacity
    ensures var (q', written, read) := Replay(capacity, q, ops); q + written == read + q'
    decreases |ops|
  {
    if ops == [] {
    } else {
      match ops[0]
      case Write(src) =>
        var (q1, k) := Pushed(capacity, q, src);
        FirstInFirstOut(capacity, q1, ops[1..]);
        var (q2, written, read) := Replay(capacity, q1, ops[1..]);
        assert q + (src[..k] + written) == q1 + written;
      case Read(n) =>
        var (q1, out) := Popped(q, n);
        FirstInFirstOut(capacity, q1, ops[1..]);
        var (q2, written, read) := Replay(capacity, q1, ops[1..]);
        assert q + written == out + (q1 + written);
        assert (out + read) + q2 == out + (read + q2);
    }
  }

  /** With `now` left after the first i operations, and `w` and `r` moved by them, the rest lead
      to what all of them lead to. */
  predicate Replayed(capacity: nat, q: seq<char>, ops: seq<Op>, i: nat, now: seq<char>, w: seq<char>, r: seq<char>)
    requires |q| <= capacity && |now| <= capacity && i <= |ops|
  {
    var (q1, w1, r1) := Replay(capacity, now, ops[i..]);
    Replay(capacity, q, ops) == (q1, w + w1, r + r1)
  }

  /** One operation takes the queue from `q` to `q1`, accepting and returning these bytes. */
  predicate Performs(capacity: nat, op: Op, q: seq<char>, q1: seq<char>, accepted: seq<char>, returned: seq<char>)
    requires |q| <= capacity
  {
    match op
    case Write(src) =>
      returned == [] && q1 == Pushed(capacity, q, src).0 && accepted == src[..Pushed(capacity, q, src).1]
    case Read(n) => accepted == [] && (q1, returned) == Popped(q, n)
  }

  /** The same without saying how much: a write takes a prefix of its bytes, and all unless the
      queue is full then; a read takes bytes from the front, and as many as asked for unless the
      queue is empty then. */
  predicate Moves(capacity: nat, op: Op, q: seq<char>, q1: seq<char>, accepted: seq<char>, returned: seq<char>) {
    match op
    case Write(src) =>
      returned == [] && accepted <= src && q1 == q + accepted && |q1| <= capacity
      && (accepted == src || |q1| == capacity)
    case Read(n) =>
      accepted == [] && q == returned + q1 && |returned| <= n && (|returned| == n || q1 == [])
  }

  lemma {:induction false} WriteMoves(
    capacity: nat, src: seq<char>, q: seq<char>, q1: seq<char>, accepted: seq<char>, returned: seq<char>)
    requires |q| <= capacity
    ensures Performs(capacity, Write(src), q, q1, accepted, returned)
            <==> Moves(capacity, Write(src), q, q1, accepted, returned)
  {
    if Moves(capacity, Write(src), q, q1, accepted, returned) {
      assert accepted == src[..|accepted|];
      assert |accepted| == Min(|src|, capacity - |q|);
    }
  }

  lemma {:induction false} ReadMoves(
    capacity: nat, n: nat, q: seq<char>, q1: seq<char>, accepted: seq<char>, returned: seq<char>)
    requires |q| <= capacity
    ensures Performs(capacity, Read(n), q, q1, accepted, returned)
            <==> Moves(capacity, Read(n), q, q1, accepted, returned)
  {
    if Moves(capacity, Read(n), q, q1, accepted, returned) {
      assert |returned| == Min(n, |q|);
      assert q[..|returned|] == returned && q[|returned|..] == q1;
    }
  }

  /** The two say the same of every operation. */
  lemma {:induction false} AmountsExactly(
    capacity: nat, op: Op, q: seq<char>, q1: seq<char>, accepted: seq<char>, returned: seq<char>)
    requires |q| <= capacity
    ensures Performs(capacity, op, q, q1, accepted, returned) <==> Moves(capacity, op, q, q1, accepted, returned)
  {
    match op
    case Write(src) => WriteMoves(capacity, src, q, q1, accepted, returned);
    case Read(n) => ReadMoves(capacity, n, q, q1, accepted, returned);
  }

  function Flat(parts: seq<seq<char>>): seq<char> {
    if parts == [] then [] else parts[0] + Flat(parts[1..])
  }

  /** The queue between operations, and what each accepts and returns, from `q` to `q'`. */
  predicate MovesAll(capacity: nat, q: seq<char>, ops: seq<Op>, qs: seq<seq<char>>, ins: seq<seq<char>>,
                     outs: seq<seq<char>>, q': seq<char>, accepted: seq<char>, returned: seq<char>)
  {
    && |ins| == |outs| == |ops| && |qs| == |ops| + 1 && qs[0] == q && qs[|ops|] == q'
    && (forall i :: 0 <= i < |ops| ==> Moves(capacity, ops[i], qs[i], qs[i + 1], ins[i], outs[i]))
    && accepted == Flat(ins) && returned == Flat(outs)
  }

  lemma {:induction false} MovesFirst(
    capacity: nat, q: seq<char>, ops: seq<Op>, q1: seq<char>, a: seq<char>, r: seq<char>,
    qs: seq<seq<char>>, ins: seq<seq<char>>, outs: seq<seq<char>>,
    q': seq<char>, accepted: seq<char>, returned: seq<char>)
    requires ops != [] && Moves(capacity, ops[0], q, q1, a, r)
    requires MovesAll(capacity, q1, ops[1..], qs, ins, outs, q', accepted, returned)
    ensures MovesAll(capacity, q, ops, [q] + qs, [a] + ins, [r] + outs, q', a + accepted, r + returned)
  {
    var qs', ins', outs' := [q] + qs, [a] + ins, [r] + outs;
    assert ins'[1..] == ins && outs'[1..] == outs;
    forall i | 0 <= i < |ops| ensures Moves(capacity, ops[i], qs'[i], qs'[i + 1], ins'[i], outs'[i]) {
      if i > 0 { assert ops[i] == ops[1..][i - 1]; }
    }
  }

  lemma {:induction false} ReplayMoves(capacity: nat, q: seq<char>, ops: seq<Op>)
    returns (qs: seq<seq<char>>, ins: seq<seq<char>>, outs: seq<seq<char>>)
    requires |q| <= capacity
    ensures var (q', accepted, returned) := Replay(capacity, q, ops);
      MovesAll(capacity, q, ops, qs, ins, outs, q', accepted, returned)
    decreases |ops|
  {
    qs, ins, outs := [q], [], [];
    if ops != [] {
      var a, r, q1 := [], [], q;
      match ops[0] {
        case Write(src) => q1, a := Pushed(capacity, q, src).0, src[..Pushed(capacity, q, src).1];
        case Read(n) => q1, r := Popped(q, n).0, Popped(q, n).1;
      }
      AmountsExactly(capacity, ops[0], q, q1, a, r);
      ReplayFirst(capacity, q, ops, q1, a, r);
      var qs1, ins1, outs1 := ReplayMoves(capacity, q1, ops[1..]);
      var (q', accepted, returned) := Replay(capacity, q1, ops[1..]);
      MovesFirst(capacity, q, ops, q1, a, r, qs1, ins1, outs1, q', accepted, returned);
      qs, ins, outs := [q] + qs1, [a] + ins1, [r] + outs1;
    }
  }

  lemma {:induction false} ReplayedStart(capacity: nat, q: seq<char>, ops: seq<Op>)
    requires |q| <= capacity
    ensures Replayed(capacity, q, ops, 0, q, [], [])
  {
    assert ops[0..] == ops;
    var (q1, w, r) := Replay(capacity, q, ops);
    assert [] + w == w && [] + r == r;
  }

  lemma {:induction false} ReplayFirst(
    capacity: nat, q: seq<char>, ops: seq<Op>, next: seq<char>, accepted: seq<char>, returned: seq<char>)
    requires |q| <= capacity && |next| <= capacity && ops != []
    requires Performs(capacity, ops[0], q, next, accepted, returned)
    ensures var (q2, w2, r2) := Replay(capacity, next, ops[1..]);
      Replay(capacity, q, ops) == (q2, accepted + w2, returned + r2)
  {
    var (q2, w2, r2) := Replay(capacity, next, ops[1..]);
    assert [] + w2 == w2 && [] + r2 == r2;
  }

  lemma {:induction false} ReplayedNext(
    capacity: nat, q: seq<char>, ops: seq<Op>, i: nat, now: seq<char>, w: seq<char>, r: seq<char>,
    next: seq<char>, accepted: seq<char>, returned: seq<char>)
    requires |q| <= capacity && |now| <= capacity && |next| <= capacity && i < |ops|
    requires Replayed(capacity, q, ops, i, now, w, r) && Performs(capacity, ops[i], now, next, accepted, returned)
    ensures Replayed(capacity, q, ops, i + 1, next, w + accepted, r + returned)
  {
    var rest := ops[i..];
    assert rest[0] == ops[i] && rest[1..] == ops[i + 1..];
    ReplayFirst(capacity, now, rest, next, accepted, returned);
    var (q2, w2, r2) := Replay(capacity, next, ops[i + 1..]);
    Regroup(w, accepted, w2);
    Regroup(r, returned, r2);
  }

  lemma {:induction false} Regroup(a: seq<char>, b: seq<char>, c: seq<char>)
    ensures a + (b + c) == a + b + c
  {
  }

  lemma {:induction false} ReplayedAll(
    capacity: nat, q: seq<char>, ops: seq<Op>, now: seq<char>, w: seq<char>, r: seq<char>)
    requires |q| <= capacity && |now| <= capacity && Replayed(capacity, q, ops, |ops|, now, w, r)
    ensures (now, w, r) == Replay(capacity, q, ops)
  {
    assert w + [] == w && r + [] == r;
  }

  /** No write of no bytes meets an empty queue. */
  predicate Proper(capacity: nat, q: seq<char>, ops: seq<Op>)
    requires |q| <= capacity
    decreases |ops|
  {
    ops == [] ||
    match ops[0]
    case Write(src) => (src != [] || q != []) && Proper(capacity, Pushed(capacity, q, src).0, ops[1..])
    case Read(n) => Proper(capacity, Popped(q, n).0, ops[1..])
  }

  // ---------- The ring ----------

  /** The `read` pointer of an empty buffer: the address of the structure, before any byte. */
  const EMPTY := -1

  function Wrap(i: nat, capacity: nat): nat {
    if i >= capacity then i - capacity else i
  }

  /** `len` bytes from `start` on, around the end. */
  function Ring(b: seq<char>, start: nat, len: nat): (r: seq<char>)
    requires start < |b| && len <= |b|
    ensures |r| == len
  {
    seq(len, i requires 0 <= i < len => b[Wrap(start + i, |b|)])
  }

  /** Storing behind the last of fewer than all bytes appends. */
  lemma {:induction false} RingAppend(b: seq<char>, start: nat, len: nat, x: char)
    requires start < |b| && len < |b|
    ensures Ring(b[Wrap(start + len, |b|) := x], start, len + 1) == Ring(b, start, len) + [x]
  {
    var w := Wrap(start + len, |b|);
    var r := Ring(b[w := x], start, len + 1);
    forall i | 0 <= i < len ensures r[i] == Ring(b, start, len)[i] {
      assert Wrap(start + i, |b|) != w;
    }
    assert r[len] == x;
    assert r == Ring(b, start, len) + [x];
  }

  lemma {:induction false} RingDrop(b: seq<char>, start: nat, len: nat)
    requires start < |b| && 0 < len <= |b|
    ensures Ring(b, start, len) == [b[start]] + Ring(b, Wrap(start + 1, |b|), len - 1)
  {
    var r, next := Ring(b, start, len), Wrap(start + 1, |b|);
    forall i | 1 <= i < len ensures r[i] == Ring(b, next, len - 1)[i - 1] {
      assert Wrap(next + (i - 1), |b|) == Wrap(start + i, |b|);
    }
    assert Wrap(start + 0, |b|) == start;
    assert r == [b[start]] + Ring(b, next, len - 1);
  }

  lemma {:induction false} HeadTail(q: seq<char>, k: nat, x: char, rest: seq<char>)
    requires k <= |q| && q[k..] == [x] + rest
    ensures k < |q| && x == q[k] && rest == q[k + 1..] && q[..k + 1] == q[..k] + [x]
  {
    assert |q[k..]| == 1 + |rest|;
    assert rest == q[k..][1..];
  }

  class CBuff {
    const buffer: array<char>
    var write: nat
    var read: int

    const capacity: nat := buffer.Length

    ghost predicate Valid()
      reads this
    {
      write < buffer.Length && EMPTY <= read < buffer.Length
    }

    /** The bytes between the two positions, as CBuffBufSiz counts them. */
    function Used(): (n: nat)
      requires Valid()
      reads this
      ensures n <= buffer.Length
    {
      if read == EMPTY then 0
      else if read == write then buffer.Length
      else if read > write then buffer.Length - (read - write)
      else write - read
    }

    ghost function Contents(): (q: seq<char>)
      requires Valid()
      reads this, buffer
      ensures |q| == Used()
    {
      if read == EMPTY then [] else Ring(buffer[..], read, Used())
    }

    constructor (capacity: nat)
      requires capacity > 0
      ensures Valid() && fresh(buffer) && buffer.Length == capacity && Contents() == []
    {
      buffer := new char[capacity];
      write, read := 0, EMPTY;
    }

    /** Number of bytes held: full, empty, wrapped or not. */
    method BufSiz() returns (size: nat)
      requires Valid()
      ensures size == |Contents()|
    {
      if read == write {
        return buffer.Length;
      }
      if read == EMPTY {
        return 0;
      }
      if read > write {
        size := buffer.Length - (read - write);
      } else {
        size := write - read;
      }
    }

    method FreeSpace() returns (size: nat)
      requires Valid()
      ensures size == buffer.Length - |Contents()|
    {
      var used := BufSiz();
      size := buffer.Length - used;
    }

    /** One round of the write loop: `len` bytes are in use from `read` on. */
    method Store(x: char, ghost len: nat)
      requires Valid() && read >= 0 && len < buffer.Length && write == Wrap(read + len, buffer.Length)
      modifies this`write, buffer
      ensures Valid() && write == Wrap(read + len + 1, buffer.Length)
      ensures Ring(buffer[..], read, len + 1) == old(Ring(buffer[..], read, len)) + [x]
    {
      ghost var b := buffer[..];
      buffer[write] := x;
      RingAppend(b, read, len, x);
      assert buffer[..] == b[write := x];
      write := write + 1;
      if write == buffer.Length {
        write := 0;
      }
    }

    /** The write loop, from a buffer that is not full: `len` bytes are in use from `read` on. */
    method Fill(src: seq<char>, ghost len: nat) returns (count: nat)
      requires Valid() && read >= 0 && len < buffer.Length && write == Wrap(read + len, buffer.Length)
      modifies this`write, buffer
      ensures Valid() && count == Min(|src|, buffer.Length - len) && write == Wrap(read + len + count, buffer.Length)
      ensures Ring(buffer[..], read, len + count) == old(Ring(buffer[..], read, len)) + src[..count]
      ensures src == [] ==> buffer[..] == old(buffer[..])
    {
      count := 0;
      ghost var q := Ring(buffer[..], read, len);
      while count < |src|
        invariant Valid() && count <= |src|
        invariant len + count < buffer.Length && write == Wrap(read + len + count, buffer.Length)
        invariant Ring(buffer[..], read, len + count) == q + src[..count]
        invariant count == 0 ==> buffer[..] == old(buffer[..])
      {
        Store(src[count], len + count);
        OneMore(q, src, count);
        count := count + 1;
        if read == write {
          return;
        }
      }
    }

    static lemma {:induction false} OneMore(q: seq<char>, src: seq<char>, k: nat)
      requires k < |src|
      ensures q + src[..k + 1] == q + src[..k] + [src[k]]
    {
    }

    /** Takes as many bytes as fit. A write of no bytes to an empty buffer makes it full of
        whatever its block holds. */
    method Write(src: seq<char>) returns (count: nat)
      requires Valid()
      modifies this, buffer
      ensures Valid() && count <= |src|
      ensures src != [] || old(Contents()) != [] ==>
        (Contents(), count) == Pushed(buffer.Length, old(Contents()), src)
      ensures src != [] || old(Contents()) != [] ==>
        Contents() == old(Contents()) + src[..count] && (count == |src| || |Contents()| == buffer.Length)
      ensures src == [] && old(Contents()) == [] ==>
        count == 0 && |Contents()| == buffer.Length && Contents() == Ring(old(buffer[..]), old(write), buffer.Length)
    {
      ghost var q := Contents();
      if read == write {
        assert q + src[..0] == q;
        return 0;
      }
      if read == EMPTY {
        read := write;
      }
      count := Fill(src, |q|);
      assert |q| + count > 0 ==> Used() == |q| + count;
    }

    /** One round of the read loop, from a buffer that is not empty. */
    method Fetch() returns (x: char)
      requires Valid() && Contents() != []
      modifies this`read
      ensures Valid() && old(Contents()) == [x] + Contents()
    {
      ghost var len, next := Used(), Wrap(read + 1, buffer.Length);
      RingDrop(buffer[..], read, len);
      x := buffer[read];
      read := read + 1;
      if read == buffer.Length {
        read := 0;
      }
      assert read == next && (read == write <==> len == 1);
      if read == write {
        read := EMPTY;
      }
      assert Used() == len - 1;
      assert Contents() == Ring(buffer[..], next, len - 1);
    }

    /** Returns as many bytes as there are, up to n. */
    method Read(dest: array<char>, n: nat) returns (count: nat)
      requires Valid() && n <= dest.Length && dest != buffer
      modifies this`read, dest
      ensures Valid() && count <= n
      ensures (Contents(), dest[..count]) == Popped(old(Contents()), n)
      ensures old(Contents()) == dest[..count] + Contents() && (count == n || Contents() == [])
      ensures dest[count..] == old(dest[count..])
    {
      count := 0;
      ghost var q, d := Contents(), dest[..];
      while count < n && read != EMPTY
        invariant Valid() && count <= n && count <= |q|
        invariant Contents() == q[count..]
        invariant dest[..count] == q[..count] && dest[count..] == d[count..]
      {
        dest[count] := Fetch();
        HeadTail(q, count, dest[count], Contents());
        count := count + 1;
      }
    }

    /** Over any sequence of operations on the buffer, it holds, accepts and returns what the
        queue does; so what was there and what was accepted is what was returned and what is there. */
    method Play(ops: seq<Op>) returns (accepted: seq<char>, returned: seq<char>)
      requires Valid() && Proper(buffer.Length, Contents(), ops)
      modifies this, buffer
      ensures Valid() && (Contents(), accepted, returned) == Replay(buffer.Length, old(Contents()), ops)
      ensures old(Contents()) + accepted == returned + Contents()
      ensures exists qs, ins, outs ::
        MovesAll(buffer.Length, old(Contents()), ops, qs, ins, outs, Contents(), accepted, returned)
    {
      ghost var qs, ins, outs := ReplayMoves(buffer.Length, Contents(), ops);
      accepted, returned := [], [];
      ghost var q := Contents();
      assert ops[0..] == ops;
      ReplayedStart(buffer.Length, q, ops);
      for i := 0 to |ops|
        invariant Valid() && Proper(buffer.Length, Contents(), ops[i..])
        invariant Replayed(buffer.Length, q, ops, i, Contents(), accepted, returned)
      {
        ghost var now := Contents();
        assert ops[i..][0] == ops[i] && ops[i..][1..] == ops[i + 1..];
        var more, out := Perform(ops[i]);
        ReplayedNext(buffer.Length, q, ops, i, now, accepted, returned, Contents(), more, out);
        accepted, returned := accepted + more, returned + out;
      }
      ReplayedAll(buffer.Length, q, ops, Contents(), accepted, returned);
      FirstInFirstOut(buffer.Length, q, ops);
    }

    /** One operation: the bytes it accepts, or the bytes it returns. */
    method Perform(op: Op) returns (accepted: seq<char>, returned: seq<char>)
      requires Valid() && (op.Write? ==> op.src != [] || Contents() != [])
      modifies this, buffer
      ensures Valid() && Performs(buffer.Length, op, old(Contents()), Contents(), accepted, returned)
      ensures Moves(buffer.Length, op, old(Contents()), Contents(), accepted, returned)
    {
      accepted, returned := [], [];
      match op {
        case Write(src) =>
          var count := Write(src);
          accepted := src[..count];
        case Read(n) =>
          var dest := new char[n];
          var count := Read(dest, n);
          returned := dest[..count];
      }
    }
  }
}
