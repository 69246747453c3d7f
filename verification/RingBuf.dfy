/** The fixed-capacity byte ring (kernel/crates/shrike_link/src/ring.rs). */
module RingBuf {
  import opened Common

  /** An index below twice the capacity, taken modulo the capacity. */
  function Wrap(i: nat, n: nat): nat {
    if i < n then i else i - n
  }

  lemma NextIndex(i: nat, n: nat)
    requires i < n
    ensures (i + 1) % n == Wrap(i + 1, n)
  {
  }

  /** `len` bytes from `head` on, around the end of the storage. */
  ghost function View(data: seq<Byte>, head: nat, len: nat): (s: seq<Byte>)
    requires len <= |data| && head <= |data| && (|data| > 0 ==> head < |data|)
    ensures |s| == len
  {
    seq(len, i requires 0 <= i < len => data[Wrap(head + i, |data|)])
  }

  lemma ViewPush(data: seq<Byte>, head: nat, len: nat, b: Byte)
    requires len < |data| && head < |data|
    ensures View(data[Wrap(head + len, |data|) := b], head, len + 1) == View(data, head, len) + [b]
  {
    var u, v := View(data[Wrap(head + len, |data|) := b], head, len + 1), View(data, head, len) + [b];
    forall i | 0 <= i <= len
      ensures u[i] == v[i]
    {
      assert i < len ==> Wrap(head + i, |data|) != Wrap(head + len, |data|);
    }
    assert u == v;
  }

  lemma ViewPop(data: seq<Byte>, head: nat, len: nat)
    requires 0 < len <= |data| && head < |data|
    ensures [data[head]] + View(data, Wrap(head + 1, |data|), len - 1) == View(data, head, len)
  {
    var u, v := [data[head]] + View(data, Wrap(head + 1, |data|), len - 1), View(data, head, len);
    forall i | 0 <= i < len
      ensures u[i] == v[i]
    {
      assert v[i] == data[Wrap(head + i, |data|)];
      if i > 0 {
        assert u[i] == View(data, Wrap(head + 1, |data|), len - 1)[i - 1];
        assert Wrap(Wrap(head + 1, |data|) + (i - 1), |data|) == Wrap(head + i, |data|);
      }
    }
    assert u == v;
  }

  class Ring {
    const buf: array<Byte>
    var head: nat
    var tail: nat
    var len: nat

    ghost predicate Valid()
      reads this
    {
      && len <= buf.Length && head <= buf.Length
      && (buf.Length > 0 ==> head < buf.Length && tail == Wrap(head + len, buf.Length))
    }

    /** The queued bytes, oldest first. */
    ghost function Contents(): (s: seq<Byte>)
      requires Valid()
      reads this, buf
      ensures |s| == len
    {
      View(buf[..], head, len)
    }

    constructor (capacity: nat)
      ensures Valid() && fresh(buf) && buf.Length == capacity && Contents() == []
    {
      buf := new Byte[capacity](_ => 0);
      head, tail, len := 0, 0, 0;
    }

    /** `push`: false exactly when the ring is full. */
    method Push(b: Byte) returns (ok: bool)
      requires Valid()
      modifies this, buf
      ensures Valid() && ok == (old(len) < buf.Length)
      ensures Contents() == if ok then old(Contents()) + [b] else old(Contents())
    {
      if len == buf.Length {
        return false;
      }
      ghost var data := buf[..];
      ViewPush(data, head, len, b);
      NextIndex(tail, buf.Length);
      buf[tail] := b;
      assert buf[..] == data[tail := b];
      tail := (tail + 1) % buf.Length;
      len := len + 1;
      return true;
    }

    /** `pop`: the oldest byte. */
    method Pop() returns (r: Option<Byte>)
      requires Valid()
      modifies this
      ensures Valid() && (r.None? <==> old(len) == 0)
      ensures r.Some? ==> [r.value] + Contents() == old(Contents())
      ensures r.None? ==> Contents() == old(Contents())
    {
      if len == 0 {
        return None;
      }
      ViewPop(buf[..], head, len);
      NextIndex(head, buf.Length);
      var b := buf[head];
      head := (head + 1) % buf.Length;
      len := len - 1;
      return Some(b);
    }
  }
}
