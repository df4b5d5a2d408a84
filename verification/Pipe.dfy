/**
 * Pipes (pipe.c): a ring of 512 bytes with two 32-bit counters that only ever
 * grow, and wrap.  A method is what a reader or a writer does from one
 * acquisition of the pipe's lock to the next release: it ends when the call
 * returns, or when the process goes to sleep inside it.
 */
module Pipe {
  import opened Words

  const PIPESIZE: nat := 512

  /** How such a stretch ends: the call returns a value, or sleeps. */
  datatype End = Returns(r: int) | Sleeps

  lemma WrapKeepsSlot(n: nat)
    ensures n % TWO32 % PIPESIZE == n % PIPESIZE
  {
    var q := n / TWO32;
    assert n == q * TWO32 + n % TWO32 == (q * (TWO32 / PIPESIZE)) * PIPESIZE + n % TWO32;
    ModPlus(q * (TWO32 / PIPESIZE), n % TWO32);
  }

  lemma {:induction false} ModPlus(k: nat, m: nat)
    ensures (k * PIPESIZE + m) % PIPESIZE == m % PIPESIZE
  {
    if k > 0 { ModPlus(k - 1, m + PIPESIZE); }
  }

  lemma WrapNext(n: nat)
    ensures (n % TWO32 + 1) % TWO32 == (n + 1) % TWO32
  {}

  /** Two counts less than 2^32 apart have the same wrapped value only if they are equal. */
  lemma WrapTells(a: nat, b: nat)
    requires a <= b < a + TWO32
    ensures a % TWO32 == b % TWO32 <==> a == b
  {}

  /** Different pending bytes lie in different slots. */
  lemma SlotsDiffer(a: nat, b: nat)
    requires a < b < a + PIPESIZE
    ensures a % PIPESIZE != b % PIPESIZE
  {}

  /** byte number k of the stream lies in its slot. */
  predicate InSlot(data: seq<byte>, stored: seq<byte>, k: nat) {
    |data| == PIPESIZE && k < |stored| && data[k % PIPESIZE] == stored[k]
  }

  /** The counters count, modulo 2^32, what has been stored and delivered; what is
      between the two, at most 512 bytes, is what the ring holds. */
  ghost predicate Ring(data: seq<byte>, nread: nat, nwrite: nat, stored: seq<byte>, delivered: seq<byte>) {
    && |data| == PIPESIZE && nread == |delivered| % TWO32 && nwrite == |stored| % TWO32
    && delivered <= stored && |stored| - |delivered| <= PIPESIZE
    && forall k: nat :: |delivered| <= k < |stored| ==> InSlot(data, stored, k)
  }

  lemma PutRing(data: seq<byte>, nread: nat, nwrite: nat, stored: seq<byte>, delivered: seq<byte>, b: byte,
                data2: seq<byte>, stored2: seq<byte>)
    requires Ring(data, nread, nwrite, stored, delivered) && |stored| - |delivered| < PIPESIZE
    requires data2 == data[nwrite % PIPESIZE := b] && stored2 == stored + [b]
    ensures Ring(data2, nread, (nwrite + 1) % TWO32, stored2, delivered)
  {
    WrapKeepsSlot(|stored|);
    WrapNext(|stored|);
    forall k: nat | |delivered| <= k < |stored2| ensures InSlot(data2, stored2, k) {
      if k < |stored| {
        assert InSlot(data, stored, k);
        SlotsDiffer(k, |stored|);
      }
    }
  }

  lemma GetRing(data: seq<byte>, nread: nat, nwrite: nat, stored: seq<byte>, delivered: seq<byte>, b: byte,
                delivered2: seq<byte>)
    requires Ring(data, nread, nwrite, stored, delivered) && |delivered| < |stored|
    requires b == data[nread % PIPESIZE] && delivered2 == delivered + [b]
    ensures Ring(data, (nread + 1) % TWO32, nwrite, stored, delivered2)
  {
    WrapKeepsSlot(|delivered|);
    WrapNext(|delivered|);
    assert InSlot(data, stored, |delivered|);
  }

  /** The tests of the code tell a full and an empty ring, wrapped or not. */
  lemma RingTests(data: seq<byte>, nread: nat, nwrite: nat, stored: seq<byte>, delivered: seq<byte>)
    requires Ring(data, nread, nwrite, stored, delivered)
    ensures nwrite == (nread + PIPESIZE) % TWO32 <==> |stored| - |delivered| == PIPESIZE
    ensures nread == nwrite <==> stored == delivered
  {
    assert |stored| == |delivered| ==> stored == delivered;
    WrapTells(|delivered|, |stored|);
    WrapTells(|stored|, |delivered| + PIPESIZE);
  }

  class Channel {
    const data: array<byte>
    var nread: nat
    var nwrite: nat
    var readopen: bool
    var writeopen: bool
    /** Who sleeps on &p->nread and on &p->nwrite. */
    var readers: set<nat>
    var writers: set<nat>
    ghost var stored: seq<byte>
    ghost var delivered: seq<byte>

    ghost predicate Valid()
      reads this, data
    {
      Ring(data[..], nread, nwrite, stored, delivered)
    }

    constructor ()
      ensures Valid() && fresh(data) && readopen && writeopen && stored == delivered == [] && readers == writers == {}
    {
      data := new byte[PIPESIZE](_ => 0);
      nread, nwrite, readopen, writeopen := 0, 0, true, true;
      readers, writers := {}, {};
      stored, delivered := [], [];
    }

    /** Sleepers wait for something that has not happened: a writer for room, a
        reader for a byte, each while the other end is open. */
    ghost predicate NoneForgotten()
      reads this
    {
      && (writers != {} ==> readopen && |stored| == |delivered| + PIPESIZE)
      && (readers != {} ==> writeopen && stored == delivered)
    }

    /** pipewrite by process me, with the first i bytes of addr already in. */
    method Write(me: nat, addr: seq<byte>, i: nat, killed: bool) returns (e: End, j: nat)
      requires Valid() && i <= |addr|
      modifies this, data
      ensures Valid() && i <= j <= |addr| && stored == old(stored) + addr[i..j]
      ensures delivered == old(delivered) && readopen == old(readopen) && writeopen == old(writeopen)
      ensures e.Returns? && e.r >= 0 ==> j == |addr| == e.r && readers == {} && writers == old(writers)
      ensures e == Sleeps || e == Returns(-1) ==> j < |addr| && |stored| - |delivered| == PIPESIZE
      ensures e == Sleeps ==> readopen && !killed && readers == {} && writers == old(writers) + {me}
      ensures e.Returns? && e.r < 0 ==>
            e.r == -1 && (!readopen || killed) && readers == old(readers) && writers == old(writers)
      ensures old(NoneForgotten()) ==>
                (NoneForgotten() <==> !(old(readers) != {} && |addr| - i > PIPESIZE && (killed || !readopen)))
    {
      j := i;
      while j < |addr|
        invariant i <= j <= |addr| && Valid() && stored == old(stored) + addr[i..j] && delivered == old(delivered)
        invariant readopen == old(readopen) && writeopen == old(writeopen) && readers == old(readers)
               && writers == old(writers)
      {
        RingTests(data[..], nread, nwrite, stored, delivered);
        if nwrite == (nread + PIPESIZE) % TWO32 {
          if !readopen || killed {
            return Returns(-1), j;
          }
          readers := {};
          writers := writers + {me};
          return Sleeps, j;
        }
        PutRing(data[..], nread, nwrite, stored, delivered, addr[j], data[..][nwrite % PIPESIZE := addr[j]],
                stored + [addr[j]]);
        data[nwrite % PIPESIZE] := addr[j];
        nwrite := (nwrite + 1) % TWO32;
        stored := stored + [addr[j]];
        assert addr[i..j + 1] == addr[i..j] + [addr[j]];
        j := j + 1;
      }
      readers := {};
      return Returns(|addr|), j;
    }

    /** piperead of up to n bytes by process me. */
    method Read(me: nat, n: nat, killed: bool) returns (e: End, addr: seq<byte>)
      requires Valid()
      modifies `nread, `readers, `writers, `delivered
      ensures Valid() && delivered == old(delivered) + addr && |addr| <= n
      ensures e == Sleeps ==>
            addr == [] && stored == delivered && writeopen && !killed && readers == old(readers) + {me}
            && writers == old(writers)
      ensures e.Returns? && e.r >= 0 ==>
            e.r == |addr| && (|addr| < n ==> stored == delivered) && readers == old(readers) && writers == {}
      ensures e.Returns? && e.r < 0 ==>
            e.r == -1 && addr == [] && killed && readers == old(readers) && writers == old(writers)
      ensures e != Returns(0) || n == 0 || (stored == delivered && !writeopen)
      ensures old(NoneForgotten()) ==> NoneForgotten()
    {
      addr := [];
      RingTests(data[..], nread, nwrite, stored, delivered);
      if nread == nwrite && writeopen {
        if killed {
          return Returns(-1), addr;
        }
        readers := readers + {me};
        return Sleeps, addr;
      }
      while |addr| < n
        invariant |addr| <= n && Valid() && delivered == old(delivered) + addr && readers == old(readers)
        invariant addr == [] ==> (nread == nwrite ==> !writeopen)
      {
        RingTests(data[..], nread, nwrite, stored, delivered);
        if nread == nwrite {
          break;
        }
        var b := data[nread % PIPESIZE];
        GetRing(data[..], nread, nwrite, stored, delivered, b, delivered + [b]);
        addr := addr + [b];
        nread := (nread + 1) % TWO32;
        delivered := delivered + [b];
      }
      RingTests(data[..], nread, nwrite, stored, delivered);
      writers := {};
      return Returns(|addr|), addr;
    }

    /** pipeclose of one end. */
    method Close(writable: bool)
      requires Valid()
      modifies `readopen, `writeopen, `readers, `writers
      ensures Valid() && writeopen == (old(writeopen) && !writable) && readopen == (old(readopen) && writable)
      ensures readers == (if writable then {} else old(readers)) && writers == if writable then old(writers) else {}
      ensures old(NoneForgotten()) ==> NoneForgotten()
    {
      if writable {
        writeopen := false;
        readers := {};
      } else {
        readopen := false;
        writers := {};
      }
    }
  }

  /** A writer that has been killed can fill the ring and leave without a wakeup: the
      reader then sleeps although there are bytes to read. */
  method ReaderLeftAsleep(addr: seq<byte>) returns (c: Channel)
    requires |addr| > PIPESIZE
    ensures fresh(c) && c.Valid() && c.readers == {1} && |c.stored| - |c.delivered| == PIPESIZE && c.readopen
         && c.writeopen
  {
    c := new Channel();
    var e, got := c.Read(1, 1, false);
    var j;
    e, j := c.Write(2, addr, 0, true);
  }
}
