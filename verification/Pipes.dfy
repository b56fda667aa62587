/**
 The pipe of kernel/pipe.c. Every method is one section under pi->lock, from
 taking the lock to giving it up for good or in sleep, so any order of calls is
 an interleaving of readers and writers.
 */
module Pipes {
  import opened Arith

  const PIPESIZE: nat := 512
  /** uint counters wrap here. */
  const WRAP: nat := 0x1_0000_0000

  /** How a section ended: asleep, back to the caller with a count, or with -1. */
  datatype Outcome = Asleep | Returned | Failed

  lemma {:induction false} RingIndex(x: nat)
    ensures x % WRAP % PIPESIZE == x % PIPESIZE
  {
    WrapSafe(PIPESIZE, WRAP);
  }

  /** nwrite == nread + PIPESIZE and nread == nwrite, in wrapped arithmetic, tell full and empty exactly. */
  lemma {:induction false} FullEmpty(w: nat, r: nat)
    requires r <= w <= r + PIPESIZE
    ensures w % WRAP == (r % WRAP + PIPESIZE) % WRAP <==> w == r + PIPESIZE
    ensures w % WRAP == r % WRAP <==> w == r
  {
    WrapAdd(r, PIPESIZE, WRAP);
    WrapEqual(r + PIPESIZE, w, WRAP);
    WrapEqual(w, r, WRAP);
  }

  class Pipe {
    const data: array<bv8>
    var nread: nat
    var nwrite: nat
    var readopen: bool
    var writeopen: bool
    /** All bytes ever put in and taken out */
    ghost var put: seq<bv8>
    ghost var taken: seq<bv8>

    /** What is in the ring is what was put and not yet taken, in order. */
    ghost predicate Valid()
      reads this, data
    {
      && data.Length == PIPESIZE
      && taken <= put && |put| <= |taken| + PIPESIZE
      && nread == |taken| % WRAP && nwrite == |put| % WRAP
      && forall k: nat :: |taken| <= k < |put| ==> data[k % PIPESIZE] == put[k]
    }

    constructor ()
      ensures Valid() && put == [] && taken == [] && readopen && writeopen && fresh(data)
    {
      data := new bv8[PIPESIZE];
      nread, nwrite, readopen, writeopen := 0, 0, true, true;
      put, taken := [], [];
    }

    /**
     pipewrite from its i-th byte on. Copying from the user faults at byte |src|; killed() answers true
     from its patience-th call on.
     */
    method Write(src: seq<bv8>, i0: nat, n: nat, patience: nat) returns (i: nat, out: Outcome)
      requires Valid() && i0 <= |src|
      modifies this, data
      ensures Valid() && taken == old(taken) && readopen == old(readopen) && writeopen == old(writeopen)
      ensures i0 <= i <= |src| && put == old(put) + src[i0..i]
      ensures out.Asleep? ==> i < n && |put| == |taken| + PIPESIZE && readopen
      ensures out.Failed? ==> i < n && (!readopen || patience <= i - i0)
      ensures out.Returned? ==> i >= n || i == |src|
    {
      i := i0;
      while i < n
        invariant i0 <= i <= |src| && put == old(put) + src[i0..i] && taken == old(taken)
        invariant Valid() && readopen == old(readopen) && writeopen == old(writeopen)
      {
        if !readopen || patience <= i - i0 {
          return i, Failed;
        }
        FullEmpty(|put|, |taken|);
        if nwrite == (nread + PIPESIZE) % WRAP {
          return i, Asleep;
        }
        if i == |src| {
          break;
        }
        PutByte(src[i]);
        assert src[i0..i + 1] == src[i0..i] + [src[i]];
        i := i + 1;
      }
      out := Returned;
    }

    /** pi->data[pi->nwrite++ % PIPESIZE] = ch */
    method PutByte(ch: bv8)
      requires Valid() && |put| < |taken| + PIPESIZE
      modifies data, `nwrite, `put
      ensures Valid() && put == old(put) + [ch]
    {
      RingIndex(|put|);
      WrapAdd(|put|, 1, WRAP);
      forall k: nat | |taken| <= k < |put| ensures k % PIPESIZE != |put| % PIPESIZE {
        CellsApart(k, |put|, PIPESIZE);
      }
      data[nwrite % PIPESIZE] := ch;
      nwrite := (nwrite + 1) % WRAP;
      put := put + [ch];
    }

    /** ch = pi->data[pi->nread++ % PIPESIZE] */
    method TakeByte() returns (ch: bv8)
      requires Valid() && |taken| < |put|
      modifies `nread, `taken
      ensures Valid() && taken == old(taken) + [ch]
    {
      RingIndex(|taken|);
      WrapAdd(|taken|, 1, WRAP);
      ch := data[nread % PIPESIZE];
      assert ch == put[|taken|];
      nread := (nread + 1) % WRAP;
      taken := taken + [ch];
    }

    /**
     piperead. Copying to the user faults at byte `limit`: that byte is taken from the pipe and not delivered.
     */
    method Read(n: nat, limit: nat, killed: bool) returns (dst: seq<bv8>, out: Outcome)
      requires Valid()
      modifies this
      ensures Valid() && put == old(put) && readopen == old(readopen) && writeopen == old(writeopen)
      ensures !out.Returned? ==> dst == [] && taken == old(taken) && |put| == |taken|
      ensures !out.Returned? ==> writeopen && killed == out.Failed?
      ensures |dst| <= n && |dst| <= limit && old(taken) + dst <= taken && |taken| <= |old(taken)| + |dst| + 1
      ensures taken != old(taken) + dst ==> |dst| == limit < n
      ensures out.Returned? ==> |dst| == n || |taken| == |put| || |dst| == limit
    {
      dst := [];
      FullEmpty(|put|, |taken|);
      if nread == nwrite && writeopen {
        return [], if killed then Failed else Asleep;
      }
      while |dst| < n
        invariant Valid() && put == old(put) && readopen == old(readopen) && writeopen == old(writeopen)
        invariant |dst| <= n && |dst| <= limit && taken == old(taken) + dst
      {
        FullEmpty(|put|, |taken|);
        if nread == nwrite {
          break;
        }
        var ch := TakeByte();
        if |dst| == limit {
          break;
        }
        dst := dst + [ch];
      }
      out := Returned;
    }

    /** pipeclose: the page is given back once both ends are closed. */
    method Close(writable: bool) returns (gone: bool)
      requires Valid()
      modifies `readopen, `writeopen
      ensures Valid() && writeopen == (old(writeopen) && !writable) && readopen == (old(readopen) && writable)
      ensures gone <==> !readopen && !writeopen
    {
      if writable {
        writeopen := false;
      } else {
        readopen := false;
      }
      gone := !readopen && !writeopen;
    }
  }
}
