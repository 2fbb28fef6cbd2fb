// The pipes of kernel/pipe.c.  A method is what runs from taking the pipe's lock to
// giving it up, at the end or in sleep.
module Pipe {
  import opened Common

  const PIPESIZE := 512
  const WRAP := 0x1_0000_0000

  // What became of a call: it sleeps, to go on later, or it returns.
  datatype Outcome = Asleep | Returned(value: int)

  // The slot of byte number k.
  function Slot(k: nat): (r: nat)
    ensures r < PIPESIZE
  {
    k % PIPESIZE
  }

  lemma Wrapped(k: nat)
    ensures Slot(k % WRAP) == Slot(k) && (k % WRAP + 1) % WRAP == (k + 1) % WRAP
  {
    assert k == k / WRAP * 0x80_0000 * PIPESIZE + k % WRAP;
  }

  // The counters meet when the pipe is empty, and are PIPESIZE apart when it is full.
  lemma Counters(r: nat, w: nat)
    requires r <= w <= r + PIPESIZE
    ensures r % WRAP == w % WRAP <==> r == w
    ensures w % WRAP == (r % WRAP + PIPESIZE) % WRAP <==> w == r + PIPESIZE
  {
  }

  class Pipe {
    const data: array<int>
    var nread: nat
    var nwrite: nat
    var readopen: bool
    var writeopen: bool

    // All bytes ever written, and all bytes ever read.
    ghost var written: seq<int>
    ghost var taken: seq<int>
    // The processes asleep in pipewrite, on &pi->nwrite, and in piperead, on &pi->nread.
    ghost var writers: set<nat>
    ghost var readers: set<nat>

    // What was read is a prefix of what was written, and the rest is in the buffer.
    ghost predicate Content()
      reads this`nread, this`nwrite, this`written, this`taken, data
    {
      && data.Length == PIPESIZE
      && |taken| <= |written| <= |taken| + PIPESIZE && taken == written[..|taken|]
      && nread == |taken| % WRAP && nwrite == |written| % WRAP
      && forall k :: |taken| <= k < |written| ==> data[Slot(k)] == written[k]
    }

    // Nobody sleeps who could go on.
    ghost predicate Sleepers()
      reads this
    {
      && (writers != {} ==> |written| == |taken| + PIPESIZE && readopen)
      && (readers != {} ==> |written| == |taken| && writeopen)
    }

    ghost predicate Valid()
      reads this, data
    {
      Content() && Sleepers()
    }

    // pipealloc
    constructor ()
      ensures Valid() && written == [] && readopen && writeopen && fresh(data)
    {
      data := new int[PIPESIZE];
      nread, nwrite, readopen, writeopen := 0, 0, true, true;
      written, taken, writers, readers := [], [], {}, {};
    }

    // pipewrite stores a byte.
    method Put(ch: int)
      requires Content() && |written| < |taken| + PIPESIZE
      modifies this`nwrite, this`written, data
      ensures Content() && written == old(written) + [ch]
    {
      Wrapped(|written|);
      forall k | |taken| <= k < |written| ensures Slot(k) != Slot(|written|) {
        SlotsDiffer(k, |written|, PIPESIZE);
      }
      data[Slot(nwrite)] := ch;
      nwrite := (nwrite + 1) % WRAP;
      written := written + [ch];
    }

    // pipewrite by process pid, of src, from where it has stored i bytes of it.
    method Write(pid: nat, src: seq<int>, i: nat) returns (j: nat, r: Outcome)
      requires Valid() && i <= |src|
      modifies this`nwrite, this`written, this`writers, this`readers, data
      ensures Valid() && i <= j <= |src| && written == old(written) + src[i..j]
      ensures r == Returned(-1) <==> i < |src| && !readopen
      ensures r != Asleep && r != Returned(-1) ==> r == Returned(|src|) && j == |src|
      ensures r == Asleep ==> pid in writers && j < |src| && |written| == |taken| + PIPESIZE
      ensures r != Returned(-1) ==> readers == {}
    {
      hide Slot;
      j := i;
      while j < |src|
        invariant i <= j <= |src| && Content() && written == old(written) + src[i..j] && (i < j ==> readopen)
        invariant writers == old(writers) && (writers != {} ==> |written| == |taken| + PIPESIZE)
        invariant i == j ==> readers == old(readers)
      {
        if !readopen {
          return j, Returned(-1);
        }
        Counters(|taken|, |written|);
        if nwrite == (nread + PIPESIZE) % WRAP {
          readers := {};
          writers := writers + {pid};
          return j, Asleep;
        }
        Put(src[j]);
        j := j + 1;
      }
      readers := {};
      r := Returned(j);
    }

    // piperead takes a byte.
    method Take() returns (ch: int)
      requires Content() && |taken| < |written|
      modifies this`nread, this`taken
      ensures Content() && ch == written[|old(taken)|] && taken == old(taken) + [ch]
    {
      Wrapped(|taken|);
      ch := data[Slot(nread)];
      nread := (nread + 1) % WRAP;
      taken := taken + [ch];
    }

    // piperead by process pid, of at most n bytes.
    method Read(pid: nat, n: nat) returns (buf: seq<int>, r: Outcome)
      requires Valid()
      modifies this`nread, this`taken, this`writers, this`readers
      ensures Valid()
      ensures r == Asleep <==> |old(taken)| == |written| && writeopen
      ensures r == Asleep ==> pid in readers && buf == [] && taken == old(taken)
      ensures r != Asleep ==>
                && r == Returned(|buf|) && taken == old(taken) + buf && writers == {}
                && |buf| == if |written| - |old(taken)| < n then |written| - |old(taken)| else n
    {
      hide Slot;
      buf := [];
      Counters(|taken|, |written|);
      if nread == nwrite && writeopen {
        readers := readers + {pid};
        return [], Asleep;
      }
      while |buf| < n
        invariant |buf| <= n && Content() && taken == old(taken) + buf && readers == old(readers) == {}
      {
        Counters(|taken|, |written|);
        if nread == nwrite {
          break;
        }
        var ch := Take();
        buf := buf + [ch];
      }
      writers := {};
      r := Returned(|buf|);
    }

    // pipeclose
    method Close(writable: bool)
      requires Valid()
      modifies this`readopen, this`writeopen, this`writers, this`readers
      ensures Valid() && readopen == (old(readopen) && writable) && writeopen == (old(writeopen) && !writable)
    {
      if writable {
        writeopen := false;
        readers := {};
      } else {
        readopen := false;
        writers := {};
      }
    }
  }
}
