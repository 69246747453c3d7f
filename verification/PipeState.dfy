/** The pipe's bounded byte queue (kernel/src/file/pipe_state.rs). */
module PipeState {
  import opened Common

  const PIPE_CAPACITY: nat := 65536

  datatype ReadAnswer = Read(count: nat) | EndOfFile | ReadBlocks
  datatype WriteAnswer = Written(count: nat) | Broken | WriteBlocks

  datatype Pipe = Pipe(buffer: seq<Byte>, readers: nat, writers: nat)

  const NEW_PIPE := Pipe([], 1, 1)

  function ReadAnswerOf(p: Pipe, wanted: nat): (r: ReadAnswer)
    ensures r.Read? ==> r.count <= |p.buffer| && r.count <= wanted && (wanted > 0 ==> r.count > 0)
  {
    if wanted == 0 then Read(0)
    else if p.buffer == [] then (if p.writers == 0 then EndOfFile else ReadBlocks)
    else Read(Min(wanted, |p.buffer|))
  }

  function WriteAnswerOf(p: Pipe, offered: nat): (r: WriteAnswer)
    ensures r.Written? ==> r.count <= offered && (offered > 0 ==> r.count > 0 && |p.buffer| + r.count <= PIPE_CAPACITY)
  {
    if p.readers == 0 then Broken
    else if offered == 0 then Written(0)
    else if |p.buffer| >= PIPE_CAPACITY then WriteBlocks
    else Written(Min(offered, PIPE_CAPACITY - |p.buffer|))
  }

  lemma MoveHead(front: seq<Byte>, rest: seq<Byte>)
    requires rest != []
    ensures (front + [rest[0]]) + rest[1..] == front + rest
  {
  }

  class PipeQueue {
    var buffer: seq<Byte>
    var readers: nat
    var writers: nat

    ghost function Model(): Pipe
      reads this
    {
      Pipe(buffer, readers, writers)
    }

    ghost predicate Valid()
      reads this
    {
      |buffer| <= PIPE_CAPACITY
    }

    constructor ()
      ensures Valid() && Model() == NEW_PIPE
    {
      buffer, readers, writers := [], 1, 1;
    }

    /** `read`: what it returns leaves the front of the queue, in order; the rest of `output` is untouched. */
    method ReadInto(output: array<Byte>) returns (answer: ReadAnswer)
      requires Valid()
      modifies this, output
      ensures Valid() && answer == ReadAnswerOf(old(Model()), output.Length)
      ensures readers == old(readers) && writers == old(writers)
      ensures answer.Read? ==>
                output[..answer.count] + buffer == old(buffer) && output[answer.count..] == old(output[answer.count..])
      ensures !answer.Read? ==> buffer == old(buffer) && output[..] == old(output[..])
    {
      if output.Length == 0 {
        return Read(0);
      }
      if buffer == [] {
        return if writers == 0 then EndOfFile else ReadBlocks;
      }
      var count := Min(output.Length, |buffer|);
      var i := 0;
      while i < count
        invariant i <= count && readers == old(readers) && writers == old(writers)
        invariant |buffer| == |old(buffer)| - i && output[..i] + buffer == old(buffer)
        invariant forall j :: i <= j < output.Length ==> output[j] == old(output[j])
      {
        ghost var front := output[..i];
        MoveHead(front, buffer);
        output[i] := buffer[0];
        assert output[..i + 1] == front + [buffer[0]];
        buffer := buffer[1..];
        i := i + 1;
      }
      return Read(count);
    }

    /** `write`: the accepted prefix joins the end of the queue. */
    method WriteFrom(input: seq<Byte>) returns (answer: WriteAnswer)
      requires Valid()
      modifies this
      ensures Valid() && answer == WriteAnswerOf(old(Model()), |input|)
      ensures readers == old(readers) && writers == old(writers)
      ensures buffer == old(buffer) + (if answer.Written? then input[..answer.count] else [])
    {
      if readers == 0 {
        return Broken;
      }
      if |input| == 0 {
        return Written(0);
      }
      var available := PIPE_CAPACITY - |buffer|;
      if available == 0 {
        return WriteBlocks;
      }
      var count := Min(|input|, available);
      buffer := buffer + input[..count];
      return Written(count);
    }

    method CloseReader()
      modifies this
      ensures Model() == old(Model()).(readers := SatSub(old(readers), 1))
    {
      readers := SatSub(readers, 1);
    }

    method CloseWriter()
      modifies this
      ensures Model() == old(Model()).(writers := SatSub(old(writers), 1))
    {
      writers := SatSub(writers, 1);
    }
  }
}
