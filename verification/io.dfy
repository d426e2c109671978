/**
 * Vocabulary shared by the whole model: plaintext bytes, the I/O error kinds
 * the adapter tells apart, and the outcome of one non-blocking poll.
 */
module Io {

  /** One byte of plaintext. */
  type Byte = b: int | 0 <= b < 256

  /** An I/O error kind. Only `ConnectionAborted` is ever inspected by the
      adapter; every other kind travels through it untouched, so it is kept
      abstract. */
  datatype ErrorKind = ConnectionAborted | OtherKind(code: nat)

  datatype Option<T> = None | Some(value: T)

  /** `io::Result<T>`. */
  datatype IoResult<T> = Ok(value: T) | Err(kind: ErrorKind)

  /** `Poll<io::Result<T>>`: the call would suspend, or it is ready with a result. */
  datatype Poll<T> = Pending | Ready(result: IoResult<T>) {

    /** Ready and successful: the only outcome `ready!(..)?` lets through. */
    predicate IsReadyOk() {
      Ready? && result.Ok?
    }
  }

  /** The early return taken by `ready!(p)?` when `p` is not a success:
      the suspension or the error, re-typed for the enclosing call. */
  function Propagate<T, U>(p: Poll<T>): (q: Poll<U>)
    requires !p.IsReadyOk()
    ensures q.Pending? <==> p.Pending?
    ensures q.Ready? ==> p.Ready? && q.result == Err(p.result.kind)
  {
    if p.Pending? then Pending else Ready(Err(p.result.kind))
  }

  /** The bytes of a list of slices, in order (what an `IoSlice` list carries). */
  function Flatten(bufs: seq<seq<Byte>>): seq<Byte>
  {
    if |bufs| == 0 then [] else bufs[0] + Flatten(bufs[1..])
  }

  /** A single slice carries exactly its own bytes. */
  lemma FlattenSingle(buf: seq<Byte>)
    ensures Flatten([buf]) == buf
  {
    assert [buf][1..] == [];
  }
}
