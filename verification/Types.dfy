/** Types shared by every part of the model: options, client commands and log entries. */
module Types {

  datatype Option<+T> = None | Some(value: T)

  datatype Result<+T, +E> = Ok(value: T) | Err(error: E) {
    predicate IsFailure() { Err? }

    function PropagateFailure<U>(): Result<U, E>
      requires Err?
    {
      Err(error)
    }

    function Extract(): T
      requires Ok?
    {
      value
    }
  }

  type NodeId = nat

  type byte = x: int | 0 <= x < 256

  /** A string, as the bytes of its UTF-8 form. */
  type Text = seq<byte>

  /** The index before every entry; entries count from 1. */
  const NO_INDEX: nat := 0

  datatype Op =
    | Noop
    | Get(key: Text)
    | Put(key: Text, value: Text)
    | Delete(key: Text)
    | Cas(key: Text, expected: Option<Text>, value: Text)
    | SetMembers(members: seq<NodeId>)

  /** A client operation with the identity that makes its retries idempotent. */
  datatype Command = Command(client: nat, seqno: nat, op: Op)

  const NOOP_CLIENT: nat := 0xFFFF_FFFF
  const NOOP_COMMAND := Command(NOOP_CLIENT, 0, Noop)

  datatype Entry = Entry(term: nat, index: nat, cmd: Command)

  /** `a` and `b` both reach index `i` and hold the same elements up to there. */
  ghost predicate Agree<T>(a: seq<T>, b: seq<T>, i: nat) {
    i <= |a| && i <= |b| && a[..i] == b[..i]
  }
}
