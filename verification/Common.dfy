/** Bytes, machine integers and small result types shared by the other modules. */
module Common {

  newtype byte = x: int | 0 <= x < 256

  type Bytes = seq<byte>

  const MAX_U32 := 0xFFFF_FFFF

  type U32 = x: int | 0 <= x <= MAX_U32

  datatype Option<+T> = None | Some(value: T)
  {
    function GetOr(default: T): T {
      match this
      case Some(v) => v
      case None => default
    }
  }

  datatype Result<+T, +E> = Ok(value: T) | Err(error: E)
  {
    predicate IsFailure() { Err? }

    function PropagateFailure<U>(): Result<U, E>
      requires Err?
    {
      Err(error)
    }

    function Extract(): T
      requires Ok?
    {
      value
    }
  }
}
