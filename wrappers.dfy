/** Option and the HTTP reply shape shared by every handler of the backend. */
module Wrappers {

  datatype Option<+T> = None | Some(value: T) {
    predicate IsFailure() { None? }

    function PropagateFailure<U>(): Option<U>
      requires None?
    {
      None
    }

    function Extract(): T
      requires Some?
    {
      value
    }
  }

  /** What an Express handler writes: a status code and a JSON body that is
      either `{ message }` (or a bare string) or a payload. */
  datatype Payload<+T> = Message(text: string) | Data(value: T)

  datatype Reply<+T> = Reply(status: int, body: Payload<T>)
}
