/** Task tokens and the identity each was issued to. */
module Tokens {

  datatype Option<+T> = None | Some(value: T)

  type Token = string

  /** A namespace and a task queue of it: where a task token was issued, or where work runs. */
  datatype Entry = Entry(namespace: string, taskQueue: string)
}
