/** Failure-compatible wrappers used throughout the model, and the closed set
    of faults that stand for the client's panicking paths (`unwrap`,
    `expect`, `unreachable!`, slice indexing past the end). */
module Wrappers {

  datatype Option<+T> = None | Some(value: T) {
    function GetOr(default: T): T {
      match this
      case Some(v) => v
      case None => default
    }
  }

  datatype Result<+T> = Ok(value: T) | Err(fault: Fault) {
    predicate IsFailure() {
      Err?
    }

    function PropagateFailure<U>(): Result<U>
      requires Err?
    {
      Err(fault)
    }

    function Extract(): T
      requires Ok?
    {
      value
    }

    function Map<U>(f: T -> U): (r: Result<U>)
      ensures r.Ok? <==> Ok?
      ensures r.Ok? ==> r.value == f(value)
      ensures r.Err? ==> r.fault == fault
    {
      match this
      case Ok(v) => Ok(f(v))
      case Err(e) => Err(e)
    }
  }

  /** One constructor per place where the client aborts instead of
      returning a value. */
  datatype Fault =
    | UrlParseFailed(text: string)        // `Url::from_str(..).unwrap()`
    | MissingHost                         // `host_str().expect(..)`
    | MissingNewline                      // `split_once('\n').unwrap()` / `position(..).unwrap()`
    | MissingStatusSeparator(line: string)// `split_once(' ').unwrap()` on a status line
    | UnknownStatusCode(code: string)     // `unreachable!` in a status map
    | ScorpionTruncated                   // slice or index past the end of a block stream
    | ScorpionEscapeAtEnd                 // `body_data[offset + 1]` after a final 0x10
    | GopherMissingFields(line: string)   // `components[1..3]` on a short menu line
    | GopherBadPort(port: string)         // `parse::<u16>().expect(..)`
    | EmptyHistory                        // `history.pop().unwrap()`
    | RedirectJoinFailed(target: string)  // `current_url.join(..).unwrap()`
    | UnlistedProtocol                    // `unreachable!()` in the request table
}
