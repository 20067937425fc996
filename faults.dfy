/** Why a request handler gives up. In fb_uploader/upload.py each of these is a
    raised exception that the handler catches and reports as status 500. */
module Faults {
  import opened Json

  datatype Fault =
    | FileNotFound                  // `os.path.isfile` is false
    | ScheduleUnparsable            // `strptime` raised ValueError
    | ScheduleTooSoon               // the schedule time is less than ten minutes ahead
    | StartRejected(error: Json)    // the start reply carries "error"
    | TransferRejected(message: Json) // a transfer reply carries "error" with a "message"
    | FinishRejected(error: Json)   // the finish reply carries "error"
    | UnreadableReply               // the POST/GET raised, or `.json()` did
    | UnexpectedBody                // TypeError, AttributeError or KeyError on a body of another shape
    | BadOffset                     // `int()` refused an offset
    | BadSeekOrRead                 // `f.seek` or `f.read` refused its argument (negative, or too large)
}
