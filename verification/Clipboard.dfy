/** What both clipboard backends share: the offered types, and the one report of readiness. */
module Clipboard {
  import opened Wrappers
  import opened Bytes

  const PASSWORD_HINT: Bytes := "x-kde-passwordManagerHint"
  const HINT_PAYLOAD: Bytes := "secret"
  const TEXT_TYPES: seq<Bytes> := ["text/plain;charset=utf-8", "text/plain", "UTF8_STRING", "STRING", "TEXT"]

  /** What to send for a requested type, if it is one that is offered. */
  function Payload(value: Bytes, typ: Bytes): Option<Bytes> {
    if typ == PASSWORD_HINT then Some(HINT_PAYLOAD)
    else if typ in TEXT_TYPES then Some(value)
    else None
  }

  /** What a paste of a type is promised: the value for a text type, the word `secret` for the hint
      that marks a password, and nothing for any other type. */
  ghost predicate Promised(typ: Bytes, value: Bytes, data: Option<Bytes>) {
    && (typ in ["text/plain;charset=utf-8", "text/plain", "UTF8_STRING", "STRING", "TEXT"] ==> data == Some(value))
    && (typ == "x-kde-passwordManagerHint" ==> data == Some("secret"))
    && (typ !in TEXT_TYPES && typ != PASSWORD_HINT ==> data == None)
  }

  lemma PayloadPromised(typ: Bytes, value: Bytes)
    ensures Promised(typ, value, Payload(value, typ))
  {
  }

  /** Unavailable lets the next backend try; any other error is final. */
  datatype ServeError = Unavailable | Final

  /** The status stream and the `ready` callback that writes to it. */
  class Status {
    var written: seq<Bytes>
    var closed: bool
    var reported: bool

    constructor ()
      ensures written == [] && !closed && !reported
    {
      written, closed, reported := [], false, false;
    }

    /** Reports success and closes; calling it again would write to a closed stream. */
    method Ready()
      requires !closed
      modifies this
      ensures written == old(written) + ["ok"] && closed && reported
    {
      written, closed, reported := written + ["ok"], true, true;
    }

    method Fail(message: Bytes)
      requires !closed
      modifies this`written, this`closed
      ensures written == old(written) + [message] && closed
    {
      written, closed := written + [message], true;
    }
  }

  /** Nothing was reported by the call. */
  twostate predicate Silent(status: Status)
    reads status
  {
    status.written == old(status.written) && status.closed == old(status.closed) && status.reported == old(status.reported)
  }

  /** The call reported success, once. */
  twostate predicate Announced(status: Status)
    reads status
  {
    status.written == old(status.written) + ["ok"] && status.closed && status.reported
  }
}
