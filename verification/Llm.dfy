/** The two calls the session makes to the language model. */
module Llm {
  import opened Text

  /** llm.complete: the stripped reply; an empty one is an error, like a failed call. */
  function Complete(raw: Option<string>): (reply: Option<string>)
    ensures reply.Some? <==> raw.Some? && SaysSomething(raw.value)
    ensures reply.Some? ==> reply.value == Strip(raw.value) && reply.value != "" && !IsSpace(reply.value[0])
  {
    match raw
    case None => None
    case Some(text) =>
      StripShape(text);
      if Strip(text) == "" then None else Some(Strip(text))
  }

  /** llm.complete_json on the replies to attempts 1 and 2: a reply that cannot be parsed
    * is asked for once more; a call that fails is not. */
  function ParsedReply<T>(ask: nat -> Option<string>, parse: string -> Option<T>): Option<T> {
    match Complete(ask(1))
    case None => None
    case Some(first) =>
      match parse(first)
      case Some(v) => Some(v)
      case None =>
        match Complete(ask(2))
        case None => None
        case Some(second) => parse(second)
  }

  method CompleteJson<T>(ask: nat -> Option<string>, parse: string -> Option<T>)
    returns (result: Option<T>, calls: nat)
    ensures result == ParsedReply(ask, parse)
    ensures 1 <= calls <= 2
    // a second call is made exactly when the first reply came but could not be parsed
    ensures calls == 2 <==> Complete(ask(1)).Some? && parse(Complete(ask(1)).value).None?
    // never a default: what is returned is what the reply to the last call reads as
    ensures result == if Complete(ask(calls)).Some? then parse(Complete(ask(calls)).value) else None
  {
    calls := 0;
    for attempt := 1 to 3
      invariant calls == attempt - 1
      invariant attempt > 1 ==> Complete(ask(1)).Some? && parse(Complete(ask(1)).value).None?
      invariant attempt > 2 ==> Complete(ask(2)).Some? && parse(Complete(ask(2)).value).None?
    {
      calls := calls + 1;
      var raw := Complete(ask(attempt));
      if raw.None? {
        return None, calls;
      }
      var parsed := parse(raw.value);
      if parsed.Some? {
        return parsed, calls;
      }
    }
    result := None;
  }
}
