/**
 * `ActionResult` (src/common/core/http/_action-result.ts): a status and a body fixed at
 * construction, and `resolve`, which writes them to the response and then calls `next`.
 * The Express response is an event log of what was sent on it.
 */
module ActionResults {
  import opened JsValues

  /** What happens on the response of one request, in order. */
  datatype ResponseEvent =
    | SendStatus(status: int)                  // `response.sendStatus(status)`
    | StatusSend(status: int, body: JsValue)   // `response.status(status).send(body)`
    | NextCalled                               // `next()`, with no argument

  /** The Express response and the `next` callback of one request. */
  class Exchange {
    var events: seq<ResponseEvent>

    constructor()
      ensures events == []
    {
      events := [];
    }

    method SendStatus(status: int)
      modifies this
      ensures events == old(events) + [ResponseEvent.SendStatus(status)]
    {
      events := events + [ResponseEvent.SendStatus(status)];
    }

    method StatusSend(status: int, body: JsValue)
      modifies this
      ensures events == old(events) + [ResponseEvent.StatusSend(status, body)]
    {
      events := events + [ResponseEvent.StatusSend(status, body)];
    }

    /** `next()`; `result` is whatever the callback returns. */
    method Next(result: JsValue) returns (r: JsValue)
      modifies this
      ensures events == old(events) + [NextCalled] && r == result
    {
      events := events + [NextCalled];
      r := result;
    }
  }

  /**
   * The one write `resolve` makes: only the status when the body is `undefined` or
   * `null`, otherwise the status and the body, including falsy bodies such as `0`, `''`
   * and `false`.
   */
  function Reply(status: int, body: JsValue): (e: ResponseEvent)
    ensures e != NextCalled && e.status == status
    ensures e.SendStatus? <==> body.Undefined? || body.Null?
    ensures e.StatusSend? ==> e.body == body
  {
    if body == Undefined || body == Null then ResponseEvent.SendStatus(status)
    else ResponseEvent.StatusSend(status, body)
  }

  class ActionResult {
    const status: int
    const body: JsValue

    constructor(status: int, body: JsValue)
      ensures this.status == status && this.body == body
    {
      this.status := status;
      this.body := body;
    }

    /**
     * `resolve(request, response, next)`: exactly one write on the response, then one
     * call of `next`, whose result is returned.
     */
    method Resolve(exchange: Exchange, nextResult: JsValue) returns (r: JsValue)
      modifies exchange
      ensures exchange.events == old(exchange.events) + [Reply(status, body), NextCalled]
      ensures r == nextResult
    {
      if body == Undefined || body == Null {
        exchange.SendStatus(status);
      } else {
        exchange.StatusSend(status, body);
      }
      r := exchange.Next(nextResult);
    }
  }

  /** How many response writes a log holds: every event but `next()`. */
  function Writes(events: seq<ResponseEvent>): nat
    decreases |events|
  {
    if events == [] then 0
    else (if events[0] != NextCalled then 1 else 0) + Writes(events[1..])
  }

  /** The writes of two logs in turn are the writes of each. */
  lemma {:induction false} WritesAppend(a: seq<ResponseEvent>, b: seq<ResponseEvent>)
    ensures Writes(a + b) == Writes(a) + Writes(b)
    decreases |a|
  {
    if a == [] {
      assert a + b == b;
    } else {
      assert (a + b)[1..] == a[1..] + b;
      WritesAppend(a[1..], b);
    }
  }

  /**
   * Whatever the response saw before, one `resolve` adds exactly one write, keeps the
   * earlier events, and leaves `next` as the last event.
   */
  lemma OneWriteThenNext(before: seq<ResponseEvent>, status: int, body: JsValue)
    ensures var after := before + [Reply(status, body), NextCalled];
      && Writes(after) == Writes(before) + 1
      && after[..|before|] == before
      && after[|after| - 1] == NextCalled
  {
    var added := [Reply(status, body), NextCalled];
    WritesAppend(before, added);
    assert added[1..][1..] == [];
    assert Writes(added[1..]) == 0;
    assert (before + added)[..|before|] == before;
  }
}
