/** `updateBotMode`: the input checks that run before anything is sent, the
    payload posted to the webhook, and the prefix every failure carries. */
module BotModeApi {
  import opened JsValues
  import opened Config
  import opened RequestRetry
  import opened ContactRecords

  /** The JSON body posted to the webhook; `timestamp` is the ISO time
      string read from the clock when the payload is built. */
  datatype Payload = Payload(numero: string, modo: string, timestamp: string)

  /** What one call did: the payload it posted, if it got that far, and
      how it settled. */
  datatype BotModeUpdate = BotModeUpdate(sent: Option<Payload>, result: Result<JsValue>)

  const UPDATE_FAILED_PREFIX: string := "Falha ao atualizar modo: "
  const MSG_INVALID_PHONE: string := "Número de telefone inválido"
  const MSG_INVALID_MODE: string := "Modo do bot inválido"

  /** `updateBotMode(numero, novoModo)` with the clock reading `now` and the
      scripted webhook `outcomes`. An invalid number is reported before the
      mode is looked at; either check failing means nothing is posted.
      Otherwise the payload is posted with the default request policy, and
      a failure is the classified error under the update prefix. */
  function UpdateBotMode(numero: JsValue, novoModo: JsValue, now: string, outcomes: seq<FetchOutcome>): (u: BotModeUpdate)
    requires RETRY_ATTEMPTS <= |outcomes|
    ensures u.sent.None? <==> !ValidatePhoneNumber(numero) || !ValidateBotMode(novoModo)
    ensures !ValidatePhoneNumber(numero) ==> u.result == Err(UPDATE_FAILED_PREFIX + MSG_INVALID_PHONE)
    ensures ValidatePhoneNumber(numero) && !ValidateBotMode(novoModo) ==>
              u.result == Err(UPDATE_FAILED_PREFIX + MSG_INVALID_MODE)
    ensures u.sent.Some? ==>
              && u.sent.value == Payload(numero.s, novoModo.s, now)
              && (novoModo.s == "bot" || novoModo.s == "OFF")
    ensures u.sent.Some? ==>
              var r := MakeRequest(NO_OPTIONS, outcomes);
              && (u.result.Ok? <==> r.Resolved?)
              && (u.result.Ok? ==> u.result.value == r.data)
              && (u.result.Err? ==> r.RejectedWith? && u.result.message == UPDATE_FAILED_PREFIX + r.message)
    ensures u.result.Err? ==> UPDATE_FAILED_PREFIX <= u.result.message
  {
    if !ValidatePhoneNumber(numero) then
      BotModeUpdate(None, Err(UPDATE_FAILED_PREFIX + MSG_INVALID_PHONE))
    else if !ValidateBotMode(novoModo) then
      BotModeUpdate(None, Err(UPDATE_FAILED_PREFIX + MSG_INVALID_MODE))
    else
      var payload := Payload(numero.s, novoModo.s, now);
      match MakeRequest(NO_OPTIONS, outcomes)
      case Resolved(data) => BotModeUpdate(Some(payload), Ok(data))
      case RejectedWith(message) => BotModeUpdate(Some(payload), Err(UPDATE_FAILED_PREFIX + message))
      // Unreachable: the default budget is RETRY_ATTEMPTS = 3 > 0, so the
      // loop always runs and a rejection always carries a message.
      case RejectedOnUndefined => assert false; BotModeUpdate(None, Err(""))
  }

  /** A valid request whose first webhook attempt answers with a decodable
      ok response posts once, sleeps no backoff, and returns that response's
      data. */
  lemma UpdateSucceedsAtOnce(numero: string, novoModo: string, now: string, ok: HttpResponse, rest: seq<FetchOutcome>)
    requires ValidatePhoneNumber(JStr(numero)) && ValidateBotMode(JStr(novoModo))
    requires IsOk(ok) && ok.body.Parsed?
    requires |rest| >= 2
    ensures var u := UpdateBotMode(JStr(numero), JStr(novoModo), now, [Responded(ok)] + rest);
            u == BotModeUpdate(Some(Payload(numero, novoModo, now)), Ok(ok.body.value))
    ensures var run := ExecuteRequestWithRetry([Responded(ok)] + rest, RETRY_ATTEMPTS, RETRY_DELAY);
            run.attempts == 1 && run.waits == []
  {
    var outcomes := [Responded(ok)] + rest;
    FirstSuccessReturns(outcomes, RETRY_ATTEMPTS, RETRY_DELAY, 1);
  }

  /** A valid request whose webhook times out on all three attempts fails
      with the timeout message under the update prefix. */
  lemma UpdateTimesOut(numero: string, novoModo: string, now: string, rest: seq<FetchOutcome>)
    requires ValidatePhoneNumber(JStr(numero)) && ValidateBotMode(JStr(novoModo))
    ensures var u := UpdateBotMode(JStr(numero), JStr(novoModo), now, [Aborted, Aborted, Aborted] + rest);
            && u.sent == Some(Payload(numero, novoModo, now))
            && u.result == Err(UPDATE_FAILED_PREFIX + MSG_TIMEOUT_ERROR)
  {
    ThreeTimeoutsReportTimeout(rest);
  }
}
