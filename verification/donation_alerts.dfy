/**
 * The notification-service client: the scope parameter of the login URL, the
 * form posted for a custom alert, and the alert queue with its single
 * consumer, which is started and stopped by the payment monitor.
 *
 * The POST itself is an input: the consumer step is given the response (or
 * the transport error) that the request received.
 */
module DonationAlerts {
  import opened Wrappers
  import opened PyStrings
  import opened CoreTypes

  const BaseUrl: string := "https://www.donationalerts.com"

  // ---------------------------------------------------------------------------
  // Scopes
  // ---------------------------------------------------------------------------

  datatype Scope = UserShow | CustomAlertStore

  function ScopeValue(s: Scope): string {
    match s
    case UserShow => "oauth-user-show"
    case CustomAlertStore => "oauth-custom_alert-store"
  }

  /** The scope a value names, if any. */
  function ParseScope(v: string): Option<Scope> {
    if v == "oauth-user-show" then Some(UserShow)
    else if v == "oauth-custom_alert-store" then Some(CustomAlertStore)
    else None
  }

  const DefaultScopes: seq<Scope> := [UserShow, CustomAlertStore]

  /** `scopes or [USER_SHOW, CUSTOM_ALERT_STORE]`: None and the empty list both fall back. */
  function EffectiveScopes(requested: Option<seq<Scope>>): (r: seq<Scope>)
    ensures r != []
    ensures requested.Some? && requested.value != [] ==> r == requested.value
    ensures requested.None? || requested.value == [] ==> r == DefaultScopes
  {
    if requested.Some? && requested.value != [] then requested.value else DefaultScopes
  }

  function ScopeValues(scopes: seq<Scope>): (r: seq<string>)
    ensures |r| == |scopes|
    ensures forall i :: 0 <= i < |scopes| ==> r[i] == ScopeValue(scopes[i])
    decreases |scopes|
  {
    if scopes == [] then [] else [ScopeValue(scopes[0])] + ScopeValues(scopes[1..])
  }

  /** The "scope" login parameter: the scope values joined by single spaces, in list order. */
  function ScopeParameter(scopes: seq<Scope>): string {
    Join(" ", ScopeValues(scopes))
  }

  /** Each scope value names its scope and holds no space. */
  lemma ScopeValueParses(s: Scope)
    ensures ParseScope(ScopeValue(s)) == Some(s)
    ensures ' ' !in ScopeValue(s)
  {
  }

  /** The scopes are read back from the parameter, in order, by splitting at spaces. */
  lemma ScopeParameterRoundTrip(scopes: seq<Scope>)
    requires scopes != []
    ensures var parts := Split(ScopeParameter(scopes), ' ');
      |parts| == |scopes| && forall i :: 0 <= i < |scopes| ==> ParseScope(parts[i]) == Some(scopes[i])
  {
    var values := ScopeValues(scopes);
    forall i | 0 <= i < |values| ensures ' ' !in values[i] && ParseScope(values[i]) == Some(scopes[i]) {
      ScopeValueParses(scopes[i]);
    }
    assert " " == [' '];
    SplitJoin(values, ' ');
  }

  // ---------------------------------------------------------------------------
  // Sending one alert
  // ---------------------------------------------------------------------------

  /** The form fields of a custom alert: always the header, the message only when it is not empty. */
  function FormData(header: string, message: string): (d: map<string, string>)
    ensures "header" in d && d["header"] == header
    ensures "message" in d <==> message != []
    ensures "message" in d ==> d["message"] == message
    ensures forall k :: k in d ==> k == "header" || k == "message"
  {
    var data := map["header" := header];
    if message != [] then data["message" := message] else data
  }

  /** The header of an alert: "<username> — <amount> RUB". */
  function AlertHeader(a: AlertInfo): (h: string)
    ensures |h| == |a.username| + 3 + |a.amount| + 4
    ensures h[..|a.username|] == a.username
    ensures h[|a.username|..|a.username| + 3] == " — "
    ensures h[|a.username| + 3..|h| - 4] == a.amount
    ensures h[|h| - 4..] == " RUB"
  {
    var h := a.username + " — " + a.amount + " RUB";
    assert h == a.username + (" — " + a.amount + " RUB");
    assert h[|a.username|..] == " — " + a.amount + " RUB";
    assert h[|a.username| + 3..] == a.amount + " RUB";
    h
  }

  /** What the POST to the custom-alert endpoint received. */
  datatype SendResponse =
    | Responded(status: int, text: string, json: Option<string>)
    | TransportError(reason: string)

  /** Why a send raised SendAlertException. */
  datatype SendFailure = UnexpectedStatus(status: int, text: string) | UndecodableBody | Transport(reason: string)

  datatype SendAlertException = SendAlertException(cause: SendFailure)

  /** The request the consumer makes: the token and the form fields. */
  datatype AlertRequest = AlertRequest(token: string, form: map<string, string>)

  /** send_custom_alert once its request has been answered: only 201 with a JSON body succeeds. */
  function SendOutcome(response: SendResponse): (r: Result<string, SendAlertException>)
    ensures r.Success? <==> response.Responded? && response.status == 201 && response.json.Some?
    ensures response.Responded? && response.status != 201 ==>
      r == Failure(SendAlertException(UnexpectedStatus(response.status, response.text)))
    ensures response.TransportError? ==> r == Failure(SendAlertException(Transport(response.reason)))
  {
    match response
    case TransportError(reason) => Failure(SendAlertException(Transport(reason)))
    case Responded(status, text, json) =>
      if status != 201 then Failure(SendAlertException(UnexpectedStatus(status, text)))
      else if json.None? then Failure(SendAlertException(UndecodableBody))
      else Success(json.value)
  }

  // ---------------------------------------------------------------------------
  // The client object: queue and consumer
  // ---------------------------------------------------------------------------

  /** One consumer step: nothing to do, or the head alert was sent (and delivered or dropped). */
  datatype ConsumerStep =
    | Idle
    | Handled(alert: AlertInfo, request: AlertRequest, outcome: Result<string, SendAlertException>)

  class DonationAlertsApi {
    const clientId: Option<string>
    const redirectUri: Option<string>
    const scopes: seq<Scope>

    /** The pending alerts, head first. */
    var queue: seq<AlertInfo>

    /** The consumer task: None, or the token it was started with. */
    var processor: Option<string>

    constructor (clientId: Option<string>, redirectUri: Option<string>, requested: Option<seq<Scope>>)
      ensures this.clientId == clientId && this.redirectUri == redirectUri
      ensures scopes == EffectiveScopes(requested)
      ensures queue == [] && processor == None
    {
      this.clientId := clientId;
      this.redirectUri := redirectUri;
      scopes := EffectiveScopes(requested);
      queue := [];
      processor := None;
    }

    /** queue_alert: the alert goes to the tail. */
    method QueueAlert(amount: string, username: string, message: string)
      modifies this
      ensures queue == old(queue) + [AlertInfo(amount, username, message)]
      ensures processor == old(processor)
    {
      queue := queue + [AlertInfo(amount, username, message)];
    }

    /** start_alert_processor: starts a consumer only when none exists. */
    method StartAlertProcessor(token: string)
      modifies this
      ensures old(processor).Some? ==> processor == old(processor)
      ensures old(processor).None? ==> processor == Some(token)
      ensures queue == old(queue)
    {
      if processor.Some? {
        return;
      }
      processor := Some(token);
    }

    /** stop_alert_processor: the consumer is gone, the pending alerts stay. */
    method StopAlertProcessor()
      modifies this
      ensures processor == None
      ensures queue == old(queue)
    {
      if processor.Some? {
        processor := None;
      }
    }

    /**
     * One turn of the consumer loop, given the response its request receives:
     * the head alert is taken off the queue and sent with the formatted
     * header; a failure is dropped, never put back.
     */
    method ProcessNextAlert(response: SendResponse) returns (step: ConsumerStep)
      modifies this
      ensures processor == old(processor)
      ensures old(processor).None? || old(queue) == [] ==> step == Idle && queue == old(queue)
      ensures old(processor).Some? && old(queue) != [] ==>
        && queue == old(queue)[1..]
        && step == Handled(old(queue)[0],
                           AlertRequest(old(processor).value, FormData(AlertHeader(old(queue)[0]), old(queue)[0].message)),
                           SendOutcome(response))
    {
      if processor.None? || queue == [] {
        return Idle;
      }
      var alert := queue[0];
      queue := queue[1..];
      var form := FormData(AlertHeader(alert), alert.message);
      step := Handled(alert, AlertRequest(processor.value, form), SendOutcome(response));
    }
  }
}
