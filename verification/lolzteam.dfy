/**
 * The ledger client: the authorisation URL, the access-token guards and the
 * mapping from the payment-history response to payment records.
 *
 * The HTTP exchange itself is an input: the reply (or the transport failure)
 * is passed in, already decoded from JSON when it decodes.
 */
module Lolzteam {
  import opened Wrappers
  import opened PyStrings
  import opened CoreTypes

  const BaseUrl: string := "https://lolz.live"

  /** Username recorded when the payment's data section has none. */
  const UnknownUser: string := "Неизвестно"

  // ---------------------------------------------------------------------------
  // Authorisation URL
  // ---------------------------------------------------------------------------

  /** How an optional text renders inside an f-string: None becomes "None". */
  function Render(v: Option<string>): string {
    match v
    case None => "None"
    case Some(s) => s
  }

  /** The "key=value" items of a parameter list, in order. */
  function QueryItems(params: seq<(string, string)>): (r: seq<string>)
    ensures |r| == |params|
    ensures forall i :: 0 <= i < |params| ==> r[i] == params[i].0 + "=" + params[i].1
    decreases |params|
  {
    if params == [] then [] else [params[0].0 + "=" + params[0].1] + QueryItems(params[1..])
  }

  function AuthParams(clientId: Option<string>): seq<(string, string)> {
    [("client_id", Render(clientId)), ("response_type", "token"), ("scope", "payment basic")]
  }

  lemma AuthItems(clientId: Option<string>)
    ensures QueryItems(AuthParams(clientId))
         == ["client_id=" + Render(clientId), "response_type=token", "scope=payment basic"]
  {
    assert "client_id" + "=" == "client_id=";
    assert "response_type" + "=" + "token" == "response_type=token";
    assert "scope" + "=" + "payment basic" == "scope=payment basic";
  }

  /** The query string, built by hand without URL-encoding. */
  function AuthQuery(clientId: Option<string>): string {
    Join("&", QueryItems(AuthParams(clientId)))
  }

  lemma ConcatRegroup(x: string, y: string, c: string, z: string)
    ensures x + (y + c + z) == (x + y) + c + z
  {
  }

  /** Joining three items puts the separator between them. */
  lemma JoinThree(sep: string, a: string, b: string, c: string, tail: string)
    requires tail == sep + b + sep + c
    ensures Join(sep, [a, b, c]) == a + tail
  {
    assert [a, b, c][1..] == [b, c];
    assert [b, c][1..] == [c];
    assert Join(sep, [c]) == c;
    assert Join(sep, [b, c]) == b + sep + c;
  }

  /** The fixed part of the query after the client id. */
  lemma FixedTail()
    ensures "&" + "response_type=token" + "&" + "scope=payment basic" == "&response_type=token&scope=payment basic"
  {
    var first := "&" + "response_type=token";
    var second := "&" + "scope=payment basic";
    assert first == "&response_type=token";
    assert second == "&scope=payment basic";
    assert first + second == "&response_type=token&scope=payment basic";
    ConcatRegroup(first, "&", "scope=payment basic", []);
  }

  /** The query: the client id between its key and the two fixed parameters. */
  lemma AuthQueryShape(clientId: Option<string>)
    ensures AuthQuery(clientId) == "client_id=" + Render(clientId) + "&response_type=token&scope=payment basic"
  {
    AuthItems(clientId);
    FixedTail();
    JoinThree("&", "client_id=" + Render(clientId), "response_type=token", "scope=payment basic",
              "&response_type=token&scope=payment basic");
  }

  /** get_auth_url. */
  function GetAuthUrl(clientId: Option<string>): (r: string)
    ensures r == BaseUrl + "/account/authorize?client_id=" + Render(clientId)
                 + "&response_type=token&scope=payment basic"
  {
    AuthQueryShape(clientId);
    var c := Render(clientId);
    var tail := "&response_type=token&scope=payment basic";
    assert "/account/authorize?" + "client_id=" == "/account/authorize?client_id=";
    ConcatRegroup(BaseUrl + "/account/authorize?", "client_id=", c, tail);
    BaseUrl + "/account/authorize?" + AuthQuery(clientId)
  }

  /** A client id without '&' is recovered intact by splitting the query at '&'. */
  lemma AuthQuerySplits(clientId: Option<string>)
    requires '&' !in Render(clientId)
    ensures Split(AuthQuery(clientId), '&')
         == ["client_id=" + Render(clientId), "response_type=token", "scope=payment basic"]
  {
    var items := QueryItems(AuthParams(clientId));
    AuthItems(clientId);
    assert '&' !in "client_id=";
    assert '&' !in "response_type=token";
    assert '&' !in "scope=payment basic";
    SplitJoin(items, '&');
  }

  // ---------------------------------------------------------------------------
  // Replies and errors
  // ---------------------------------------------------------------------------

  /** An HTTP exchange: the transport failed, or a reply whose body decoded as JSON (Some) or did not (None). */
  datatype HttpReply<T> = TransportFailure | HttpResponse(status: int, text: string, json: Option<T>)

  /** Why a ledger call raised. */
  datatype LedgerError =
    | AccessTokenNotSet
    | NetworkError
    | InvalidJson
    | FailedStatus(status: int, text: string)
    | PaymentNotADict(id: string)
    | UnexpectedError(cause: LedgerError)

  /** `if not self.access_token`: None and the empty text both count as unset. */
  predicate TokenSet(token: Option<string>) {
    token.Some? && token.value != []
  }

  /** get_user_info: the token guard, then the reply; a bad status is re-raised as it is. */
  function GetUserInfo<T>(token: Option<string>, reply: HttpReply<T>): (r: Result<T, LedgerError>)
    ensures !TokenSet(token) ==> r == Failure(AccessTokenNotSet)
    ensures r.Success? <==> TokenSet(token) && reply.HttpResponse? && reply.status == 200 && reply.json.Some?
  {
    if !TokenSet(token) then Failure(AccessTokenNotSet)
    else match reply
      case TransportFailure => Failure(NetworkError)
      case HttpResponse(status, text, json) =>
        if status != 200 then Failure(FailedStatus(status, text))
        else if json.None? then Failure(InvalidJson)
        else Success(json.value)
  }

  // ---------------------------------------------------------------------------
  // Payment history payload
  // ---------------------------------------------------------------------------

  /** The JSON value under "incoming_sum": a float with no fractional part, or any other value by its str() text. */
  datatype AmountValue = IntegralFloat(whole: int) | OtherAmount(text: string)

  /** The "data" member of a payment: an object with optional username and commentPlain, or something else. */
  datatype DataSection = DataDict(username: Option<string>, commentPlain: Option<string>) | NotADict

  /** One value of the "payments" object. */
  datatype PaymentEntry =
    | PaymentDict(incomingSum: Option<AmountValue>, data: Option<DataSection>, operationDate: Option<int>)
    | NotAPaymentDict

  /** The "payments" member: an object (its items in iteration order) or something else. */
  datatype PaymentsField = PaymentsObject(items: seq<(string, PaymentEntry)>) | PaymentsOther

  /** The decoded body: whether it has a "payments" key, and what is under it. */
  datatype HistoryPayload = HistoryPayload(payments: Option<PaymentsField>)

  /** The amount text: an integral float as its integer, anything else with trailing '0's and then trailing '.'s removed. */
  function NormalizeAmount(v: AmountValue): (r: string)
    ensures v.OtherAmount? ==> |r| <= |v.text| && r == v.text[..|r|]
    ensures v.OtherAmount? ==> forall k :: |r| <= k < |v.text| ==> v.text[k] == '0' || v.text[k] == '.'
    ensures v.OtherAmount? ==> r == [] || r[|r| - 1] != '.'
  {
    match v
    case IntegralFloat(n) => IntToDecimal(n)
    case OtherAmount(t) =>
      var noZeros := RStripWhile(t, c => c == '0');
      RStripWhile(noZeros, c => c == '.')
  }

  /** An integral float is rendered so that int() reads its value back. */
  lemma IntegralAmountRoundTrip(n: int)
    ensures ParseInt(NormalizeAmount(IntegralFloat(n))) == Some(n)
  {
    ParseIntOfIntToDecimal(n);
  }

  /** The amount a payment without "incoming_sum" gets: str(0) stripped. */
  const MissingAmount: AmountValue := OtherAmount("0")

  /** Integer amounts lose their trailing zeros: 100 becomes "1", a missing amount "". */
  lemma AmountNormalisationExamples()
    ensures NormalizeAmount(OtherAmount("100")) == "1"
    ensures NormalizeAmount(MissingAmount) == ""
  {
    assert "100"[..2] == "10" && "10"[..1] == "1" && "1"[..0] == [];
    assert "0"[..0] == [];
  }

  /** A fractional amount keeps its digits up to the last non-zero one. */
  lemma FractionalAmountExample()
    ensures NormalizeAmount(OtherAmount("12.50")) == "12.5"
  {
    assert "12.50"[..4] == "12.5";
  }

  /** A zero fraction loses its point too. */
  lemma ZeroFractionExample()
    ensures NormalizeAmount(OtherAmount("10.0")) == "10"
  {
    assert "10.0"[..3] == "10." && "10."[..2] == "10";
  }

  /** A float with no fractional part is written as its integer. */
  lemma IntegralAmountExample()
    ensures NormalizeAmount(IntegralFloat(100)) == "100"
  {
    assert NatToDecimal(10) == "1" + "0";
    assert NatToDecimal(100) == NatToDecimal(10) + "0";
  }

  /** The record for one payments entry, with the defaults for missing members. */
  function ToRecord(id: string, entry: PaymentEntry, now: int): (p: Payment)
    requires entry.PaymentDict?
    ensures p.id == id
    ensures p.amount == NormalizeAmount(entry.incomingSum.GetOr(MissingAmount))
    ensures p.datetime == entry.operationDate.GetOr(now)
  {
    var section := if entry.data.Some? && entry.data.value.DataDict? then entry.data.value
                   else DataDict(None, None);
    Payment(id,
            NormalizeAmount(entry.incomingSum.GetOr(MissingAmount)),
            section.username.GetOr(UnknownUser),
            section.commentPlain.GetOr(""),
            entry.operationDate.GetOr(now))
  }

  /** A data section that is missing or not an object is read as empty. */
  lemma RecordDefaults(id: string, entry: PaymentEntry, now: int)
    requires entry.PaymentDict?
    requires entry.data.None? || entry.data.value.NotADict?
    ensures ToRecord(id, entry, now).username == UnknownUser
    ensures ToRecord(id, entry, now).comment == ""
  {
  }

  /** The records built by the append loop over the payments object, in iteration order. */
  function CollectRecords(items: seq<(string, PaymentEntry)>, now: int): Result<seq<Payment>, LedgerError>
    decreases |items|
  {
    if items == [] then Success([])
    else
      match CollectRecords(items[..|items| - 1], now)
      case Failure(e) => Failure(e)
      case Success(ps) =>
        var (id, entry) := items[|items| - 1];
        if entry.NotAPaymentDict? then Failure(PaymentNotADict(id))
        else Success(ps + [ToRecord(id, entry, now)])
  }

  predicate AllPaymentDicts(items: seq<(string, PaymentEntry)>) {
    forall k :: 0 <= k < |items| ==> items[k].1.PaymentDict?
  }

  /** One record per entry, in iteration order, exactly when every entry is an object. */
  lemma {:induction false} CollectRecordsOnePerEntry(items: seq<(string, PaymentEntry)>, now: int)
    ensures CollectRecords(items, now).Success? <==> AllPaymentDicts(items)
    ensures CollectRecords(items, now).Success? ==>
      var ps := CollectRecords(items, now).value;
      |ps| == |items| &&
      forall k :: 0 <= k < |items| ==> items[k].1.PaymentDict? && ps[k] == ToRecord(items[k].0, items[k].1, now)
    decreases |items|
  {
    if items != [] {
      var init := items[..|items| - 1];
      var last := items[|items| - 1];
      CollectRecordsOnePerEntry(init, now);
      var c0 := CollectRecords(init, now);
      var c := CollectRecords(items, now);
      if c0.Failure? {
        assert c == c0;
        var k :| 0 <= k < |init| && !init[k].1.PaymentDict?;
        assert items[k] == init[k];
      } else if !last.1.PaymentDict? {
        assert c.Failure?;
        assert !items[|items| - 1].1.PaymentDict?;
      } else {
        var ps := c0.value + [ToRecord(last.0, last.1, now)];
        assert c == Success(ps);
        forall k | 0 <= k < |items|
          ensures items[k].1.PaymentDict? && ps[k] == ToRecord(items[k].0, items[k].1, now)
        {
          if k < |init| {
            assert init[k] == items[k];
          }
        }
      }
    }
  }

  /** list(reversed(s)). */
  function Reverse<T>(s: seq<T>): (r: seq<T>)
    ensures |r| == |s|
    ensures forall k :: 0 <= k < |s| ==> r[k] == s[|s| - 1 - k]
    decreases |s|
  {
    if s == [] then [] else [s[|s| - 1]] + Reverse(s[..|s| - 1])
  }

  /** What get_payment_history returns or raises, given the token, the reply and the clock. */
  function PaymentHistory(token: Option<string>, reply: HttpReply<HistoryPayload>, now: int): Result<seq<Payment>, LedgerError> {
    if !TokenSet(token) then Failure(AccessTokenNotSet)
    else match reply
      case TransportFailure => Failure(NetworkError)
      case HttpResponse(status, text, json) =>
        if status != 200 then Failure(UnexpectedError(FailedStatus(status, text)))
        else if json.None? then Failure(InvalidJson)
        else match json.value.payments
          case None => Success([])
          case Some(PaymentsOther) => Success([])
          case Some(PaymentsObject(items)) =>
            match CollectRecords(items, now)
            case Failure(e) => Failure(UnexpectedError(e))
            case Success(ps) => Success(Reverse(ps))
  }

  /** get_payment_history: the append loop over the payments object, then the reversal. */
  method GetPaymentHistory(token: Option<string>, reply: HttpReply<HistoryPayload>, now: int)
    returns (r: Result<seq<Payment>, LedgerError>)
    ensures r == PaymentHistory(token, reply, now)
  {
    if !TokenSet(token) {
      return Failure(AccessTokenNotSet);
    }
    if reply.TransportFailure? {
      return Failure(NetworkError);
    }
    if reply.status != 200 {
      return Failure(UnexpectedError(FailedStatus(reply.status, reply.text)));
    }
    if reply.json.None? {
      return Failure(InvalidJson);
    }
    var field := reply.json.value.payments;
    if field.None? || field.value.PaymentsOther? {
      return Success([]);
    }
    var items := field.value.items;
    var payments: seq<Payment> := [];
    for i := 0 to |items|
      invariant CollectRecords(items[..i], now) == Success(payments)
    {
      assert items[..i + 1][..i] == items[..i];
      var (id, entry) := items[i];
      if entry.NotAPaymentDict? {
        assert CollectRecords(items[..i + 1], now) == Failure(PaymentNotADict(id));
        CollectRecordsFailureSticks(items, i + 1, now);
        return Failure(UnexpectedError(PaymentNotADict(id)));
      }
      payments := payments + [ToRecord(id, entry, now)];
    }
    assert items[..|items|] == items;
    return Success(Reverse(payments));
  }

  /** Once an entry fails, the whole collection fails the same way. */
  lemma {:induction false} CollectRecordsFailureSticks(items: seq<(string, PaymentEntry)>, n: nat, now: int)
    requires n <= |items| && CollectRecords(items[..n], now).Failure?
    ensures CollectRecords(items, now) == CollectRecords(items[..n], now)
    decreases |items| - n
  {
    if n < |items| {
      assert items[..n + 1][..n] == items[..n];
      CollectRecordsFailureSticks(items, n + 1, now);
    } else {
      assert items[..n] == items;
    }
  }

  /** Without an access token both calls raise before any request is made, whatever the reply would have been. */
  lemma TokenGuards<T>(token: Option<string>, reply: HttpReply<HistoryPayload>, userReply: HttpReply<T>, now: int)
    requires token.None? || token == Some("")
    ensures PaymentHistory(token, reply, now) == Failure(AccessTokenNotSet)
    ensures GetUserInfo(token, userReply) == Failure(AccessTokenNotSet)
  {
  }

  /** A body without "payments", or with a "payments" that is not an object, gives no payments. */
  lemma NoPaymentsObjectGivesEmpty(token: Option<string>, text: string, payload: HistoryPayload, now: int)
    requires TokenSet(token)
    requires payload.payments.None? || payload.payments.value.PaymentsOther?
    ensures PaymentHistory(token, HttpResponse(200, text, Some(payload)), now) == Success([])
  {
  }

  /**
   * A successful history has one record per entry, its id the entry's key,
   * newest-first: the last entry of the object comes first.
   */
  /** Records in reverse entry order pair the k-th record with the k-th entry from the end. */
  lemma ReversedRecords(items: seq<(string, PaymentEntry)>, ps: seq<Payment>, rv: seq<Payment>, now: int)
    requires |ps| == |items| && |rv| == |ps|
    requires forall k :: 0 <= k < |items| ==> items[k].1.PaymentDict? && ps[k] == ToRecord(items[k].0, items[k].1, now)
    requires forall k :: 0 <= k < |ps| ==> rv[k] == ps[|ps| - 1 - k]
    ensures forall k :: 0 <= k < |items| ==>
      var j := |items| - 1 - k;
      && items[j].1.PaymentDict?
      && rv[k] == ToRecord(items[j].0, items[j].1, now)
      && rv[k].id == items[j].0
  {
    forall k | 0 <= k < |items|
      ensures var j := |items| - 1 - k;
        items[j].1.PaymentDict? && rv[k] == ToRecord(items[j].0, items[j].1, now) && rv[k].id == items[j].0
    {
      assert rv[k] == ps[|items| - 1 - k];
    }
  }

  lemma HistoryIsReversedRecords(token: Option<string>, text: string, items: seq<(string, PaymentEntry)>, now: int)
    requires TokenSet(token)
    ensures var r := PaymentHistory(token, HttpResponse(200, text, Some(HistoryPayload(Some(PaymentsObject(items))))), now);
      && (r.Success? <==> AllPaymentDicts(items))
      && (r.Success? ==>
            && |r.value| == |items|
            && forall k :: 0 <= k < |items| ==>
                 var j := |items| - 1 - k;
                 && items[j].1.PaymentDict?
                 && r.value[k] == ToRecord(items[j].0, items[j].1, now)
                 && r.value[k].id == items[j].0)
  {
    CollectRecordsOnePerEntry(items, now);
    var c := CollectRecords(items, now);
    var r := PaymentHistory(token, HttpResponse(200, text, Some(HistoryPayload(Some(PaymentsObject(items))))), now);
    if c.Success? {
      ReversedRecords(items, c.value, Reverse(c.value), now);
      assert r == Success(Reverse(c.value));
    } else {
      assert r == Failure(UnexpectedError(c.error));
    }
  }
}
