/**
 * The payment monitor: it seeds its set of known payment ids when started,
 * then on every poll cycle takes the fetched payments, picks out the new
 * ones, masks banned words in their username and comment, reports them and
 * queues one alert each with the notification-service client.
 *
 * Callbacks are not function values here: what the monitor hands to them is
 * returned as a sequence of events, in the order the calls happen. The
 * fetched payments, the clock and the banned-word list are inputs of a cycle.
 */
module PaymentMonitoring {
  import opened Wrappers
  import opened CoreTypes
  import opened TextFiltering
  import DonationAlerts

  /** Seconds of slack when comparing a payment's time with the last check. */
  const LookBack: int := 300

  /** Seconds paused after a failed cycle. */
  const ErrorPause: nat := 5

  const TokenMissingMessage: string := "DonationAlerts token not set, alerts will not be sent"
  const InitializeFailedPrefix: string := "Failed to initialize payment monitor: "
  const CycleFailedPrefix: string := "Error monitoring payments: "

  /** What the monitor hands to its callbacks. */
  datatype MonitorEvent =
    | PaymentDetected(payment: Payment)
    | AlertQueued(alert: AlertInfo)
    | PaymentsUpdated(payments: seq<Payment>)
    | ErrorReported(message: string)

  /** The payment history fetched in a cycle, or the message of the exception the fetch raised. */
  datatype FetchResult = Fetched(payments: seq<Payment>) | FetchFailed(reason: string)

  /** The per-payment callback raises, with `message`, on its call number `at` (from 0) in the cycle. */
  datatype CallbackFault = CallbackFault(at: nat, message: string)

  /** How one turn of the monitoring loop ends. */
  datatype LoopStep = Exited | Continued(sleptSeconds: nat)

  datatype StartOutcome = AlreadyRunning | Started | InitializeFailed(message: string)

  // ---------------------------------------------------------------------------
  // Which payments are new
  // ---------------------------------------------------------------------------

  /** A payment is new when its id is unknown and it is later than the last check less the slack. */
  predicate IsNew(known: set<string>, lastCheck: int, p: Payment) {
    p.id !in known && p.datetime > lastCheck - LookBack
  }

  function Ids(ps: seq<Payment>): set<string> {
    set p | p in ps :: p.id
  }

  lemma IdsAppend(ps: seq<Payment>, p: Payment)
    ensures Ids(ps + [p]) == Ids(ps) + {p.id}
  {
    assert forall q :: q in ps + [p] <==> q in ps || q == p;
  }

  /**
   * The cycle's walk over the fetched payments: the known ids afterwards and
   * the new payments in fetch order. Each new id is known from then on, so a
   * repeated id is new at most once.
   */
  function Scan(known: set<string>, lastCheck: int, ps: seq<Payment>): (set<string>, seq<Payment>)
    decreases |ps|
  {
    if ps == [] then (known, [])
    else
      var (k, found) := Scan(known, lastCheck, ps[..|ps| - 1]);
      var p := ps[|ps| - 1];
      if IsNew(k, lastCheck, p) then (k + {p.id}, found + [p]) else (k, found)
  }

  /** The known ids after the walk are the ids before it plus those of the new payments. */
  lemma {:induction false} ScanAddsFreshIds(known: set<string>, lastCheck: int, ps: seq<Payment>)
    ensures Scan(known, lastCheck, ps).0 == known + Ids(Scan(known, lastCheck, ps).1)
    decreases |ps|
  {
    if ps != [] {
      var init := ps[..|ps| - 1];
      ScanAddsFreshIds(known, lastCheck, init);
      var (k, found) := Scan(known, lastCheck, init);
      IdsAppend(found, ps[|ps| - 1]);
    }
  }

  /** Every new payment was fetched, was unknown and recent, and no id is new twice. */
  lemma {:induction false} ScanFreshSound(known: set<string>, lastCheck: int, ps: seq<Payment>)
    ensures var found := Scan(known, lastCheck, ps).1;
      && (forall j :: 0 <= j < |found| ==> found[j] in ps && IsNew(known, lastCheck, found[j]))
      && (forall a, b :: 0 <= a < b < |found| ==> found[a].id != found[b].id)
    decreases |ps|
  {
    if ps != [] {
      var init := ps[..|ps| - 1];
      var p := ps[|ps| - 1];
      ScanFreshSound(known, lastCheck, init);
      ScanAddsFreshIds(known, lastCheck, init);
      var (k, found) := Scan(known, lastCheck, init);
      forall j | 0 <= j < |found| ensures found[j] in ps {
        assert found[j] in init;
      }
      if IsNew(k, lastCheck, p) {
        forall j | 0 <= j < |found| ensures found[j].id != p.id {
          assert found[j] in found;
        }
      }
    }
  }

  /** Every fetched payment that is unknown and recent has its id among the new ones. */
  lemma {:induction false} ScanFreshComplete(known: set<string>, lastCheck: int, ps: seq<Payment>)
    ensures forall i :: 0 <= i < |ps| && IsNew(known, lastCheck, ps[i]) ==>
      ps[i].id in Ids(Scan(known, lastCheck, ps).1)
    decreases |ps|
  {
    if ps != [] {
      var init := ps[..|ps| - 1];
      var p := ps[|ps| - 1];
      ScanFreshComplete(known, lastCheck, init);
      ScanAddsFreshIds(known, lastCheck, init);
      var (k, found) := Scan(known, lastCheck, init);
      if IsNew(k, lastCheck, p) {
        IdsAppend(found, p);
      }
      forall i | 0 <= i < |ps| && IsNew(known, lastCheck, ps[i])
        ensures ps[i].id in Ids(Scan(known, lastCheck, ps).1)
      {
        if i < |ps| - 1 {
          assert ps[i] == init[i];
        }
      }
    }
  }

  /** The payments that are new with respect to the ids known before the cycle, in fetch order. */
  function Unseen(known: set<string>, lastCheck: int, ps: seq<Payment>): seq<Payment>
    decreases |ps|
  {
    if ps == [] then []
    else
      var p := ps[|ps| - 1];
      Unseen(known, lastCheck, ps[..|ps| - 1]) + (if IsNew(known, lastCheck, p) then [p] else [])
  }

  predicate DistinctIds(ps: seq<Payment>) {
    forall a, b :: 0 <= a < b < |ps| ==> ps[a].id != ps[b].id
  }

  /** When the fetched ids are all different, the new payments are just the unknown, recent ones. */
  lemma {:induction false} ScanIsFilterForDistinctIds(known: set<string>, lastCheck: int, ps: seq<Payment>)
    requires DistinctIds(ps)
    ensures Scan(known, lastCheck, ps).1 == Unseen(known, lastCheck, ps)
    decreases |ps|
  {
    if ps != [] {
      var init := ps[..|ps| - 1];
      var p := ps[|ps| - 1];
      ScanIsFilterForDistinctIds(known, lastCheck, init);
      ScanAddsFreshIds(known, lastCheck, init);
      ScanFreshSound(known, lastCheck, init);
      var (k, found) := Scan(known, lastCheck, init);
      assert p.id !in Ids(found) by {
        forall q | q in found ensures q.id != p.id {
          var j :| 0 <= j < |found| && found[j] == q;
          assert q in init;
          var a :| 0 <= a < |init| && init[a] == q;
          assert ps[a] == q;
        }
      }
      assert IsNew(k, lastCheck, p) == IsNew(known, lastCheck, p);
    }
  }

  /** One more fetched payment: the walk takes it when it is new with respect to what is known by then. */
  lemma ScanStep(known: set<string>, lastCheck: int, ps: seq<Payment>, i: nat)
    requires i < |ps|
    ensures var (k, found) := Scan(known, lastCheck, ps[..i]);
      Scan(known, lastCheck, ps[..i + 1])
        == if IsNew(k, lastCheck, ps[i]) then (k + {ps[i].id}, found + [ps[i]]) else (k, found)
  {
    assert ps[..i + 1][..i] == ps[..i];
  }

  /** The walk over a prefix of the fetch finds a prefix of the new payments. */
  lemma {:induction false} ScanPrefix(known: set<string>, lastCheck: int, ps: seq<Payment>, i: nat)
    requires i <= |ps|
    ensures var f := Scan(known, lastCheck, ps[..i]).1;
      var g := Scan(known, lastCheck, ps).1;
      |f| <= |g| && f == g[..|f|]
    decreases |ps| - i
  {
    if i == |ps| {
      assert ps[..i] == ps;
    } else {
      ScanPrefix(known, lastCheck, ps, i + 1);
      assert ps[..i + 1][..i] == ps[..i];
    }
  }

  // ---------------------------------------------------------------------------
  // Masking and events
  // ---------------------------------------------------------------------------

  /**
   * The masking loop written out inside the cycle: only when there are banned
   * words and the text is not empty, every non-empty word in turn.
   */
  method MaskInline(fold: char -> char, text: string, banwords: seq<string>) returns (masked: string)
    ensures masked == FilterBanwords(fold, text, banwords)
  {
    masked := text;
    if banwords != [] && text != [] {
      for i := 0 to |banwords|
        invariant masked == ApplyWords(fold, text, banwords[..i])
      {
        assert banwords[..i + 1][..i] == banwords[..i];
        var word := banwords[i];
        if word != [] && |word| > 0 {
          masked := SubstituteWord(fold, masked, word);
        }
      }
      assert banwords[..|banwords|] == banwords;
    }
  }

  /** A new payment as the callbacks and the alert see it: username and comment masked. */
  function MaskPayment(fold: char -> char, banwords: seq<string>, p: Payment): Payment {
    p.(username := FilterBanwords(fold, p.username, banwords),
       comment := FilterBanwords(fold, p.comment, banwords))
  }

  /**
   * Masking keeps id, amount and time, and turns username and comment into
   * masked copies from which no banned word without mask-matching characters
   * can be read.
   */
  lemma MaskPaymentMasks(fold: char -> char, banwords: seq<string>, p: Payment)
    requires forall j :: 0 <= j < |banwords| ==> MaskFree(fold, banwords[j])
    ensures var m := MaskPayment(fold, banwords, p);
      && m.id == p.id && m.amount == p.amount && m.datetime == p.datetime
      && MaskedFrom(p.username, m.username) && MaskedFrom(p.comment, m.comment)
      && forall j :: 0 <= j < |banwords| && banwords[j] != [] ==>
           FreeOf(fold, m.username, banwords[j]) && FreeOf(fold, m.comment, banwords[j])
  {
    FilterRemovesEveryBanword(fold, p.username, banwords);
    FilterRemovesEveryBanword(fold, p.comment, banwords);
  }

  /** With no banned words, or empty fields, masking changes nothing. */
  lemma MaskPaymentUntouched(fold: char -> char, banwords: seq<string>, p: Payment)
    requires banwords == [] || (p.username == [] && p.comment == [])
    ensures MaskPayment(fold, banwords, p) == p
  {
  }

  function MaskAll(fold: char -> char, banwords: seq<string>, ps: seq<Payment>): (r: seq<Payment>)
    ensures |r| == |ps|
    decreases |ps|
  {
    if ps == [] then [] else MaskAll(fold, banwords, ps[..|ps| - 1]) + [MaskPayment(fold, banwords, ps[|ps| - 1])]
  }

  /** The alert queued for a (masked) payment. */
  function AlertFor(p: Payment): AlertInfo {
    AlertInfo(p.amount, p.username, p.comment)
  }

  function AlertsFor(ps: seq<Payment>): (r: seq<AlertInfo>)
    ensures |r| == |ps|
    ensures forall i :: 0 <= i < |ps| ==> r[i] == AlertFor(ps[i])
    decreases |ps|
  {
    if ps == [] then [] else AlertsFor(ps[..|ps| - 1]) + [AlertFor(ps[|ps| - 1])]
  }

  /** `if self.donation_alerts_token`: None and the empty text are both false. */
  predicate TokenSet(token: Option<string>) {
    token.Some? && token.value != []
  }

  /** The events for one new payment: the callback when one is set, then the alert when the token is set. */
  function PaymentEvents(p: Payment, notify: bool, token: Option<string>): seq<MonitorEvent> {
    (if notify then [PaymentDetected(p)] else []) + (if TokenSet(token) then [AlertQueued(AlertFor(p))] else [])
  }

  function EventsFor(ms: seq<Payment>, notify: bool, token: Option<string>): seq<MonitorEvent>
    decreases |ms|
  {
    if ms == [] then [] else EventsFor(ms[..|ms| - 1], notify, token) + PaymentEvents(ms[|ms| - 1], notify, token)
  }

  lemma EventsForAppend(ms: seq<Payment>, m: Payment, notify: bool, token: Option<string>)
    ensures EventsFor(ms + [m], notify, token) == EventsFor(ms, notify, token) + PaymentEvents(m, notify, token)
  {
    assert (ms + [m])[..|ms|] == ms;
  }

  lemma QueuedForAppend(token: Option<string>, ms: seq<Payment>, m: Payment)
    ensures QueuedFor(token, ms + [m]) == QueuedFor(token, ms) + (if TokenSet(token) then [AlertFor(m)] else [])
  {
    assert (ms + [m])[..|ms|] == ms;
  }

  lemma AppendAssoc<T>(a: seq<T>, b: seq<T>, c: seq<T>)
    ensures a + b + c == a + (b + c)
  {
  }

  lemma MaskAllAppend(fold: char -> char, banwords: seq<string>, ps: seq<Payment>, p: Payment)
    ensures MaskAll(fold, banwords, ps + [p]) == MaskAll(fold, banwords, ps) + [MaskPayment(fold, banwords, p)]
  {
    assert (ps + [p])[..|ps|] == ps;
  }

  /** Where the callback fails on the j-th new payment, the walk so far found the first j + 1 new payments. */
  lemma FaultAtPrefix(fold: char -> char, banwords: seq<string>, known: set<string>, lastCheck: int,
                      ps: seq<Payment>, i: nat, j: nat)
    requires i < |ps|
    requires |Scan(known, lastCheck, ps[..i + 1]).1| == j + 1
    ensures var found := Scan(known, lastCheck, ps[..i + 1]).1;
      var all := Scan(known, lastCheck, ps).1;
      && j < |all|
      && found == all[..j + 1]
      && MaskAll(fold, banwords, found) == MaskAll(fold, banwords, all)[..j + 1]
      && Scan(known, lastCheck, ps[..i + 1]).0 == known + Ids(found)
  {
    ScanPrefix(known, lastCheck, ps, i + 1);
    ScanAddsFreshIds(known, lastCheck, ps[..i + 1]);
    MaskAllPrefix(fold, banwords, Scan(known, lastCheck, ps).1, j + 1);
  }

  /**
   * What the walk over a fetch leaves behind. With no failure of the
   * callback: every new payment's id known, all of them masked in fetch
   * order, their events and alerts. When the callback fails on the j-th new
   * payment: the ids of the first j + 1 known, those masked, the events of
   * the first j followed by the failed call, and the alerts of the first j.
   */
  ghost predicate WalkOutcome(ps: seq<Payment>, known0: set<string>, last0: int, banwords: seq<string>,
                              fold: char -> char, fault: Option<CallbackFault>, notify: bool, token: Option<string>,
                              q0: seq<AlertInfo>, known: set<string>, ms: seq<Payment>,
                              events: seq<MonitorEvent>, faultAt: Option<nat>, queue: seq<AlertInfo>)
  {
    var allFound := Scan(known0, last0, ps).1;
    var allMasked := MaskAll(fold, banwords, allFound);
    && faultAt == FaultIndex(fault, notify, |allFound|)
    && (faultAt.None? ==>
          && known == Scan(known0, last0, ps).0 && ms == allMasked
          && events == EventsFor(ms, notify, token)
          && queue == q0 + QueuedFor(token, ms))
    && (faultAt.Some? ==>
          var j := faultAt.value;
          && j < |allFound|
          && known == known0 + Ids(allFound[..j + 1])
          && ms == allMasked[..j + 1]
          && events == EventsFor(allMasked[..j], notify, token) + [PaymentDetected(allMasked[j])]
          && queue == q0 + QueuedFor(token, allMasked[..j]))
  }

  /**
   * Where the callback fails on the j-th new payment, what the walk holds is
   * the first j + 1 new payments of the whole fetch, and its events those of
   * the first j followed by the failed call.
   */
  lemma FaultOutcome(fold: char -> char, banwords: seq<string>, known0: set<string>, last0: int, ps: seq<Payment>,
                     i: nat, notify: bool, token: Option<string>, fault: Option<CallbackFault>,
                     known: set<string>, found: seq<Payment>, ms: seq<Payment>, events: seq<MonitorEvent>,
                     before: seq<Payment>, q0: seq<AlertInfo>, queue: seq<AlertInfo>)
    requires i < |ps|
    requires Scan(known0, last0, ps[..i + 1]) == (known, found)
    requires ms == MaskAll(fold, banwords, found) && |ms| == |before| + 1 && ms[..|before|] == before
    requires events == EventsFor(before, notify, token) + [PaymentDetected(ms[|before|])]
    requires queue == q0 + QueuedFor(token, before)
    requires FaultIndex(fault, notify, |found|) == Some(|before|)
    ensures WalkOutcome(ps, known0, last0, banwords, fold, fault, notify, token, q0, known, ms, events, Some(|before|), queue)
  {
    var j := |before|;
    var allMasked := MaskAll(fold, banwords, Scan(known0, last0, ps).1);
    FaultAtPrefix(fold, banwords, known0, last0, ps, i, j);
    LastOfPrefix(allMasked, before, ms[j]);
    assert before + [ms[j]] == ms;
  }

  /** A walk that reaches the end of the fetch without a failure has handled every new payment. */
  lemma WalkCompleted(fold: char -> char, banwords: seq<string>, known0: set<string>, last0: int, ps: seq<Payment>,
                      notify: bool, token: Option<string>, fault: Option<CallbackFault>,
                      known: set<string>, found: seq<Payment>, ms: seq<Payment>, events: seq<MonitorEvent>,
                      q0: seq<AlertInfo>, queue: seq<AlertInfo>)
    requires Scan(known0, last0, ps[..|ps|]) == (known, found)
    requires ms == MaskAll(fold, banwords, found)
    requires events == EventsFor(ms, notify, token)
    requires queue == q0 + QueuedFor(token, ms)
    requires FaultIndex(fault, notify, |found|) == None
    ensures WalkOutcome(ps, known0, last0, banwords, fold, fault, notify, token, q0, known, ms, events, None, queue)
  {
    assert ps[..|ps|] == ps;
  }

  /** A prefix that ends in m after `before` splits the sequence there. */
  lemma LastOfPrefix<T>(s: seq<T>, before: seq<T>, m: T)
    requires |before| < |s| && before + [m] == s[..|before| + 1]
    ensures s[..|before|] == before && s[|before|] == m
  {
    assert s[..|before|] == s[..|before| + 1][..|before|];
  }

  lemma MaskAllPrefix(fold: char -> char, banwords: seq<string>, ps: seq<Payment>, n: nat)
    requires n <= |ps|
    ensures MaskAll(fold, banwords, ps[..n]) == MaskAll(fold, banwords, ps)[..n]
    decreases |ps|
  {
    if n == |ps| {
      assert ps[..n] == ps;
    } else {
      var init := ps[..|ps| - 1];
      MaskAllPrefix(fold, banwords, init, n);
      assert init[..n] == ps[..n];
    }
  }

  /** The alerts queued for the given masked payments: one each when the token is set, none otherwise. */
  function QueuedFor(token: Option<string>, ms: seq<Payment>): seq<AlertInfo> {
    if TokenSet(token) then AlertsFor(ms) else []
  }

  /** The batch callback: once, with all the new payments, when there are any and it is set. */
  function BatchEvents(ms: seq<Payment>, notifyBatch: bool): seq<MonitorEvent> {
    if ms != [] && notifyBatch then [PaymentsUpdated(ms)] else []
  }

  function ErrorEvents(notifyError: bool, message: string): seq<MonitorEvent> {
    if notifyError then [ErrorReported(message)] else []
  }

  /** The payments handed to the per-payment callback, in order. */
  function Detected(events: seq<MonitorEvent>): seq<Payment>
    decreases |events|
  {
    if events == [] then []
    else
      var e := events[|events| - 1];
      Detected(events[..|events| - 1]) + (if e.PaymentDetected? then [e.payment] else [])
  }

  /** The alerts queued, in order. */
  function Queued(events: seq<MonitorEvent>): seq<AlertInfo>
    decreases |events|
  {
    if events == [] then []
    else
      var e := events[|events| - 1];
      Queued(events[..|events| - 1]) + (if e.AlertQueued? then [e.alert] else [])
  }

  /** The number of batch callbacks. */
  function Batches(events: seq<MonitorEvent>): nat
    decreases |events|
  {
    if events == [] then 0
    else Batches(events[..|events| - 1]) + (if events[|events| - 1].PaymentsUpdated? then 1 else 0)
  }

  lemma ProjectionsAppend(a: seq<MonitorEvent>, b: seq<MonitorEvent>)
    ensures Detected(a + b) == Detected(a) + Detected(b)
    ensures Queued(a + b) == Queued(a) + Queued(b)
    ensures Batches(a + b) == Batches(a) + Batches(b)
  {
    DetectedAppend(a, b);
    QueuedAppend(a, b);
    BatchesAppend(a, b);
  }

  lemma {:induction false} DetectedAppend(a: seq<MonitorEvent>, b: seq<MonitorEvent>)
    ensures Detected(a + b) == Detected(a) + Detected(b)
    decreases |b|
  {
    if b == [] {
      assert a + b == a;
    } else {
      DetectedAppend(a, b[..|b| - 1]);
      assert (a + b)[..|a + b| - 1] == a + b[..|b| - 1];
    }
  }

  lemma {:induction false} QueuedAppend(a: seq<MonitorEvent>, b: seq<MonitorEvent>)
    ensures Queued(a + b) == Queued(a) + Queued(b)
    decreases |b|
  {
    if b == [] {
      assert a + b == a;
    } else {
      QueuedAppend(a, b[..|b| - 1]);
      assert (a + b)[..|a + b| - 1] == a + b[..|b| - 1];
    }
  }

  lemma {:induction false} BatchesAppend(a: seq<MonitorEvent>, b: seq<MonitorEvent>)
    ensures Batches(a + b) == Batches(a) + Batches(b)
    decreases |b|
  {
    if b == [] {
      assert a + b == a;
    } else {
      BatchesAppend(a, b[..|b| - 1]);
      assert (a + b)[..|a + b| - 1] == a + b[..|b| - 1];
    }
  }

  /** The events of one payment project to that payment, its alert, and no batch. */
  lemma PaymentEventsProjections(p: Payment, notify: bool, token: Option<string>)
    ensures Detected(PaymentEvents(p, notify, token)) == (if notify then [p] else [])
    ensures Queued(PaymentEvents(p, notify, token)) == (if TokenSet(token) then [AlertFor(p)] else [])
    ensures Batches(PaymentEvents(p, notify, token)) == 0
  {
    var d := if notify then [PaymentDetected(p)] else [];
    var q := if TokenSet(token) then [AlertQueued(AlertFor(p))] else [];
    ProjectionsAppend(d, q);
    assert d == [] || d[..0] == [];
    assert q == [] || q[..0] == [];
  }

  /**
   * Per-payment events: the callback sees every new payment in order, an
   * alert is queued for each exactly when the token is set, and no batch.
   */
  lemma {:induction false} EventsForProjections(ms: seq<Payment>, notify: bool, token: Option<string>)
    ensures Detected(EventsFor(ms, notify, token)) == (if notify then ms else [])
    ensures Queued(EventsFor(ms, notify, token)) == (if TokenSet(token) then AlertsFor(ms) else [])
    ensures Batches(EventsFor(ms, notify, token)) == 0
    decreases |ms|
  {
    if ms != [] {
      var init := ms[..|ms| - 1];
      var p := ms[|ms| - 1];
      var before := EventsFor(init, notify, token);
      var last := PaymentEvents(p, notify, token);
      assert EventsFor(ms, notify, token) == before + last;
      EventsForProjections(init, notify, token);
      PaymentEventsProjections(p, notify, token);
      ProjectionsAppend(before, last);
      InitPlusLast(ms);
    }
  }

  lemma InitPlusLast<T>(s: seq<T>)
    requires s != []
    ensures s[..|s| - 1] + [s[|s| - 1]] == s
  {
  }

  /** A complete cycle makes at most one batch call, carrying exactly the masked new payments. */
  lemma CycleEventsProjections(ms: seq<Payment>, notify: bool, notifyBatch: bool, token: Option<string>)
    ensures var events := EventsFor(ms, notify, token) + BatchEvents(ms, notifyBatch);
      && Detected(events) == (if notify then ms else [])
      && Queued(events) == (if TokenSet(token) then AlertsFor(ms) else [])
      && Batches(events) == (if ms != [] && notifyBatch then 1 else 0)
  {
    EventsForProjections(ms, notify, token);
    ProjectionsAppend(EventsFor(ms, notify, token), BatchEvents(ms, notifyBatch));
    var b := BatchEvents(ms, notifyBatch);
    assert b == [] || b[..0] == [];
  }

  /** Whether the batch callback is called in a cycle with masked new payments ms and raises. */
  predicate BatchFails(batchFault: Option<string>, ms: seq<Payment>, notifyBatch: bool) {
    batchFault.Some? && BatchEvents(ms, notifyBatch) != []
  }

  /** The call number at which the per-payment callback raises in a cycle with n new payments, if it does. */
  function FaultIndex(fault: Option<CallbackFault>, notify: bool, n: nat): Option<nat> {
    if notify && fault.Some? && fault.value.at < n then Some(fault.value.at) else None
  }

  // ---------------------------------------------------------------------------
  // The monitor object
  // ---------------------------------------------------------------------------

  /** The fields of a PaymentMonitor, as a value. */
  datatype MonitorState = MonitorState(
    minAmount: int, checkInterval: int, running: bool, pollTaskActive: bool, knownPaymentIds: set<string>,
    donationAlertsToken: Option<string>, notifyPayment: bool, notifyError: bool, notifyBatch: bool,
    lastCheckTime: int)

  class PaymentMonitor {
    const alerts: DonationAlerts.DonationAlertsApi

    var minAmount: int
    var checkInterval: int
    var running: bool
    /** Whether the polling task exists and has not finished. */
    var pollTaskActive: bool
    var knownPaymentIds: set<string>
    var donationAlertsToken: Option<string>
    var notifyPayment: bool
    var notifyError: bool
    var notifyBatch: bool
    /** Unix seconds of the last successful check; 0 before the first. */
    var lastCheckTime: int

    constructor (alerts: DonationAlerts.DonationAlertsApi, minAmount: int := 1, checkInterval: int := 60)
      ensures this.alerts == alerts && this.minAmount == minAmount && this.checkInterval == checkInterval
      ensures !running && !pollTaskActive && knownPaymentIds == {} && donationAlertsToken == None
      ensures !notifyPayment && !notifyError && !notifyBatch && lastCheckTime == 0
    {
      this.alerts := alerts;
      this.minAmount := minAmount;
      this.checkInterval := checkInterval;
      running := false;
      pollTaskActive := false;
      knownPaymentIds := {};
      donationAlertsToken := None;
      notifyPayment := false;
      notifyError := false;
      notifyBatch := false;
      lastCheckTime := 0;
    }

    /** Every field of the monitor, as one value, so that a method can state its whole new state. */
    function State(): MonitorState
      reads this
    {
      MonitorState(minAmount, checkInterval, running, pollTaskActive, knownPaymentIds, donationAlertsToken,
                   notifyPayment, notifyError, notifyBatch, lastCheckTime)
    }

    /** Installs or removes the batch callback; every other field keeps its value. */
    method SetOnPaymentsUpdatedCallback(installed: bool)
      modifies this
      ensures notifyBatch == installed
      ensures State() == old(State()).(notifyBatch := installed)
    {
      notifyBatch := installed;
    }

    /** Sets the token that alerts are sent with; every other field keeps its value. */
    method SetDonationAlertsToken(token: string)
      modifies this
      ensures donationAlertsToken == Some(token)
      ensures State() == old(State()).(donationAlertsToken := Some(token))
    {
      donationAlertsToken := Some(token);
    }

    /** Sets the minimum amount passed to the history fetch; every other field keeps its value. */
    method SetMinAmount(amount: int)
      modifies this
      ensures minAmount == amount
      ensures State() == old(State()).(minAmount := amount)
    {
      minAmount := amount;
    }

    /** Sets the seconds waited between cycles; every other field keeps its value. */
    method SetCheckInterval(interval: int)
      modifies this
      ensures checkInterval == interval
      ensures State() == old(State()).(checkInterval := interval)
    {
      checkInterval := interval;
    }

    /** Installs or removes the per-payment callback; every other field keeps its value. */
    method SetOnPaymentCallback(installed: bool)
      modifies this
      ensures notifyPayment == installed
      ensures State() == old(State()).(notifyPayment := installed)
    {
      notifyPayment := installed;
    }

    /** Installs or removes the error callback; every other field keeps its value. */
    method SetOnErrorCallback(installed: bool)
      modifies this
      ensures notifyError == installed
      ensures State() == old(State()).(notifyError := installed)
    {
      notifyError := installed;
    }

    /**
     * start: a running monitor is left alone. Otherwise the consumer is
     * started when the token is set, the known ids are replaced by those of
     * the seed fetch and the clock is read; a failed seed fetch clears
     * `running` again but leaves a consumer started above running.
     */
    method Start(seed: Result<seq<Payment>, string>, now: int) returns (outcome: StartOutcome, events: seq<MonitorEvent>)
      modifies this, alerts
      ensures old(running) ==>
        && outcome == AlreadyRunning && events == [] && running
        && knownPaymentIds == old(knownPaymentIds) && lastCheckTime == old(lastCheckTime)
        && pollTaskActive == old(pollTaskActive) && alerts.processor == old(alerts.processor)
      ensures !old(running) ==>
        && alerts.processor == (if TokenSet(donationAlertsToken) && old(alerts.processor).None?
                                then Some(donationAlertsToken.value) else old(alerts.processor))
        && var warn := if TokenSet(donationAlertsToken) then [] else ErrorEvents(notifyError, TokenMissingMessage);
        && (seed.Success? ==>
              && outcome == Started && events == warn && running && pollTaskActive
              && knownPaymentIds == Ids(seed.value) && lastCheckTime == now)
        && (seed.Failure? ==>
              && outcome == InitializeFailed(InitializeFailedPrefix + seed.error)
              && events == warn + ErrorEvents(notifyError, InitializeFailedPrefix + seed.error)
              && !running && pollTaskActive == old(pollTaskActive)
              && knownPaymentIds == old(knownPaymentIds) && lastCheckTime == old(lastCheckTime))
      ensures alerts.queue == old(alerts.queue)
      ensures donationAlertsToken == old(donationAlertsToken) && notifyError == old(notifyError)
      ensures notifyPayment == old(notifyPayment) && notifyBatch == old(notifyBatch)
      ensures checkInterval == old(checkInterval) && minAmount == old(minAmount)
    {
      events := [];
      if running {
        return AlreadyRunning, events;
      }
      running := true;
      if TokenSet(donationAlertsToken) {
        alerts.StartAlertProcessor(donationAlertsToken.value);
      } else {
        events := ErrorEvents(notifyError, TokenMissingMessage);
      }
      match seed {
        case Success(payments) =>
          knownPaymentIds := Ids(payments);
          lastCheckTime := now;
          pollTaskActive := true;
          outcome := Started;
        case Failure(reason) =>
          var message := InitializeFailedPrefix + reason;
          events := events + ErrorEvents(notifyError, message);
          running := false;
          outcome := InitializeFailed(message);
      }
    }

    /** stop: nothing on a stopped monitor; otherwise clears `running`, ends the task and stops the consumer. */
    method Stop() returns (r: Option<bool>)
      modifies this, alerts
      ensures !old(running) ==> r == None && pollTaskActive == old(pollTaskActive) && alerts.processor == old(alerts.processor)
      ensures old(running) ==> r == Some(true) && !pollTaskActive && alerts.processor == None
      ensures !running
      ensures alerts.queue == old(alerts.queue)
      ensures knownPaymentIds == old(knownPaymentIds) && lastCheckTime == old(lastCheckTime)
      ensures donationAlertsToken == old(donationAlertsToken) && checkInterval == old(checkInterval)
      ensures State() == old(State()).(running := false, pollTaskActive := old(pollTaskActive) && !old(running))
    {
      if !running {
        return None;
      }
      running := false;
      pollTaskActive := false;
      alerts.StopAlertProcessor();
      return Some(true);
    }

    /**
     * The wait between cycles: one-second steps while time remains and the
     * monitor runs. `running` does not change during a step of this model,
     * so the wait is the whole interval, or nothing when it is not positive.
     */
    method SleepCountdown() returns (steps: nat)
      ensures steps == if running && checkInterval > 0 then checkInterval else 0
    {
      var remaining := checkInterval;
      steps := 0;
      while remaining > 0 && running
        invariant remaining <= checkInterval
        invariant steps == checkInterval - remaining
        invariant !running ==> steps == 0
        invariant checkInterval <= 0 ==> steps == 0
        invariant running && checkInterval > 0 ==> remaining >= 0
        decreases remaining
      {
        var step := if remaining < 1 then remaining else 1;
        remaining := remaining - step;
        steps := steps + 1;
      }
    }

    /**
     * One new payment: username and comment masked, the per-payment callback
     * called when set, then the alert queued when the token is set. When the
     * callback raises, nothing after it happens.
     */
    method HandleNewPayment(p: Payment, banwords: seq<string>, fold: char -> char, raises: bool)
      returns (m: Payment, emitted: seq<MonitorEvent>)
      modifies alerts
      ensures m == MaskPayment(fold, banwords, p)
      ensures alerts.processor == old(alerts.processor)
      ensures raises && notifyPayment ==> emitted == [PaymentDetected(m)] && alerts.queue == old(alerts.queue)
      ensures !(raises && notifyPayment) ==>
        && emitted == PaymentEvents(m, notifyPayment, donationAlertsToken)
        && alerts.queue == old(alerts.queue) + (if TokenSet(donationAlertsToken) then [AlertFor(m)] else [])
    {
      var comment := MaskInline(fold, p.comment, banwords);
      var username := MaskInline(fold, p.username, banwords);
      m := p.(comment := comment, username := username);
      emitted := [];
      if notifyPayment {
        emitted := [PaymentDetected(m)];
        if raises {
          return;
        }
      }
      if TokenSet(donationAlertsToken) {
        alerts.QueueAlert(m.amount, m.username, m.comment);
        emitted := emitted + [AlertQueued(AlertFor(m))];
      }
    }

    /** One new payment handled inside the walk, with what the walk has found, masked and emitted so far. */
    method TakePayment(p: Payment, banwords: seq<string>, fold: char -> char, raises: bool, q0: seq<AlertInfo>,
                       ghost found: seq<Payment>, ms: seq<Payment>, events: seq<MonitorEvent>)
      returns (ghost found': seq<Payment>, ms': seq<Payment>, events': seq<MonitorEvent>)
      modifies alerts
      requires ms == MaskAll(fold, banwords, found)
      requires events == EventsFor(ms, notifyPayment, donationAlertsToken)
      requires alerts.queue == q0 + QueuedFor(donationAlertsToken, ms)
      ensures found' == found + [p] && ms' == MaskAll(fold, banwords, found')
      ensures ms' == ms + [MaskPayment(fold, banwords, p)]
      ensures alerts.processor == old(alerts.processor)
      ensures raises && notifyPayment ==>
        events' == events + [PaymentDetected(ms'[|ms|])] && alerts.queue == old(alerts.queue)
      ensures !(raises && notifyPayment) ==>
        && events' == EventsFor(ms', notifyPayment, donationAlertsToken)
        && alerts.queue == q0 + QueuedFor(donationAlertsToken, ms')
    {
      var m, emitted := HandleNewPayment(p, banwords, fold, raises);
      MaskAllAppend(fold, banwords, found, p);
      EventsForAppend(ms, m, notifyPayment, donationAlertsToken);
      QueuedForAppend(donationAlertsToken, ms, m);
      found' := found + [p];
      ms' := ms + [m];
      events' := events + emitted;
      if !(raises && notifyPayment) {
        var extra := if TokenSet(donationAlertsToken) then [AlertFor(m)] else [];
        AppendAssoc(q0, QueuedFor(donationAlertsToken, ms), extra);
      }
    }

    /**
     * One fetched payment in the walk: skipped when not new, otherwise taken
     * and handled; `stop` when the callback failed on it.
     */
    method VisitPayment(ps: seq<Payment>, i: nat, known0: set<string>, last0: int, banwords: seq<string>,
                        fold: char -> char, fault: Option<CallbackFault>, q0: seq<AlertInfo>,
                        known: set<string>, ghost found: seq<Payment>, ms: seq<Payment>, events: seq<MonitorEvent>)
      returns (known': set<string>, ghost found': seq<Payment>, ms': seq<Payment>, events': seq<MonitorEvent>, stop: bool)
      modifies alerts
      requires i < |ps|
      requires Scan(known0, last0, ps[..i]) == (known, found) && known0 <= known
      requires ms == MaskAll(fold, banwords, found)
      requires events == EventsFor(ms, notifyPayment, donationAlertsToken)
      requires alerts.queue == q0 + QueuedFor(donationAlertsToken, ms)
      requires FaultIndex(fault, notifyPayment, |found|) == None
      ensures alerts.processor == old(alerts.processor)
      ensures known0 <= known'
      ensures !stop ==>
        && Scan(known0, last0, ps[..i + 1]) == (known', found')
        && ms' == MaskAll(fold, banwords, found')
        && events' == EventsFor(ms', notifyPayment, donationAlertsToken)
        && alerts.queue == q0 + QueuedFor(donationAlertsToken, ms')
        && FaultIndex(fault, notifyPayment, |found'|) == None
      ensures stop ==>
        && Scan(known0, last0, ps[..i + 1]) == (known', found')
        && ms' == MaskAll(fold, banwords, found')
        && |ms'| == |ms| + 1 && ms'[..|ms|] == ms
        && events' == events + [PaymentDetected(ms'[|ms|])]
        && alerts.queue == old(alerts.queue)
        && FaultIndex(fault, notifyPayment, |found'|) == Some(|ms|)
    {
      ScanStep(known0, last0, ps, i);
      ghost var next := Scan(known0, last0, ps[..i + 1]);
      var p := ps[i];
      known', found', ms', events', stop := known, found, ms, events, false;
      if IsNew(known, last0, p) {
        assert next == (known + {p.id}, found + [p]);
        var j := |ms|;
        var raises := fault.Some? && fault.value.at == j;
        found', ms', events' := TakePayment(p, banwords, fold, raises, q0, found, ms, events);
        known' := known + {p.id};
        if raises && notifyPayment {
          assert ms'[..j] == ms;
          stop := true;
        }
      } else {
        assert next == (known, found);
      }
    }

    /**
     * The loop over the fetched payments inside a cycle: each new payment's id
     * is added to the known ids and the payment handled. It stops at a
     * failure of the callback. The known ids are returned, not yet stored.
     */
    method WalkPayments(ps: seq<Payment>, known0: set<string>, last0: int, banwords: seq<string>, fold: char -> char,
                        fault: Option<CallbackFault>)
      returns (known: set<string>, ms: seq<Payment>, events: seq<MonitorEvent>, faultAt: Option<nat>)
      modifies alerts
      ensures alerts.processor == old(alerts.processor)
      ensures known0 <= known
      ensures WalkOutcome(ps, known0, last0, banwords, fold, fault, notifyPayment, donationAlertsToken,
                          old(alerts.queue), known, ms, events, faultAt, alerts.queue)
    {
      var token := donationAlertsToken;
      var notify := notifyPayment;
      var q0 := alerts.queue;
      known := known0;
      ghost var found: seq<Payment> := [];
      ms := [];
      events := [];
      var i := 0;
      while i < |ps|
        invariant 0 <= i <= |ps|
        invariant Scan(known0, last0, ps[..i]) == (known, found)
        invariant known0 <= known
        invariant ms == MaskAll(fold, banwords, found)
        invariant events == EventsFor(ms, notify, token)
        invariant alerts.queue == q0 + QueuedFor(token, ms)
        invariant alerts.processor == old(alerts.processor)
        invariant FaultIndex(fault, notify, |found|) == None
      {
        var stop;
        var before := ms;
        known, found, ms, events, stop := VisitPayment(ps, i, known0, last0, banwords, fold, fault, q0, known, found, ms, events);
        if stop {
          FaultOutcome(fold, banwords, known0, last0, ps, i, notify, token, fault, known, found, ms, events, before,
                       q0, alerts.queue);
          return known, ms, events, Some(|before|);
        }
        i := i + 1;
      }
      WalkCompleted(fold, banwords, known0, last0, ps, notify, token, fault, known, found, ms, events, q0, alerts.queue);
      return known, ms, events, None;
    }

    /**
     * One turn of the monitoring loop. It is given the fetch result, the time
     * read at the start of the cycle, the banned-word list, the case fold, an
     * optional failure of the per-payment callback and an optional failure
     * (its message) of the batch callback.
     */
    method MonitorIteration(fetch: FetchResult, now: int, banwords: seq<string>, fold: char -> char,
                            fault: Option<CallbackFault>, batchFault: Option<string>)
      returns (events: seq<MonitorEvent>, step: LoopStep)
      modifies this, alerts
      ensures running == old(running) && alerts.processor == old(alerts.processor)
      ensures donationAlertsToken == old(donationAlertsToken) && checkInterval == old(checkInterval)
      ensures notifyPayment == old(notifyPayment) && notifyBatch == old(notifyBatch) && notifyError == old(notifyError)
      ensures minAmount == old(minAmount)
      ensures old(knownPaymentIds) <= knownPaymentIds
      ensures !old(running) ==>
        && step == Exited && events == [] && !pollTaskActive
        && knownPaymentIds == old(knownPaymentIds) && lastCheckTime == old(lastCheckTime)
        && alerts.queue == old(alerts.queue)
      ensures old(running) ==> pollTaskActive == old(pollTaskActive)
      ensures old(running) && fetch.FetchFailed? ==>
        && step == Continued(ErrorPause)
        && events == ErrorEvents(notifyError, CycleFailedPrefix + fetch.reason)
        && knownPaymentIds == old(knownPaymentIds) && lastCheckTime == old(lastCheckTime)
        && alerts.queue == old(alerts.queue)
      ensures old(running) && fetch.Fetched? ==>
        var found := Scan(old(knownPaymentIds), old(lastCheckTime), fetch.payments).1;
        var ms := MaskAll(fold, banwords, found);
        var faultAt := FaultIndex(fault, notifyPayment, |found|);
        && (faultAt.None? ==>
          && knownPaymentIds == Scan(old(knownPaymentIds), old(lastCheckTime), fetch.payments).0
          && alerts.queue == old(alerts.queue) + QueuedFor(donationAlertsToken, ms)
          && (!BatchFails(batchFault, ms, notifyBatch) ==>
            && step == Continued(if checkInterval > 0 then checkInterval else 0)
            && events == EventsFor(ms, notifyPayment, donationAlertsToken) + BatchEvents(ms, notifyBatch)
            && lastCheckTime == now)
          && (BatchFails(batchFault, ms, notifyBatch) ==>
            && step == Continued(ErrorPause)
            && events == EventsFor(ms, notifyPayment, donationAlertsToken) + BatchEvents(ms, notifyBatch)
                          + ErrorEvents(notifyError, CycleFailedPrefix + batchFault.value)
            && lastCheckTime == old(lastCheckTime)))
        && (faultAt.Some? ==>
          var j := faultAt.value;
          && step == Continued(ErrorPause)
          && events == EventsFor(ms[..j], notifyPayment, donationAlertsToken) + [PaymentDetected(ms[j])]
                        + ErrorEvents(notifyError, CycleFailedPrefix + fault.value.message)
          && knownPaymentIds == old(knownPaymentIds) + Ids(found[..j + 1])
          && lastCheckTime == old(lastCheckTime)
          && alerts.queue == old(alerts.queue) + QueuedFor(donationAlertsToken, ms[..j]))
    {
      events := [];
      if !running {
        pollTaskActive := false;
        return events, Exited;
      }
      if fetch.FetchFailed? {
        events := ErrorEvents(notifyError, CycleFailedPrefix + fetch.reason);
        return events, Continued(ErrorPause);
      }
      events, step := ProcessFetched(fetch.payments, now, banwords, fold, fault, batchFault);
    }

    /**
     * The part of a cycle after a successful fetch: walk the payments, then
     * the batch callback, clock and wait; or the error report and the pause
     * when a callback raised.
     */
    method ProcessFetched(payments: seq<Payment>, now: int, banwords: seq<string>, fold: char -> char,
                          fault: Option<CallbackFault>, batchFault: Option<string>)
      returns (events: seq<MonitorEvent>, step: LoopStep)
      modifies this, alerts
      ensures running == old(running) && alerts.processor == old(alerts.processor)
      ensures donationAlertsToken == old(donationAlertsToken) && checkInterval == old(checkInterval)
      ensures notifyPayment == old(notifyPayment) && notifyBatch == old(notifyBatch) && notifyError == old(notifyError)
      ensures pollTaskActive == old(pollTaskActive) && minAmount == old(minAmount)
      ensures old(knownPaymentIds) <= knownPaymentIds
      ensures var found := Scan(old(knownPaymentIds), old(lastCheckTime), payments).1;
        var ms := MaskAll(fold, banwords, found);
        var faultAt := FaultIndex(fault, notifyPayment, |found|);
        && (faultAt.None? ==>
          && knownPaymentIds == Scan(old(knownPaymentIds), old(lastCheckTime), payments).0
          && alerts.queue == old(alerts.queue) + QueuedFor(donationAlertsToken, ms)
          && (!BatchFails(batchFault, ms, notifyBatch) ==>
            && step == Continued(if running && checkInterval > 0 then checkInterval else 0)
            && events == EventsFor(ms, notifyPayment, donationAlertsToken) + BatchEvents(ms, notifyBatch)
            && lastCheckTime == now)
          && (BatchFails(batchFault, ms, notifyBatch) ==>
            && step == Continued(ErrorPause)
            && events == EventsFor(ms, notifyPayment, donationAlertsToken) + BatchEvents(ms, notifyBatch)
                          + ErrorEvents(notifyError, CycleFailedPrefix + batchFault.value)
            && lastCheckTime == old(lastCheckTime)))
        && (faultAt.Some? ==>
          var j := faultAt.value;
          && step == Continued(ErrorPause)
          && events == EventsFor(ms[..j], notifyPayment, donationAlertsToken) + [PaymentDetected(ms[j])]
                        + ErrorEvents(notifyError, CycleFailedPrefix + fault.value.message)
          && knownPaymentIds == old(knownPaymentIds) + Ids(found[..j + 1])
          && lastCheckTime == old(lastCheckTime)
          && alerts.queue == old(alerts.queue) + QueuedFor(donationAlertsToken, ms[..j]))
    {
      var k0 := knownPaymentIds;
      ghost var q0 := alerts.queue;
      ghost var scan := Scan(k0, lastCheckTime, payments);
      ghost var allMasked := MaskAll(fold, banwords, scan.1);
      var known, ms, walked, faultAt := WalkPayments(payments, k0, lastCheckTime, banwords, fold, fault);
      assert faultAt == FaultIndex(fault, notifyPayment, |scan.1|);
      if faultAt.Some? {
        ghost var j := faultAt.value;
        assert walked == EventsFor(allMasked[..j], notifyPayment, donationAlertsToken) + [PaymentDetected(allMasked[j])];
        assert alerts.queue == q0 + QueuedFor(donationAlertsToken, allMasked[..j]);
        events := walked + ErrorEvents(notifyError, CycleFailedPrefix + fault.value.message);
        step := Continued(ErrorPause);
        knownPaymentIds := known;
      } else {
        assert known == scan.0 && ms == allMasked;
        var batch := BatchEvents(ms, notifyBatch);
        knownPaymentIds := known;
        if BatchFails(batchFault, ms, notifyBatch) {
          events := walked + batch + ErrorEvents(notifyError, CycleFailedPrefix + batchFault.value);
          step := Continued(ErrorPause);
        } else {
          events := walked + batch;
          var slept := SleepCountdown();
          step := Continued(slept);
          lastCheckTime := now;
        }
      }
    }
  }
}
