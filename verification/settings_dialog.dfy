/**
 * The decision logic of the settings dialog: which fields changed since the
 * dialog was filled, which of those changes matter to the rest of the
 * application, what Save writes into the settings store, and how a banned
 * word typed into the dialog is added and stored at once.
 *
 * The widgets are not modelled: what they show is a FormValues record, the
 * one captured when the dialog was filled and the one shown now.
 */
module SettingsDialog {
  import opened Wrappers
  import opened PyStrings
  import opened Settings

  /** What the dialog's widgets show: the line edits, the two check boxes, the selected theme and the banword list. */
  datatype FormValues = FormValues(
    daClientId: string, daRedirectUri: string, daToken: string,
    lzClientId: string, lzRedirectUri: string, lzToken: string,
    minPaymentAmount: string, checkInterval: string,
    startMinimized: bool, startWithSystem: bool,
    /** currentData() of the theme selector: a theme name, or None when nothing is selected. */
    theme: Value,
    banwords: seq<string>)

  /** The names the change list is made of. */
  datatype ChangeKey =
    | DaClientId | DaRedirectUri | DaToken
    | LzClientId | LzRedirectUri | LzToken
    | MinPaymentAmount | CheckInterval
    | StartMinimized | StartWithSystem
    | Theme | Banwords

  /** The position of each field in the order the dialog checks and saves them. */
  function Rank(k: ChangeKey): (n: nat)
    ensures n < 12
  {
    match k
    case DaClientId => 0
    case DaRedirectUri => 1
    case DaToken => 2
    case LzClientId => 3
    case LzRedirectUri => 4
    case LzToken => 5
    case MinPaymentAmount => 6
    case CheckInterval => 7
    case StartMinimized => 8
    case StartWithSystem => 9
    case Theme => 10
    case Banwords => 11
  }

  /** Whether a field now differs from the value captured when the dialog was filled; the banword lists as sets. */
  predicate Differs(k: ChangeKey, cur: FormValues, orig: FormValues) {
    match k
    case DaClientId => cur.daClientId != orig.daClientId
    case DaRedirectUri => cur.daRedirectUri != orig.daRedirectUri
    case DaToken => cur.daToken != orig.daToken
    case LzClientId => cur.lzClientId != orig.lzClientId
    case LzRedirectUri => cur.lzRedirectUri != orig.lzRedirectUri
    case LzToken => cur.lzToken != orig.lzToken
    case MinPaymentAmount => cur.minPaymentAmount != orig.minPaymentAmount
    case CheckInterval => cur.checkInterval != orig.checkInterval
    case StartMinimized => cur.startMinimized != orig.startMinimized
    case StartWithSystem => cur.startWithSystem != orig.startWithSystem
    case Theme => cur.theme != orig.theme
    case Banwords => WordSet(cur.banwords) != WordSet(orig.banwords)
  }

  /** set(words). */
  function WordSet(words: seq<string>): set<string> {
    set w | w in words
  }

  /**
   * The change list reports exactly the fields that differ, once each, in
   * the dialog's order.
   */
  ghost predicate ReportsChanges(changes: seq<ChangeKey>, cur: FormValues, orig: FormValues) {
    && (forall k :: k in changes <==> Differs(k, cur, orig))
    && (forall i, j :: 0 <= i < j < |changes| ==> Rank(changes[i]) < Rank(changes[j]))
  }

  /** The list built so far reports exactly the differing fields before position n, in order. */
  ghost predicate ReportsChangesBefore(changes: seq<ChangeKey>, cur: FormValues, orig: FormValues, n: nat) {
    && (forall k :: k in changes <==> Rank(k) < n && Differs(k, cur, orig))
    && (forall i, j :: 0 <= i < j < |changes| ==> Rank(changes[i]) < Rank(changes[j]))
  }

  /** The change list after the first n fields of FieldOrder have been checked. */
  function ChangesBefore(cur: FormValues, orig: FormValues, n: nat): seq<ChangeKey>
    requires n <= |FieldOrder|
  {
    if n == 0 then []
    else
      var k := FieldOrder[n - 1];
      ChangesBefore(cur, orig, n - 1) + if Differs(k, cur, orig) then [k] else []
  }

  /** Checking the fields in order reports the differing ones among them, in order. */
  lemma {:induction false} ChangesBeforeReports(cur: FormValues, orig: FormValues, n: nat)
    requires n <= |FieldOrder|
    ensures ReportsChangesBefore(ChangesBefore(cur, orig, n), cur, orig, n)
  {
    if n == 0 {
      forall k ensures k !in ChangesBefore(cur, orig, 0) {}
    } else {
      ChangesBeforeReports(cur, orig, n - 1);
      FieldOrderRank(n - 1);
      CheckField(ChangesBefore(cur, orig, n - 1), ChangesBefore(cur, orig, n), cur, orig, FieldOrder[n - 1], n - 1);
    }
  }

  lemma FieldOrderRank(i: nat)
    requires i < |FieldOrder|
    ensures Rank(FieldOrder[i]) == i
  {
  }

  /** One field checked: appended exactly when it differs. */
  lemma CheckField(before: seq<ChangeKey>, after: seq<ChangeKey>, cur: FormValues, orig: FormValues, k: ChangeKey, n: nat)
    requires n == Rank(k)
    requires ReportsChangesBefore(before, cur, orig, n)
    requires after == if Differs(k, cur, orig) then before + [k] else before
    ensures ReportsChangesBefore(after, cur, orig, n + 1)
  {
    if Differs(k, cur, orig) {
      forall i | 0 <= i < |before| ensures Rank(before[i]) < Rank(k) {
        assert before[i] in before;
      }
      forall k' ensures k' in after <==> Rank(k') < Rank(k) + 1 && Differs(k', cur, orig) {
        assert k' in after <==> k' in before || k' == k;
        if Rank(k') == Rank(k) {
          RankInjective(k', k);
        }
      }
    } else {
      forall k' ensures k' in after <==> Rank(k') < Rank(k) + 1 && Differs(k', cur, orig) {
        if Rank(k') == Rank(k) {
          RankInjective(k', k);
        }
      }
    }
  }

  lemma RankInjective(a: ChangeKey, b: ChangeKey)
    requires Rank(a) == Rank(b)
    ensures a == b
  {
  }

  /** Which changes call for the API clients and the main window to be rebuilt. */
  predicate IsSignificant(k: ChangeKey) {
    k in {DaClientId, DaRedirectUri, DaToken, LzClientId, LzRedirectUri, LzToken, MinPaymentAmount, CheckInterval}
  }

  /** _has_significant_changes: any(change in significant_changes for change in changes). */
  function HasSignificantChanges(changes: seq<ChangeKey>): (r: bool)
    ensures r <==> exists k :: k in changes && IsSignificant(k)
    decreases |changes|
  {
    if changes == [] then false
    else
      assert forall k :: k in changes <==> k == changes[0] || k in changes[1..];
      IsSignificant(changes[0]) || HasSignificantChanges(changes[1..])
  }

  /**
   * The changes of a save are significant exactly when a credential or one
   * of the two numbers differs; the theme, the start flags and the banwords
   * never are.
   */
  lemma SignificantIff(changes: seq<ChangeKey>, cur: FormValues, orig: FormValues)
    requires ReportsChanges(changes, cur, orig)
    ensures HasSignificantChanges(changes) <==>
      || cur.daClientId != orig.daClientId || cur.daRedirectUri != orig.daRedirectUri || cur.daToken != orig.daToken
      || cur.lzClientId != orig.lzClientId || cur.lzRedirectUri != orig.lzRedirectUri || cur.lzToken != orig.lzToken
      || cur.minPaymentAmount != orig.minPaymentAmount || cur.checkInterval != orig.checkInterval
  {
    if cur.daClientId != orig.daClientId { assert DaClientId in changes; }
    if cur.daRedirectUri != orig.daRedirectUri { assert DaRedirectUri in changes; }
    if cur.daToken != orig.daToken { assert DaToken in changes; }
    if cur.lzClientId != orig.lzClientId { assert LzClientId in changes; }
    if cur.lzRedirectUri != orig.lzRedirectUri { assert LzRedirectUri in changes; }
    if cur.lzToken != orig.lzToken { assert LzToken in changes; }
    if cur.minPaymentAmount != orig.minPaymentAmount { assert MinPaymentAmount in changes; }
    if cur.checkInterval != orig.checkInterval { assert CheckInterval in changes; }
  }

  lemma HeadIsMember<T>(s: seq<T>)
    ensures s != [] ==> s[0] in s
  {
  }

  /** Reordering the banword list and touching nothing else is no change at all: nothing is written. */
  lemma ReorderedBanwordsNoChange(changes: seq<ChangeKey>, orig: FormValues, words: seq<string>)
    requires multiset(words) == multiset(orig.banwords)
    requires ReportsChanges(changes, orig.(banwords := words), orig)
    ensures changes == [] && !HasSignificantChanges(changes)
    ensures SaveWrites(changes, orig.(banwords := words)) == []
  {
    var cur := orig.(banwords := words);
    assert WordSet(words) == WordSet(orig.banwords) by {
      forall w ensures w in words <==> w in orig.banwords {
        assert w in words <==> w in multiset(words);
        assert w in orig.banwords <==> w in multiset(orig.banwords);
      }
    }
    forall k ensures k !in changes {
      assert !Differs(k, cur, orig);
    }
    HeadIsMember(changes);
    WritesInNone(FieldOrder, cur);
  }

  // ---------------------------------------------------------------------------
  // What Save writes
  // ---------------------------------------------------------------------------

  /** int(text), at least 1; 1 when the text is not an integer. */
  function SavedMinAmount(text: string): (v: int)
    ensures v >= 1
    ensures ParseInt(text).None? ==> v == 1
    ensures ParseInt(text).Some? ==> v >= ParseInt(text).value && (v == ParseInt(text).value || v == 1)
  {
    match ParseInt(text)
    case None => 1
    case Some(n) => if n < 1 then 1 else n
  }

  /** int(text), at least 1; 30 when the text is not an integer. */
  function SavedCheckInterval(text: string): (v: int)
    ensures v >= 1
    ensures ParseInt(text).None? ==> v == 30
    ensures ParseInt(text).Some? ==> v >= ParseInt(text).value && (v == ParseInt(text).value || v == 1)
  {
    match ParseInt(text)
    case None => 30
    case Some(n) => if n < 1 then 1 else n
  }

  /** A number the dialog showed as str(n) is saved back unchanged when it is at least 1, and as 1 otherwise. */
  lemma SavedNumbersRoundTrip(n: int)
    ensures SavedMinAmount(IntToDecimal(n)) == if n < 1 then 1 else n
    ensures SavedCheckInterval(IntToDecimal(n)) == if n < 1 then 1 else n
  {
    ParseIntOfIntToDecimal(n);
  }

  /** An emptied or blank field saves the fall-backs. */
  lemma BlankNumbers(text: string)
    requires AllSpace(text)
    ensures SavedMinAmount(text) == 1 && SavedCheckInterval(text) == 30
  {
    var t := IntStrip(text);
    StripWhileSlice(text, IntSpace);
    assert t == [] || IsSpace(t[0]) by {
      if t != [] {
        var i, j :| TrimmedAt(text, t, i, j, IntSpace);
        assert t[0] == text[i];
      }
    }
  }

  /** One settings.set call of a save. */
  datatype Write = Write(section: string, key: string, value: Value)

  /** The section and key each field is saved under. */
  function Target(k: ChangeKey): (string, string) {
    match k
    case DaClientId => (DonationAlertsSection, "client_id")
    case DaRedirectUri => (DonationAlertsSection, "redirect_uri")
    case DaToken => (DonationAlertsSection, TokenKey)
    case LzClientId => (LolzteamSection, "client_id")
    case LzRedirectUri => (LolzteamSection, "redirect_uri")
    case LzToken => (LolzteamSection, TokenKey)
    case MinPaymentAmount => (AppSection, "min_payment_amount")
    case CheckInterval => (AppSection, "check_interval_seconds")
    case StartMinimized => (AppSection, "start_minimized")
    case StartWithSystem => (AppSection, "start_with_system")
    case Theme => (AppSection, "theme")
    case Banwords => (AppSection, BanwordsKey)
  }

  /** The value a field is saved as: texts as they stand, the two numbers parsed and clamped. */
  function SavedValue(k: ChangeKey, cur: FormValues): Value {
    match k
    case DaClientId => Str(cur.daClientId)
    case DaRedirectUri => Str(cur.daRedirectUri)
    case DaToken => Str(cur.daToken)
    case LzClientId => Str(cur.lzClientId)
    case LzRedirectUri => Str(cur.lzRedirectUri)
    case LzToken => Str(cur.lzToken)
    case MinPaymentAmount => Int(SavedMinAmount(cur.minPaymentAmount))
    case CheckInterval => Int(SavedCheckInterval(cur.checkInterval))
    case StartMinimized => Bool(cur.startMinimized)
    case StartWithSystem => Bool(cur.startWithSystem)
    case Theme => cur.theme
    case Banwords => Words(cur.banwords)
  }

  function WriteOf(k: ChangeKey, cur: FormValues): Write {
    Write(Target(k).0, Target(k).1, SavedValue(k, cur))
  }

  /** The fields in the order the dialog checks and saves them. */
  const FieldOrder: seq<ChangeKey> :=
    [DaClientId, DaRedirectUri, DaToken, LzClientId, LzRedirectUri, LzToken,
     MinPaymentAmount, CheckInterval, StartMinimized, StartWithSystem, Theme, Banwords]

  /** The writes of the fields of `order` that are in the change list, in that order. */
  function WritesIn(order: seq<ChangeKey>, changes: seq<ChangeKey>, cur: FormValues): seq<Write>
    decreases |order|
  {
    if order == [] then []
    else (if order[0] in changes then [WriteOf(order[0], cur)] else []) + WritesIn(order[1..], changes, cur)
  }

  /** An empty change list writes nothing. */
  lemma {:induction false} WritesInNone(order: seq<ChangeKey>, cur: FormValues)
    ensures WritesIn(order, [], cur) == []
    decreases |order|
  {
    if order != [] {
      WritesInNone(order[1..], cur);
    }
  }

  /** The settings.set calls of _save_settings: a field is written when its name is in the change list. */
  function SaveWrites(changes: seq<ChangeKey>, cur: FormValues): seq<Write> {
    WritesIn(FieldOrder, changes, cur)
  }

  /** The table after the writes, one settings.set at a time. */
  function ApplyWrites(t: Table, ws: seq<Write>): Table
    decreases |ws|
  {
    if ws == [] then t
    else
      var w := ws[|ws| - 1];
      TableSet(ApplyWrites(t, ws[..|ws| - 1]), w.section, w.key, w.value)
  }

  /** The table after each write of ws, in order: what each settings.set saved. */
  function Snapshots(t: Table, ws: seq<Write>): (r: seq<Table>)
    ensures |r| == |ws|
    decreases |ws|
  {
    if ws == [] then [] else Snapshots(t, ws[..|ws| - 1]) + [ApplyWrites(t, ws)]
  }

  /** The i-th snapshot is the table once the first i + 1 writes are done. */
  lemma {:induction false} SnapshotAt(t: Table, ws: seq<Write>, i: nat)
    requires i < |ws|
    ensures Snapshots(t, ws)[i] == ApplyWrites(t, ws[..i + 1])
    decreases |ws|
  {
    if i < |ws| - 1 {
      var init := ws[..|ws| - 1];
      SnapshotAt(t, init, i);
      assert init[..i + 1] == ws[..i + 1];
    } else {
      assert ws[..i + 1] == ws;
    }
  }

  /** One more write: the table and the snapshots each grow by that write. */
  lemma WriteStep(t: Table, ws: seq<Write>, i: nat)
    requires i < |ws|
    ensures ApplyWrites(t, ws[..i + 1]) == TableSet(ApplyWrites(t, ws[..i]), ws[i].section, ws[i].key, ws[i].value)
    ensures Snapshots(t, ws[..i + 1]) == Snapshots(t, ws[..i]) + [ApplyWrites(t, ws[..i + 1])]
  {
    assert ws[..i + 1][..i] == ws[..i];
  }

  /**
   * The store went from v0 to v through the writes, one set at a time, and
   * saves holds the table each set wrote out.
   */
  ghost predicate SavedAlong(v0: Table, writes: seq<Write>, v: Table, saves: seq<Table>) {
    v == ApplyWrites(v0, writes) && saves == Snapshots(v0, writes)
  }

  /** No two writes go to the same section and key. */
  predicate DistinctTargets(ws: seq<Write>) {
    forall i, j :: 0 <= i < j < |ws| ==> (ws[i].section, ws[i].key) != (ws[j].section, ws[j].key)
  }

  /** After writes to distinct places, each written place holds the value written there. */
  lemma {:induction false} ApplyWritesWritten(t: Table, ws: seq<Write>, w: Write, d: Value)
    requires DistinctTargets(ws) && w in ws
    ensures TableGet(ApplyWrites(t, ws), w.section, w.key, d) == w.value
    decreases |ws|
  {
    var init := ws[..|ws| - 1];
    var last := ws[|ws| - 1];
    if w != last {
      var i :| 0 <= i < |ws| && ws[i] == w;
      assert i < |ws| - 1;
      assert init[i] == w;
      assert (w.section, w.key) != (last.section, last.key);
      assert DistinctTargets(init);
      ApplyWritesWritten(t, init, w, d);
    }
  }

  /** A place no write goes to keeps what it held. */
  lemma {:induction false} ApplyWritesUntouched(t: Table, ws: seq<Write>, s: string, key: string, d: Value)
    requires forall w :: w in ws ==> (w.section, w.key) != (s, key)
    ensures TableGet(ApplyWrites(t, ws), s, key, d) == TableGet(t, s, key, d)
    decreases |ws|
  {
    if ws != [] {
      var init := ws[..|ws| - 1];
      assert ws[|ws| - 1] in ws;
      forall w | w in init ensures (w.section, w.key) != (s, key) {
        var i :| 0 <= i < |init| && init[i] == w;
        assert ws[i] == w;
      }
      ApplyWritesUntouched(t, init, s, key, d);
    }
  }

  /** Different fields are saved to different places. */
  lemma TargetInjective(a: ChangeKey, b: ChangeKey)
    requires a != b
    ensures Target(a) != Target(b)
  {
    FieldOfTarget(a);
    FieldOfTarget(b);
  }

  /** The field saved under a section and key, if any. */
  function FieldAt(section: string, key: string): Option<ChangeKey> {
    if section == DonationAlertsSection then
      if key == "client_id" then Some(DaClientId)
      else if key == "redirect_uri" then Some(DaRedirectUri)
      else if key == TokenKey then Some(DaToken)
      else None
    else if section == LolzteamSection then
      if key == "client_id" then Some(LzClientId)
      else if key == "redirect_uri" then Some(LzRedirectUri)
      else if key == TokenKey then Some(LzToken)
      else None
    else if section == AppSection then
      if key == "min_payment_amount" then Some(MinPaymentAmount)
      else if key == "check_interval_seconds" then Some(CheckInterval)
      else if key == "start_minimized" then Some(StartMinimized)
      else if key == "start_with_system" then Some(StartWithSystem)
      else if key == "theme" then Some(Theme)
      else if key == BanwordsKey then Some(Banwords)
      else None
    else None
  }

  /** Each field is found again from the place it is saved under. */
  lemma FieldOfTarget(k: ChangeKey)
    ensures FieldAt(Target(k).0, Target(k).1) == Some(k)
  {
  }

  /** The writes of an order are those of its fields that are in the change list. */
  lemma {:induction false} WritesInMembers(order: seq<ChangeKey>, changes: seq<ChangeKey>, cur: FormValues)
    ensures forall w :: w in WritesIn(order, changes, cur) <==>
      exists k :: k in order && k in changes && w == WriteOf(k, cur)
    decreases |order|
  {
    if order != [] {
      WritesInMembers(order[1..], changes, cur);
      forall k ensures k in order <==> k == order[0] || k in order[1..] {
        if k in order && k != order[0] {
          var i :| 0 <= i < |order| && order[i] == k;
          assert order[1..][i - 1] == k;
        }
      }
    }
  }

  /** An order without repeats writes each place at most once. */
  lemma {:induction false} WritesInDistinct(order: seq<ChangeKey>, changes: seq<ChangeKey>, cur: FormValues)
    requires forall i, j :: 0 <= i < j < |order| ==> order[i] != order[j]
    ensures DistinctTargets(WritesIn(order, changes, cur))
    decreases |order|
  {
    if order != [] {
      var rest := WritesIn(order[1..], changes, cur);
      WritesInDistinct(order[1..], changes, cur);
      if order[0] in changes {
        WritesInMembers(order[1..], changes, cur);
        forall w | w in rest ensures (w.section, w.key) != Target(order[0]) {
          var k :| k in order[1..] && k in changes && w == WriteOf(k, cur);
          var i :| 0 <= i < |order[1..]| && order[1..][i] == k;
          assert order[i + 1] == k;
          TargetInjective(k, order[0]);
        }
        PrependDistinct(WriteOf(order[0], cur), rest);
      } else {
        assert WritesIn(order, changes, cur) == rest;
      }
    }
  }

  lemma PrependDistinct(w: Write, ws: seq<Write>)
    requires DistinctTargets(ws)
    requires forall v :: v in ws ==> (v.section, v.key) != (w.section, w.key)
    ensures DistinctTargets([w] + ws)
  {
    var all := [w] + ws;
    forall i, j | 0 <= i < j < |all| ensures (all[i].section, all[i].key) != (all[j].section, all[j].key) {
      assert all[j] == ws[j - 1];
      if i == 0 {
        assert all[j] in ws;
      } else {
        assert all[i] == ws[i - 1];
      }
    }
  }

  /**
   * Only the fields in the change list are written: after the save each of
   * them holds its saved value, every other field and entry holds what it
   * held before.
   */
  lemma SaveWritesOutcome(t: Table, changes: seq<ChangeKey>, cur: FormValues, k: ChangeKey, d: Value)
    ensures TableGet(ApplyWrites(t, SaveWrites(changes, cur)), Target(k).0, Target(k).1, d)
         == if k in changes then SavedValue(k, cur) else TableGet(t, Target(k).0, Target(k).1, d)
  {
    if k in changes {
      SaveWritesWritten(t, changes, cur, k, d);
    } else {
      SaveWritesKept(t, changes, cur, k, d);
    }
  }

  /**
   * A save, end to end: each field's place holds its saved value exactly when
   * the field differs from what the dialog was filled with, and what it held
   * before otherwise.
   */
  lemma SaveOutcome(t: Table, changes: seq<ChangeKey>, cur: FormValues, orig: FormValues, k: ChangeKey, d: Value)
    requires ReportsChanges(changes, cur, orig)
    ensures TableGet(ApplyWrites(t, SaveWrites(changes, cur)), Target(k).0, Target(k).1, d)
         == if Differs(k, cur, orig) then SavedValue(k, cur) else TableGet(t, Target(k).0, Target(k).1, d)
  {
    SaveWritesOutcome(t, changes, cur, k, d);
  }

  lemma SaveWritesWritten(t: Table, changes: seq<ChangeKey>, cur: FormValues, k: ChangeKey, d: Value)
    requires k in changes
    ensures TableGet(ApplyWrites(t, SaveWrites(changes, cur)), Target(k).0, Target(k).1, d) == SavedValue(k, cur)
  {
    var ws := SaveWrites(changes, cur);
    SaveWritesShape(changes, cur);
    assert WriteOf(k, cur) in ws;
    ApplyWritesWritten(t, ws, WriteOf(k, cur), d);
  }

  lemma SaveWritesKept(t: Table, changes: seq<ChangeKey>, cur: FormValues, k: ChangeKey, d: Value)
    requires k !in changes
    ensures TableGet(ApplyWrites(t, SaveWrites(changes, cur)), Target(k).0, Target(k).1, d) == TableGet(t, Target(k).0, Target(k).1, d)
  {
    var ws := SaveWrites(changes, cur);
    SaveWritesShape(changes, cur);
    forall w | w in ws ensures (w.section, w.key) != Target(k) {
      var k' :| k' in changes && w == WriteOf(k', cur);
      TargetInjective(k', k);
    }
    ApplyWritesUntouched(t, ws, Target(k).0, Target(k).1, d);
  }

  /** Entries that no field is saved under are never written. */
  lemma SaveWritesLeaveOthers(t: Table, changes: seq<ChangeKey>, cur: FormValues, s: string, key: string, d: Value)
    requires FieldAt(s, key).None?
    ensures TableGet(ApplyWrites(t, SaveWrites(changes, cur)), s, key, d) == TableGet(t, s, key, d)
  {
    SaveWritesShape(changes, cur);
    forall k ensures Target(k) != (s, key) {
      FieldOfTarget(k);
    }
    ApplyWritesUntouched(t, SaveWrites(changes, cur), s, key, d);
  }

  /** Save writes once for each field in the change list, and to distinct places. */
  lemma SaveWritesShape(changes: seq<ChangeKey>, cur: FormValues)
    ensures DistinctTargets(SaveWrites(changes, cur))
    ensures forall w :: w in SaveWrites(changes, cur) <==> exists k :: k in changes && w == WriteOf(k, cur)
  {
    FieldOrderDistinct();
    WritesInDistinct(FieldOrder, changes, cur);
    WritesInMembers(FieldOrder, changes, cur);
    forall k | k in changes ensures k in FieldOrder {
      FieldOrderRank(Rank(k));
      assert FieldOrder[Rank(k)] == k by { RankOfOrder(k); }
    }
  }

  lemma RankOfOrder(k: ChangeKey)
    ensures Rank(k) < |FieldOrder| && FieldOrder[Rank(k)] == k
  {
  }

  /** FieldOrder lists each field once. */
  lemma FieldOrderDistinct()
    ensures forall i, j :: 0 <= i < j < |FieldOrder| ==> FieldOrder[i] != FieldOrder[j]
  {
    forall i, j | 0 <= i < j < |FieldOrder| ensures FieldOrder[i] != FieldOrder[j] {
      FieldOrderRank(i);
      FieldOrderRank(j);
    }
  }

  // ---------------------------------------------------------------------------
  // Adding a banned word
  // ---------------------------------------------------------------------------

  /** s.lower(), one character at a time. */
  function Lowered(lower: char -> char, s: string): (r: string)
    ensures |r| == |s| && forall i :: 0 <= i < |s| ==> r[i] == lower(s[i])
  {
    seq(|s|, i requires 0 <= i < |s| => lower(s[i]))
  }

  /** Whether the list holds the word up to case. */
  predicate HasWordIgnoringCase(lower: char -> char, words: seq<string>, word: string) {
    exists i :: 0 <= i < |words| && Lowered(lower, words[i]) == Lowered(lower, word)
  }

  /** No two words of the list are equal up to case. */
  predicate NoCaseDup(lower: char -> char, words: seq<string>) {
    forall i, j :: 0 <= i < j < |words| ==> Lowered(lower, words[i]) != Lowered(lower, words[j])
  }

  /** A word not yet listed up to case keeps the list free of case-insensitive repeats. */
  lemma AddKeepsNoCaseDup(lower: char -> char, words: seq<string>, word: string)
    requires !HasWordIgnoringCase(lower, words, word)
    ensures NoCaseDup(lower, words) ==> NoCaseDup(lower, words + [word])
    ensures HasWordIgnoringCase(lower, words + [word], word)
  {
    var ws := words + [word];
    assert ws[|words|] == word;
    if NoCaseDup(lower, words) {
      forall i, j | 0 <= i < j < |ws| ensures Lowered(lower, ws[i]) != Lowered(lower, ws[j]) {
        if j == |words| {
          assert ws[i] == words[i];
        } else {
          assert ws[i] == words[i] && ws[j] == words[j];
        }
      }
    }
  }

  /** What the dialog emits. */
  datatype DialogEvent = ThemeChanged(theme: Value) | SettingsSaved | Accepted

  class Dialog {
    const settings: SettingsStore

    /** original_values: the fields as the dialog was filled. */
    var original: FormValues
    /** What the widgets show now. */
    var current: FormValues
    var currentTheme: Value
    /** The text of the add-banword line edit. */
    var addBanwordInput: string

    /**
     * __init__ with the widgets filled: the theme read from the settings
     * ("light" when falsy), and the shown values captured as the originals.
     */
    constructor (settings: SettingsStore, shown: FormValues)
      ensures this.settings == settings && original == shown && current == shown && addBanwordInput == []
      ensures var stored := TableGet(settings.View(), AppSection, "theme", Null);
        currentTheme == if Truthy(stored) then stored else Str("light")
    {
      this.settings := settings;
      var stored := settings.Get(AppSection, "theme", Null);
      currentTheme := if Truthy(stored) then stored else Str("light");
      original := shown;
      current := shown;
      addBanwordInput := [];
    }

    /**
     * _get_changed_settings: each field in turn, appended when it differs
     * from the original. The twelve checks are one loop over FieldOrder.
     */
    method GetChangedSettings() returns (changes: seq<ChangeKey>)
      ensures ReportsChanges(changes, current, original)
    {
      var cur, orig := current, original;
      changes := [];
      var i := 0;
      while i < |FieldOrder|
        invariant 0 <= i <= |FieldOrder|
        invariant changes == ChangesBefore(cur, orig, i)
      {
        var k := FieldOrder[i];
        if Differs(k, cur, orig) {
          changes := changes + [k];
        }
        i := i + 1;
      }
      ChangesBeforeReports(cur, orig, |FieldOrder|);
    }

    /**
     * _save_settings: the changed fields are written one settings.set at a
     * time (each saving the file), the theme is taken over when it changed,
     * settings_saved is emitted only for significant changes, and the dialog
     * is accepted. The conditional writes are performed from the list
     * SaveWrites computes, in the dialog's order.
     */
    method SaveSettings() returns (changes: seq<ChangeKey>, saves: seq<Table>, events: seq<DialogEvent>)
      requires settings.Valid()
      modifies this`currentTheme, settings, settings.sections.Values
      ensures settings.Valid()
      ensures ReportsChanges(changes, old(current), old(original))
      ensures SavedAlong(old(settings.View()), SaveWrites(changes, old(current)), settings.View(), saves)
      ensures currentTheme == if Theme in changes then old(current).theme else old(currentTheme)
      ensures events == (if Theme in changes then [ThemeChanged(old(current).theme)] else [])
                      + (if HasSignificantChanges(changes) then [SettingsSaved] else [])
                      + [Accepted]
    {
      var cur := current;
      changes := GetChangedSettings();
      saves := WriteAll(SaveWrites(changes, cur));
      var themeChanged := Theme in changes;
      if themeChanged {
        TakeTheme(cur.theme);
      }
      var significant := HasSignificantChanges(changes);
      events := (if themeChanged then [ThemeChanged(cur.theme)] else [])
              + (if significant then [SettingsSaved] else [])
              + [Accepted];
    }

    /** The settings.set calls of a save, one per write, in order; each returns the saved table. */
    method WriteAll(writes: seq<Write>) returns (saves: seq<Table>)
      requires settings.Valid()
      modifies settings, settings.sections.Values
      ensures settings.Valid()
      ensures SavedAlong(old(settings.View()), writes, settings.View(), saves)
    {
      ghost var v0 := settings.View();
      saves := [];
      var i := 0;
      while i < |writes|
        invariant 0 <= i <= |writes|
        invariant settings.Valid()
        invariant settings.View() == ApplyWrites(v0, writes[..i])
        invariant saves == Snapshots(v0, writes[..i])
        invariant forall o :: o in settings.sections.Values ==> o in old(settings.sections.Values) || fresh(o)
      {
        var w := writes[i];
        var saved := settings.Set(w.section, w.key, w.value);
        WriteStep(v0, writes, i);
        saves := saves + [saved];
        i := i + 1;
      }
      assert writes[..|writes|] == writes;
    }

    /** self.current_theme = theme: the store is not touched. */
    method TakeTheme(theme: Value)
      modifies this`currentTheme
      ensures currentTheme == theme
      ensures settings.View() == old(settings.View())
    {
      currentTheme := theme;
    }

    /** banwords_list.addItem(word) and add_banword_input.clear(): the store is not touched. */
    method ShowAdded(word: string)
      modifies this`current, this`addBanwordInput
      ensures current == old(current).(banwords := old(current.banwords) + [word])
      ensures addBanwordInput == []
      ensures settings.View() == old(settings.View())
    {
      current := current.(banwords := current.banwords + [word]);
      addBanwordInput := [];
    }

    /** _save_banwords: the list as shown, written with settings.set. */
    method SaveBanwords() returns (saved: Table)
      requires settings.Valid()
      modifies settings, settings.sections.Values
      ensures settings.Valid()
      ensures settings.View() == TableSet(old(settings.View()), AppSection, BanwordsKey, Words(current.banwords))
      ensures saved == settings.View()
      ensures current == old(current) && addBanwordInput == old(addBanwordInput)
    {
      saved := settings.Set(AppSection, BanwordsKey, Words(current.banwords));
    }

    /**
     * _add_banword: the stripped input is ignored when empty or already
     * listed up to case; otherwise it is appended, the input cleared and the
     * list saved at once.
     */
    method AddBanword(lower: char -> char) returns (saved: Option<Table>)
      requires settings.Valid()
      modifies this`current, this`addBanwordInput, settings, settings.sections.Values
      ensures settings.Valid()
      ensures var word := Strip(old(addBanwordInput));
        if word == [] || HasWordIgnoringCase(lower, old(current.banwords), word) then
          && current == old(current) && addBanwordInput == old(addBanwordInput)
          && settings.View() == old(settings.View()) && saved == None
        else
          && current == old(current).(banwords := old(current.banwords) + [word])
          && addBanwordInput == []
          && settings.View() == TableSet(old(settings.View()), AppSection, BanwordsKey, Words(current.banwords))
          && saved == Some(settings.View())
      ensures NoCaseDup(lower, old(current.banwords)) ==> NoCaseDup(lower, current.banwords)
    {
      var word := Strip(addBanwordInput);
      if word == [] {
        return None;
      }
      if HasWordIgnoringCase(lower, current.banwords, word) {
        return None;
      }
      AddKeepsNoCaseDup(lower, current.banwords, word);
      ShowAdded(word);
      var table := SaveBanwords();
      saved := Some(table);
    }
  }
}
