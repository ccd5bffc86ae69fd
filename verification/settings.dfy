/**
 * The settings store: named sections of key/value entries, merged with the
 * built-in defaults when loaded, read with a fall-back value, written one key
 * at a time, and the banned-word list kept under app.banwords.
 *
 * Section dictionaries are objects (Section) because the store shares them
 * with the built-in defaults: a shallow copy of the defaults hands out the
 * very same section objects, and a section missing from the file is filled
 * with the default's object itself, so a later write through the store also
 * changes the defaults. Lists are values. A method that writes the file
 * returns the table written; the file's own contents are an input of
 * loading.
 */
module Settings {
  import opened Wrappers
  import opened PyStrings

  /** A JSON value as the settings hold them. */
  datatype Value = Null | Bool(b: bool) | Int(i: int) | Str(s: string) | Words(ws: seq<string>)

  /** Python truthiness of a value. */
  predicate Truthy(v: Value) {
    match v
    case Null => false
    case Bool(b) => b
    case Int(i) => i != 0
    case Str(s) => s != []
    case Words(ws) => ws != []
  }

  type Entries = map<string, Value>

  /** Section name to that section's entries. */
  type Table = map<string, Entries>

  const DonationAlertsSection: string := "donation_alerts"
  const LolzteamSection: string := "lolzteam"
  const AppSection: string := "app"
  const TokenKey: string := "access_token"
  const BanwordsKey: string := "banwords"

  /** The built-in defaults as declared, section by section. */
  const DonationAlertsDefaults: Entries := map[
    "client_id" := Str("14617"),
    "redirect_uri" := Str("http://127.0.0.1:5228/login"),
    TokenKey := Null]

  const LolzteamDefaults: Entries := map[
    "client_id" := Str("t93p9fol5e"),
    "redirect_uri" := Str("http://127.0.0.1:5228/lzt_login"),
    TokenKey := Null]

  const AppDefaults: Entries := map[
    "min_payment_amount" := Int(1),
    "check_interval_seconds" := Int(3),
    "start_minimized" := Bool(false),
    "start_with_system" := Bool(false),
    "theme" := Str("dark"),
    BanwordsKey := Words([]),
    "filter_urls" := Bool(false),
    "silent_notifications" := Bool(false)]

  const DefaultTable: Table :=
    map[DonationAlertsSection := DonationAlertsDefaults, LolzteamSection := LolzteamDefaults, AppSection := AppDefaults]

  // ---------------------------------------------------------------------------
  // Tables: reading, writing and merging with the defaults
  // ---------------------------------------------------------------------------

  /** settings.get(section, {}).get(key, default) */
  function TableGet(t: Table, section: string, key: string, default: Value): Value {
    if section in t && key in t[section] then t[section][key] else default
  }

  /** settings[section][key] = value, the section created empty first when missing. */
  function TableSet(t: Table, section: string, key: string, value: Value): (r: Table)
    ensures r.Keys == t.Keys + {section}
    ensures forall d :: TableGet(r, section, key, d) == value
    ensures forall s, k, d :: (s != section || k != key) ==> TableGet(r, s, k, d) == TableGet(t, s, k, d)
  {
    t[section := (if section in t then t[section] else map[])[key := value]]
  }

  /**
   * The loaded table with every default section and key filled in: a
   * section missing from the file is the default section, a key missing
   * from a section gets its default value, and what the file holds wins.
   */
  function Merge(loaded: Table, defaults: Table): (r: Table)
    ensures forall s :: s in r <==> s in loaded || s in defaults
  {
    map s | s in loaded.Keys + defaults.Keys :: MergedSection(loaded, defaults, s)
  }

  /** One section of the merge. */
  function MergedSection(loaded: Table, defaults: Table, s: string): Entries
    requires s in loaded || s in defaults
  {
    if s in loaded && s in defaults then defaults[s] + loaded[s]
    else if s in loaded then loaded[s]
    else defaults[s]
  }

  /**
   * After the merge every default section and key is present, every loaded
   * value is kept, and every other entry holds its default value.
   */
  lemma MergeCompletes(loaded: Table, defaults: Table)
    ensures var r := Merge(loaded, defaults);
      && (forall s, k :: s in defaults && k in defaults[s] ==> s in r && k in r[s])
      && (forall s, k :: s in loaded && k in loaded[s] ==> k in r[s] && r[s][k] == loaded[s][k])
      && (forall s, k :: s in r && k in r[s] && !(s in loaded && k in loaded[s]) ==>
            s in defaults && k in defaults[s] && r[s][k] == defaults[s][k])
  {
  }

  /** Whether the merge adds a section or a key, which is when the merged settings are written back. */
  predicate NeedsUpdate(loaded: Table, defaults: Table) {
    exists s :: s in defaults && (s !in loaded || !(defaults[s].Keys <= loaded[s].Keys))
  }

  /** A write-back happens exactly when the merge changes the loaded table. */
  lemma NeedsUpdateIffMergeChanges(loaded: Table, defaults: Table)
    ensures NeedsUpdate(loaded, defaults) <==> Merge(loaded, defaults) != loaded
  {
    var m := Merge(loaded, defaults);
    if NeedsUpdate(loaded, defaults) {
      var s :| s in defaults && (s !in loaded || !(defaults[s].Keys <= loaded[s].Keys));
      if s in loaded {
        var k :| k in defaults[s] && k !in loaded[s];
        assert k in m[s];
      }
    } else {
      forall s | s in m ensures s in loaded && m[s] == loaded[s] {
        assert s in loaded;
        if s in defaults {
          assert defaults[s].Keys <= loaded[s].Keys;
          assert m[s] == defaults[s] + loaded[s];
        }
      }
      assert m == loaded;
    }
  }

  /** Loading the merged settings again adds nothing and writes nothing. */
  lemma MergeIdempotent(loaded: Table, defaults: Table)
    ensures Merge(Merge(loaded, defaults), defaults) == Merge(loaded, defaults)
    ensures !NeedsUpdate(Merge(loaded, defaults), defaults)
  {
    var m := Merge(loaded, defaults);
    forall s | s in defaults ensures s in m && defaults[s].Keys <= m[s].Keys {
    }
    NeedsUpdateIffMergeChanges(m, defaults);
  }

  /** A token counts as configured when it is neither None nor the empty string. */
  predicate TokenConfigured(v: Value) {
    v != Null && v != Str("")
  }

  predicate TokenConfiguredIn(t: Table, section: string) {
    TokenConfigured(TableGet(t, section, TokenKey, Null))
  }

  /** Storing a token string configures the service exactly when the string is not empty. */
  lemma StoredTokenConfigures(t: Table, section: string, token: string)
    ensures TokenConfiguredIn(TableSet(t, section, TokenKey, Str(token)), section) <==> token != ""
  {
  }

  /** Neither service is configured by the built-in defaults. */
  lemma DefaultsUnconfigured()
    ensures !TokenConfiguredIn(DefaultTable, DonationAlertsSection)
    ensures !TokenConfiguredIn(DefaultTable, LolzteamSection)
  {
  }

  // ---------------------------------------------------------------------------
  // The banned-word list
  // ---------------------------------------------------------------------------

  predicate NoDup(ws: seq<string>) {
    forall i, j :: 0 <= i < j < |ws| ==> ws[i] != ws[j]
  }

  /** `get("app", "banwords") or []` read as a list: None when the stored value is a non-empty non-list. */
  function BanwordList(stored: Value): (r: Option<seq<string>>)
    ensures !Truthy(stored) ==> r == Some([])
    ensures stored.Words? ==> r == Some(stored.ws)
    ensures r.None? <==> Truthy(stored) && !stored.Words?
  {
    if !Truthy(stored) then Some([])
    else if stored.Words? then Some(stored.ws)
    else None
  }

  /** What a banword operation does to the stored list. */
  datatype BanwordUpdate =
    | Unchanged
    | Written(words: seq<string>)
    /** The stored value is a non-empty non-list; the list operations do not apply. */
    | NotAList

  /** add_banword: blank words are ignored; otherwise the word, unstripped, is appended when absent. */
  function AddBanwordUpdate(stored: Value, word: string): (u: BanwordUpdate)
    ensures u.Written? <==> !AllSpace(word) && BanwordList(stored).Some? && word !in BanwordList(stored).value
    ensures u.Written? ==> u.words == BanwordList(stored).value + [word]
    ensures u.NotAList? <==> !AllSpace(word) && BanwordList(stored).None?
  {
    if word == [] || |Strip(word)| == 0 then Unchanged
    else match BanwordList(stored)
      case None => NotAList
      case Some(ws) => if word !in ws then Written(ws + [word]) else Unchanged
  }

  /** Adding never creates a duplicate, and the word is in the list afterwards. */
  lemma AddBanwordKeepsNoDup(ws: seq<string>, word: string)
    requires NoDup(ws)
    ensures var u := AddBanwordUpdate(Words(ws), word);
      u.Written? ==> NoDup(u.words) && word in u.words
  {
    var u := AddBanwordUpdate(Words(ws), word);
    if u.Written? {
      var r := u.words;
      forall i, j | 0 <= i < j < |r| ensures r[i] != r[j] {
        if j == |ws| {
          assert r[i] == ws[i];
        }
      }
      assert r[|ws|] == word;
    }
  }

  /** list.remove: the first occurrence goes, the rest keep their order. */
  function RemoveFirst(ws: seq<string>, word: string): (r: seq<string>)
    decreases |ws|
  {
    if ws == [] then []
    else if ws[0] == word then ws[1..]
    else [ws[0]] + RemoveFirst(ws[1..], word)
  }

  /** Where a present word first occurs. */
  function FirstIndex(ws: seq<string>, word: string): (i: nat)
    requires word in ws
    ensures i < |ws| && ws[i] == word && word !in ws[..i]
    decreases |ws|
  {
    if ws[0] == word then 0
    else
      var j := FirstIndex(ws[1..], word);
      assert ws[..j + 1] == [ws[0]] + ws[1..][..j];
      j + 1
  }

  /** An absent word changes nothing. */
  lemma {:induction false} RemoveFirstAbsent(ws: seq<string>, word: string)
    requires word !in ws
    ensures RemoveFirst(ws, word) == ws
    decreases |ws|
  {
    if ws != [] {
      RemoveFirstAbsent(ws[1..], word);
    }
  }

  /** A present word is cut out at its first occurrence, the rest kept in order. */
  lemma {:induction false} RemoveFirstAt(ws: seq<string>, word: string)
    requires word in ws
    ensures var i := FirstIndex(ws, word); RemoveFirst(ws, word) == ws[..i] + ws[i + 1..]
    decreases |ws|
  {
    if ws[0] != word {
      RemoveFirstAt(ws[1..], word);
      var j := FirstIndex(ws[1..], word);
      assert ws[..j + 1] == [ws[0]] + ws[1..][..j];
      assert ws[j + 2..] == ws[1..][j + 1..];
    }
  }

  /** Exactly one occurrence of a present word goes. */
  lemma RemoveFirstMultiset(ws: seq<string>, word: string)
    requires word in ws
    ensures multiset(RemoveFirst(ws, word)) == multiset(ws) - multiset{word}
  {
    var i := FirstIndex(ws, word);
    RemoveFirstAt(ws, word);
    CutMultiset(ws, i);
    var cut := ws[..i] + ws[i + 1..];
    assert RemoveFirst(ws, word) == cut;
    assert multiset(cut) == multiset(ws) - multiset{word};
  }

  /** Cutting out the element at i takes exactly that element out of the multiset. */
  lemma CutMultiset<T>(s: seq<T>, i: nat)
    requires i < |s|
    ensures multiset(s[..i] + s[i + 1..]) == multiset(s) - multiset{s[i]}
  {
    assert s == s[..i] + [s[i]] + s[i + 1..];
    assert multiset(s) == multiset(s[..i] + s[i + 1..]) + multiset{s[i]};
  }

  /** remove_banword: the first occurrence of a present word is removed. */
  function RemoveBanwordUpdate(stored: Value, word: string): (u: BanwordUpdate)
    ensures u.Written? <==> BanwordList(stored).Some? && word in BanwordList(stored).value
    ensures u.Written? ==> u.words == RemoveFirst(BanwordList(stored).value, word)
    ensures u.NotAList? <==> BanwordList(stored).None?
  {
    match BanwordList(stored)
    case None => NotAList
    case Some(ws) => if word in ws then Written(RemoveFirst(ws, word)) else Unchanged
  }

  /** Cutting one element out of a duplicate-free list leaves it duplicate-free and without that element. */
  lemma CutKeepsNoDup(ws: seq<string>, i: nat)
    requires NoDup(ws) && i < |ws|
    ensures NoDup(ws[..i] + ws[i + 1..]) && ws[i] !in ws[..i] + ws[i + 1..]
  {
    var r := ws[..i] + ws[i + 1..];
    forall a, b | 0 <= a < b < |r| ensures r[a] != r[b] {
      var a' := if a < i then a else a + 1;
      var b' := if b < i then b else b + 1;
      assert r[a] == ws[a'] && r[b] == ws[b'];
    }
    forall k | 0 <= k < |r| ensures r[k] != ws[i] {
      var k' := if k < i then k else k + 1;
      assert r[k] == ws[k'];
    }
  }

  /** Removing keeps a duplicate-free list duplicate-free, one shorter, and the word is gone from it. */
  lemma RemoveBanwordDropsWord(ws: seq<string>, word: string)
    requires NoDup(ws)
    ensures var u := RemoveBanwordUpdate(Words(ws), word);
      u.Written? ==> NoDup(u.words) && word !in u.words && |u.words| == |ws| - 1
  {
    if word in ws {
      RemoveFirstAt(ws, word);
      CutKeepsNoDup(ws, FirstIndex(ws, word));
    }
  }

  /** The stripped, non-empty lines of an imported file, in file order. */
  function StrippedWords(lines: seq<string>): (r: seq<string>)
    ensures forall k :: 0 <= k < |r| ==> r[k] != [] && Strip(r[k]) == r[k]
    decreases |lines|
  {
    if lines == [] then []
    else
      var w := Strip(lines[|lines| - 1]);
      if w != [] then (StripUntrimmed(w); StrippedWords(lines[..|lines| - 1]) + [w])
      else StrippedWords(lines[..|lines| - 1])
  }

  /** The file words not yet in the list, in file order and with repeats within the file kept. */
  function NewWords(words: seq<string>, current: set<string>): (r: seq<string>)
    decreases |words|
  {
    if words == [] then []
    else
      var w := words[|words| - 1];
      var init := NewWords(words[..|words| - 1], current);
      if w != [] && w !in current then init + [w] else init
  }

  /** The new words are exactly the non-empty file words not in the list, each occurrence kept. */
  lemma {:induction false} NewWordsFilter(words: seq<string>, current: set<string>)
    ensures var r := NewWords(words, current);
      && (forall k :: 0 <= k < |r| ==> r[k] != [] && r[k] !in current && r[k] in words)
      && (forall w :: w in words && w != [] && w !in current ==> w in r)
      && multiset(r) <= multiset(words)
      && (forall w :: w != [] && w !in current ==> multiset(r)[w] == multiset(words)[w])
    decreases |words|
  {
    if words != [] {
      var init := words[..|words| - 1];
      var w := words[|words| - 1];
      NewWordsFilter(init, current);
      assert words == init + [w];
      var r0 := NewWords(init, current);
      assert multiset(words) == multiset(init) + multiset{w};
      if w != [] && w !in current {
        assert NewWords(words, current) == r0 + [w];
        assert multiset(r0 + [w]) == multiset(r0) + multiset{w};
      } else {
        assert NewWords(words, current) == r0;
      }
    }
  }

  /** Repeats inside the file are all imported. */
  lemma ImportKeepsFileRepeats()
    ensures NewWords(["spam", "spam"], {}) == ["spam", "spam"]
    ensures NewWords(["spam", "eggs"], {"eggs"}) == ["spam"]
  {
    assert ["spam", "spam"][..1] == ["spam"];
    assert ["spam", "eggs"][..1] == ["spam"];
    assert ["spam"][..0] == [];
  }

  /** list(set): every element once, in an order the model leaves open. */
  method SetToSeq(s: set<string>) returns (r: seq<string>)
    ensures forall w :: w in r <==> w in s
    ensures NoDup(r) && |r| == |s|
  {
    r := [];
    var rest := s;
    while rest != {}
      invariant rest <= s
      invariant forall w :: w in r <==> w in s && w !in rest
      invariant NoDup(r) && |r| + |rest| == |s|
      decreases rest
    {
      var w :| w in rest;
      r := r + [w];
      rest := rest - {w};
    }
  }

  // ---------------------------------------------------------------------------
  // Section objects and the store
  // ---------------------------------------------------------------------------

  /** One section dictionary, with the name it was created under. */
  class Section {
    ghost const name: string
    var entries: Entries

    constructor (ghost name: string, entries: Entries)
      ensures this.name == name && this.entries == entries
    {
      this.name := name;
      this.entries := entries;
    }
  }

  /**
   * Every section object of m sits under the name it was created under, so
   * none serves under two names, and an object that m shares with another
   * such map sits under the same name in both.
   */
  ghost predicate Named(m: map<string, Section>) {
    forall s :: s in m ==> m[s].name == s
  }

  /** The entries currently held by the section objects of m. */
  function ViewOf(m: map<string, Section>): (t: Table)
    reads m.Values
    ensures t.Keys == m.Keys
  {
    map s | s in m :: m[s].entries
  }

  /** The built-in defaults as fresh section objects. */
  method NewDefaultSections() returns (d: map<string, Section>)
    ensures Named(d) && ViewOf(d) == DefaultTable
    ensures forall s :: s in d ==> fresh(d[s])
  {
    d := NewSections(DefaultTable);
  }

  /** json.load: a fresh section object per section of the file. */
  method NewSections(t: Table) returns (m: map<string, Section>)
    ensures Named(m) && ViewOf(m) == t
    ensures forall s :: s in m ==> fresh(m[s])
  {
    m := map[];
    var names := t.Keys;
    while names != {}
      invariant names <= t.Keys
      invariant m.Keys == t.Keys - names
      invariant forall s :: s in m ==> fresh(m[s]) && m[s].entries == t[s]
      invariant Named(m)
      decreases names
    {
      var s :| s in names;
      var sec := new Section(s, t[s]);
      m := m[s := sec];
      names := names - {s};
    }
    assert ViewOf(m) == t;
  }

  /** The inner loop of the merge: each default key the section lacks is added with its default value. */
  method FillSection(sec: Section, defaults: Entries) returns (added: bool)
    modifies sec
    ensures sec.entries == defaults + old(sec.entries)
    ensures added <==> !(defaults.Keys <= old(sec.entries).Keys)
  {
    ghost var e0 := sec.entries;
    added := false;
    var keys := defaults.Keys;
    while keys != {}
      invariant keys <= defaults.Keys
      invariant sec.entries.Keys == (defaults.Keys - keys) + e0.Keys
      invariant forall k :: k in sec.entries ==> sec.entries[k] == if k in e0 then e0[k] else defaults[k]
      invariant added <==> exists k :: k in defaults.Keys - keys && k !in e0
      decreases keys
    {
      var k :| k in keys;
      if k !in sec.entries {
        sec.entries := sec.entries[k := defaults[k]];
        added := true;
      }
      keys := keys - {k};
    }
    assert sec.entries == defaults + e0;
  }

  /**
   * FillSection on one section of a map of named sections: the other
   * sections stay as they are, and so does every section of a second map
   * that does not hold the same object.
   */
  method FillSectionOf(m: map<string, Section>, d: map<string, Section>, s: string, defaults: Entries)
    returns (added: bool)
    requires s in m && Named(m) && Named(d) && (s in d ==> d[s] != m[s])
    modifies m[s]
    ensures m[s].entries == defaults + old(m[s].entries)
    ensures ViewOf(m) == old(ViewOf(m))[s := m[s].entries]
    ensures ViewOf(d) == old(ViewOf(d))
    ensures added <==> !(defaults.Keys <= old(m[s].entries).Keys)
  {
    ghost var before := ViewOf(m);
    ghost var dBefore := ViewOf(d);
    var sec := m[s];
    added := FillSection(sec, defaults);
    forall t | t in m ensures ViewOf(m)[t] == before[s := sec.entries][t] {
      if t != s {
        assert m[t] != sec;
      }
    }
    forall t | t in d ensures ViewOf(d)[t] == dBefore[t] {
      assert d[t] != sec;
    }
  }

  /**
   * A write of one key into the section object m[s]: m shows it under s, and
   * so does d when it holds the same object there; every other section stays.
   */
  method WriteEntry(m: map<string, Section>, d: map<string, Section>, s: string, key: string, value: Value)
    requires s in m && Named(m) && Named(d)
    modifies m[s]
    ensures m[s].entries == old(m[s].entries)[key := value]
    ensures ViewOf(m) == TableSet(old(ViewOf(m)), s, key, value)
    ensures ViewOf(d) == if s in d && d[s] == m[s] then TableSet(old(ViewOf(d)), s, key, value) else old(ViewOf(d))
  {
    ghost var before := ViewOf(m);
    ghost var dBefore := ViewOf(d);
    var sec := m[s];
    sec.entries := sec.entries[key := value];
    forall t | t in m ensures ViewOf(m)[t] == before[s := sec.entries][t] {
      if t != s {
        assert m[t] != sec;
      }
    }
    if s in d && d[s] == sec {
      forall t | t in d ensures ViewOf(d)[t] == dBefore[s := sec.entries][t] {
        if t != s {
          assert d[t] != sec;
        }
      }
    } else {
      forall t | t in d ensures ViewOf(d)[t] == dBefore[t] {
        assert d[t] != sec;
      }
    }
  }

  /** Putting a section object under a new name shows its entries under that name. */
  lemma ViewOfInsert(m: map<string, Section>, s: string, sec: Section)
    requires s !in m
    ensures ViewOf(m[s := sec]) == ViewOf(m)[s := sec.entries]
  {
    var m2 := m[s := sec];
    forall t | t in m2 ensures ViewOf(m2)[t] == ViewOf(m)[s := sec.entries][t] {
    }
  }

  /** What the merge loop keeps: the names so far, own objects for the file's sections, defaults' objects for the rest. */
  ghost predicate MergeState(table: Table, defaults: map<string, Section>, done: set<string>, settings: map<string, Section>) {
    && (forall t :: t in settings <==> t in table || t in done)
    && (forall t :: t in table && t in defaults ==> settings[t] != defaults[t])
    && (forall t :: t in settings && t !in table ==> t in defaults && settings[t] == defaults[t])
    && Named(settings)
  }

  /** A default section missing from the file is taken over as the default's own object. */
  lemma MergeStateTake(table: Table, defaults: map<string, Section>, done: set<string>,
                       settings: map<string, Section>, s: string)
    requires MergeState(table, defaults, done, settings) && Named(defaults)
    requires s in defaults && s !in settings
    ensures s !in table
    ensures MergeState(table, defaults, done + {s}, settings[s := defaults[s]])
  {
  }

  /** A default section the file has keeps the file's own object. */
  lemma MergeStateFill(table: Table, defaults: map<string, Section>, done: set<string>,
                       settings: map<string, Section>, s: string)
    requires MergeState(table, defaults, done, settings)
    requires s in settings && s !in done
    ensures s in table
    ensures MergeState(table, defaults, done + {s}, settings)
  {
  }

  /** One turn of the merge loop: the default section s is taken over or its missing keys filled in. */
  method MergeOneSection(table: Table, defaults: map<string, Section>, ghost dv: Table, ghost done: set<string>,
                         settings: map<string, Section>, s: string, updated: bool)
    returns (result: map<string, Section>, nowUpdated: bool)
    requires Named(defaults) && ViewOf(defaults) == dv && dv.Keys == defaults.Keys
    requires done <= defaults.Keys && s in defaults && s !in done && done + {s} <= dv.Keys
    requires MergeState(table, defaults, done, settings)
    requires ViewOf(settings) == Merge(table, Restrict(dv, done))
    requires updated <==> NeedsUpdate(table, Restrict(dv, done))
    modifies if s in table then {settings[s]} else {}
    ensures MergeState(table, defaults, done + {s}, result)
    ensures forall t :: t in table ==> result[t] == settings[t]
    ensures ViewOf(defaults) == dv
    ensures ViewOf(result) == Merge(table, Restrict(dv, done + {s}))
    ensures nowUpdated <==> NeedsUpdate(table, Restrict(dv, done + {s}))
  {
    RestrictStep(dv, done, s);
    MergeStep(table, Restrict(dv, done), s, dv[s]);
    NeedsUpdateStep(table, Restrict(dv, done), s, dv[s]);
    if s !in settings {
      ViewOfInsert(settings, s, defaults[s]);
      MergeStateTake(table, defaults, done, settings, s);
      result := settings[s := defaults[s]];
      nowUpdated := true;
    } else {
      MergeStateFill(table, defaults, done, settings, s);
      var added := FillSectionOf(settings, defaults, s, defaults[s].entries);
      result := settings;
      nowUpdated := updated || added;
    }
  }

  /**
   * The merge loop of loading: the file's sections as fresh objects, each
   * default section missing from them taken over as the default's own
   * object, each present one given its missing default keys in place.
   */
  method MergeDefaults(table: Table, defaults: map<string, Section>) returns (settings: map<string, Section>, updated: bool)
    requires Named(defaults)
    ensures Named(settings) && forall s :: s in settings <==> s in table || s in defaults
    ensures ViewOf(settings) == Merge(table, ViewOf(defaults))
    ensures forall s :: s in table ==> fresh(settings[s])
    ensures forall s :: s in settings && s !in table ==> s in defaults && settings[s] == defaults[s]
    ensures updated <==> NeedsUpdate(table, ViewOf(defaults))
  {
    settings := NewSections(table);
    ghost var dv := ViewOf(defaults);
    updated := false;
    var names := defaults.Keys;
    ghost var done: set<string> := {};
    RestrictNone(table, dv);
    while names != {}
      invariant done <= defaults.Keys && names == defaults.Keys - done
      invariant MergeState(table, defaults, done, settings)
      invariant forall s :: s in table ==> fresh(settings[s])
      invariant ViewOf(defaults) == dv
      invariant ViewOf(settings) == Merge(table, Restrict(dv, done))
      invariant updated <==> NeedsUpdate(table, Restrict(dv, done))
      decreases names
    {
      var s :| s in names;
      RemoveStep(defaults.Keys, done, s);
      settings, updated := MergeOneSection(table, defaults, dv, done, settings, s, updated);
      names := names - {s};
      done := done + {s};
    }
    RestrictAll(dv, done);
  }

  /** One step of a loop that moves the names of a set, one at a time, from to-do to done. */
  lemma RemoveStep<T>(all: set<T>, done: set<T>, x: T)
    requires done <= all && x in all - done
    ensures done + {x} <= all && (all - done) - {x} == all - (done + {x})
  {
  }

  /** The file as loading finds it. */
  datatype SettingsFile =
    | Missing
    /** The file cannot be read or is not valid JSON. */
    | Unreadable
    | Parsed(table: Table)

  class SettingsStore {
    /** DEFAULT_SETTINGS: shared by every store, its sections can be handed out and then written. */
    const defaults: map<string, Section>

    /** self.settings: section name to section object. */
    var sections: map<string, Section>

    ghost predicate Valid()
      reads this`sections
    {
      && Named(sections)
      && Named(defaults)
    }

    function View(): Table
      reads this`sections, sections.Values
    {
      ViewOf(sections)
    }

    function DefaultsView(): Table
      reads defaults.Values
    {
      ViewOf(defaults)
    }

    /** Whether the section named is the default's own object. */
    predicate SharesDefault(section: string)
      reads this`sections
    {
      section in sections && section in defaults && sections[section] == defaults[section]
    }

    /** __init__ up to its call of _load_settings, which the caller makes next with the file it finds. */
    constructor (defaults: map<string, Section>)
      requires Named(defaults)
      ensures this.defaults == defaults && sections == map[] && Valid()
    {
      this.defaults := defaults;
      sections := map[];
    }

    /**
     * _load_settings: a missing or unreadable file gives a shallow copy of
     * the defaults (the missing one also writes the defaults out); a parsed
     * file gets every missing default section and key, and is written back
     * when anything was added.
     */
    method Load(file: SettingsFile) returns (saved: Option<Table>)
      requires Named(defaults)
      modifies this
      ensures Valid()
      ensures DefaultsView() == old(DefaultsView())
      ensures !file.Parsed? ==> sections == defaults
      ensures file.Missing? ==> saved == Some(DefaultsView())
      ensures file.Unreadable? ==> saved == None
      ensures file.Parsed? ==>
        && View() == Merge(file.table, DefaultsView())
        && (forall s :: s in file.table ==> s in sections && fresh(sections[s]))
        && (forall s :: s in defaults && s !in file.table ==> sections[s] == defaults[s])
        && saved == (if NeedsUpdate(file.table, DefaultsView()) then Some(View()) else None)
    {
      match file {
        case Missing =>
          saved := Some(DefaultsView());
          sections := defaults;
        case Unreadable =>
          saved := None;
          sections := defaults;
        case Parsed(table) =>
          saved := LoadParsed(table);
      }
    }

    /** _load_settings on a file that parsed: the merge, and a save when it added anything. */
    method LoadParsed(table: Table) returns (saved: Option<Table>)
      requires Named(defaults)
      modifies this
      ensures Valid()
      ensures DefaultsView() == old(DefaultsView())
      ensures View() == Merge(table, DefaultsView())
      ensures forall s :: s in table ==> s in sections && fresh(sections[s])
      ensures forall s :: s in defaults && s !in table ==> sections[s] == defaults[s]
      ensures saved == if NeedsUpdate(table, DefaultsView()) then Some(View()) else None
    {
      var settings, updated := MergeDefaults(table, defaults);
      var merged := ViewOf(settings);
      Install(settings);
      saved := if updated then Some(merged) else None;
    }

    /** self.settings = m: what any section object holds stays as it is. */
    method Install(m: map<string, Section>)
      modifies this`sections
      ensures sections == m
      ensures ViewOf(m) == old(ViewOf(m)) && DefaultsView() == old(DefaultsView())
    {
      sections := m;
    }

    /** get: the stored value, a stored None included, or the fall-back when section or key is missing. */
    function Get(section: string, key: string, default: Value): (r: Value)
      reads this`sections, sections.Values
      ensures r == TableGet(View(), section, key, default)
    {
      if section in sections && key in sections[section].entries then sections[section].entries[key] else default
    }

    /**
     * set: the section is created when missing, the key written in place and
     * the settings saved. Written through a section shared with the defaults,
     * the default changes with it.
     */
    method Set(section: string, key: string, value: Value) returns (saved: Table)
      requires Valid()
      modifies this, sections.Values
      ensures Valid()
      ensures View() == TableSet(old(View()), section, key, value)
      ensures DefaultsView() == if old(SharesDefault(section)) then TableSet(old(DefaultsView()), section, key, value)
                                else old(DefaultsView())
      ensures forall s :: s in old(sections) ==> s in sections && sections[s] == old(sections)[s]
      ensures forall o :: o in sections.Values ==> o in old(sections.Values) || fresh(o)
      ensures saved == View()
    {
      ghost var written := TableSet(View(), section, key, value);
      ghost var defaultsWritten := if SharesDefault(section) then TableSet(DefaultsView(), section, key, value)
                                   else DefaultsView();
      if section in sections {
        WriteEntry(sections, defaults, section, key, value);
        saved := View();
      } else {
        ghost var before := View();
        var sec := new Section(section, map[key := value]);
        assert ViewOf(sections) == before;
        var grown := sections[section := sec];
        ViewOfInsert(sections, section, sec);
        Install(grown);
        saved := View();
      }
      assert View() == written && DefaultsView() == defaultsWritten;
    }

    function IsDonationAlertsConfigured(): (r: bool)
      reads this`sections, sections.Values
      ensures r <==> TokenConfiguredIn(View(), DonationAlertsSection)
    {
      var token := Get(DonationAlertsSection, TokenKey, Null);
      token != Null && token != Str("")
    }

    function IsLolzteamConfigured(): (r: bool)
      reads this`sections, sections.Values
      ensures r <==> TokenConfiguredIn(View(), LolzteamSection)
    {
      var token := Get(LolzteamSection, TokenKey, Null);
      token != Null && token != Str("")
    }

    /** reset: a shallow copy of the defaults, saved. */
    method Reset() returns (saved: Table)
      requires Valid()
      modifies this
      ensures Valid() && sections == defaults
      ensures View() == DefaultsView() == old(DefaultsView())
      ensures saved == DefaultsView()
    {
      sections := defaults;
      saved := View();
    }

    /** get_banwords: the stored value, or an empty list when it is falsy. */
    function GetBanwords(): (r: Value)
      reads this`sections, sections.Values
      ensures Truthy(TableGet(View(), AppSection, BanwordsKey, Null)) ==> r == TableGet(View(), AppSection, BanwordsKey, Null)
      ensures !Truthy(TableGet(View(), AppSection, BanwordsKey, Null)) ==> r == Words([])
    {
      var stored := Get(AppSection, BanwordsKey, Null);
      if Truthy(stored) then stored else Words([])
    }

    /** Performs a list update through `set`, or leaves everything as it is. */
    method ApplyUpdate(u: BanwordUpdate) returns (saved: Option<Table>)
      requires Valid()
      modifies this, sections.Values
      ensures Valid()
      ensures !u.Written? ==> View() == old(View()) && saved == None && sections == old(sections)
                              && DefaultsView() == old(DefaultsView())
      ensures u.Written? ==>
        && View() == TableSet(old(View()), AppSection, BanwordsKey, Words(u.words))
        && DefaultsView() == (if old(SharesDefault(AppSection))
                              then TableSet(old(DefaultsView()), AppSection, BanwordsKey, Words(u.words))
                              else old(DefaultsView()))
        && saved == Some(View())
    {
      saved := None;
      if u.Written? {
        var table := Set(AppSection, BanwordsKey, Words(u.words));
        saved := Some(table);
      }
    }

    /** add_banword */
    method AddBanword(word: string) returns (u: BanwordUpdate, saved: Option<Table>)
      requires Valid()
      modifies this, sections.Values
      ensures u == AddBanwordUpdate(old(Get(AppSection, BanwordsKey, Null)), word)
      ensures Valid()
      ensures !u.Written? ==> View() == old(View()) && saved == None && sections == old(sections)
                              && DefaultsView() == old(DefaultsView())
      ensures u.Written? ==>
        && View() == TableSet(old(View()), AppSection, BanwordsKey, Words(u.words))
        && DefaultsView() == (if old(SharesDefault(AppSection))
                              then TableSet(old(DefaultsView()), AppSection, BanwordsKey, Words(u.words))
                              else old(DefaultsView()))
        && saved == Some(View())
    {
      u := AddBanwordUpdate(Get(AppSection, BanwordsKey, Null), word);
      saved := ApplyUpdate(u);
    }

    /** remove_banword */
    method RemoveBanword(word: string) returns (u: BanwordUpdate, saved: Option<Table>)
      requires Valid()
      modifies this, sections.Values
      ensures u == RemoveBanwordUpdate(old(Get(AppSection, BanwordsKey, Null)), word)
      ensures Valid()
      ensures !u.Written? ==> View() == old(View()) && saved == None && sections == old(sections)
                              && DefaultsView() == old(DefaultsView())
      ensures u.Written? ==>
        && View() == TableSet(old(View()), AppSection, BanwordsKey, Words(u.words))
        && DefaultsView() == (if old(SharesDefault(AppSection))
                              then TableSet(old(DefaultsView()), AppSection, BanwordsKey, Words(u.words))
                              else old(DefaultsView()))
        && saved == Some(View())
    {
      u := RemoveBanwordUpdate(Get(AppSection, BanwordsKey, Null), word);
      saved := ApplyUpdate(u);
    }

    /**
     * import_banwords_from_file, given the file's lines or the read error:
     * the count of new words; the stored list becomes the old words, once
     * each and in an order left open, followed by the new words.
     */
    method ImportBanwords(file: Result<seq<string>, string>) returns (r: Result<nat, BanwordUpdate>, u: BanwordUpdate, saved: Option<Table>)
      requires Valid()
      modifies this, sections.Values
      ensures Valid()
      ensures file.Failure? ==> r.Failure? && !u.Written?
      ensures file.Success? && BanwordList(old(Get(AppSection, BanwordsKey, Null))).None? ==> r == Failure(NotAList) && u == NotAList
      ensures file.Success? && BanwordList(old(Get(AppSection, BanwordsKey, Null))).Some? ==>
        var current := BanwordList(old(Get(AppSection, BanwordsKey, Null))).value;
        var added := NewWords(StrippedWords(file.value), set w | w in current);
        && r == Success(|added|)
        && (added == [] <==> !u.Written?)
        && (u.Written? ==>
              var k := |u.words| - |added|;
              && 0 <= k && u.words[k..] == added
              && (forall w :: w in u.words[..k] <==> w in current)
              && NoDup(u.words[..k]))
      ensures !u.Written? ==> View() == old(View()) && saved == None && sections == old(sections)
                              && DefaultsView() == old(DefaultsView())
      ensures u.Written? ==>
        && View() == TableSet(old(View()), AppSection, BanwordsKey, Words(u.words))
        && saved == Some(View())
    {
      match file {
        case Failure(e) =>
          return Failure(Unchanged), Unchanged, None;
        case Success(lines) =>
          var words := StrippedWords(lines);
          match BanwordList(Get(AppSection, BanwordsKey, Null)) {
            case None =>
              return Failure(NotAList), NotAList, None;
            case Some(stored) =>
              var current := set w | w in stored;
              var added := NewWords(words, current);
              r := Success(|added|);
              if added == [] {
                return r, Unchanged, None;
              }
              var kept := SetToSeq(current);
              u := Written(kept + added);
              assert u.words[..|kept|] == kept && u.words[|kept|..] == added;
              saved := ApplyUpdate(u);
          }
      }
    }
  }

  /** The default sections handled so far, as entries. */
  function Restrict(dv: Table, done: set<string>): (r: Table)
    requires done <= dv.Keys
    ensures r.Keys == done
  {
    map s | s in done :: dv[s]
  }

  /** Before any default section is handled, the merge is the loaded table. */
  lemma RestrictNone(loaded: Table, dv: Table)
    ensures Merge(loaded, Restrict(dv, {})) == loaded
  {
    var r := Merge(loaded, Restrict(dv, {}));
    assert r.Keys == loaded.Keys;
  }

  /** Once every default section is handled, the restriction is all of them. */
  lemma RestrictAll(dv: Table, done: set<string>)
    requires done == dv.Keys
    ensures Restrict(dv, done) == dv
  {
  }

  /** Handling one more default section extends the restriction by it. */
  lemma RestrictStep(dv: Table, done: set<string>, s: string)
    requires done <= dv.Keys && s in dv && s !in done
    ensures done + {s} <= dv.Keys
    ensures s !in Restrict(dv, done) && Restrict(dv, done + {s}) == Restrict(dv, done)[s := dv[s]]
  {
  }

  /** One more default section changes the merge at that section only. */
  lemma MergeStep(loaded: Table, d: Table, s: string, v: Entries)
    requires s !in d
    ensures Merge(loaded, d[s := v]) == Merge(loaded, d)[s := if s in loaded then v + loaded[s] else v]
  {
    var a := Merge(loaded, d[s := v]);
    var b := Merge(loaded, d)[s := if s in loaded then v + loaded[s] else v];
    forall t | t in a ensures t in b && a[t] == b[t] {
      MergeStepAt(loaded, d, s, v, t);
    }
    assert forall t :: t in b ==> t in a;
  }

  lemma MergeStepAt(loaded: Table, d: Table, s: string, v: Entries, t: string)
    requires s !in d && t in Merge(loaded, d[s := v])
    ensures var b := Merge(loaded, d)[s := if s in loaded then v + loaded[s] else v];
      t in b && Merge(loaded, d[s := v])[t] == b[t]
  {
    MergeAt(loaded, d[s := v], t);
    if t != s {
      MergeAt(loaded, d, t);
      MergedSectionElsewhere(loaded, d, s, v, t);
    }
  }

  lemma MergeAt(loaded: Table, d: Table, t: string)
    requires t in loaded || t in d
    ensures t in Merge(loaded, d) && Merge(loaded, d)[t] == MergedSection(loaded, d, t)
  {
  }

  lemma MergedSectionElsewhere(loaded: Table, d: Table, s: string, v: Entries, t: string)
    requires t != s && (t in loaded || t in d)
    ensures MergedSection(loaded, d[s := v], t) == MergedSection(loaded, d, t)
  {
    assert (t in d[s := v]) == (t in d);
  }

  /** One more default section calls for a write-back when the file lacks it or one of its keys. */
  lemma NeedsUpdateStep(loaded: Table, d: Table, s: string, v: Entries)
    requires s !in d
    ensures NeedsUpdate(loaded, d[s := v]) <==> NeedsUpdate(loaded, d) || s !in loaded || !(v.Keys <= loaded[s].Keys)
  {
    var d1 := d[s := v];
    if NeedsUpdate(loaded, d) {
      var t :| t in d && (t !in loaded || !(d[t].Keys <= loaded[t].Keys));
      assert t in d1 && d1[t] == d[t];
    }
    if s !in loaded || !(v.Keys <= loaded[s].Keys) {
      assert s in d1 && d1[s] == v;
    }
  }
}
