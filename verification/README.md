# LolzteamDonate, modelled in Dafny

LolzteamDonate polls the payment ledger of a Lolzteam (lolz.live) account and forwards each newly received payment to DonationAlerts as a custom alert. This project models the sequential logic that remains once the asyncio scheduling, the HTTP calls, the Qt widgets and the file I/O are removed. It then proves what that logic promises.

The modelled parts, one module each:

- **TextFiltering** (`text_filtering.dfy`)
  - The banned-word mask: case-insensitive, literal, length-preserving, one `*` per character.
  - The link filter, which replaces `http(s)://…` and `www.…` tokens by `[URL REMOVED]`.
  - Case folding is a per-character function parameter `fold`, so no alphabet is assumed.
  - Hand-written scanners stand in for Python's `re`.
- **PaymentMonitoring** (`payment_monitor.dfy`)
  - The `PaymentMonitor` object: `start`, `stop`, the setters and one turn of the polling loop, including the one-second sleep countdown.
  - The turn covers dedup against `known_payment_ids`, the five-minute slack on `last_check_time`, masking of username and comment, per-payment callbacks, the batch callback and queued alerts.
  - What the callbacks receive is returned as a sequence of events.
- **DonationAlerts** (`donation_alerts.dfy`)
  - The login `scope` parameter and the alert header.
  - The form fields of a custom alert and the status check of the reply.
  - The FIFO of pending alerts, with its single-step consumer and its start/stop guard.
- **Lolzteam** (`lolzteam.dfy`)
  - The hand-built authorisation URL and the access-token guards.
  - The mapping of the `payments` object of a history reply to payment records: defaults, amount normalisation, reversal.
- **Settings** (`settings.dfy`)
  - The section → key → value store: the default merge on load, `get`/`set`, the token checks and `reset`.
  - The banword list operations: add, remove, import.
  - Sections are objects. As in the program, a shallow copy of the defaults shares its section dictionaries with `DEFAULT_SETTINGS`, so a later `set` reaches the defaults too.
- **SettingsDialog** (`settings_dialog.dfy`)
  - Which dialog fields changed, which changes are significant, and what Save writes, including the parse-and-clamp of the two numbers.
  - Adding a banned word from the dialog, which stores the list at once.
- `pystrings.dfy` (`strip`, `rstrip`, `split`, `join`, `str(int)`, `int(str)`), `core_types.dfy` (`Payment`, `AlertInfo`) and `wrappers.dfy` (`Option`, `Result`) hold what the modules share.

Inputs from outside the program become parameters:
- the clock (integer seconds);
- fetched ledger pages, or the error the fetch raised;
- the HTTP reply to an alert POST;
- the parsed settings file;
- the lines of an imported word file;
- the widget contents (a `FormValues` record);
- whether each callback is installed, at which call the per-payment callback raises, and whether the batch callback raises.

## Model

| member | source | states |
|---|---|---|
| TextFiltering.Stars | core/text_filtering.py:26 | the replacement `'*' * len(word)`: exactly n mask characters |
| TextFiltering.SubstituteWord | core/text_filtering.py:25-26 | substituting one word yields a masked copy: same length, each position the original character or `*` |
| TextFiltering.ApplyWords | core/text_filtering.py:20-26 | applying the word list in turn yields a masked copy of the text |
| TextFiltering.FilterBanwords | core/text_filtering.py:17-30 | the filter's result is a masked copy of the input |
| TextFiltering.FilterTextWithBanwords | core/text_filtering.py:7-30 | the loop over the word list computes FilterBanwords; empty text or an empty list returns the input; the result is a masked copy |
| TextFiltering.MaskedMatchIsOriginalMatch | core/text_filtering.py:26 | a match in a masked copy is a match in the original, for a word the mask cannot match |
| TextFiltering.MaskingKeepsFreeOf | core/text_filtering.py:26 | masking never creates an occurrence of such a word |
| TextFiltering.SubstituteWordRemovesWord | core/text_filtering.py:25-26 | after substituting a mask-free word, it occurs nowhere, case-insensitively |
| TextFiltering.SubstituteAbsentWord | core/text_filtering.py:25-26 | substituting a word that does not occur changes nothing |
| TextFiltering.ApplyWordsRemovesAll | core/text_filtering.py:21-26 | after the loop, no non-empty mask-free banned word occurs |
| TextFiltering.ApplyAbsentWords | core/text_filtering.py:21-26 | applying words none of which occurs changes nothing |
| TextFiltering.FilterRemovesEveryBanword | core/text_filtering.py:17-26 | when no banned word has a mask-matching character, none occurs in the filtered text |
| TextFiltering.FilterBanwordsIdempotent | core/text_filtering.py:17-26 | under the same condition, filtering twice equals filtering once |
| TextFiltering.FilterWithMaskInWordNotIdempotent | core/text_filtering.py:21-26 | without that condition idempotence fails: `"aa*"` with `["a*"]` gives `"a**"`, then `"***"` |
| TextFiltering.NonEmptyWords | core/text_filtering.py:22 | the non-empty words of the list, in list order, none of them empty |
| TextFiltering.EmptyWordsSkipped | core/text_filtering.py:22 | empty strings in the list have no effect: the filter equals the one over the non-empty words |
| TextFiltering.ApplyWordsInOrder | core/text_filtering.py:21-26 | words act in list order: applying a + b is applying a, then b to the result |
| TextFiltering.TokenLength | core/text_filtering.py:48 | `\S*` taken greedily: a run of non-whitespace ending at whitespace or at the end |
| TextFiltering.UrlMatchLength | core/text_filtering.py:48 | a link match is non-empty, holds no whitespace and runs up to the next whitespace or the end |
| TextFiltering.FilterUrlsFromText | core/text_filtering.py:33-53 | unchanged text when filtering is off or the text is empty; otherwise no link is left in the result |
| TextFiltering.UrlStartsWithLetter | core/text_filtering.py:48 | every match starts with `h` or `w` |
| TextFiltering.NoUrlAtOtherLetter | core/text_filtering.py:48 | text starting with any other character starts no match |
| TextFiltering.FirstUrlStart | core/text_filtering.py:48-50 | the position of the leftmost match, with no match before it |
| TextFiltering.ReplaceUrlsCopiesPrefix | core/text_filtering.py:50 | the text before the first link is copied unchanged |
| TextFiltering.ReplaceUrlsAtUrl | core/text_filtering.py:50 | a link at the front is replaced by exactly `[URL REMOVED]`, and the substitution continues after the match |
| TextFiltering.ReplaceUrlsDoesNotStartWithUrl | core/text_filtering.py:50 | the output never begins with a link |
| TextFiltering.ReplaceUrlsLeavesNoUrl | core/text_filtering.py:48-50 | the output contains no further match anywhere |
| TextFiltering.ReplaceUrlsWithoutUrl | core/text_filtering.py:48-50 | text without links passes through unchanged |
| TextFiltering.FilterUrlsIdempotent | core/text_filtering.py:43-50 | filtering links twice equals filtering once |
| TextFiltering.StartsUrl | core/text_filtering.py:48 | definition: the pattern `https?://\S+`, or else `www\.\S+`, matches at the start; its properties are UrlStartsWithLetter, NoUrlAtOtherLetter and UrlMatchLength |
| TextFiltering.ReplaceUrls | core/text_filtering.py:48-50 | definition of `url_pattern.sub`, proved by ReplaceUrlsCopiesPrefix, ReplaceUrlsAtUrl, ReplaceUrlsLeavesNoUrl and ReplaceUrlsWithoutUrl |
| PaymentMonitoring.ScanAddsFreshIds | core/payment_monitor.py:210-220 | after the walk, the known ids are those before it plus the ids of the new payments |
| PaymentMonitoring.ScanFreshSound | core/payment_monitor.py:210-221 | every new payment was fetched, had an unknown id and `datetime > last_check_time - 300`; no id is new twice in a cycle |
| PaymentMonitoring.ScanFreshComplete | core/payment_monitor.py:210-221 | every fetched payment that is unknown and recent has its id among the new ones |
| PaymentMonitoring.ScanIsFilterForDistinctIds | core/payment_monitor.py:210-221 | with distinct fetched ids, the new payments are exactly the unknown, recent ones, in fetch order |
| PaymentMonitoring.ScanStep | core/payment_monitor.py:215-221 | one more payment is taken exactly when it is new with respect to what is known by then |
| PaymentMonitoring.ScanPrefix | core/payment_monitor.py:210-221 | the walk over a prefix of the fetch finds a prefix of the new payments |
| PaymentMonitoring.IsNew | core/payment_monitor.py:215 | definition: unknown id and a time later than the last check less 300 s; ScanFreshSound and ScanFreshComplete tie it to Scan |
| PaymentMonitoring.Scan | core/payment_monitor.py:210-221 | definition of the known ids and the new payments after the walk; ScanAddsFreshIds, ScanFreshSound, ScanFreshComplete and ScanIsFilterForDistinctIds state what it computes |
| PaymentMonitoring.MaskInline | core/payment_monitor.py:230-237 | the masking loop pasted into the cycle computes exactly the banned-word filter |
| PaymentMonitoring.MaskPaymentMasks | core/payment_monitor.py:226-247 | masking keeps id, amount and time; username and comment become masked copies in which no mask-free banned word occurs |
| PaymentMonitoring.MaskPaymentUntouched | core/payment_monitor.py:229-247 | with no banned words, or empty fields, a payment is passed on unchanged |
| PaymentMonitoring.MaskPayment | core/payment_monitor.py:226-247 | definition: username and comment through the banned-word filter; MaskPaymentMasks and MaskPaymentUntouched are its properties |
| PaymentMonitoring.AlertsFor | core/payment_monitor.py:258-262 | one alert per payment, carrying its amount, username and comment, in order |
| PaymentMonitoring.FaultOutcome | core/payment_monitor.py:250-283 | when the per-payment callback raises on the j-th new payment, the first j + 1 are known and masked, and only the first j have alerts |
| PaymentMonitoring.WalkCompleted | core/payment_monitor.py:210-264 | a walk that reaches the end without a raise has recorded, masked, reported and queued every new payment |
| PaymentMonitoring.PaymentEventsProjections | core/payment_monitor.py:249-264 | one payment's events: the callback when installed, an alert iff the token is set, no batch |
| PaymentMonitoring.EventsForProjections | core/payment_monitor.py:249-264 | the callback sees every new payment in order; an alert is queued for each iff the token is set; no batch call |
| PaymentMonitoring.CycleEventsProjections | core/payment_monitor.py:266-270 | a complete cycle makes at most one batch call, only when there are new payments, with exactly the masked new payments |
| PaymentMonitoring.EventsFor | core/payment_monitor.py:249-264 | definition of the events of the new payments, one payment after another; EventsForProjections states their content |
| PaymentMonitoring.BatchEvents | core/payment_monitor.py:266-270 | definition: one batch call with all new payments when there are any and the callback is set; CycleEventsProjections counts it |
| PaymentMonitoring.ErrorEvents | core/payment_monitor.py:145-149 | definition: the error callback's call when it is set, used by Start and MonitorIteration |
| PaymentMonitoring.BatchFails | core/payment_monitor.py:268-270 | definition: the batch callback is called and raises; MonitorIteration states the outcome |
| PaymentMonitoring.PaymentMonitor.constructor | core/payment_monitor.py:20-46 | not running, no task, no known ids, no token, no callbacks, `last_check_time` 0 |
| PaymentMonitoring.PaymentMonitor.State | core/payment_monitor.py:20-46 | definition: every field of the monitor as one value, used by the setters and Stop to state their whole new state |
| PaymentMonitoring.PaymentMonitor.SetOnPaymentsUpdatedCallback | core/payment_monitor.py:51-57 | installs or removes the batch callback; the whole state (`State()`) is otherwise the old one, field by field |
| PaymentMonitoring.PaymentMonitor.SetDonationAlertsToken | core/payment_monitor.py:60-66 | stores the token; the whole state (`State()`) is otherwise the old one, field by field |
| PaymentMonitoring.PaymentMonitor.SetMinAmount | core/payment_monitor.py:69-75 | stores the minimum amount; the whole state (`State()`) is otherwise the old one, field by field |
| PaymentMonitoring.PaymentMonitor.SetCheckInterval | core/payment_monitor.py:78-84 | stores the interval; the whole state (`State()`) is otherwise the old one, field by field |
| PaymentMonitoring.PaymentMonitor.SetOnPaymentCallback | core/payment_monitor.py:87-93 | installs or removes the per-payment callback; the whole state (`State()`) is otherwise the old one, field by field |
| PaymentMonitoring.PaymentMonitor.SetOnErrorCallback | core/payment_monitor.py:96-102 | installs or removes the error callback; the whole state (`State()`) is otherwise the old one, field by field |
| PaymentMonitoring.PaymentMonitor.Start | core/payment_monitor.py:105-151 | no effect when running; otherwise the consumer starts when the token is set; a seed success replaces the known ids by the seed's and stamps the time; a seed failure clears `running`, reports `InitializeException` and leaves the consumer running |
| PaymentMonitoring.PaymentMonitor.Stop | core/payment_monitor.py:153-185 | None with no effect when stopped; otherwise `running` cleared, task ended, consumer stopped, True; pending alerts kept; every other field keeps its value |
| PaymentMonitoring.PaymentMonitor.SleepCountdown | core/payment_monitor.py:289-293 | the countdown takes `check_interval` one-second steps while running, none otherwise |
| PaymentMonitoring.PaymentMonitor.HandleNewPayment | core/payment_monitor.py:223-264 | masks the payment, reports it, and queues its alert iff the token is set; a raising callback queues nothing |
| PaymentMonitoring.PaymentMonitor.TakePayment | core/payment_monitor.py:217-264 | one new payment extends the found, masked, reported and queued sequences by exactly that payment |
| PaymentMonitoring.PaymentMonitor.VisitPayment | core/payment_monitor.py:210-264 | one fetched payment: the walk state stays that of the fetch prefix, or stops at the callback's raise |
| PaymentMonitoring.PaymentMonitor.WalkPayments | core/payment_monitor.py:210-264 | the loop over the fetched payments ends in the outcome the two walk lemmas describe |
| PaymentMonitoring.PaymentMonitor.MonitorIteration | core/payment_monitor.py:187-299 | one turn: exit, with the task ended, when not running; a failed fetch reports the error and pauses 5 s with ids and clock unchanged; otherwise the new ids are added, the per-payment events, batch and alerts are emitted, the clock becomes the cycle start and the sleep countdown follows; a raise of the per-payment callback keeps the ids up to the failing payment, the alerts before it and the old clock; a raise of the batch callback keeps all ids and alerts and the old clock; both report the error and pause 5 s; known ids only grow; settings, callbacks and the task flag of a running monitor are unchanged |
| PaymentMonitoring.PaymentMonitor.ProcessFetched | core/payment_monitor.py:199-293 | the turn after a successful fetch, with the same outcomes as MonitorIteration for both callback raises; settings, callbacks and the task flag are unchanged |
| DonationAlerts.EffectiveScopes | core/donation_alerts.py:45 | `scopes or [USER_SHOW, CUSTOM_ALERT_STORE]`: None or empty falls back to the two defaults |
| DonationAlerts.ScopeValues | core/donation_alerts.py:60 | each scope's value, in list order |
| DonationAlerts.ScopeValueParses | core/donation_alerts.py:18-21 | each scope value names its scope and holds no space |
| DonationAlerts.ScopeParameterRoundTrip | core/donation_alerts.py:56-61 | splitting the scope parameter at spaces gives back the scopes, in order |
| DonationAlerts.FormData | core/donation_alerts.py:113-118 | the form always holds `header`, and holds `message` iff the message is not empty |
| DonationAlerts.AlertHeader | core/donation_alerts.py:167 | the header is the username, then `" — "`, then the amount, then `" RUB"` |
| DonationAlerts.SendOutcome | core/donation_alerts.py:120-133 | success iff the status is 201 with a JSON body; other statuses and transport errors become `SendAlertException` |
| DonationAlerts.DonationAlertsApi.constructor | core/donation_alerts.py:30-48 | stores client id and redirect URI, the effective scopes, an empty queue and no consumer |
| DonationAlerts.DonationAlertsApi.QueueAlert | core/donation_alerts.py:177-191 | appends one `AlertInfo` at the tail |
| DonationAlerts.DonationAlertsApi.StartAlertProcessor | core/donation_alerts.py:135-144 | no effect when a consumer exists; otherwise one starts with the token |
| DonationAlerts.DonationAlertsApi.StopAlertProcessor | core/donation_alerts.py:146-154 | no consumer afterwards; the queue is untouched |
| DonationAlerts.DonationAlertsApi.ProcessNextAlert | core/donation_alerts.py:162-175 | takes the head alert, sends header and message with the consumer's token, and drops it whatever the outcome |
| Lolzteam.QueryItems | core/lolzteam.py:47 | one `key=value` item per parameter, in order |
| Lolzteam.AuthQueryShape | core/lolzteam.py:40-47 | the query is the client id between `client_id=` and `&response_type=token&scope=payment basic` |
| Lolzteam.GetAuthUrl | core/lolzteam.py:32-48 | `BASE_URL + "/account/authorize?client_id=" + client_id + "&response_type=token&scope=payment basic"`, with no URL-encoding |
| Lolzteam.AuthQuerySplits | core/lolzteam.py:47 | a client id without `&` is recovered by splitting the query at `&` |
| Lolzteam.GetUserInfo | core/lolzteam.py:58-96 | raises before any request without a token; succeeds iff the status is 200 with a JSON body |
| Lolzteam.NormalizeAmount | core/lolzteam.py:156-160 | a non-integral-float amount becomes a prefix of `str(v)` with only `0`s and `.`s removed, never ending in `.` |
| Lolzteam.IntegralAmountRoundTrip | core/lolzteam.py:157-158 | an integral float's text reads back as its integer |
| Lolzteam.AmountNormalisationExamples | core/lolzteam.py:156-160 | the int `100` becomes `"1"`; a missing amount becomes `""` |
| Lolzteam.FractionalAmountExample | core/lolzteam.py:160 | `"12.50"` becomes `"12.5"` |
| Lolzteam.ZeroFractionExample | core/lolzteam.py:160 | `"10.0"` becomes `"10"` |
| Lolzteam.IntegralAmountExample | core/lolzteam.py:158 | the float `100.0` becomes `"100"` |
| Lolzteam.ToRecord | core/lolzteam.py:156-172 | the record's id is the key, its amount normalised, its time the operation date or the current time |
| Lolzteam.RecordDefaults | core/lolzteam.py:162-170 | a missing or non-object data section gives username `Неизвестно` and an empty comment |
| Lolzteam.CollectRecordsOnePerEntry | core/lolzteam.py:153-173 | one record per entry, in iteration order, with id equal to the key, exactly when every entry is an object |
| Lolzteam.CollectRecordsFailureSticks | core/lolzteam.py:153-173 | once an entry fails, the whole history fails the same way |
| Lolzteam.CollectRecords | core/lolzteam.py:149-173 | definition of the append loop's records; CollectRecordsOnePerEntry and CollectRecordsFailureSticks are its properties |
| Lolzteam.Reverse | core/lolzteam.py:177 | `list(reversed(...))`: position k holds element n - 1 - k |
| Lolzteam.GetPaymentHistory | core/lolzteam.py:98-188 | the append loop and the reversal compute what the history call returns or raises |
| Lolzteam.TokenGuards | core/lolzteam.py:111-112 | without a token, history and user info both raise before any request, whatever the reply |
| Lolzteam.NoPaymentsObjectGivesEmpty | core/lolzteam.py:144-175 | a body without `payments`, or with a non-object `payments`, gives the empty list |
| Lolzteam.ReversedRecords | core/lolzteam.py:177 | the k-th record of the reversed list comes from the k-th entry from the end |
| Lolzteam.HistoryIsReversedRecords | core/lolzteam.py:149-177 | the history has one record per entry, in reverse of the iteration order |
| Lolzteam.PaymentHistory | core/lolzteam.py:98-188 | definition of what `get_payment_history` returns or raises; TokenGuards, NoPaymentsObjectGivesEmpty and HistoryIsReversedRecords state it, GetPaymentHistory computes it |
| Settings.TableSet | config/settings.py:119-122 | after `set`, the entry reads back as the value; a missing section is created; every other entry is unchanged |
| Settings.Merge | config/settings.py:64-74 | the merged sections are those of the file and of the defaults |
| Settings.MergeCompletes | config/settings.py:64-74 | after loading, every default section and key is present, and loaded keys keep their loaded values |
| Settings.NeedsUpdateIffMergeChanges | config/settings.py:65-77 | the merged settings are written back iff the merge changed the loaded table |
| Settings.MergeIdempotent | config/settings.py:64-78 | loading the merged settings again adds nothing and writes nothing |
| Settings.NeedsUpdate | config/settings.py:65-77 | definition: some default section or key is missing; NeedsUpdateIffMergeChanges ties it to the merge |
| Settings.StoredTokenConfigures | config/settings.py:126-134 | storing a token string configures the service iff the string is not empty |
| Settings.DefaultsUnconfigured | config/settings.py:17-27 | neither service is configured by the built-in defaults |
| Settings.BanwordList | config/settings.py:175 | `get("app", "banwords") or []`: a falsy value reads as the empty list, a list as itself |
| Settings.AddBanwordUpdate | config/settings.py:172-179 | blank words are ignored; otherwise the unstripped word is appended iff absent |
| Settings.AddBanwordKeepsNoDup | config/settings.py:176-178 | adding never creates a duplicate, and the word is listed afterwards |
| Settings.RemoveFirstAbsent | config/settings.py:188 | removing an absent word changes nothing |
| Settings.RemoveFirstAt | config/settings.py:189 | `list.remove` cuts out the first occurrence and keeps the rest in order |
| Settings.RemoveFirstMultiset | config/settings.py:189 | exactly one occurrence of a present word goes |
| Settings.RemoveFirst | config/settings.py:189 | definition of `list.remove`; RemoveFirstAbsent, RemoveFirstAt and RemoveFirstMultiset are its properties |
| Settings.RemoveBanwordUpdate | config/settings.py:187-191 | a present word has its first occurrence removed and is written; an absent word writes nothing |
| Settings.RemoveBanwordDropsWord | config/settings.py:187-191 | on a duplicate-free list, removal leaves it duplicate-free, one shorter and without the word |
| Settings.StrippedWords | config/settings.py:252 | the imported words are stripped and non-empty |
| Settings.NewWordsFilter | config/settings.py:255 | the new words are exactly the file words not in the list, in file order, each occurrence kept |
| Settings.ImportKeepsFileRepeats | config/settings.py:255 | repeats inside the file are all imported |
| Settings.NewWords | config/settings.py:255 | definition of the comprehension; NewWordsFilter and ImportKeepsFileRepeats are its properties |
| Settings.SetToSeq | config/settings.py:258 | `list(set)` holds every element once, in an order left open |
| Settings.NewDefaultSections | config/settings.py:17-38 | `DEFAULT_SETTINGS` as fresh section objects |
| Settings.NewSections | config/settings.py:61-62 | `json.load` gives a fresh section object per section of the file |
| Settings.FillSection | config/settings.py:71-74 | each missing default key is added with its default value; the flag is set iff something was added |
| Settings.FillSectionOf | config/settings.py:71-74 | filling one section changes that section only, and never the defaults' objects |
| Settings.WriteEntry | config/settings.py:122 | writing into a section object shows in every table that holds the same object, the defaults included |
| Settings.MergeOneSection | config/settings.py:66-74 | one turn of the merge loop takes over the default's own object or fills in the section's missing keys |
| Settings.MergeDefaults | config/settings.py:64-74 | the loop computes Merge; the file's sections are fresh; missing sections are the defaults' own objects; the flag is set iff something was added |
| Settings.SettingsStore.constructor | config/settings.py:40-45 | the store starts with the shared defaults |
| Settings.SettingsStore.Load | config/settings.py:54-83 | a missing file gives the defaults' own sections, saved; an unreadable one the same, unsaved; a parsed one the merge, saved iff something was added; the defaults are unchanged |
| Settings.SettingsStore.LoadParsed | config/settings.py:60-80 | the merge of a parsed file, and the write-back iff it added anything |
| Settings.SettingsStore.Get | config/settings.py:98-109 | the stored value when section and key exist, a stored None included; otherwise the default |
| Settings.SettingsStore.Set | config/settings.py:111-124 | the entry is written, a missing section created; every other entry is kept; the defaults change too when the section is shared with them; the whole table is saved |
| Settings.SettingsStore.IsDonationAlertsConfigured | config/settings.py:126-129 | true iff the token is neither None nor empty |
| Settings.SettingsStore.IsLolzteamConfigured | config/settings.py:131-134 | true iff the token is neither None nor empty |
| Settings.SettingsStore.Reset | config/settings.py:160-164 | the sections become the defaults' own objects, and they are saved |
| Settings.SettingsStore.GetBanwords | config/settings.py:193-199 | the stored value, or an empty list when it is falsy |
| Settings.SettingsStore.AddBanword | config/settings.py:166-179 | performs AddBanwordUpdate through `set`, or changes nothing |
| Settings.SettingsStore.RemoveBanword | config/settings.py:181-191 | performs RemoveBanwordUpdate through `set`, or changes nothing |
| Settings.SettingsStore.ImportBanwords | config/settings.py:238-264 | returns the count of new words; writes iff there are any, as the old words (once each) followed by the new ones; a read error changes nothing |
| Settings.MergeStep | config/settings.py:66-74 | one more default section changes the merge at that section only |
| Settings.NeedsUpdateStep | config/settings.py:66-74 | one more default section calls for a write-back iff the file lacks it or one of its keys |
| PyStrings.RStripWhile | core/lolzteam.py:160 | `rstrip`: a prefix, with only stripped characters removed and none left at the end |
| PyStrings.LStripWhile | config/settings.py:172 | `lstrip`: a suffix, with only stripped characters removed and none left at the start |
| PyStrings.Strip | config/settings.py:172 | `strip()` is empty iff the text is all whitespace, and otherwise has no whitespace at either end |
| PyStrings.StripWhileSlice | core/lolzteam.py:160 | lstrip then rstrip leave a slice of the text, with only stripped characters before and after it |
| PyStrings.StripSlice | config/settings.py:172 | `strip()` is a slice of the text with only whitespace before and after it |
| PyStrings.SplitJoin | core/donation_alerts.py:60 | splitting a join at its separator gives the parts back when no part holds the separator |
| PyStrings.Join | core/donation_alerts.py:60 | definition of `sep.join`; SplitJoin is its round trip |
| PyStrings.Split | core/donation_alerts.py:60 | definition of `split` at one character, every split kept; SplitJoin is its round trip |
| PyStrings.NatToDecimal | core/lolzteam.py:158 | `str(n)`: decimal digits without a leading zero |
| PyStrings.ParseIntOfIntToDecimal | gui/settings_dialog.py:511 | `int(str(n)) == n` |
| PyStrings.IntToDecimal | gui/settings_dialog.py:408-411 | definition of `str(n)`: a sign, then NatToDecimal; ParseIntOfIntToDecimal is its round trip |
| PyStrings.ParseInt | gui/settings_dialog.py:511-519 | definition of `int(text)`, None where Python raises; ParseIntOfIntToDecimal is its round trip, ParseIntKeepsSeparators and ParseIntSkipsBlanks fix which whitespace it skips |
| PyStrings.ParseSigned | gui/settings_dialog.py:511-519 | definition of `int()` on a text without surrounding whitespace: an optional sign, then a digit run |
| PyStrings.IntStrip | gui/settings_dialog.py:511-519 | the whitespace `int()` skips is removed from both ends, and none is left at either end |
| PyStrings.IntStripUntrimmed | gui/settings_dialog.py:511-519 | a text with no such whitespace at either end is left as it is |
| PyStrings.DecimalUntrimmed | gui/settings_dialog.py:408-411 | `str(n)` has no whitespace around it |
| PyStrings.ParseIntKeepsSeparators | gui/settings_dialog.py:511-515 | `int("\x1c5")` raises although `"\x1c".isspace()`: the four information separators are not skipped |
| PyStrings.ParseIntSkipsBlanks | gui/settings_dialog.py:511-515 | `int(" 5\t")` is 5 |

| SettingsDialog.ChangesBeforeReports | gui/settings_dialog.py:563-611 | checking the fields in order reports exactly the differing ones, once each, in the dialog's order |
| SettingsDialog.Differs | gui/settings_dialog.py:563-611 | definition: a field differs from its value at load, banwords as sets; ChangesBeforeReports and SaveOutcome use it |
| SettingsDialog.HasSignificantChanges | gui/settings_dialog.py:613-623 | true iff some change is one of the six credential keys, `min_payment_amount` or `check_interval` |
| SettingsDialog.SignificantIff | gui/settings_dialog.py:613-623 | the changes of a save are significant iff a credential or one of the two numbers differs; theme, start flags and banwords never are |
| SettingsDialog.ReorderedBanwordsNoChange | gui/settings_dialog.py:604-609 | banwords are compared as sets: reordering the list alone reports no change and writes nothing |
| SettingsDialog.SavedMinAmount | gui/settings_dialog.py:509-515 | `max(int(text), 1)`, or 1 when the text does not parse |
| SettingsDialog.SavedCheckInterval | gui/settings_dialog.py:517-523 | `max(int(text), 1)`, or 30 when the text does not parse |
| SettingsDialog.SavedNumbersRoundTrip | gui/settings_dialog.py:509-523 | a number shown as `str(n)` is saved back as n when at least 1, and as 1 otherwise |
| SettingsDialog.BlankNumbers | gui/settings_dialog.py:509-523 | an emptied or blank field saves 1 and 30 |
| SettingsDialog.TargetInjective | gui/settings_dialog.py:466-554 | different fields are saved under different section/key pairs |
| SettingsDialog.FieldOfTarget | gui/settings_dialog.py:466-554 | each field is found again from the section and key it is saved under |
| SettingsDialog.SaveWritesShape | gui/settings_dialog.py:466-554 | Save writes once for each changed field, to distinct places, and nothing else |
| SettingsDialog.SaveWritesOutcome | gui/settings_dialog.py:466-554 | after Save, a field's entry holds its saved value iff the field is in the change list, and is unchanged otherwise |
| SettingsDialog.SaveOutcome | gui/settings_dialog.py:463-554 | after Save, a field's entry holds its saved value iff the field differs from the value at load, and is unchanged otherwise |
| SettingsDialog.SaveWritesLeaveOthers | gui/settings_dialog.py:466-554 | entries that no field is saved under are never written |
| SettingsDialog.Target | gui/settings_dialog.py:466-554 | definition of the section and key of each field; TargetInjective and FieldOfTarget are its properties |
| SettingsDialog.SavedValue | gui/settings_dialog.py:466-554 | definition of the value each field is saved as; SavedMinAmount and SavedCheckInterval state the two numbers |
| SettingsDialog.SaveWrites | gui/settings_dialog.py:466-554 | definition of the `set` calls of a save; SaveWritesShape, SaveWritesOutcome and SaveWritesLeaveOthers are its properties |
| SettingsDialog.Lowered | gui/settings_dialog.py:685 | `s.lower()`, one character at a time |
| SettingsDialog.AddKeepsNoCaseDup | gui/settings_dialog.py:684-692 | a word not yet listed up to case keeps the list free of case-insensitive repeats, and is listed afterwards |
| SettingsDialog.Dialog.constructor | gui/settings_dialog.py:71-102 | the theme is the stored one, or `light` when falsy; the shown values are captured as the originals |
| SettingsDialog.Dialog.GetChangedSettings | gui/settings_dialog.py:563-611 | the change list holds exactly the fields that differ from the originals, once each, in the dialog's order |
| SettingsDialog.Dialog.SaveSettings | gui/settings_dialog.py:461-561 | only changed fields are written, each through `set`; the theme is taken over and `theme_changed` emitted iff it changed; `settings_saved` iff the changes are significant; then accept |
| SettingsDialog.Dialog.WriteAll | gui/settings_dialog.py:466-554 | the `set` calls of a save, in order, each saving the table as it then stands |
| SettingsDialog.Dialog.TakeTheme | gui/settings_dialog.py:544 | the dialog's current theme is replaced; the store is untouched |
| SettingsDialog.Dialog.ShowAdded | gui/settings_dialog.py:692-693 | the word is appended to the shown list and the input cleared; the store is untouched |
| SettingsDialog.Dialog.SaveBanwords | gui/settings_dialog.py:711-718 | the shown list is written under `app.banwords` through `set` |
| SettingsDialog.Dialog.AddBanword | gui/settings_dialog.py:678-696 | the stripped input is ignored when empty or already listed up to case; otherwise it is appended, the input cleared and the list saved at once; no case-insensitive repeat is ever created |

## Left out

- Asynchronous scheduling is not modelled: `create_task`, `cancel`, `wait_for(shield(...))`, the blocking queue `get` and `task_done`. A polling turn and a consumer step are plain methods, and the task is a flag.
- Network I/O is not modelled. This covers every `requests`/`aiohttp` call, `verify_token`, `user`, and the OAuth callback servers. Replies and fetched pages are parameters.
- The wall clock (`time.time()`, `datetime.now()`) is an integer parameter. The strict `>` comparison is kept.
- Floating point is not modelled. An amount is tagged as an integral float (with its integer) or as any other value (with its `str()` text). Amounts in alerts are texts.
- File and JSON persistence is not modelled. The file is an input to `Load` (missing, unreadable or parsed), and every save returns the table it would write. `_save_settings` swallowing an `IOError` is not modelled.
- `DonationAlerts.login` builds its URL with `urlencode`, which is not modelled. Only its `scope` parameter is.
- `print`, logging, GUI widgets, styles and OS notifications are not modelled. Widget contents are a `FormValues` record. Callbacks are recorded as events, not called.
- Case-insensitive matching is a per-character `fold` (banned words) or `lower` (dialog) function. Case mappings that change a string's length are not modelled.
- `int()` is modelled for ASCII digits with an optional sign, single underscores and surrounding whitespace. The whitespace is every `str.isspace()` character except U+001C to U+001F, which the C parser does not skip. Other Unicode digits are not modelled.
- Banword values that are neither falsy nor a list are not modelled: the list operations report `NotAList` instead of Python's behaviour on strings or numbers. The list held in the store is a value, so the in-place `append`/`remove` is not shared with other holders of that list object.
- `_remove_banword` of the dialog is not modelled: it depends on the widget selection.
- `reject`, the token tests, stats reset, factory reset and export of the dialog and the store are not modelled.
- `SettingsDialog.Dialog.GetChangedSettings` performs the twelve field checks as one loop over the field order. `SettingsDialog.Dialog.SaveSettings` performs its twelve conditional writes from a computed write list in the same order.
- `Settings.SettingsStore.ImportBanwords` does not state how the defaults change when the `app` section is shared with them. `Set`, `AddBanword` and `RemoveBanword` do state it.
- `SettingsDialog.Dialog.SaveSettings` states the store's table after the writes but not the defaults' table.
- `SettingsDialog.Dialog.SaveBanwords` states the store's table after the write but not the defaults' table.
- `SettingsDialog.Dialog.AddBanword` states the store's table after the write but not the defaults' table.
- `Settings.SettingsStore.constructor` stops before the `_load_settings` call. The caller makes that call next with `Load`.
- The `scopes` of `DonationAlertsApi` are kept only as the effective list. The login URL is not built.
- `PaymentMonitoring.PaymentMonitor.MonitorIteration` assumes the error callback does not raise. When it raises inside the cycle handler, the exception leaves the loop, the outer handler calls the error callback again and the task ends with `running` still true. That path is not modelled.
- `PaymentMonitoring.PaymentMonitor.Start` assumes the error callback does not raise. When it raises on the missing-token warning or on a failed seed fetch, `start` ends early with `running` still true. That path is not modelled.
- `Lolzteam.PaymentHistory` models JSON values only where the code reads them as the right kind. A present but null `operation_date` gives a `None` time, and the comparison in the cycle would then raise on every turn; a null `username` or `commentPlain` is passed on as `None`; a body that is not an object fails at `data.keys()`. None of these is modelled. Every record has a time, so the default of `payment.get("datetime", 0)` cannot arise. `InvalidJson` stands for a body that does not decode; with requests 2.27 or later that error is a `RequestException` and reports a network error instead.
- `Settings.SettingsStore.Load` covers a parsed file that is an object whose members are objects. A file that parses as JSON but is another shape makes the merge in `_load_settings` raise `TypeError`: a top-level list, or a section that is a number, a string or null. That error is not caught there and leaves `Settings()`; `SettingsFile` has no case for it. Setting values are limited to `Value`: null, booleans, integers, strings and lists of strings. Floats, nested objects and other lists are not modelled.
- `PaymentMonitoring.PaymentMonitor.MonitorIteration`, `PaymentMonitoring.PaymentMonitor.ProcessFetched` and `PaymentMonitoring.PaymentMonitor.WalkPayments` take one banned-word list for the whole cycle. The program builds a new `Settings()` for each new payment, and so reloads the settings file each time; that reload may itself write the file. A change to the file in the middle of a cycle, such as a word the dialog saves at once, masks the later payments of that cycle with the new list. The model does not capture this.
