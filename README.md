# Cleep system application, verified model

This project models the backend core of Cleep's `system` application in Dafny.

- **The `System` class** (`backend/system.py`) is modelled as a class with the state its methods update:
  - the configuration fields the modelled commands touch (`monitoring`, `eventsnotrenderable`, `cleepbackupdelay`, `needreboot`);
  - the monitor device uuids;
  - the two monitoring task fields;
  - the restart flag and the `cleep_backup_delay` member.

  Every call the application makes to a collaborator is recorded, in order, in an `effects` trace. The collaborators are the configuration store, the events, the events broker, the tasks, the device registry, the drivers, the backup and the console.
- **The not-renderable event registry** is the core:
  - the list of `renderer + "__" + event` keys;
  - how `set_event_renderable` toggles one key;
  - how `get_not_renderable_events` splits keys back into `{renderer, event}` pairs, with Python's `str.split` semantics;
  - how `_set_not_renderable_events` reconciles the list with the events the broker still resolves.
- **Monitoring**: starting and stopping the monitoring tasks, the CPU and memory ticks, the memory alert threshold and the uptime.
- **`on_event`** flags and the backup every N minutes, the backup delay setting, the creation of the missing monitor devices at configuration, and the driver install and uninstall commands with their completion callbacks.
- **The `system.time.now` text-to-speech formatter.** Its partner is a reader (`TimeToSpeech.ReadTime`). The reader splits a phrase into words at single spaces, as `str.split(' ')` does, and parses the words back into a time.
- **The chart decompositions** of the CPU and memory monitoring events. Each exists in two copies (capitalised and lowercase file names), and each copy is proved to agree with the other.
- **The parameter checks** of six system events.

## Modelling choices

- **Collaborators become inputs.**
  - The events broker is the set `known` of event names it resolves.
  - The outcome of a configuration write is a boolean (`persistOk`). `_configure` makes two independent writes, so `Configure` takes one flag for each (`rebootWriteOk`, `listWriteOk`).
  - The device list, the drivers registry's answer and the psutil/time readings are method parameters.
- **Outward calls are recorded.** Each becomes an `Effect` in the trace rather than being executed.
- **Exceptions become values.** Python exceptions are `Err` values of a `Result`. A failed `_check_parameters` on an empty string reports `Parameter "X" is invalid (specified="")`.
- **Numbers.** Floats are exact reals. `int()` truncates toward zero. Python's `%` takes the sign of the divisor (`Lifecycle.PyMod`). Two-decimal formatting is round-half-even on the exact value (`Charts.Round2`).
- **Key reconciliation follows the code.** Where the code and its description differ, the model follows the code: a stale key stored twice keeps one copy, because `_set_not_renderable_events` collects each key once and removes it once (`NotRenderable.DuplicatedStaleKeyLeavesOneCopy`).
- **Backup delay bound.** The accepted delay is 5 to 120 minutes, as the validator lambda says. The docstring says 5..60.

## Model

| member | source | states |
|---|---|---|
| SystemApp.System.constructor | backend/system.py:77-90 | A fresh application holds the stored configuration, no monitor uuids, no monitoring task, a clear restart flag, an unset backup delay and has made no call yet |
| SystemApp.DefaultConfigIsConsistent | backend/system.py:44-55 | The default configuration (monitoring off, empty not-renderable list, backup every 15 minutes, no reboot pending) passes the backup delay check, and its list reads back and survives reconciliation unchanged |
| SystemApp.System.Configure | backend/system.py:105-148 | `_configure` ends in a fully stated state. It writes `needreboot` false (kept only if that write succeeds) and loads the backup delay. It takes the monitor uuids from the device list and creates exactly the missing monitor devices. It then records one `set_renderable(renderer, False)` per resolved stored pair, in order, and writes the list once. A successful list write stores the reconciled list. It fails, with the read-back error, exactly when the stored list does not read back; the devices are already created then, and the list and its calls are untouched |
| SystemApp.System.DiscoverDevices | backend/system.py:123-131 | The device loop leaves each uuid field at the uuid of the last device of its type, or unchanged when there is none; the `monitor` uuid is returned |
| Lifecycle.LastUuidOfType | backend/system.py:125-131 | None exactly when no device has the type; otherwise the uuid of a device of that type after which no device of that type follows |
| Lifecycle.LastUuidStep | backend/system.py:125-131 | One more device of the loop: a device of the type replaces the uuid found so far, any other device leaves it |
| SystemApp.System.CreateMissingDevices | backend/system.py:133-145 | Appends exactly the `_add_device` calls of `MissingDevices` for the three monitor uuids |
| Lifecycle.MissingDevices | backend/system.py:133-145 | One device is added per monitor whose uuid is not truthy (None or empty), with the source's type and name; the count is the number of missing monitors |
| SystemApp.System.GetNotRenderableEvents | backend/system.py:791-813 | The split loop returns exactly `ParseKeys` of the stored list, including the error of the first key that does not unpack |
| RenderKeys.ParseKeys | backend/system.py:808-813 | Succeeds iff every stored key splits into exactly two parts; then one entry per key, in order, each re-encoding to its key; a failure names a stored key |
| RenderKeys.EncodeKey | backend/system.py:775 | The key `renderer + "__" + event`. It has no contract of its own: SplitEncodedKey and ParseEncodedKey state when it reads back as its pair, and TrailingUnderscoreMovesToEvent when it does not |
| RenderKeys.Split | backend/system.py:810 | `str.split("__")` always returns at least one part. JoinSplit, PartsHaveNoSeparator, FirstPartNoTrailingUnderscore, SplitWithoutSeparator and SplitAfterName state what the parts are |
| RenderKeys.ParseKey | backend/system.py:810 | `(renderer, event) = key.split("__")` succeeds iff the split has two parts, and the two parts re-encode to the key; otherwise ValueError. Neither part it returns contains "__" and the renderer does not end with '_', so it is the one such pair that encodes to the key |
| RenderKeys.JoinSplit | backend/system.py:810 | `str.split` loses nothing: joining the parts with "__" gives the key back |
| RenderKeys.PartsHaveNoSeparator | backend/system.py:810 | No part of a split contains "__" |
| RenderKeys.FirstPartNoTrailingUnderscore | backend/system.py:810 | When a key splits, its first part never ends with '_' (the scan cuts at the leftmost separator) |
| RenderKeys.SplitWithoutSeparator | backend/system.py:810 | A string without "__" splits into itself alone |
| RenderKeys.SplitAfterName | backend/system.py:810 | A name without "__" and without a trailing '_' followed by "__" is cut exactly after the name |
| RenderKeys.SplitEncodedKey | backend/system.py:775 | The key built from (r, e) splits back into [r, e] if and only if neither name contains "__" and r does not end with '_' |
| RenderKeys.ParseEncodedKey | backend/system.py:775 | Reading the key of a well-formed pair gives the pair back |
| RenderKeys.TrailingUnderscoreMovesToEvent | backend/system.py:810 | A renderer ending in '_' does not survive the round trip: ("a_", "b") is stored as "a___b", which reads back as ("a", "_b") |
| RenderKeys.ParseKeysAppend | backend/system.py:809-811 | Reading a list extended by a readable key reads the list, then that key |
| RenderKeys.ParseKeysFirstError | backend/system.py:809-810 | The first key that does not unpack decides the error, whatever follows it |
| Parameters.CheckStrings | backend/system.py:765-771 | Succeeds iff every string parameter is non-empty; otherwise reports the first empty one, by name, as InvalidParameter |
| SystemApp.System.SetEventRenderable | backend/system.py:744-789 | Rejects empty names. Otherwise persists the toggled list; a failed write raises "Unable to save configuration" before the broker call. A successful one calls `set_event_renderable(event, renderer, renderable)` and returns the list read back |
| NotRenderable.ToggleKey | backend/system.py:777-782 | The edit `set_event_renderable` makes to the list, with no contract of its own. DisableStoresKeyOnce, DisableIdempotent, EnableDropsOneOccurrence, EnableKeepsLaterCopy and DisableThenEnable state its effect |
| NotRenderable.DisableStoresKeyOnce | backend/system.py:780-782 | Disabling stores the key; an absent key is stored exactly once and no other key's count changes |
| NotRenderable.DisableIdempotent | backend/system.py:780-782 | Disabling twice leaves the same list as disabling once |
| NotRenderable.EnableDropsOneOccurrence | backend/system.py:777-779 | Enabling removes exactly one occurrence of the key (none when absent), the first one: the keys before it stay in place and the keys after it move up by one |
| NotRenderable.EnableKeepsLaterCopy | backend/system.py:777-779 | With a key stored before and after another key, enabling it keeps the later copy |
| NotRenderable.DisableThenEnable | backend/system.py:777-782 | Disabling then enabling a pair that was not stored restores the list |
| NotRenderable.DisableReportsEntry | backend/system.py:780-789 | After disabling a well-formed pair on a readable list, the returned list reads back and contains the pair |
| Lists.RemoveFirst | backend/system.py:779 | `list.remove` drops one occurrence when present (multiset minus one), otherwise leaves the list alone |
| Lists.IndexOf | backend/system.py:779 | The position `list.remove` searches for: an occurrence of the element with none before it |
| Lists.RemoveFirstDropsFirstOccurrence | backend/system.py:779 | The copy `list.remove` drops is the first: elements before it keep their places, elements after it move up by one |
| Lists.DropNothing | backend/system.py:740-741 | The single left-to-right pass with no key to drop keeps the list |
| Lists.RemoveFirstThenDrop | backend/system.py:740-741 | Removing the first copy of a key and then passing equals one pass with that key also pending |
| Lists.RemoveFirstIsSubsequence | backend/system.py:779 | `list.remove` keeps the order of the remaining keys |
| SystemApp.System.SetNotRenderableEvents | backend/system.py:718-742 | Fails, changing nothing, iff the stored list does not read back. Otherwise it disables rendering of every resolved pair, in order, writes the field exactly once, and on success stores `Reconciled` |
| NotRenderable.Reconciled | backend/system.py:718-742 | The pruned list fails exactly when the stored list does not read back, with the same error. ReconcileDropsOneCopyOfEachStaleKey states what the list becomes |
| NotRenderable.IsStale | backend/system.py:723-736 | A stored key that reads back as a pair whose event the broker does not resolve. StaleKeysOfStoredList states that the collected keys are exactly the stale ones |
| NotRenderable.RemoveEach | backend/system.py:740-741 | The removal loop as a value, with no contract of its own. RemoveEachCounts, RemoveEachIsSubsequence and RemoveEachDropsFirstCopies state what it removes and that it keeps the order |
| SystemApp.System.DisableResolved | backend/system.py:722-736 | The first loop makes `set_renderable(renderer, False)` calls for exactly the resolved entries, in order, and collects exactly `StaleKeys` |
| SystemApp.DisableRendering | backend/system.py:728-731 | One `set_renderable(renderer, False)` call per resolved entry, in the same order |
| NotRenderable.StaleKeys | backend/system.py:722-736 | The collected keys have no duplicates, and a key is collected iff some entry with an unresolved event encodes to it |
| NotRenderable.Resolved | backend/system.py:723-731 | The entries kept are exactly those whose event resolves, in their original order |
| SystemApp.RemoveCollected | backend/system.py:738-741 | The removal loop yields `RemoveEach`; every collected key is still present when removed, so `remove` never raises |
| NotRenderable.RemoveEachCounts | backend/system.py:740-741 | Removing distinct present keys takes exactly one copy of each and nothing else |
| NotRenderable.RemoveEachIsSubsequence | backend/system.py:740-741 | Removal never reorders the list |
| NotRenderable.StaleKeysOfStoredList | backend/system.py:722-736 | The collected keys are exactly the stored keys whose event is not resolved |
| NotRenderable.RemoveEachDropsFirstCopies | backend/system.py:740-741 | Removing distinct keys one `remove` at a time equals one left-to-right pass that drops the first copy of each |
| NotRenderable.ReconcileDropsOneCopyOfEachStaleKey | backend/system.py:718-742 | Reconciliation fails iff the list does not read back. Otherwise the result keeps the order and has one copy fewer of each stale key and the same count of every other key. The copy dropped is the first stored copy of each stale key |
| NotRenderable.DuplicatedStaleKeyLeavesOneCopy | backend/system.py:735-741 | A stale key stored twice is left once |
| SystemApp.System.StartMonitoringTasks | backend/system.py:404-421 | With monitoring off nothing changes. With it on, both tasks are (re)created with the 60 s and 300 s periods, unguarded, and both monitor devices stop being reported hidden (lines 224, 232) |
| SystemApp.System.StopMonitoringTasks | backend/system.py:423-433 | Each held task is stopped and dropped, the others untouched, and both devices are reported hidden |
| SystemApp.System.CpuDeviceHidden | backend/system.py:223-224 | The `hidden` flag of the CPU monitor device. StartMonitoringTasks, StopMonitoringTasks and SetMonitoring state when it holds |
| SystemApp.System.MemoryDeviceHidden | backend/system.py:231-232 | The `hidden` flag of the memory monitor device. StartMonitoringTasks, StopMonitoringTasks and SetMonitoring state when it holds |
| SystemApp.System.SetMonitoring | backend/system.py:261-280 | A failed write raises and changes nothing else; a saved flag starts or stops the tasks to match it |
| Sampling.CpuUsageClamp | backend/system.py:383-385 | Both CPU values are at most 100; a reading passes unchanged iff it is at most 100, and nothing clamps from below |
| Sampling.ClampPercent | backend/system.py:383-384 | `min(reading, 100.0)` is at most 100 and equals the reading iff the reading is at most 100 |
| Sampling.GetCpuUsage | backend/system.py:383-385 | Both the system and the Cleep value are at most 100 |
| SystemApp.System.CpuTick | backend/system.py:437-443 | Each CPU tick sends the clamped usage for the CPU monitor device |
| Sampling.UsedPercent | backend/system.py:453-457 | The memory percent fails with ZeroDivisionError iff total memory is 0 |
| Sampling.MemoryAlertIntegerCriterion | backend/system.py:453-458 | With a non-zero total the alert is due iff 100 * (total - available) >= 80 * total |
| Sampling.MemoryAlertDue | backend/system.py:453-458 | The alert is never due when total memory is 0, where the source divides by zero. MemoryAlertIntegerCriterion states the threshold |
| Sampling.MemoryAlertExamples | backend/system.py:453-461 | 90 % used alerts, 50 % does not |
| SystemApp.System.MemoryTick | backend/system.py:445-465 | Each memory tick sends the alert (percent, threshold, no device) exactly when due, then the sample for the memory monitor device; a zero total raises before sending anything |
| Sampling.Truncate | backend/system.py:401 | `int()` truncates toward zero for both signs |
| Sampling.Uptime | backend/system.py:387-402 | The uptime is the whole number of seconds since boot |
| SystemApp.System.BackupCleepConfig | backend/system.py:834-842 | One backup call |
| SystemApp.System.RebootDevice | backend/system.py:291-306 | Backup, then the reboot event with the delay, then `reboot -f` after the delay |
| Lifecycle.PyMod | backend/system.py:258 | Python's `%` takes the divisor's sign and is zero exactly when the divisor divides the dividend |
| Lifecycle.BackupEveryDelayMinutes | backend/system.py:256-259 | On a time tick the backup runs iff the minute is a multiple of the backup delay |
| Lifecycle.EventFlags | backend/system.py:248-259 | The restart flag rises only for `system.cleep.needrestart`, the reboot flag iff the event ends in `device.needreboot`, and only the time tick backs up |
| Lifecycle.OnEventReaction | backend/system.py:248-259 | Fails iff the event is the time tick and the minute is missing, the delay unset or the delay zero, with KeyError, TypeError or ZeroDivisionError in that order; restart and reboot are never both raised. EventFlags and BackupEveryDelayMinutes state the flags and the backup |
| SystemApp.System.OnEvent | backend/system.py:241-259 | `on_event` raises the restart flag or writes `needreboot`, and on a time tick backs up when due. A tick without a minute, before configuration or with a zero delay raises like Python, after the flags are set |
| Lifecycle.CheckBackupDelay | backend/system.py:851-860 | A delay is accepted iff it lies in 5..120; otherwise the error is InvalidParameter `Parameter "delay" is invalid (specified="<delay>")` |
| Lifecycle.BackupDelayTooShort | backend/system.py:851-860 | A delay of 4 is rejected with `Parameter "delay" is invalid (specified="4")` |
| SystemApp.System.SetCleepBackupDelay | backend/system.py:844-863 | An out-of-range delay changes nothing. An accepted one is written, and the member follows it only when the write succeeded |
| Lifecycle.InstallGuard | backend/system.py:907-921 | Install proceeds iff both names are non-empty, the driver exists and it is not installed or the install is forced. An empty `driver_type` gives `Parameter "driver_type" is invalid (specified="")`. With a non-empty type, an empty `driver_name` gives the same message for `driver_name`. "No driver found for specified parameters" and "Driver is already installed" otherwise |
| Lifecycle.UninstallGuard | backend/system.py:976-989 | Uninstall proceeds iff both names are non-empty, the driver exists and it is installed. An empty `driver_type` gives `Parameter "driver_type" is invalid (specified="")`. With a non-empty type, an empty `driver_name` gives the same message for `driver_name`. "No driver found for specified parameters" and "Driver is not installed" otherwise |
| SystemApp.System.InstallDriver | backend/system.py:892-933 | After the guards, launches the install and sends `system.driver.install` as in progress; nothing happens on a guard error |
| SystemApp.System.InstallDriverTerminated | backend/system.py:865-890 | Sends the outcome, then reboots (5 s) exactly when the install succeeded and the driver requires it |
| SystemApp.System.UninstallDriver | backend/system.py:962-1003 | After the guards, launches the uninstall, sends `system.driver.uninstall` as in progress and returns True |
| SystemApp.System.UninstallDriverTerminated | backend/system.py:935-960 | Sends the outcome, then reboots (5 s) exactly when the uninstall succeeded and the driver requires it |
| Lifecycle.RebootAfterTermination | backend/system.py:888-889 | The reboot test of both completion callbacks: success and a found driver that requires a reboot. InstallDriverTerminated and UninstallDriverTerminated state that the reboot happens exactly then |
| Numerals.NatToString | backend/systemTimeToTextToSpeechFormatter.py:36 | `%d` of a natural number is a non-empty string of digits without leading zero |
| Numerals.IntToString | backend/systemTimeToTextToSpeechFormatter.py:36 | `%d` of an integer is all digits iff the integer is not negative |
| Numerals.ParseNatToString | backend/systemTimeToTextToSpeechFormatter.py:36 | A rendered numeral reads back as its number |
| Numerals.NatToStringInjective | backend/systemTimeToTextToSpeechFormatter.py:36 | Different numbers render differently |
| TimeToSpeech.FillProfile | backend/systemTimeToTextToSpeechFormatter.py:31-48 | Only the profile's text changes |
| TimeToSpeech.Phrase | backend/systemTimeToTextToSpeechFormatter.py:33-46 | The text the chain writes. ReadPhrase states that it reads back as its time and PhraseDistinguishesTimes that different times differ |
| TimeToSpeech.Spoken | backend/systemTimeToTextToSpeechFormatter.py:33-46 | The branch of the chain after "It's ". ReadSpoken states that every branch reads back as its time |
| TimeToSpeech.TextIsThePhrase | backend/systemTimeToTextToSpeechFormatter.py:31-46 | Whatever the profile held, the text is the chain's phrase for every time |
| TimeToSpeech.Noon | backend/systemTimeToTextToSpeechFormatter.py:33-34 | 12:00 is "It's noon" |
| TimeToSpeech.MidnightIsOverwritten | backend/systemTimeToTextToSpeechFormatter.py:31-36 | 00:00 comes out as "It's 0 o'clock", never "It's midnight" |
| TimeToSpeech.QuarterToDoesNotWrap | backend/systemTimeToTextToSpeechFormatter.py:39-40 | 23:45 is "It's quarter to 24": the next hour does not wrap |
| TimeToSpeech.ReadOClock | backend/systemTimeToTextToSpeechFormatter.py:35-36 | The o'clock branch, split into words by the reader, reads back as (hour, 0) |
| TimeToSpeech.ReadQuarterPast | backend/systemTimeToTextToSpeechFormatter.py:37-38 | The quarter-past branch, split into words by the reader, reads back as (hour, 15) |
| TimeToSpeech.ReadQuarterTo | backend/systemTimeToTextToSpeechFormatter.py:39-40 | The quarter-to branch, which names hour + 1, reads back as (hour, 45) |
| TimeToSpeech.ReadHalfPast | backend/systemTimeToTextToSpeechFormatter.py:41-42 | The half-past branch reads back as (hour, 30) |
| TimeToSpeech.ReadMinutesPast | backend/systemTimeToTextToSpeechFormatter.py:43-44 | For minutes 1..29 other than 15, the "<minutes> past <hour>" branch reads back as (hour, minute) |
| TimeToSpeech.ReadMinutesTo | backend/systemTimeToTextToSpeechFormatter.py:45-46 | For minutes 31..59 other than 45, the "<60 - minutes> to <hour + 1>" branch reads back as (hour, minute) |
| TimeToSpeech.ReadSpoken | backend/systemTimeToTextToSpeechFormatter.py:33-46 | Every branch of the chain reads back as its time of day |
| TimeToSpeech.ReadPhrase | backend/systemTimeToTextToSpeechFormatter.py:31-46 | Every phrase for a time of day (minute 0..59) reads back as that time |
| TimeToSpeech.PhraseDistinguishesTimes | backend/systemTimeToTextToSpeechFormatter.py:31-46 | Different times of day are spoken differently |
| TimeToSpeech.IntendedFillProfile | backend/systemTimeToTextToSpeechFormatter.py:31-32 | With the midnight text kept, 00:00 says "It's midnight" and every other time is unchanged |
| TimeToSpeech.ReadIntendedPhrase | backend/systemTimeToTextToSpeechFormatter.py:31-46 | With midnight kept, every phrase still reads back as its time |
| TimeToSpeech.IntendedPhraseDistinguishesTimes | backend/systemTimeToTextToSpeechFormatter.py:31-46 | With midnight kept, different times are still spoken differently |
| Charts.RoundHalfEven | backend/systemMonitoringCpuEvent.py:47 | The rounded integer is within one half of the value, strictly nearer when the value is not halfway, and even when it is halfway |
| Charts.Round2 | backend/systemMonitoringCpuEvent.py:47 | Two-decimal rounding gives a value with at most two decimals, at most 0.005 away from the input |
| Charts.Round2Exact | backend/systemMonitoringCpuEvent.py:47 | A value that already has two decimals is unchanged |
| Charts.Round2Sign | backend/systemMonitoringCpuEvent.py:47-49 | Rounding keeps the sign of its input, up to zero |
| Charts.Lookup | backend/systemMonitoringCpuEvent.py:45-46 | A present key gives its value, a missing one KeyError |
| CpuChart.GetChartValues | backend/systemMonitoringCpuEvent.py:45-56 | Fails with the first missing key (cleep, then system). Otherwise three entries cleep, others, idle, in order: cleep passes through, others is never negative and the three sum to 100 |
| CpuChart.OthersIsRoundedDifference | backend/systemMonitoringCpuEvent.py:47-49 | Others is the rounded `system - cleep` when system >= cleep and 0 otherwise; with two-decimal inputs it is exactly max(system - cleep, 0) |
| CpuChart.IdleBounds | backend/systemMonitoringCpuEvent.py:50 | With readings in 0..100 idle is at least -0.005, and never negative when the difference has two decimals |
| CpuChart.NegativeIdle | backend/systemMonitoringCpuEvent.py:47-50 | cleep 0.004 and system 100 give idle -0.004 |
| CpuChartCopy.GetChartValues | backend/systemmonitoringcpuevent.py:44-55 | The same contract for the lowercase copy: order, pass-through, others non-negative, sum 100, KeyError for a missing reading |
| CpuChartCopy.SameAsCpuChart | backend/systemmonitoringcpuevent.py:44-55 | The lowercase copy computes exactly what the capitalised file computes |
| MemoryChart.GetChartValues | backend/systemMonitoringMemoryEvent.py:45-54 | Fails with the first missing key (cleep, total, available). Otherwise three entries cleep, others, available, in order. Cleep and available pass through and the three sum to total. Others is unclamped: negative iff cleep > total - available |
| MemoryChartCopy.GetChartValues | backend/systemmonitoringmemoryevent.py:45-54 | The same contract for the lowercase copy |
| MemoryChartCopy.SameAsMemoryChart | backend/systemmonitoringmemoryevent.py:45-54 | The lowercase copy computes exactly what the capitalised file computes |
| ParamsCheck.ValuesIgnored | backend/systemTimeNowEvent.py:48 | Two dictionaries with the same keys get the same verdict: values are never inspected |
| ParamsCheck.FewerKeysAccepted | backend/systemTimeNowEvent.py:48 | Any subset of accepted keys is accepted; empty parameters are always accepted, so no key is required |
| ParamsCheck.KeysListed | backend/systemTimeNowEvent.py:48 | `all(key in keys for key in params.keys())`. ValuesIgnored, FewerKeysAccepted and each event's CheckParams state its verdicts |
| TimeNowEvent.CheckParams | backend/systemTimeNowEvent.py:35-48 | True iff every key is one of the eleven listed names |
| TimeNowEvent.SecondIsRejected | backend/systemTimeNowEvent.py:35-48 | hour and minute are accepted; a `second` key is rejected |
| ModuleInstallEvent.CheckParams | backend/systemModuleInstallEvent.py:35-43 | True iff the keys are among module, status, stdout, stderr, updateprocess, process |
| ModuleUninstallEvent.CheckParams | backend/systemModuleUninstallEvent.py:35-42 | True iff the keys are among module, status, stdout, stderr, updateprocess |
| ModuleUninstallEvent.InstallWithoutProcess | backend/systemModuleUninstallEvent.py:35-42 | The uninstall check accepts exactly what the install check accepts without a `process` key |
| CountryUpdateEvent.CheckParams | backend/systemCountryUpdateEvent.py:35-39 | True iff the keys are among country and alpha2 |
| CountryUpdateEvent.AtMostTwoKeys | backend/systemCountryUpdateEvent.py:35-39 | Accepted parameters have at most two keys, so a third key is always rejected |
| DriverUninstallEvent.CheckParams | backend/systemdriveruninstallevent.py:36-43 | True iff the keys are among drivertype, drivername, uninstalling, success, message; `installing` is rejected |
| RaspiotUpdateEvent.CheckParams | backend/systemRaspiotUpdateEvent.py:39-46 | A non-dict is only logged, and its keys are still checked. The verdict is True iff every key is `status`. An object without `keys()` raises AttributeError |

## Findings

| source | as written | input that shows it | evidently intended | confidence | as-written member | corrected member |
|---|---|---|---|---|---|---|
| backend/systemTimeToTextToSpeechFormatter.py:31-36 | The midnight branch sets "It's midnight", then the `if/elif` chain starts a new `if`, and its `minute == 0` branch overwrites the text | hour 0, minute 0 gives "It's 0 o'clock" | "It's midnight" at 00:00 | high, not executed | TimeToSpeech.MidnightIsOverwritten | TimeToSpeech.IntendedFillProfile (read back by TimeToSpeech.ReadIntendedPhrase) |

## Left out

- The thread scheduling of the monitoring tasks is not modelled: tick timing and cancellation are concurrency. A held task is represented only by its period.
- psutil, `time.time`, `os.getpid`, `Tools.hr_bytes` and `Tools.hr_uptime` are foreign calls. Their readings are parameters. The `availablehr` and `uptimehr` strings are not modelled, and the memory sample carries only total, available and cleep.
- Console commands other than the reboot (`poweroff_device`, `restart_cleep`) are OS I/O and not modelled. So are the LED tweaks and `__apply_tweaks` in `_configure`.
- Logs, debug and trace levels, the crash report (`set_crash_report`, `_configure_crash_report`) and the internals of the configuration backup only delegate to loggers and host services. The backup is one recorded call.
- `get_module_config` merges host configuration; it is plumbing.
- `get_module_devices` is not modelled as a function. Its `hidden` flags are the `CpuDeviceHidden`/`MemoryDeviceHidden` predicates over the task fields.
- IEEE-754 behaviour is not modelled. Values are exact reals, and `'{0:.2f}'` is round-half-even on the exact value rather than on the binary float.
- The frontend, the event classes that only declare constants, the validators that always return True, and the constant sunset formatter carry no logic worth modelling.
- The host's type checks (bool and int parameter types) are out of scope. Only the empty-string rule of `_check_parameters` is modelled, because Dafny's types already rule out the wrong types.
- Lists.RemoveFirst leaves a list without the element unchanged, where `list.remove` raises ValueError. Both callers only remove present keys: `set_event_renderable` tests `key in` first, and the reconciliation removes keys collected from the list (`SystemApp.RemoveCollected` requires it).
- SystemApp.System.SetEventRenderable, SetNotRenderableEvents, SetMonitoring, SetCleepBackupDelay, OnEvent and Configure assume that a failed configuration write leaves the in-memory configuration unchanged. The aliasing between the list returned by `_get_config_field` and the stored one is not modelled.
- SystemApp.System.CreateMissingDevices records the created devices but not their new uuids. Like the source, it does not store them in the uuid fields.
- The drivers registry is reduced to the answer of `get_driver` for the given names: absent, or installed/requires-reboot flags. Driver installation runs outside the model, and its completion is the `*Terminated` callback called with the outcome.
- TimeToSpeech.ReadPhrase and TimeToSpeech.PhraseDistinguishesTimes hold for non-negative hours and minutes 0..59, the values a time event carries. The formatter itself is modelled for every integer.
- The chart getters take a map of real readings. Python's `float()` conversion of other value types is not modelled.
