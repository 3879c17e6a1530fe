# pyCrust widgets and checks, modelled in Dafny

pyCrust is a template for Tk desktop applications. This project models the
parts of `pyCrust.py` that hold real state or decisions:

- **The autocompleting entry** (`UI.CustomTk_autoEntry`), module `AutoEntry`.
  The entry keeps its text, `position` (where the typed prefix ends), the
  stored hit list `_hits`, the index `_hit_index` and the completion list.
  `autocomplete(delta)` collects the completions that start with the current
  text. It restarts the index when that list is new, cycles the index by
  `delta` modulo the number of hits, and replaces the text with the chosen
  hit. The completed tail is then selected. `handle_keyrelease` picks the
  step from the key name. The class `Entry` updates these fields in place.
  Each of its methods is specified by a function on the `EntryState` value
  (`AfterAutocomplete`, `AfterKeyRelease`). The lemmas prove the properties
  about those functions.
- **The tooltip timer** (`UI.CustomTk_CreateToolTip`), module `ToolTip`.
  It has two optional fields: `id`, the pending `after` timer, and `tw`,
  the tip window shown. Class `Tip` mirrors `schedule`, `unschedule`,
  `enter`, `leave`, `hidetip` and the state part of `showtip`. Each is
  specified by a function on `TipState`.
- **The constructor checks of `Config`**, module `Config`. These are
  `check_initvars` and the `TypeError` raised when `_confpath` is built from
  an extension that is not a string. Both happen before any file is
  touched.
- **`Logging.conv_loglevel`** (module `Logging`) and **the routing decision
  of `write.write_outputs`** (module `Write`).

The Tk entry is modelled as a plain string:

- `get()` is the text and `index(END)` its length.
- Numeric indices are clamped into `0..|text|`, as Tk does.
- `delete(i, END)` keeps the text before index `i`.
- `insert(i, s)` puts `s` before index `i`.
- `select_range(a, END)` records the pair `(a, |text|)`.

The INSERT cursor that the BackSpace branch reads is a parameter of
`HandleKeyRelease`. So are the key name and, for the tooltip, the timer
that Tk's event loop fires.

Line 731 stores the new hit list before the test at line 733. That test
is therefore always true right after a reset. So after a reset the index
is `delta % len(hits)`, not 0: Down on a new list shows its second hit (its
only hit when it has just one) and Up shows its last. The model keeps this behaviour. `AutocompleteIndex`
states it and `UpOnNewHitsShowsLast` spells it out.

Python's `%` with a positive divisor agrees with Dafny's `%`. Python's
`if id:` and `if tw:` are modelled as "is set": Tk timer ids are non-empty
strings and Tk widgets are always true.

## Model

| member | source | states |
|---|---|---|
| `AutoEntry.HitsMatch` | pyCrust.py:723-727 | a string is a hit exactly when it is in the completion list and starts with the typed text |
| `AutoEntry.HitsInOrder` | pyCrust.py:723-727 | the hits are the completion-list elements at strictly increasing positions, and every matching position is among them (all matches, original order) |
| `AutoEntry.CollectHits` | pyCrust.py:723-727 | the appending loop returns exactly the hit list `Hits(completion, typed)` |
| `AutoEntry.AutocompleteHits` | pyCrust.py:716-731 | after `autocomplete` the stored hits are the completions extending the text left by the first branch (whole text for delta 0, truncated to `position` otherwise); the completion list is unchanged |
| `AutoEntry.AutocompleteIndex` | pyCrust.py:728-734 | with hits the index lies in `0..len(hits)-1`; a new hit list gives `delta % len(hits)` (reset to 0, then cycled), a known list gives `(old index + delta) % len(hits)`, an unchanged empty list leaves the index alone |
| `AutoEntry.AutocompleteValid` | pyCrust.py:728-734 | autocomplete keeps the invariant "index 0 without hits, a valid hit index otherwise" |
| `AutoEntry.AutocompleteText` | pyCrust.py:716-739 | `position` becomes the text length for delta 0 and is kept otherwise; the text before `position` is kept and extended; with hits the text becomes `hits[index]` and the selection runs from `position` to the end; without hits the text stays as typed (truncated for delta ≠ 0) and the selection is untouched |
| `AutoEntry.UpOnNewHitsShowsLast` | pyCrust.py:729-738 | Up on a hit list the entry has not stored before shows its last hit, because the index restarts at 0 and is then cycled by -1 |
| `AutoEntry.CyclingKeepsTyped` | pyCrust.py:716-739 | the next cycling step (Down or Up) truncates the completed text back to exactly the prefix this step matched against: after a completion key (delta 0) for every `position`, after a cycling step whenever `position` does not lie beyond the end of the text |
| `AutoEntry.DownThenUpReturns` | pyCrust.py:716-739 | on a known hit list, with `position` inside the text, Down then Up returns to the same hit, index and `position` |
| `AutoEntry.KeyDispatch` | pyCrust.py:741-760 | BackSpace truncates at the INSERT index and moves `position` to the end; Left truncates at `position`, first moving it back by one when it is already at the end; Right moves `position` to the end; Down and Up run `autocomplete(1)` and `autocomplete(-1)`; a one-character key name or an umlaut key name runs `autocomplete(0)`; any other key changes nothing |
| `AutoEntry.LeftAtStart` | pyCrust.py:746-751 | Left on an empty entry with `position` 0 makes `position` -1 |
| `AutoEntry.KeyReleaseValid` | pyCrust.py:741-760 | a key release keeps the hit-index invariant and never changes the completion list |
| `AutoEntry.Entry.constructor` | pyCrust.py:709-714 | a new empty entry after `set_completion_list`: no hits, index 0, `position` 0, no selection |
| `AutoEntry.Entry.SetCompletionList` | pyCrust.py:709-714 | replaces the completion list and resets hits, index and `position`, keeping the text |
| `AutoEntry.Entry.Autocomplete` | pyCrust.py:716-739 | the in-place update leaves the fields equal to `AfterAutocomplete` of the old fields and keeps the hit-index invariant |
| `AutoEntry.Entry.HandleKeyRelease` | pyCrust.py:741-760 | the in-place handler leaves the fields equal to `AfterKeyRelease` of the old fields and keeps the hit-index invariant |
| `ToolTip.UnscheduleCancels` | pyCrust.py:663-667 | `unschedule` always clears `id` and cancels the timer it held, changing nothing else; from a valid state no timer is left pending |
| `ToolTip.ScheduleOnePending` | pyCrust.py:659-661 | `schedule` leaves exactly one pending timer, a fresh one with a 500 ms delay, held in `id` |
| `ToolTip.LeaveClears` | pyCrust.py:655-657 | `leave` leaves no pending timer and no tip window, and destroys the window that was shown |
| `ToolTip.TimerExpiresValid` | pyCrust.py:661 | a timer firing keeps the invariant, and it shows a new tip window exactly when it was still pending |
| `ToolTip.HideTipValid` | pyCrust.py:693-697 | `hidetip` keeps the invariant and leaves no tip window |
| `ToolTip.EnterShowLeave` | pyCrust.py:652-697 | enter, the timer firing, then leave: the tip window is created and destroyed again, and no timer or window is left behind |
| `ToolTip.ShowTipKeepsOldWindow` | pyCrust.py:669-676 | `showtip` replaces `tw` without destroying a tip window already shown |
| `ToolTip.Tip.StartTimer` | pyCrust.py:661 | Tk's `after`: returns the counter's next id, advances the counter, and adds exactly that timer, with the given delay, to the pending table |
| `ToolTip.Tip.CancelTimer` | pyCrust.py:667 | Tk's `after_cancel`: removes the timer from the pending table if it is there, changing nothing else |
| `ToolTip.Tip.constructor` | pyCrust.py:641-650 | a new tooltip has no timer and no tip window |
| `ToolTip.Tip.Enter` | pyCrust.py:652-653 | the fields become `AfterEnter` (that is, `schedule`) of the old fields, and the tooltip invariant is kept |
| `ToolTip.Tip.Leave` | pyCrust.py:655-657 | the fields become `AfterLeave` (`unschedule`, then `hidetip`) of the old fields, and the tooltip invariant is kept |
| `ToolTip.Tip.Schedule` | pyCrust.py:659-661 | the fields become `AfterSchedule` of the old fields, and the tooltip invariant is kept |
| `ToolTip.Tip.Unschedule` | pyCrust.py:663-667 | the fields become `AfterUnschedule` of the old fields, and the tooltip invariant is kept |
| `ToolTip.Tip.ShowTip` | pyCrust.py:669-676 | a new tip window becomes `tw` (placement not modelled), keeping the tooltip invariant |
| `ToolTip.Tip.HideTip` | pyCrust.py:693-697 | the fields become `AfterHideTip` of the old fields, and the tooltip invariant is kept |
| `ToolTip.Tip.TimerExpires` | pyCrust.py:661 | a pending timer that fires leaves Tk's table and runs `showtip`; any other timer changes nothing; the tooltip invariant is kept |
| `Config.CheckInitVars` | pyCrust.py:74-82 | the checks pass exactly when the extension is `'JSON'` or `'XML'` and the table is a dict; every failure is `UnexpectedInitVar`, and only a pass reaches `create_config` |
| `Config.NewConfig` | pyCrust.py:62-72 | the constructor reaches `create_config` exactly for a `'JSON'`/`'XML'` extension and a dict table, keeping its arguments; an extension that is not a string raises `TypeError` when `_confpath` is built; any other failure is the one `check_initvars` raises |
| `Logging.ConvLogLevel` | pyCrust.py:163-167 | `min_log` 1 gives INFO (20) and 2 gives DEBUG (10); every other value leaves the level unset |
| `Write.WriteOutputs` | pyCrust.py:47-55 | a message goes to the console exactly when `redirect` is 0, to the info log exactly when `log_level` is 1, to the debug log exactly when it is 2, so to at most one log, each output at most once, with the console first |

## Left out

- `UI.LogicThread` and its worker loop: a daemon thread, a blocking queue and a sleep-poll loop. They are about concurrency.
- `Config.create_config`, `Config.get_config`, `Logging.create_log`, `Sqlite`: file-system, JSON, logging-module and sqlite3 I/O. `Sqlite.mastertable` and `Sqlite.config_schema` only return SQL text.
- `Config.NewConfig`: `_confpath` itself is not built. `ROOTPATH` comes from the working directory and `os.path.normpath` depends on the platform. Only the `TypeError` of the concatenation is kept. The `ui` argument is not kept.
- `Logging.ConvLogLevel`: what the level does to the log file belongs to Python's logging module and is not modelled.
- `Write.WriteOutputs`: only the choice of outputs is modelled, not the printing or logging itself.
- Tk layout and styling: `UI.__init__`, the `config_*` methods, `ttk_theme_changes` with `fixed_map`, `UI_RootPane`, `UI_BottomBar`, and `CustomTk_Textbox._proxy` (a Tcl command rename).
- `UI_BottomBar.update_progressbar.calc_percentage`: float division and percent formatting.
- `ToolTip.Tip.ShowTip`: window placement, the label and the wrap length are widget layout.
- The event bindings made by `bind`, and the user's typing between key releases: the model's `text` field is whatever Tk left in the entry.
- Tk's own changes to the selection when the text changes are not modelled. So is Tk's clearing of an empty selection range. `selection` only records the last `select_range` call.
- `AutoEntry.Entry.SetCompletionList`: the source keeps a reference to the caller's list, so a later change to that list by the caller changes the next hit list. The model stores the list as a value and does not capture this aliasing.
- Tk's timer ids and window handles are modelled as counters local to one tooltip. Timers owned by other widgets are not part of the model.
