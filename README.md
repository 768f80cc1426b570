# OctoPi control panel, modelled in Dafny

`octopicontrol.py` drives a small 320 x 480 touch screen beside a 3D printer
that an OctoPrint server manages. In dashboard mode it polls four OctoPrint
endpoints (`job`, `version`, `connection`, `printer`) and shows text lines for:

- the printer state and progress;
- the file name and size;
- the time left;
- the address of each network interface.

It also works out the temperature strings, but the lines that would show
them (542-543) are commented out.

After 720 dashboard frames without a touch it switches to a "matrix rain"
screensaver. Columns of glyphs (groups of particles) fall down the screen,
and now and then a stray particle appears. It shows one glyph at a time of
a shuffle of the printer's name. A touch brings the dashboard back.

The script is Python 2, and the model keeps these Python 2 meanings (the
float and long-integer limits it does not keep are listed under "Left out"):

- `/` on ints takes the floor, so `9 / 5` is `1`;
- backquotes are `repr`;
- `round` rounds halves away from zero;
- `int()` of a float truncates toward zero.

The project has these modules:

- `Strings`: decimal `repr` and its inverse, `ljust`/`rjust`, `str.replace`,
  and the `"{:,}"` grouping of thousands.
- `Readouts`:
  - `CtoF`;
  - `rptstr`;
  - the block ladder of `setProgress`;
  - the split of the print time left into days, hours and minutes, and the ETA line.
- `NetAddr`: the text of `getHWAddr`/`getIPAddr`, and their placeholders when the
  `ioctl` fails.
- `Dashboard`:
  - how missing endpoint answers become defaults;
  - the status/name/size lines;
  - the temperature strings;
  - the whole screen of text lines.
- `Idle`: the `runtime`/`screensaver_on`/`return_from_ss` timer, as pure
  transitions and as a class whose methods update the three variables in place.
- `Sweep`: Python's "remove from the list while a `for` loop walks it". `Loop`
  mirrors CPython's index-based iterator, and `Visit` restates it in terms of
  the original positions. Also here: `list.remove` and "the list minus a set
  of removed elements".
- `Matrix`: `CodePartical` and `Group` as values (`Glow`, `Trail`) and as
  classes (`Particle`, `Group`) whose methods update their fields and the
  particle list in place.
- `Screensaver`: the screensaver's `groups` list and `add_line` countdown.
  They are modelled as a value-level pass (`Pass`) and as a class (`Saver`)
  that owns its group and particle objects and updates them in place.

Every random draw is a parameter:

- a particle's increment is a `Draw` in `1 .. 3`;
- the draws of a whole pass are a `Draws` record, with the particle draws
  as functions from loop index to draw;
- the shuffled code strings are arbitrary strings;
- the height of a line of text, which the font decides, is a parameter `h > 0`.

HTTP answers and `ioctl` results are optional inputs. An `ioctl` input is
`None` for any failure, which the bare `except:` catches. An HTTP input is
`None` exactly for a reply whose status is not 200, which is when `get_info`
returns `None`.

The model follows the code where the code and the prose design differ:

- `CtoF(100)` is `"132"`, because Python 2 makes `9 / 5` equal to `1`.
- A touch-up on the dashboard leaves `runtime` alone.
- Because a particle after a removed one is skipped, a particle can outlive
  `max_life` steps of its group.
- The `== "32"` tests on the target strings can never succeed.

## Model

| member | source | states |
|---|---|---|
| Strings.NatText | src/octopicontrol.py:518-521 | the decimal `repr` of a natural number: digits only, at least one, no leading zero, one digit exactly below 10 |
| Strings.NatTextValue | src/octopicontrol.py:518-521 | the digits of `NatText(n)` read back as `n` |
| Strings.NatTextShort | src/octopicontrol.py:535-537 | a number below 1000 takes at most three digits, exactly three from 100 |
| Strings.IntText | src/octopicontrol.py:518-521 | the `repr` of an int is never empty; `IntTextRoundTrip` pins down its content |
| Strings.IntTextRoundTrip | src/octopicontrol.py:518-521 | `repr` of an int is a well-formed numeral that `int()` reads back to the same int |
| Strings.IntTextInjective | src/octopicontrol.py:518-521 | different ints have different `repr`s |
| Strings.LJust | src/octopicontrol.py:468-469 | `ljust(w)`: width `max(len, w)`, the string first, spaces after it |
| Strings.RJust | src/octopicontrol.py:472-473 | `rjust(w)`: width `max(len, w)`, spaces first, the string at the end |
| Strings.Replace | src/octopicontrol.py:509 | `str.replace` introduces no character that is in neither the input nor the replacement; a one-character pattern absent from the replacement is gone afterwards; replacing one character by one character maps each position on its own (`_` to space keeps the length); deleting never lengthens |
| Strings.ReplaceNoMatch | src/octopicontrol.py:509 | a string in which the pattern occurs nowhere comes back unchanged (`.replace(".gcode", "")` on a name without the suffix) |
| Strings.ReplaceSuffix | src/octopicontrol.py:509 | a pattern whose first character does not recur in it, appended once to a string without it, is exactly what is replaced: `(a + ".gcode").replace(".gcode", "")` is `a` |
| Strings.ReplaceCharConcat | src/octopicontrol.py:509 | replacing one character by another distributes over concatenation |
| Strings.ReplaceCharAbsent | src/octopicontrol.py:509 | replacing a character that does not occur changes nothing |
| Strings.Grouped | src/octopicontrol.py:514 | `"{:,}"` of a natural number is never empty; `GroupedDigits` and `GroupedShape` pin down its content |
| Strings.GroupedDigits | src/octopicontrol.py:514 | dropping the commas of `"{:,}".format(n)` gives the plain decimal of `n` |
| Strings.GroupedShape | src/octopicontrol.py:514 | `"{:,}".format(n)` is one to three leading digits followed by comma-led groups of three digits |
| Strings.NatTextSplit | src/octopicontrol.py:514 | for `n >= 1000` the decimal of `n` is the decimal of `n / 1000` followed by the last three digits, zero-padded |
| Strings.Pad3 | src/octopicontrol.py:514 | a group of three digits after a comma: exactly three digits |
| Strings.Thousands | src/octopicontrol.py:514 | `"{:,}"` of any int: without its commas it is the plain `repr`, and it is well grouped, after a leading minus for a negative number |
| Strings.HexChar | src/octopicontrol.py:142 | the hex digit of `d` reads back as `d` |
| Readouts.CtoF | src/octopicontrol.py:179-180 | the result is a numeral whose value is `value + 32` (Python 2's `9 / 5 == 1`) |
| Readouts.CtoFOrder | src/octopicontrol.py:179-180 | a higher Celsius value never shows a lower number |
| Readouts.CtoFAtFreezingAndBoiling | src/octopicontrol.py:179-180 | `CtoF(0) == "32"` and `CtoF(100) == "132"`, not `"212"` |
| Readouts.Copies | src/octopicontrol.py:183 | `char * cnt`: exactly `cnt` copies of the character, none for `cnt <= 0` |
| Readouts.RepeatEach | src/octopicontrol.py:182-183 | `rptstr` has length `len(str) * cnt`, or 0 for `cnt <= 0`; `RepeatEachAt` pins down each character |
| Readouts.RepeatEachConcat | src/octopicontrol.py:182-183 | `rptstr` of a concatenation is the concatenation of the two `rptstr`s |
| Readouts.RepeatEachRun | src/octopicontrol.py:182-183 | position `q * cnt + m`, with `m < cnt`, exists and holds character `q` of the input |
| Readouts.RepeatEachAt | src/octopicontrol.py:182-183 | character `i` of `rptstr(s, cnt)` is `s[i / cnt]`: each character becomes a run of `cnt` copies, in order |
| Readouts.RepeatEachRoundTrip | src/octopicontrol.py:182-183 | taking every `cnt`-th character of `rptstr(s, cnt)` gives `s` back |
| Readouts.RepeatEachNone | src/octopicontrol.py:182-183 | a count of zero or less gives the empty string |
| Readouts.Ladder | src/octopicontrol.py:189-214 | the tests from `i` on draw at most `13 - i` blocks; `LadderIsRun` pins down which |
| Readouts.BlockRun | src/octopicontrol.py:189-214 | blocks `a` to `b - 1` in order |
| Readouts.LadderIsRun | src/octopicontrol.py:189-214 | the filled blocks are always the first `Reached` blocks, left to right, with no gap |
| Readouts.ProgressBounds | src/octopicontrol.py:189-214 | no block below 7%, all thirteen from 100%, and the blocks for a smaller percentage are a prefix of those for a larger one |
| Readouts.Filled | src/octopicontrol.py:189-214 | the drawn blocks are the first `n` of the thirteen, `n` the number of thresholds reached |
| Readouts.ProgressGeometry | src/octopicontrol.py:187-214 | every drawn block lies strictly inside the outline and no two drawn blocks overlap |
| Readouts.ProgressBlocks | src/octopicontrol.py:185-214 | `setProgress` fills at most the thirteen blocks, as many as thresholds reached, block `k` at position `k` |
| Readouts.BlockInside | src/octopicontrol.py:187-214 | each block lies strictly inside the `(5, 65, 470, 40)` outline |
| Readouts.BlockLeftGaps | src/octopicontrol.py:189-214 | a block ends left of every later block's start |
| Readouts.ThresholdsIncrease | src/octopicontrol.py:189-214 | the thirteen thresholds strictly increase |
| Readouts.ReachedMonotone | src/octopicontrol.py:189-214 | a higher percentage reaches at least as many thresholds |
| Readouts.SplitTime | src/octopicontrol.py:486-498 | days, hours, minutes and seconds add back to the time left, with hours < 24 and minutes, seconds < 60; a missing time gives all zeros |
| Readouts.SplitTimeUnique | src/octopicontrol.py:486-493 | the split is the only in-range decomposition: splitting the total of any in-range ETA returns it |
| Readouts.Pad2 | src/octopicontrol.py:534 | `"%02d"`: at least two characters, and for `0 <= n < 100` exactly two digits with value `n` |
| Readouts.EtaTextWidth | src/octopicontrol.py:534 | the ETA line is 16 characters for a time left under 100 days, and `ETA:    00:00:00` when the time is missing |
| Readouts.EtaText | src/octopicontrol.py:534 | the ETA line starts with its label; in range it is 16 characters, colons at 10 and 13, and the three two-digit fields read back as days, hours and minutes |
| NetAddr.Hex2 | src/octopicontrol.py:142 | `'%02x'` is two characters; `Hex2Value` reads them back |
| NetAddr.Hex2Value | src/octopicontrol.py:142 | the two hex digits read back to the byte |
| NetAddr.HexWithColons | src/octopicontrol.py:142 | the joined `'%02x:'` string has three characters per byte; `HexWithColonsAt` places each one |
| NetAddr.MacText | src/octopicontrol.py:142 | `[:-1]` of the joined string: one character shorter, empty for no bytes |
| NetAddr.HexWithColonsAt | src/octopicontrol.py:142 | byte `k` sits at positions `3k`, `3k+1`, followed by a colon |
| NetAddr.MacShape | src/octopicontrol.py:136-149 | six bytes give 17 characters with colons at every third place, and the bytes parse back unchanged |
| NetAddr.AddressWidths | src/octopicontrol.py:122-149 | an IP address or its placeholder fits in 15 characters; a six-byte hardware address or its placeholder pads to exactly 17 |
| NetAddr.IpAddr | src/octopicontrol.py:122-134 | `getIPAddr` is 7 to 15 characters, and `000.000.000.000` when the `ioctl` fails |
| NetAddr.HwAddr | src/octopicontrol.py:136-149 | `getHWAddr` is `00:00:00:00:00:00` when the `ioctl` fails; six bytes give 17 characters with colons at every third place that parse back to the bytes |
| Dashboard.Round | src/octopicontrol.py:423 | Python 2 `round`: within one half of the input, with halves going away from zero |
| Dashboard.Trunc | src/octopicontrol.py:453-456 | `int()` of a float drops the fraction toward zero |
| Dashboard.Poll | src/octopicontrol.py:414-466 | each endpoint's answer or its default: a failed `job` gives status "Offline", "_.gcode", size 0, time left 0 and completion the string `"0"`, a live one its fields, its time left and `int(round(completion))` or no completion; a failed `version` gives "0" and "0", a live one its two fields; a failed `connection` gives state "Offline" and completion 0; the printer is queried exactly when the state is not "Offline"; the temperatures are zero unless it was queried and answered, and otherwise they truncate its readings |
| Dashboard.CompletionRepr | src/octopicontrol.py:503 | backquotes of the completion: a numeral that reads back as the int, or the string in single quotes |
| Dashboard.StatusText | src/octopicontrol.py:501-505 | the status line starts with `Status: ` and the state, and is nothing more exactly when there is no completion or the state is "Offline" |
| Dashboard.LiveStatus | src/octopicontrol.py:501-505 | for a live state: `(n%)` after an int completion, `('0'%)` after the job endpoint's string default, and nothing without a completion |
| Dashboard.JobDown | src/octopicontrol.py:425-430 | a failed `job` with a live connection shows `('0'%)`, the file "_.gcode" of size 0, and time left 0 |
| Dashboard.ShownName | src/octopicontrol.py:509 | the shown file name has no `_` and is no longer than the name; a name without `.gcode` is shown with each `_` a space, and a name ending in its only `.gcode` is shown as its stem with each `_` a space |
| Dashboard.UnderscoreKeepsNoGcode | src/octopicontrol.py:509 | turning `_` into spaces cannot create a `.gcode` |
| Dashboard.ShownPlainName | src/octopicontrol.py:509 | on a name without `.gcode`, the second `replace` changes nothing |
| Dashboard.ShownGcodeName | src/octopicontrol.py:509 | on `stem + ".gcode"`, the stem without `.gcode`, the two `replace` calls give the stem with each `_` a space |
| Dashboard.NameText | src/octopicontrol.py:507-511 | the bare label without a name or with the "Offline" state; otherwise `Name:   ` followed by at most the name's length of characters, none of them `_`, and exactly the name, or for a `.gcode` file its stem, with each `_` a space |
| Dashboard.SizeText | src/octopicontrol.py:513-516 | the bare label without a size or with the "Offline" state, otherwise `Size:   `, then a grouped number whose digits are the size's decimal, then ` Bytes` |
| Dashboard.Render | src/octopicontrol.py:531-538 | the two IP lines are 23 characters, each the interface's address or placeholder padded to 15 after its tag |
| Dashboard.DropThirtyTwo | src/octopicontrol.py:484-485 | a target becomes 0 exactly when its string is `"32"`, and otherwise stays the same string |
| Dashboard.Temperatures | src/octopicontrol.py:468-529 | offline readings are "0"; live readings are at least three characters; both targets stay strings |
| Dashboard.AddressLineWidths | src/octopicontrol.py:535-538 | the IP lines are 23 characters and the hardware lines 25, whatever the interfaces report |
| Dashboard.AllOffline | src/octopicontrol.py:414-538 | with every endpoint answering a status other than 200: printer not queried, zero temperatures, versions "0", and the placeholder lines, whatever the printer endpoint would say |
| Dashboard.LiveTexts | src/octopicontrol.py:507-516 | with a live state the name line keeps no `_`, and the size line's grouped digits strip back to the plain decimal of the size |
| Dashboard.OfflineTexts | src/octopicontrol.py:501-516 | with the "Offline" state the three lines are the bare labels |
| Dashboard.TemperatureTexts | src/octopicontrol.py:468-529 | targets are at least three characters, so the `"32"` tests never fire; a zero target gives `"  0"` on both sides; a live target reads back as `t + 32`; `bed_space` is always empty; offline readings are "0" |
| Idle.Tick | src/octopicontrol.py:567-571 | a dashboard frame counts `runtime` up and, on reaching 720, resets it and turns the screensaver on; it keeps `0 <= runtime < 720` |
| Idle.Down | src/octopicontrol.py:382-385 | a touch-down resets `runtime` unless `return_from_ss` is set, always clears the flag, and keeps the screensaver state |
| Idle.SsUp | src/octopicontrol.py:626-630 | a touch-up on the screensaver turns it off and sets `return_from_ss`, leaving `runtime` |
| Idle.DashboardBatch | src/octopicontrol.py:334-412 | the dashboard's event loop leaves the timer alone or applies one touch-down, and leaves it alone when it quits |
| Idle.ScreensaverBatch | src/octopicontrol.py:626-632 | the screensaver's event loop leaves the timer alone or applies one touch-up, and leaves it alone when it quits |
| Idle.DashboardFrame | src/octopicontrol.py:331-571 | one dashboard pass changes nothing when it quits, keeps the invariant, never turns the screensaver off, and keeps a reachable state reachable |
| Idle.ReachableSteps | src/octopicontrol.py:567-571 | the start is reachable (the screensaver is on only with `runtime == 0`, as line 570 leaves it), and every dashboard pass and screensaver event loop keeps that |
| Idle.LeaveScreensaver | src/octopicontrol.py:567-571 | leaving the screensaver gives `runtime 0` with `return_from_ss` set, and it comes back after exactly 720 untouched frames |
| Idle.FirstDashboardBatch | src/octopicontrol.py:334-412 | the first pass's event loop as written: it goes on only without events, quits exactly on a leading `QUIT`, and otherwise stops with an unbound `background` |
| Idle.FirstTouchCrashes | src/octopicontrol.py:387 | a first touch-down, or any first event but `QUIT`, stops the first pass, where a later pass applies or ignores it |
| Idle.BeforeCons | src/octopicontrol.py:334-412 | how "`a` comes before any `b`" unfolds over the first event |
| Idle.DashboardBatchEffect | src/octopicontrol.py:334-412 | the dashboard's event loop quits exactly on a `QUIT` before any touch-down, and applies the touch-down exactly when one comes before any `QUIT` |
| Idle.ScreensaverBatchEffect | src/octopicontrol.py:626-632 | the screensaver's event loop leaves it exactly on a touch-up before any `QUIT`, and quits exactly on a `QUIT` before any touch-up |
| Idle.StepsKeepInvariant | src/octopicontrol.py:567-571 | every step keeps `runtime` below 720, and a dashboard frame never switches the screensaver off |
| Idle.WaitStartsScreensaver | src/octopicontrol.py:567-571 | left untouched, the screensaver starts after exactly `720 - runtime` frames, not earlier |
| Idle.OnStaysOn | src/octopicontrol.py:414 | once the screensaver is on, dashboard frames change nothing |
| Idle.TouchRestartsCount | src/octopicontrol.py:382-383 | after an ordinary touch-down the screensaver starts exactly 720 untouched frames later |
| Idle.ReturnSkipsOneReset | src/octopicontrol.py:382-385 | after leaving the screensaver, the first touch-down keeps the count and the second resets it |
| Idle.IdleClock.constructor | src/octopicontrol.py:301-304 | the timer starts at zero with both flags off |
| Idle.IdleClock.DashboardTick | src/octopicontrol.py:567-571 | the in-place update gives `Tick` of the old state |
| Idle.IdleClock.TouchDown | src/octopicontrol.py:382-385 | the in-place update gives `Down` of the old state |
| Idle.IdleClock.TouchUp | src/octopicontrol.py:392-409 | a touch-up on the dashboard leaves the timer unchanged |
| Idle.IdleClock.ScreensaverTouchUp | src/octopicontrol.py:626-630 | the in-place update gives `SsUp` of the old state |
| Idle.IdleClock.DashboardEvents | src/octopicontrol.py:334-412 | the event loop's result and new state are those of `DashboardBatch` |
| Idle.IdleClock.ScreensaverEvents | src/octopicontrol.py:626-632 | the event loop's result and new state are those of `ScreensaverBatch` |
| Idle.IdleClock.DashboardPass | src/octopicontrol.py:331-571 | one dashboard pass of the outer loop gives `DashboardFrame` of the old state |
| Sweep.Visit | src/octopicontrol.py:101-104 | the sweep in terms of original positions never grows the list; `LoopIsVisit` ties it to the iterator |
| Sweep.Loop | src/octopicontrol.py:101-104 | the index-based loop never grows the list; `LoopIsVisit` pins down its content |
| Sweep.LoopIsVisit | src/octopicontrol.py:101-104 | CPython's index-based remove-while-iterating loop equals the original-position account, which skips the element after each removal |
| Sweep.SweepIsVisit | src/octopicontrol.py:101-104 | the whole sweep from index 0 equals `Visit` |
| Sweep.VisitKeeps | src/octopicontrol.py:101-104 | a property that the step preserves and that every element has holds of every element left, and no element left is marked for removal |
| Sweep.VisitAllLive | src/octopicontrol.py:101-104 | when no step marks anything, every element is stepped once with its own position's draw |
| Sweep.VisitKeepsOrder | src/octopicontrol.py:101-104 | when the step keeps a key, the elements left keep strictly increasing keys within the same bounds |
| Sweep.RemoveFirst | src/octopicontrol.py:104 | `list.remove` shortens the list by one exactly when the element is in it, and leaves it alone otherwise |
| Sweep.Without | src/octopicontrol.py:104 | the list minus a removed set never grows; `WithoutMembers` pins down its elements |
| Sweep.RemoveFirstAt | src/octopicontrol.py:104 | in a list without repeats, `list.remove` of the element at `i` removes exactly position `i` |
| Sweep.WithoutMembers | src/octopicontrol.py:104 | the list minus a removed set keeps exactly the elements outside the set |
| Sweep.WithoutRemove | src/octopicontrol.py:104 | removing one more kept element takes out exactly its place |
| Matrix.Fresh | src/octopicontrol.py:43-50 | a new particle sits where it was placed, shows its code, has 30 lives, is alive, and for an in-range frame shows that glyph |
| Matrix.Advance | src/octopicontrol.py:52-59 | a particle step loses one life and keeps its place and its code |
| Matrix.AdvanceOk | src/octopicontrol.py:52-59 | a particle step loses exactly one life, is dead exactly when life reaches 0, keeps `int(frame)` inside the code, and does not move the particle |
| Matrix.Lifespan | src/octopicontrol.py:52-59 | after `n` steps life is `life - n`, and the particle is dead exactly from step `life` on, whatever the draws |
| Matrix.FreshLifespan | src/octopicontrol.py:43-59 | a new particle is dead after exactly 30 steps and not before |
| Matrix.NewTrail | src/octopicontrol.py:75-87 | a new group is alive with its code, speed and slot and one particle in its slot row; with a non-empty code and positive speed it is well formed and stacked |
| Matrix.Spawned | src/octopicontrol.py:90-98 | the spawn keeps code, speed, column and frame, and adds at most one particle |
| Matrix.SpawnAppends | src/octopicontrol.py:94-96 | the spawn keeps the particles there were, in order, and appends one fresh particle at the new slot exactly when the slot moves down |
| Matrix.SpawnStacked | src/octopicontrol.py:94-96 | a spawn keeps the particles in strictly increasing rows, none below the slot |
| Matrix.TickCounters | src/octopicontrol.py:89-108 | `update` cycles modulo `speed`, the group frame cycles modulo the code length, and `pos[1]` moves down one text height exactly on a spawn above the bottom |
| Matrix.Tick | src/octopicontrol.py:89-108 | one `modernize` of a group keeps its code, speed and column and grows the list by at most one; `TickCounters` and `TickSweep` pin down the rest |
| Matrix.TickDeath | src/octopicontrol.py:90-99 | the group is flagged dead exactly on a spawn frame at the bottom with no particle left |
| Matrix.TickBottom | src/octopicontrol.py:94-96 | the slot never moves up; at the bottom nothing is appended; the list grows by at most one |
| Matrix.TickSweep | src/octopicontrol.py:101-104 | the group's particle sweep is `Visit` of the grown list, and with no death it steps every particle once |
| Matrix.AllLiveSteps | src/octopicontrol.py:101-104 | when no particle dies, the sweep keeps every particle and steps each one with the draw of its own position |
| Matrix.TickOk | src/octopicontrol.py:89-108 | a group step keeps the counters in range and every particle alive, well formed and in the group's column |
| Matrix.TickStacked | src/octopicontrol.py:94-104 | a group step keeps its particles in strictly increasing rows, none below the newest slot |
| Matrix.SkipAfterRemoval | src/octopicontrol.py:101-104 | of two particles on their last life, only the first is removed; the second is skipped unstepped |
| Matrix.Particle.constructor | src/octopicontrol.py:43-50 | the new particle is `Fresh` |
| Matrix.Particle.Modernize | src/octopicontrol.py:52-59 | the in-place update gives `Advance` of the old state |
| Matrix.Group.constructor | src/octopicontrol.py:75-87 | the new group is `NewTrail`, valid for a non-empty code and positive speed, with one fresh particle |
| Matrix.Group.Modernize | src/octopicontrol.py:89-108 | the in-place update gives `Tick` of the old state, stays valid, and leaves the old list plus at most one new particle, less exactly the particles that died, in order |
| Matrix.Group.Spawn | src/octopicontrol.py:90-99 | the in-place update gives `Spawned`; the list is the old one plus at most one fresh particle, with no repeats and none dead |
| Matrix.Group.AddParticle | src/octopicontrol.py:96 | `particals.append(CodePartical(...))`: one fresh, live particle is appended after the old ones, in state `Fresh` at the group's slot with its frame and code |
| Matrix.Group.SweepOne | src/octopicontrol.py:101-104 | one loop iteration: the list is the original minus the removed set, every removed particle is dead, and the sweep continues as `Loop` would |
| Matrix.Group.StepParticle | src/octopicontrol.py:102 | only the particle at `i` advances |
| Matrix.Group.RemoveParticle | src/octopicontrol.py:103-104 | `list.remove` drops exactly position `i` |
| Matrix.Group.SweepParticles | src/octopicontrol.py:101-104 | the particle states afterwards are `Loop` of the old ones; the list is the old one minus removed, dead particles; none left is dead |
| Screensaver.Pass | src/octopicontrol.py:589-612 | one pass turns the countdown 1 into 2 and 2 into 1, and adds at most two entries |
| Screensaver.Added | src/octopicontrol.py:589-607 | the additions keep the old entries as a prefix and append at most two |
| Screensaver.ShapeStep | src/octopicontrol.py:610 | an entry step keeps its kind; a group keeps code, speed and column; a stray particle keeps its place and loses one life |
| Screensaver.PassAdds | src/octopicontrol.py:589-607 | the countdown alternates 1, 2; a group is appended exactly when it was 1, and then the stray particle exactly when `lone` is 50 |
| Screensaver.Speed | src/octopicontrol.py:591-595 | a new group's speed is 1 to 3, and 3 exactly when `fast` is 0 |
| Screensaver.PassSweep | src/octopicontrol.py:609-612 | the `groups` sweep is `Visit` of the list after the additions |
| Screensaver.StartOk | src/octopicontrol.py:581-582 | the initial state satisfies the loop invariant |
| Screensaver.AppendOk | src/octopicontrol.py:599 | appending a well-formed live entry keeps every entry well formed and alive |
| Screensaver.DropOk | src/octopicontrol.py:612 | removing an entry keeps the rest well formed and alive |
| Screensaver.StreamStepOk | src/octopicontrol.py:610 | a group step keeps it well formed, stacked, at its speed and in its column |
| Screensaver.StrayStepOk | src/octopicontrol.py:610 | a stray particle step keeps it well formed and in place |
| Screensaver.StepOk | src/octopicontrol.py:610 | every entry step keeps the entry well formed |
| Screensaver.Column | src/octopicontrol.py:598 | column `k` lies within the `k`-th 13-pixel band |
| Screensaver.ColumnOnGrid | src/octopicontrol.py:598 | column `k` lies on the 13-pixel grid of column centres |
| Screensaver.RowOnGrid | src/octopicontrol.py:606 | a stray row is between one line down and one line below the bottom |
| Screensaver.NewStreamOk | src/octopicontrol.py:591-599 | a group started with in-range draws is well formed and alive |
| Screensaver.NewStrayOk | src/octopicontrol.py:601-607 | a stray particle with in-range draws is well formed and alive |
| Screensaver.AddedOk | src/octopicontrol.py:589-607 | the entries after the additions are all well formed and alive |
| Screensaver.PassOk | src/octopicontrol.py:589-612 | one pass keeps the invariant for every draw: countdown 1 or 2, every entry well formed, no done entry left in the list |
| Screensaver.Saver.constructor | src/octopicontrol.py:581-582 | the saver starts valid, in the state `Start` |
| Screensaver.Saver.Append | src/octopicontrol.py:599 | `groups.append` of a new entry: the list and the abstract shapes are extended by it |
| Screensaver.Saver.StartGroup | src/octopicontrol.py:591-599 | a new `Group` of the right speed and column is appended, with only fresh objects |
| Screensaver.Saver.DropStray | src/octopicontrol.py:601-607 | a new stray particle at the drawn column and row is appended, with only fresh objects |
| Screensaver.Saver.CountDown | src/octopicontrol.py:589-599 | `add_line` goes to `3 - add_line`, and a group is appended exactly when it was 1 |
| Screensaver.Saver.AddSprites | src/octopicontrol.py:589-607 | the shapes become `Added` of the old state and the countdown that of `Pass` |
| Screensaver.Saver.StepStray | src/octopicontrol.py:610 | only the stray particle at `i` advances; the entries stay owned |
| Screensaver.Saver.ModernizeGroup | src/octopicontrol.py:610 | the group at `i` ticks, stays well formed with no repeated particle, and every object it gains is fresh |
| Screensaver.Saver.StepGroup | src/octopicontrol.py:610 | only the group at `i` ticks; the entries stay owned, and every new object is fresh |
| Screensaver.Saver.StepSprite | src/octopicontrol.py:610 | only the entry at `i` steps, and its `dead` flag is that of the stepped value |
| Screensaver.Saver.SoundLive | src/octopicontrol.py:611 | no entry in a sound list has its flag set |
| Screensaver.Saver.RemoveSprite | src/octopicontrol.py:612 | `groups.remove` drops exactly position `i` and its objects, and keeps the rest owned |
| Screensaver.Saver.DropSprite | src/octopicontrol.py:611-612 | a done entry is removed and joins the removed set |
| Screensaver.Saver.SweepOne | src/octopicontrol.py:609-612 | one loop iteration: the list is the original minus removed done entries, and the sweep continues as `Loop` would |
| Screensaver.Saver.SweepSprites | src/octopicontrol.py:609-612 | the shapes afterwards are `Loop` of the old ones, and the list is the old one minus exactly the entries that came out done |
| Screensaver.Saver.Animate | src/octopicontrol.py:589-612 | one pass gives `Pass` of the old state, keeps the saver valid, and leaves the old entries plus at most two new ones, less exactly the done ones |

## Left out

- pygame is not modelled, and neither is any drawing: surfaces, fonts, `blit`, `flip`, the dirty-rectangle fill, `clock.tick` pacing, and `set_blocked`/`set_allowed` debouncing. A foreign library's effect on a display is not statable here.
- `CodePartical.render` and `Group.render` are not modelled. Their colour arithmetic is floating point that only feeds the drawing. `render` indexes `code[int(frame)]`, and `Matrix.AdvanceOk` proves that index is in range.
- HTTP (`get_info`, `post_info`, `headers`), JSON decoding and the API-key file are not modelled. Their outcomes are the optional inputs of `Dashboard.Poll`.
- Only a reply with a status other than 200 becomes `None` (lines 164-170). Two failures end `main` instead, and the model does not capture them: a transport error from `requests.get` (host unreachable, DNS failure) and a `ValueError` from `json.loads`. Nothing is caught around the call. `requests.get` has no timeout, so a stalled server blocks the loop, which the model does not capture either.
- The `ioctl` socket calls, the backlight file write and the SIGINT handler are not modelled. Their outcomes are optional inputs of `NetAddr`.
- `random`, `random.shuffle` and the `datetime`/`pytz` time string are parameters: draws within the ranges of `randint`, and arbitrary code strings. A group's code is any non-empty string. A stray particle's code is any string as long as the printer's name, not necessarily a shuffle of it.
- `Screensaver.DropStray`: the stray particle's code is not stated to be a permutation of "MP Mini Select V2 IIIP 3D Printer"; only its length is kept.
- The first `pos` draw of the screensaver (line 583) is not modelled, because the first group overwrites it before it is used.
- The font height is a parameter `h > 0`, because the font file decides it.
- A particle's frame is kept exactly in tenths. The floating-point rounding of repeated `0.1` additions is not modelled.
- `confirm()` and the commented-out button handlers are not modelled. They never run.
- `setProgress` is only ever called from commented-out code, so the dashboard screen (`Dashboard.Render`) does not include the bar. The ladder is modelled on its own.
- `QUIT` and touches during the screensaver are not modelled in `Screensaver`, because they are handled by `Idle.ScreensaverBatch`. Likewise the `screensaver_on` test at line 586 is an `Idle` transition.
- `Dashboard.Round`: the model rounds exact rationals with unbounded ints. `int(round(x))` goes through a Python float, so it can differ from the model above 2^53.
- `Strings.IntText`: the model gives the digits of an unbounded int. Python 2's backquotes of a `long` (beyond 2^63 - 1) end with an `L`, which the model does not add.
- `Matrix.TickOk`: no bound is proved on how many particles a group holds. A group appends a particle only while its slot is above the bottom edge, one text row at a time, so it never holds more than about `size[1] / h + 1` particles; this bound is not stated.

## Findings

| source | as written | input that shows it | evidently intended | confidence | as-written member | corrected member |
|---|---|---|---|---|---|---|
| src/octopicontrol.py:387-411 | on the first pass of `main`, the blits at 387 and 411 read the local `background`, which is first bound at line 479, so Python raises `UnboundLocalError` | any event other than `QUIT` in the first event batch, such as a touch-down | the first touch is handled like any later one | not executed | Idle.FirstDashboardBatch | Idle.DashboardBatch |
