# dualmon: screen discovery and `xrandr` command synthesis

`dualmon` arranges a multi-monitor desktop with `xrandr`. It reads what `xrandr` prints
and collects the names of the connected outputs (`get_connected_screens`). It then builds
the argument list of a second `xrandr` call from those names and the command-line options
(`make_cmd`). That call does one of two things:

- it switches every screen on and chains each one left or right of the screen before it,
  optionally marking one screen as primary;
- or, with `--off`, it switches off every screen except the first.

This project models those two functions of `src/dualmon/cli.py` in Dafny and proves what
they promise. It has five modules:

- `Strings` (strings.dfy) models the Python string built-ins the code relies on, each as a
  recursive function: `s.split()` with no separator (`Words`, with Python's `isspace`
  set), `s.splitlines()` (`SplitLines`, with Python's set of line boundaries and
  `"\r\n"` as one break) and `pat in s` (`Contains`). Beside them are the lemmas the other
  modules need: split of tokens joined by spaces, splitlines of "\n"-terminated lines,
  and where a substring can occur.
- `Discovery` (discovery.dfy) models `get_connected_screens`. The method
  `GetConnectedScreens` is the loop over the lines. It is proved equal to the function
  `ConnectedScreens`. That function is then characterised two ways:
  - position by position, against the connected lines;
  - over a whole report of output headers and other lines (`ReportLine`), where it yields
    exactly the connected outputs in report order and skips ` disconnected` headers.
- `Layout` (layout.dfy) models `make_cmd`.
  - The options record is the datatype `Args`. The two exceptions the function can raise
    are the `Error` values of a `Result`.
  - `ChoosePlacement` is the loop with `break` over `('left', 'right')`.
  - `IndexOf` plus `MoveToFront` are `screens.index` and the in-place `pop`/`insert` on
    the caller's list, an `array<string>`.
  - `BuildOffCommand` and `BuildNormalCommand` are the two `extend` loops.
  - `MakeCmd` strings these steps together. It is proved to return `MakeCmdSpec` and to
    leave the list reordered.
  - The lemmas about `MakeCmdSpec` state the off-mode and normal-mode commands, the
    primary marks, the role of the placement flags and the errors.
- `App` (app.dfy) joins the two halves the way `main` does, minus the process calls.
- `Scenarios` (scenarios.dfy) works out `make_cmd` on three screens A, B, C.

Without a primary, the code emits no `--primary` word at all (`src/dualmon/cli.py:99-100`:
`primary == screen` never holds for `None`). The first screen is then not marked primary,
and the model follows the code here (`Layout.PrimaryMarks`, `Scenarios.ChainRightWithoutPrimary`).

## Model

| member | source | states |
|---|---|---|
| Strings.Words | src/dualmon/cli.py:34 | `str.split()` yields only non-empty, whitespace-free words |
| Strings.WordsOfJoin | src/dualmon/cli.py:101 | splitting whitespace-free words joined by single spaces gives back exactly those words |
| Strings.SplitLinesOfTerminated | src/dualmon/cli.py:32 | `splitlines()` of lines each ended by "\n" gives back exactly those lines when none holds a line break |
| Strings.WordsOfTokenThen | src/dualmon/cli.py:34 | a word followed by whitespace or nothing is the first element of `split()` |
| Strings.ContainsInfix | src/dualmon/cli.py:33 | `pat in a + pat + b` always holds |
| Strings.ContainsSkip | src/dualmon/cli.py:33 | when the first character of `pat` does not occur in `a`, an occurrence of `pat` in `a + b` lies within `b` |
| Discovery.ConnectedLineHasWord | src/dualmon/cli.py:33-34 | a line containing " connected" has a first word, so `line.split()[0]` cannot fail |
| Discovery.ScreenName | src/dualmon/cli.py:34 | the name taken from a connected line is a single non-empty word |
| Discovery.ConnectedScreens | src/dualmon/cli.py:30-36 | the discovered list is no longer than the list of lines and holds only single words |
| Discovery.ConnectedIndices | src/dualmon/cli.py:32-33 | the positions of the lines containing " connected": in range, strictly increasing, and every such line is among them |
| Discovery.ConnectedScreensAreNamesOfConnectedLines | src/dualmon/cli.py:30-36 | the k-th screen is the first word of the k-th connected line, one screen per connected line, in line order |
| Discovery.ConnectedScreensStep | src/dualmon/cli.py:32-34 | one more line adds its first word exactly when it contains " connected", and nothing otherwise |
| Discovery.GetConnectedScreens | src/dualmon/cli.py:30-36 | the append loop over `splitlines()` returns exactly the connected lines' first words, in order |
| Discovery.ConnectedHeaderGivesName | src/dualmon/cli.py:33-34 | a header "NAME connected ..." is kept and yields NAME |
| Discovery.DisconnectedHeaderIsSkipped | src/dualmon/cli.py:33 | a header "NAME disconnected ..." does not contain " connected" and is skipped |
| Discovery.WellFormedLineText | src/dualmon/cli.py:32-34 | a report line holds no line break, is kept exactly when it is the header of a connected output, and then yields that output's name |
| Discovery.ConnectedScreensOfLineTexts | src/dualmon/cli.py:32-35 | over a list of report lines, the kept names are exactly the connected outputs' names in order |
| Discovery.DiscoversConnectedOutputs | src/dualmon/cli.py:30-36 | for any printed report, discovery returns exactly the names of its connected outputs, in report order |
| Layout.PlacementWords | src/dualmon/cli.py:78 | the placement words formatted as `--{placement}` are `--left-of` and `--right-of` |
| Layout.FirstIndex | src/dualmon/cli.py:85 | `screens.index(x)` is a position holding `x` with no earlier `x` |
| Layout.FirstIndexIsFirst | src/dualmon/cli.py:85 | the first position holding `x` is the one `screens.index` reports |
| Layout.MovedToFront | src/dualmon/cli.py:85-86 | pop at `k` then insert at 0 keeps the length and the multiset of names, and puts the popped name first |
| Layout.RemoveFirstAt | src/dualmon/cli.py:85 | removing the first occurrence of `x` cuts the list at `screens.index(x)` |
| Layout.MovedToFrontIsRemoveFirst | src/dualmon/cli.py:85-86 | moving the first `x` to the front gives `[x]` followed by the list without that occurrence, the others in their original order |
| Layout.Reordered | src/dualmon/cli.py:83-89 | the order `make_cmd` leaves is a permutation of the screens, with the given primary first |
| Layout.ReorderedPutsPrimaryFirst | src/dualmon/cli.py:83-89 | with a primary: the primary, then the other screens in their original order; without one: the list unchanged |
| Layout.ReorderedIdempotent | src/dualmon/cli.py:84-86 | reordering an already reordered list changes nothing |
| Layout.OffGroupsShape | src/dualmon/cli.py:92-93 | the off loop emits `--output s --off` at positions 3j..3j+2 for the j-th screen, nothing else |
| Layout.OffGroupsOmit | src/dualmon/cli.py:92-93 | a word that is no screen and neither `--output` nor `--off` never appears in the off groups |
| Layout.OptionWordsAreTokens | src/dualmon/cli.py:96-100 | the option words formatted into the option text are single words |
| Layout.GroupTextIsJoin | src/dualmon/cli.py:96-100 | the option text of screen i is its group of words joined by single spaces |
| Layout.GroupTextSplits | src/dualmon/cli.py:96-101 | `opts.split()` is exactly the group of words when the screen and its predecessor are single words |
| Layout.GroupsPrefix | src/dualmon/cli.py:95-101 | the words extended for the first m screens are a prefix of those for the first n ≥ m |
| Layout.CountIsMultiplicity | src/dualmon/cli.py:99-100 | the occurrence count used for `--primary` marks is the multiplicity in the multiset of the list |
| Layout.GroupPrimaryCount | src/dualmon/cli.py:99-100 | a screen's words hold `--primary` once if the screen equals the primary, else not at all |
| Layout.GroupsPrimaryCount | src/dualmon/cli.py:95-101 | the words of the first n screens hold one `--primary` per screen among them equal to the primary, none without a primary |
| Layout.AllGroupsPrimaryCount | src/dualmon/cli.py:95-101 | the same count over all screens of a reordering of the list |
| Layout.GroupLeftRight | src/dualmon/cli.py:96-98 | one screen's words for left and right differ only in `--left-of` against `--right-of` |
| Layout.GroupsLeftRight | src/dualmon/cli.py:95-101 | the words of all screens for left and right differ only in `--left-of` against `--right-of` |
| Layout.MakeCmdSpec | src/dualmon/cli.py:74-102 | `make_cmd` fails exactly on an unknown primary (ValueError) or on an empty list without a primary (IndexError), and otherwise returns a command starting with `xrandr` |
| Layout.OffModeCommand | src/dualmon/cli.py:91-94 | off mode returns `xrandr` plus one `--output s --off` group per screen after the first, in order, of length 1+3(n-1), and does not name the primary if it occurs once |
| Layout.OffModeOnlySwitchesOff | src/dualmon/cli.py:91-94 | off mode emits no `--auto`, `--primary`, `--left-of` or `--right-of` |
| Layout.NormalModeCommand | src/dualmon/cli.py:95-102 | normal mode returns `xrandr`, then the words of each screen in the reordered order: `--output s --auto`, the placement against the previous screen, `--primary` on a match |
| Layout.PrimaryMarks | src/dualmon/cli.py:99-100 | normal mode emits one `--primary` per screen equal to the primary, and none when no primary is given |
| Layout.PlacementOnlyChangesKeyword | src/dualmon/cli.py:75-80 | setting `left` changes nothing but `--right-of` into `--left-of`, and nothing at all in off mode |
| Layout.MakeCmdRepeatable | src/dualmon/cli.py:84-86 | calling `make_cmd` again on the list it reordered gives the same result |
| Layout.ChoosePlacement | src/dualmon/cli.py:75-80 | the flag loop picks `left-of` exactly when `left` is set, `right-of` otherwise (the default) |
| Layout.IndexOf | src/dualmon/cli.py:85 | the search returns the first position of the primary, or reports it absent exactly when it is not in the list |
| Layout.MoveToFront | src/dualmon/cli.py:85-86 | the in-place shift leaves the array equal to pop-then-insert of the old contents |
| Layout.BuildOffCommand | src/dualmon/cli.py:91-94 | the off loop builds `xrandr` plus the off groups of the screens after the first |
| Layout.BuildNormalCommand | src/dualmon/cli.py:95-102 | the normal loop builds `xrandr` plus each screen's words in order |
| Layout.MakeCmd | src/dualmon/cli.py:74-102 | returns what `MakeCmdSpec` says; the caller's list is reordered on success and untouched on failure |
| App.Arrange | src/dualmon/cli.py:105-108 | building the command from the discovered screens is `make_cmd` of `get_connected_screens` of the output |
| App.ArrangeReport | src/dualmon/cli.py:105-108 | for a printed report, a command is built exactly when the primary is a connected output (or, with none given, some output is connected), and the empty-list failure happens exactly when none is connected and no primary is given |
| Scenarios.ChainRightWithoutPrimary | src/dualmon/cli.py:95-101 | screens A, B, C with no options: B right of A, C right of B, no `--primary` |
| Scenarios.ChainLeftOfPrimary | src/dualmon/cli.py:75-101 | A, B, C with `--left --primary B`: B first and marked primary, A left of B, C left of A |
| Scenarios.OffKeepsOnlyPrimary | src/dualmon/cli.py:84-94 | A, B, C with `--off --primary B`: A and C switched off, B not named |
| Scenarios.UnknownPrimaryRefused | src/dualmon/cli.py:85 | A, B, C with primary D: the ValueError of `screens.index` |

## Left out

- `run_cmd`, `read_xrandr` and the process call at the end of `main` (src/dualmon/cli.py:22-28, 109-110) are subprocess I/O and byte decoding. `App.Arrange` takes the decoded text of `xrandr` as a parameter and returns the command instead of running it.
- `parse_args` (src/dualmon/cli.py:38-61) is argparse configuration. Its `choices=screens` check is not assumed: an unknown primary is the `UnknownPrimary` error. Its mutual exclusion of `--left` and `--right` is not assumed either: with both set, `left` wins, as in the loop.
- `make_epilog` (src/dualmon/cli.py:63-71) formats help text by calling the external `edider` library, which is not part of this model.
- The `print` diagnostics of `make_cmd` (src/dualmon/cli.py:79, 87, 89) do not affect the command. This includes the doubled "-of" the message at line 79 prints.
- Layout.MakeCmdSpec: requires every screen name to be a single non-empty, whitespace-free word. The source builds a text and calls `split()` on it, which would break a name containing whitespace into several words. `get_connected_screens` only delivers such single words (`Discovery.ConnectedScreens`), and `Layout.GroupTextSplits` proves the formatted text splits into exactly the modelled words.
- Layout.MakeCmd: same single-word requirement as `MakeCmdSpec`.
- Layout.BuildNormalCommand: extends the command with the list of words directly rather than formatting and splitting a text, under the same requirement.
- Layout.MoveToFront: performs `pop` and `insert` as one in-place shift of the array. The list never changes length in between.
- Layout.OffModeOnlySwitchesOff: requires that no screen name starts with "--". A screen actually named `--auto` would otherwise appear in the command.
- Layout.PrimaryMarks: requires that no screen is named `--primary`, for the same reason.
- Layout.OffModeCommand: states that the primary is absent only when its name occurs once and does not start with "--". A duplicate of the primary is switched off, as in the source.
- Python strings are sequences of Unicode code points. Only the `isspace` and `splitlines` character classes matter here, and both are spelled out. No normalisation or encoding is modelled.
