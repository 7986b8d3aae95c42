# Sprint board store, in Dafny

This project models the observable `Store` of a small sprint-board web page.
The store keeps a roster of developers. Each developer is a name and a number
of story points (`sp`), and the roster keeps them in insertion order. The
store also keeps the text typed into a filter box. From these two fields it
derives three views:

- the team total, which is the sum of `sp` over the whole roster;
- the top performer, which is the first named developer holding the maximum `sp`;
- the filtered roster, which is the developers whose name contains the filter text, ignoring case.

It offers three actions: clear the roster, push a developer onto its end, and
replace the filter text.

The model has three modules:

- `Text` (`text.dfy`) handles ASCII lower-casing and unanchored literal substring search. Together they make the case-insensitive name test.
- `Roster` (`roster.dfy`) holds the `Developer` record, the seed roster and the three views as functions on `seq<Developer>`. It also holds the lemmas about these functions: how each view changes when a developer is pushed, subsequence and multiplicity facts for the filter, and the seed-roster values.
- `Sprint` (`store.dfy`) holds the class `Store`. Its fields `devsList` and `filter` are updated by the methods `ClearList`, `AddDeveloper` and `UpdateFilter`, each with `modifies this`. The reading functions `TotalSum`, `Top` and `Filtered` delegate to `Roster`. `SeedScenario` drives a fresh store through the first few clicks.

The `find` callback at `src/index.js:36-40` returns the record's `name`, not
`true`. So a record with an empty name is skipped even when it holds the
maximum, and the top performer is the first *named* record with the maximum
score. A non-empty roster therefore has no top performer when every developer
at the maximum is unnamed. `Roster.UnnamedMaxIsSkipped` shows this on a
two-element roster. After `AddDeveloper`, a named newcomer who ties the
maximum fills a missing top; `Roster.TopPerformerPush` states this case.

## Model

| member | source | states |
|---|---|---|
| `Text.LowerChar` | src/index.js:44 | the result is never an ASCII capital; a non-capital is returned unchanged; a capital maps to its small letter |
| `Text.Lower` | src/index.js:44 | lower-casing keeps the length and leaves no ASCII capital; at every position a non-capital is kept and a capital becomes its small letter |
| `Text.LowerIdempotent` | src/index.js:44 | lower-casing a lower-cased string changes nothing |
| `Text.Contains` | src/index.js:44-45 | the search answers true exactly when the pattern occurs at some position of the text (unanchored match) |
| `Text.ContainsEmpty` | src/index.js:44-45 | the empty pattern occurs in every text |
| `Text.ContainsImpliesMatches` | src/index.js:44 | a literal occurrence of the filter in a name is also a case-insensitive match |
| `Text.MatchesIgnoresCase` | src/index.js:44 | lower-casing either the filter or the name does not change whether they match (the `"i"` flag) |
| `Text.MatchesIgnoringCase` | src/index.js:44-45 | the case-insensitive test holds exactly when the lower-cased filter occurs at some position of the lower-cased name; the empty filter matches every name |
| `Text.EmptyMatchesAll` | src/index.js:44-45 | the matcher built from the empty filter accepts every name |
| `Roster.Seed` | src/index.js:22-26 | the seed roster has three developers, each named and with positive points, listed in strictly falling score order |
| `Roster.SumSp` | src/index.js:30-32 | when no score is negative, the total is non-negative and at least every single developer's score |
| `Roster.SumSpAppend` | src/index.js:30-32 | the total of two rosters laid end to end is the sum of their totals |
| `Roster.SumSpPush` | src/index.js:30-32 | pushing a developer raises the total by exactly that developer's points |
| `Roster.SumSpFront` | src/index.js:31 | the left fold of `reduce` starting from 0 equals the fold that takes the first developer first |
| `Roster.MaxSp` | src/index.js:35 | the maximum is the score of some developer in the roster and no developer scores higher |
| `Roster.IsTop` | src/index.js:36-40 | the `find` callback accepts a developer exactly when their score is the given maximum and their name is truthy, that is, non-empty |
| `Roster.FindFirst` | src/index.js:36-40 | returns the first index whose developer has the given score and a non-empty name, or nothing when no developer qualifies |
| `Roster.TopPerformer` | src/index.js:34-41 | absent for an empty roster; when present it holds the maximum score and a non-empty name and sits at some index before which no developer holds the maximum with a non-empty name; present exactly when some named developer holds the maximum |
| `Roster.FindFirstPush` | src/index.js:36-40 | pushing a developer keeps an earlier qualifying index; otherwise the new last index is found exactly when the newcomer qualifies |
| `Roster.TopPerformerPush` | src/index.js:34-41 | after a push: a lower score keeps the top; an equal score keeps an existing top and otherwise makes a named newcomer the top; a higher score, or an empty roster, makes the newcomer the top unless their name is empty |
| `Roster.UnnamedMaxIsSkipped` | src/index.js:36-40 | a non-empty roster whose only maximum-score developer is unnamed has no top performer |
| `Roster.NameMatches` | src/index.js:44-45 | a developer passes the filter exactly when the lower-cased filter occurs somewhere in their lower-cased name; every developer passes the empty filter |
| `Roster.KeepMatching` | src/index.js:44-45 | keeps exactly the matching developers: a developer is in the result iff it is in the roster and matches, and each matching developer occurs as often as in the roster |
| `Roster.FilteredDevelopers` | src/index.js:43-46 | the empty filter returns the roster itself; for any filter the result holds exactly the matching developers of the roster, each as often as in the roster |
| `Roster.EmptyFilterKeepsAll` | src/index.js:44-45 | the matcher built from the empty filter keeps the whole roster, so the `!filter` shortcut agrees with it |
| `Roster.FilteredPush` | src/index.js:43-46 | pushing a developer appends that developer to the filtered view exactly when they match, and adds nothing otherwise |
| `Roster.KeepMatchingIsSubsequence` | src/index.js:44-45 | the matcher's result is an order-preserving subsequence of the roster |
| `Roster.FilteredIsSubsequence` | src/index.js:43-46 | the filtered view is an order-preserving subsequence of the roster, whatever the filter |
| `Roster.SeedViews` | src/index.js:22-41 | the seed roster totals 30 points and its top performer is Jack with 12 |
| `Roster.SeedNamesAgainstA` | src/index.js:44 | "a" matches "Jack" and "Max" ignoring case and does not match "Leo" |
| `Roster.SeedFilteredByA` | src/index.js:22-46 | filtering the seed roster by "a" gives Jack then Max |
| `Roster.SeedWithAnn` | src/index.js:22-54 | the seed roster with Ann (12) pushed totals 42, and Jack stays on top because the earlier of two tied developers wins |
| `Sprint.Store.constructor` | src/index.js:22-28 | a new store holds Jack 12, Max 10, Leo 8 in that order and an empty filter |
| `Sprint.Store.TotalSum` | src/index.js:30-32 | delegates to `Roster.SumSp` over the whole roster, ignoring the filter; 0 for an empty roster |
| `Sprint.Store.Top` | src/index.js:34-41 | delegates to `Roster.TopPerformer` over the whole roster, ignoring the filter; a present top is a named member of the roster |
| `Sprint.Store.Filtered` | src/index.js:43-46 | delegates to `Roster.FilteredDevelopers`; the whole roster for the empty filter, and otherwise only roster members that match |
| `Sprint.Store.ClearList` | src/index.js:48-50 | the roster becomes empty and the filter is unchanged; the total is then 0, there is no top performer and the filtered view is empty |
| `Sprint.Store.AddDeveloper` | src/index.js:52-54 | the new roster is the old one followed by the developer and the filter is unchanged; the total rises by the developer's points; the filtered view gains the developer exactly when they match; the top performer changes as `Roster.TopPerformerPush` says |
| `Sprint.Store.UpdateFilter` | src/index.js:56-58 | the filter becomes the given text and the roster is unchanged, so the total and the top performer are unchanged; the filtered view is the roster filtered by the new text |
| `Sprint.SeedScenario` | src/index.js:22-58 | a fresh store shows total 30 with Jack on top; after typing "a" it shows Jack then Max; after adding Ann 12 it shows total 42, with Jack still on top |

## Left out

- The React components `Row`, `Table`, `Controls` and `App`, and the call that renders them into the page (`src/index.js:63-142`). They render the views and wire buttons to the actions. They hold no logic of their own.
- The `prompt` dialogs and the `parseInt` that turn user input into a developer (`src/index.js:103-107`). This is browser input. The model takes the name as a string and `sp` as an integer, so a `NaN` score or a `null` name from a cancelled dialog cannot arise.
- The MobX machinery: `makeObservable`, `configure({ enforceActions })`, `observer`, dependency tracking and change notification (`src/index.js:4-7`, `11-20`). The model recomputes every view from the current fields on each read, so no view can be stale. It does not model subscribers or notifications.
- `Text.MatchesIgnoringCase`: the filter is a literal substring test, not a JavaScript regular expression. Metacharacters in the filter are matched as plain characters. A malformed pattern, which makes `new RegExp` throw, is not modelled. Case folding covers ASCII letters only, while the `"i"` flag also folds other letters.
- `Roster.SumSp`: scores are unbounded integers. JavaScript numbers are doubles, so a sum beyond 2^53 would lose precision in the source; the model does not round.
- `Roster.MaxSp`: `Math.max` of no arguments is `-Infinity`, and a `NaN` score poisons it. The model only takes the maximum of a non-empty roster, and an empty roster has no top performer directly.
- `Sprint.Store.AddDeveloper`: the source pushes onto the same array in place (`devsList.push`). The model reassigns a `seq` field. Aliasing of that array by other code is therefore not captured. The views also return values, whereas the source returns references to the stored record objects.
