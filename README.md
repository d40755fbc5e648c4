# Monster Rolodex search, in Dafny

The Monster Rolodex is a single-page React application. On mount it fetches a
list of user records ("monsters") and shows them as cards. A search box above
the cards narrows the list: every keystroke stores the typed value lower-cased
as the search term, and an effect re-derives the shown list whenever the list
or the term changes. The shown list holds, in order, the monsters whose
lower-cased name includes the term.

This project models that core of `src/App.js` in three modules.

- `JsStrings` (`js_strings.dfy`) models the two string built-ins the filter
  uses. `toLocaleLowerCase` becomes `Lower`, which lower-cases ASCII letters
  one character at a time. `includes` becomes `Includes`, a left-to-right
  prefix scan. Lemmas prove that `Lower` is idempotent and distributes over
  concatenation. They also prove that `Includes` agrees in both directions with
  a reference definition of substring containment (`IsSubstring`), and that
  containment is transitive.
- `MonsterFilter` (`monster_filter.dfy`) holds the `Monster` record (`id`,
  `name`), the filter predicate `Matches`, and `Filter`, the recursive form of
  `monsters.filter(...)`. The lemmas prove the following:
  - the result is the input read at exactly the matching positions, in
    increasing order, so it is a subsequence of the input;
  - the filter is sound and complete, counting duplicates too;
  - the empty term is the identity, and the empty list gives the empty list;
  - a term that contains the old term refines the old result;
  - filtering twice by the same term changes nothing.

  The module also proves concrete searches over two example users, Leanne
  Graham and Ervin Howell.
- `AppComponent` (`app_component.dfy`) models the component's state.
  - The `State` datatype holds the three state cells
    `searchField`, `monsters` and `filteredMonsters`. It also records the
    dependency values the filter effect last ran with. React keeps these to
    decide whether the effect must run again.
  - There is one pure function per state update: `MonstersLoaded` for
    `setMonsters`, `SearchChanged` for `onSearchChange` and `FilterEffect` for
    the effect. `Update` is the state update an event makes, and `Apply` is
    that update followed by the commit that runs the effect. `Run` applies a
    sequence of events after mount.
  - The `App` class has the same cells as fields. Its constructor and its
    methods `SetMonsters`, `OnSearchChange` and `RunFilterEffect` reassign the
    fields, and each is proved to produce exactly the state that the pure
    transition gives.

  The central results are these. After any sequence of events, the state is the
  settled state of the users delivered last and the lower-cased value typed
  last, so there is no hidden state (`RunIsDeterminedByLastInputs`). Hence
  `filteredMonsters == Filter(monsters, searchField)` always holds after a
  commit.

Points of React's behaviour the model follows:

- React runs `useEffect` after the render that follows a state update, so the
  recomputation of `filteredMonsters` is not synchronous. One render shows the
  new cell beside the previous `filteredMonsters`. The model exposes that
  intermediate state: `Update` keeps `Inv` but not `Consistent`, and
  `RenderBeforeCommit` and `ScenarioStaleRender` state what that render shows.
  `Apply` is the update together with its commit.
- The filter compares the name against the stored term as it is (line 31 does
  not lower-case `searchField` again). The search is case-insensitive only
  because `onSearchChange` stores the term lower-cased. `ShownMonsters` states
  the resulting case-insensitive behaviour in terms of the raw typed value.
- React compares effect dependencies with `Object.is`: by reference for the
  `monsters` array and by value for the `searchField` string. The model
  compares both by value. `FilterEffectSkipIsUnobservable` shows
  that the choice cannot be observed: under the invariant, skipping the effect
  gives the same state as recomputing.

## Model

| member | source | states |
|---|---|---|
| `JsStrings.LowerChar` | src/App.js:31 | A character is never upper-case after lower-casing. `A`–`Z` map to the letter 32 code points higher, which is in `a`–`z`. Every other character is kept. |
| `JsStrings.Lower` | src/App.js:31 | `toLocaleLowerCase` keeps the length and yields a lower-case string. Each `A`–`Z` becomes the letter 32 code points higher; every other character is unchanged. |
| `JsStrings.LowerOfLowerCase` | src/App.js:37 | An already lower-case string is unchanged by lower-casing. |
| `JsStrings.LowerIdempotent` | src/App.js:37 | Lower-casing twice is lower-casing once. |
| `JsStrings.LowerAppend` | src/App.js:37 | In the ASCII model, lower-casing distributes over concatenation, so typing more characters extends the lower-cased term. |
| `JsStrings.IncludesIsSubstring` | src/App.js:31 | `includes` holds exactly when the needle occurs at some position of the haystack (both directions). |
| `JsStrings.IncludesEmpty` | src/App.js:31 | Every string includes the empty string. |
| `JsStrings.IncludesSelf` | src/App.js:31 | Every string includes itself. |
| `JsStrings.IncludesTransitive` | src/App.js:31 | If the haystack includes a middle string that includes the needle, the haystack includes the needle. |
| `JsStrings.NotIncludesPair` | src/App.js:31 | A two-character needle is not included where its two characters never stand side by side. |
| `JsStrings.IncludesPrefix` | src/App.js:31 | A string is included in every extension of it. |
| `MonsterFilter.Filter` | src/App.js:30-32 | The filtered list is never longer than the monster list. |
| `MonsterFilter.FilterSelectsMatches` | src/App.js:30-32 | The filtered list is the monster list read at strictly increasing positions. Position `i` is among them exactly when monster `i` matches. |
| `MonsterFilter.FilterIsSubsequence` | src/App.js:30-32 | The filtered list is a subsequence of the monster list: order is kept and nothing is invented. |
| `MonsterFilter.FilterMembers` | src/App.js:30-32 | Soundness and completeness: a monster is in the result exactly when it is in the list and its lower-cased name includes the term. |
| `MonsterFilter.FilterMultiplicity` | src/App.js:30-32 | A matching monster keeps every occurrence; a non-matching one has none. |
| `MonsterFilter.FilterEmptyTerm` | src/App.js:31 | The empty term returns the monster list unchanged. |
| `MonsterFilter.FilterNoMonsters` | src/App.js:30 | An empty monster list filters to the empty list for every term. |
| `MonsterFilter.FilterAppend` | src/App.js:30-32 | Filtering a concatenation is the concatenation of the filtered parts. |
| `MonsterFilter.FilterRefines` | src/App.js:31 | When the new term includes the old one, filtering by the new term equals filtering the old result by the new term. |
| `MonsterFilter.FilterNarrows` | src/App.js:31 | When the new term includes the old one, the new result is a subsequence of the old one. |
| `MonsterFilter.FilterIdempotent` | src/App.js:31 | Filtering twice by the same term gives the same list as filtering once. |
| `MonsterFilter.ScenarioSearchErvin` | src/App.js:30-32 | Leanne Graham and Ervin Howell searched for "ervin" give Ervin Howell alone. |
| `MonsterFilter.ScenarioKeystrokeTerms` | src/App.js:30-32 | The same two records under "e" stay both, in order. Under "er" and "erv" only Ervin Howell remains. |
| `MonsterFilter.ScenarioEmptySearch` | src/App.js:30-32 | The same two records under the empty term stay both, in their original order. |
| `AppComponent.InitialConsistent` | src/App.js:19-21 | The initial cells (`""`, `[]`, and `filteredMonsters` initialised from `monsters`) satisfy the invariant and are consistent. Mounting settles them with every cell empty. |
| `AppComponent.MonstersLoadedKeepsInv` | src/App.js:26 | Replacing the monster list wholesale keeps the invariant. |
| `AppComponent.SearchChangedKeepsInv` | src/App.js:36-39 | The change handler keeps the invariant, and the stored term is always lower-case. |
| `AppComponent.FilterEffectSettles` | src/App.js:29-34 | From any state meeting the invariant, the effect makes `filteredMonsters == Filter(monsters, searchField)`. Its dependency record is then up to date, and `monsters` and `searchField` are unchanged. |
| `AppComponent.FilterEffectSkipIsUnobservable` | src/App.js:29-34 | Under the invariant, skipping the effect on unchanged dependencies gives the same state as recomputing. |
| `AppComponent.FilterEffectIdempotent` | src/App.js:29-34 | Running the effect a second time changes nothing. |
| `AppComponent.ApplySettled` | src/App.js:26-39 | Applying loaded users or a typed value to a settled state gives the settled state of the new list, or of the lower-cased new term. |
| `AppComponent.RunIsDeterminedByLastInputs` | src/App.js:19-39 | After mount and any events, the state is determined by the users delivered last and the lower-cased value typed last. No other state counts. |
| `AppComponent.RunSettled` | src/App.js:29-34 | After every commit, `filteredMonsters == Filter(monsters, searchField)` and the invariant holds. |
| `AppComponent.ShownMonsters` | src/App.js:29-39 | A monster is shown exactly when it is among the users delivered last and its lower-cased name includes the lower-cased value typed last. |
| `AppComponent.NothingShownBeforeLoad` | src/App.js:20-21 | While no users have been delivered (or the fetch never completes), nothing is shown, whatever is typed. |
| `AppComponent.EverythingShownBeforeSearch` | src/App.js:19 | Before any keystroke, every delivered monster is shown in order. |
| `AppComponent.SearchChangeTwice` | src/App.js:36-39 | Handling the same input twice gives the same state as handling it once. |
| `AppComponent.RetypeStoredTerm` | src/App.js:36-39 | Typing the stored term back leaves a settled state unchanged, because lower-casing is idempotent. |
| `AppComponent.KeystrokeNarrows` | src/App.js:29-39 | In the ASCII model, a keystroke that extends the input re-filters the shown list by the new term, and the new list is a subsequence of the old one. |
| `AppComponent.BackspaceWidens` | src/App.js:29-39 | In the ASCII model, deleting characters from the end of the input gives a list of which the old list is a subsequence. |
| `AppComponent.RenderBeforeCommit` | src/App.js:29-34 | In the render right after an update of a settled state, the invariant holds and the shown list is still the filter of the previous cells. The commit then settles the state. |
| `AppComponent.ScenarioStaleRender` | src/App.js:29-39 | From both example users shown for "", typing "er" first renders both beside the new term, although only Ervin Howell matches; after the commit Ervin Howell alone is shown. |
| `AppComponent.ScenarioKeystrokes` | src/App.js:26-39 | After loading Leanne Graham and Ervin Howell, typing "E" shows both. Typing on to "Er" and then "Erv" shows Ervin Howell alone. |
| `AppComponent.App.constructor` | src/App.js:19-34 | Mount: all cells start empty, the filter effect runs once, and the object is the settled state `Mounted()`. |
| `AppComponent.App.RunFilterEffect` | src/App.js:29-34 | The effect reassigns `filteredMonsters` and the dependency record exactly as `FilterEffect` does. |
| `AppComponent.App.SetMonsters` | src/App.js:26 | `setMonsters(users)` and its commit give exactly `Apply(old state, Loaded(users))`, and the object stays settled. |
| `AppComponent.App.OnSearchChange` | src/App.js:36-39 | `onSearchChange` and its commit give exactly `Apply(old state, Typed(value))`, and the object stays settled. |
| `AppComponent.App.CardListMonsters` | src/App.js:49 | After each commit (`Valid()`), the list handed to `CardList` is `Filter(monsters, searchField)`. The render before a commit is covered by `RenderBeforeCommit`. |

## Left out

- The `fetch` call and the JSON parsing (src/App.js:23-27) are network I/O and an asynchronous promise chain. Only their effect is modelled: `setMonsters` replaces the list wholesale (the `Loaded` event, `App.SetMonsters`). A failed fetch is a run in which no `Loaded` event occurs (`NothingShownBeforeLoad`).
- The `Monster` record keeps only `id` and `name`. The other fetched fields are opaque to the filter.
- Malformed responses are not modelled. Line 31 throws a `TypeError` when a fetched record has no string `name`, and the filter fails when the response is not an array; React then unmounts the tree. Typing `Monster.name` as `string` and the list as `seq<Monster>` rules both cases out.
- JavaScript strings are sequences of UTF-16 code units, while Dafny's `string` is a sequence of Unicode scalar values. For well-formed strings, `includes` gives the same answer on both. Lone surrogates are not modelled.
- `JsStrings.Lower`: lower-cases ASCII capitals only. Locale-sensitive Unicode case mapping in `toLocaleLowerCase` (src/App.js:31, 37) is not modelled. Full Unicode mapping can change a string's length, which ASCII never does, and it depends on context: under the Final_Sigma rule capital sigma becomes "ς" at the end of a word and "σ" elsewhere, so typing "ΑΣ" and then "ΑΣΑ" stores "ας" and then "ασα", and the first is not a prefix of the second. `JsStrings.LowerAppend`, `AppComponent.KeystrokeNarrows` and `AppComponent.BackspaceWidens` therefore hold for the ASCII map only; in the program a keystroke can lengthen the list (a monster named "ΒΑΣΑ" is hidden under "ας" and shown under "ασα").
- JSX rendering, the `SearchBox` and `CardList` components, the page title and the placeholder (src/App.js:41-51), and the CSS import (src/App.js:4) are view code. The value passed to `CardList` is modelled by `App.CardListMonsters`. The `event` object of `onSearchChange` is reduced to its `target.value` string.
- React's scheduling (batching of several updates before one commit, and re-renders themselves) is not modelled. Each event is one update followed by one commit.
- The commented-out class-based variant (src/App.js:54-106) is dead code with the same filtering behaviour.
