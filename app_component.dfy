/**
  The state of the App component: the three state cells `searchField`,
  `monsters` and `filteredMonsters`, the filter effect that re-derives
  `filteredMonsters` whenever `monsters` or `searchField` changes, and the
  `onSearchChange` handler.

  The state in a pure form comes first: a `State` value with one transition
  per state update, and a `Run` over a sequence of events. After that comes
  the `App` class, whose fields are the cells and whose methods are proved
  against those transitions.
 */
module AppComponent {
  import opened JsStrings
  import opened MonsterFilter

  datatype Option<T> = None | Some(value: T)

  /** The dependency list `[monsters, searchField]` of the filter effect. */
  datatype Deps = Deps(monsters: seq<Monster>, searchField: string)

  /**
    The component's state cells, and the dependency values the filter effect
    last ran with (`None` before its first run, which happens on mount).
   */
  datatype State = State(
    searchField: string,
    monsters: seq<Monster>,
    filteredMonsters: seq<Monster>,
    lastDeps: Option<Deps>)

  function CurrentDeps(s: State): Deps {
    Deps(s.monsters, s.searchField)
  }

  /** The first render: `useState("")`, `useState([])`, and `useState(monsters)`, which is `[]` too. */
  function Initial(): State {
    State("", [], [], None)
  }

  /** `setMonsters(users)`: the whole list is replaced. */
  function MonstersLoaded(s: State, users: seq<Monster>): State {
    s.(monsters := users)
  }

  /** `onSearchChange`: the typed value is lower-cased and stored with `setSearchField`. */
  function SearchChanged(s: State, value: string): State {
    s.(searchField := Lower(value))
  }

  /**
    The filter effect. It runs when its dependencies differ from those of its
    last run, and then stores the filtered list with `setFilteredMonsters`.
   */
  function FilterEffect(s: State): State {
    if s.lastDeps == Some(CurrentDeps(s)) then s
    else s.(filteredMonsters := Filter(s.monsters, s.searchField), lastDeps := Some(CurrentDeps(s)))
  }

  /** The state after mount: the filter effect has run once on the initial cells. */
  function Mounted(): State {
    FilterEffect(Initial())
  }

  /** The displayed list is the filter of the current cells. */
  predicate Consistent(s: State) {
    s.filteredMonsters == Filter(s.monsters, s.searchField)
  }

  /**
    True of every state between renders. The search term is lower-case, and
    `filteredMonsters` was derived from the dependencies the effect last saw
    (or still holds its initial value).
   */
  predicate Inv(s: State) {
    && IsLowerCase(s.searchField)
    && match s.lastDeps
       case None => s.filteredMonsters == []
       case Some(d) => s.filteredMonsters == Filter(d.monsters, d.searchField)
  }

  /** True after every commit: the invariant holds, the view is consistent and the effect is up to date. */
  predicate Settled(s: State) {
    Inv(s) && Consistent(s) && s.lastDeps == Some(CurrentDeps(s))
  }

  /** The settled state for a given list and lower-case term. */
  function Settle(monsters: seq<Monster>, term: string): State {
    State(term, monsters, Filter(monsters, term), Some(Deps(monsters, term)))
  }

  /** The initial state satisfies the invariant and is already consistent, and mounting settles it with every cell empty. */
  lemma InitialConsistent()
    ensures Inv(Initial()) && Consistent(Initial())
    ensures Mounted() == Settle([], "") && Settled(Mounted())
  {
  }

  /** Replacing `monsters` keeps the invariant. */
  lemma MonstersLoadedKeepsInv(s: State, users: seq<Monster>)
    requires Inv(s)
    ensures Inv(MonstersLoaded(s, users))
  {
  }

  /** The handler keeps the invariant: the stored term is always lower-case. */
  lemma SearchChangedKeepsInv(s: State, value: string)
    requires Inv(s)
    ensures Inv(SearchChanged(s, value))
    ensures IsLowerCase(SearchChanged(s, value).searchField)
  {
  }

  /**
    From any state that satisfies the invariant, the effect settles the state
    and changes only `filteredMonsters` and its record of the dependencies.
   */
  lemma FilterEffectSettles(s: State)
    requires Inv(s)
    ensures Settled(FilterEffect(s))
    ensures FilterEffect(s).monsters == s.monsters && FilterEffect(s).searchField == s.searchField
  {
  }

  /**
    Skipping the effect when its dependencies are unchanged cannot be
    observed: under the invariant the effect gives the same state as
    recomputing unconditionally.
   */
  lemma FilterEffectSkipIsUnobservable(s: State)
    requires Inv(s)
    ensures FilterEffect(s) == Settle(s.monsters, s.searchField)
  {
  }

  /** Running the effect again changes nothing. */
  lemma FilterEffectIdempotent(s: State)
    ensures FilterEffect(FilterEffect(s)) == FilterEffect(s)
  {
  }

  // ----- Events and runs -----

  /** What can happen after mount: the fetch delivers users, or the user types into the search box. */
  datatype Event = Loaded(users: seq<Monster>) | Typed(value: string)

  /** The state update an event makes, before the commit: this is what the next render shows. */
  function Update(s: State, e: Event): State {
    match e
    case Loaded(users) => MonstersLoaded(s, users)
    case Typed(value) => SearchChanged(s, value)
  }

  /** One state update followed by the commit that runs the effect. */
  function Apply(s: State, e: Event): State {
    FilterEffect(Update(s, e))
  }

  /** The state after mount and then `events`, in order. */
  function Run(events: seq<Event>): State {
    if events == [] then Mounted()
    else Apply(Run(events[..|events| - 1]), events[|events| - 1])
  }

  /** The users delivered last, or `[]` before any fetch completes. */
  function LastLoaded(events: seq<Event>): seq<Monster> {
    if events == [] then []
    else match events[|events| - 1]
      case Loaded(users) => users
      case Typed(_) => LastLoaded(events[..|events| - 1])
  }

  /** The value typed last, or `""` before any keystroke. */
  function LastTyped(events: seq<Event>): string {
    if events == [] then ""
    else match events[|events| - 1]
      case Typed(value) => value
      case Loaded(_) => LastTyped(events[..|events| - 1])
  }

  /** One event applied to a settled state gives the settled state of the updated cells. */
  lemma ApplySettled(monsters: seq<Monster>, term: string, e: Event)
    ensures Apply(Settle(monsters, term), e) == match e
      case Loaded(users) => Settle(users, term)
      case Typed(value) => Settle(monsters, Lower(value))
  {
  }

  /**
    No hidden state: after any run, the state is the settled state of the
    list delivered last and the lower-cased value typed last.
   */
  lemma {:induction false} RunIsDeterminedByLastInputs(events: seq<Event>)
    ensures Run(events) == Settle(LastLoaded(events), Lower(LastTyped(events)))
  {
    if events == [] {
      assert Lower("") == "";
    } else {
      var prefix := events[..|events| - 1];
      RunIsDeterminedByLastInputs(prefix);
      ApplySettled(LastLoaded(prefix), Lower(LastTyped(prefix)), events[|events| - 1]);
    }
  }

  /** The derived-list invariant: after every commit, `filteredMonsters == Filter(monsters, searchField)`. */
  lemma RunSettled(events: seq<Event>)
    ensures Settled(Run(events))
  {
    RunIsDeterminedByLastInputs(events);
  }

  /**
    The search is case-insensitive in the typed value: a monster is shown
    exactly when it is among the users delivered last and its lower-cased
    name includes the lower-cased value typed last.
   */
  lemma ShownMonsters(events: seq<Event>, m: Monster)
    ensures m in Run(events).filteredMonsters
        <==> m in LastLoaded(events) && Includes(Lower(m.name), Lower(LastTyped(events)))
  {
    RunIsDeterminedByLastInputs(events);
    FilterMembers(LastLoaded(events), Lower(LastTyped(events)), m);
  }

  /** Until a fetch delivers users (or if it never does), nothing is shown, whatever is typed. */
  lemma NothingShownBeforeLoad(events: seq<Event>)
    requires LastLoaded(events) == []
    ensures Run(events).filteredMonsters == []
  {
    RunIsDeterminedByLastInputs(events);
  }

  /** Before any keystroke, every delivered monster is shown, in order. */
  lemma EverythingShownBeforeSearch(events: seq<Event>)
    requires LastTyped(events) == ""
    ensures Run(events).filteredMonsters == LastLoaded(events)
  {
    RunIsDeterminedByLastInputs(events);
    assert Lower("") == "";
    FilterEmptyTerm(LastLoaded(events));
  }

  /** Handling the same input twice gives the same state as handling it once. */
  lemma SearchChangeTwice(s: State, value: string)
    ensures Apply(Apply(s, Typed(value)), Typed(value)) == Apply(s, Typed(value))
  {
  }

  /**
    Typing the stored term back changes nothing, because the stored term is
    already lower-case and lower-casing is idempotent.
   */
  lemma RetypeStoredTerm(s: State)
    requires Settled(s)
    ensures Apply(s, Typed(s.searchField)) == s
  {
    LowerOfLowerCase(s.searchField);
  }

  /**
    A keystroke that extends the input (the input so far followed by more
    characters) narrows the list: the new list is the old one filtered again
    and is a subsequence of it.
   */
  lemma KeystrokeNarrows(s: State, typed: string, more: string)
    requires Settled(s) && s.searchField == Lower(typed)
    ensures Apply(s, Typed(typed + more)).filteredMonsters == Filter(s.filteredMonsters, Lower(typed + more))
    ensures IsSubsequence(Apply(s, Typed(typed + more)).filteredMonsters, s.filteredMonsters)
  {
    LowerAppend(typed, more);
    IncludesPrefix(Lower(typed), Lower(more));
    FilterRefines(s.monsters, Lower(typed), Lower(typed + more));
    FilterNarrows(s.monsters, Lower(typed), Lower(typed + more));
  }

  /** Deleting characters from the end of the input widens the list: the old list is a subsequence of the new one. */
  lemma BackspaceWidens(s: State, typed: string, removed: string)
    requires Settled(s) && s.searchField == Lower(typed + removed)
    ensures IsSubsequence(s.filteredMonsters, Apply(s, Typed(typed)).filteredMonsters)
  {
    LowerAppend(typed, removed);
    IncludesPrefix(Lower(typed), Lower(removed));
    FilterNarrows(s.monsters, Lower(typed), Lower(typed + removed));
  }

  /**
    Loading the two example users, Leanne Graham and Ervin Howell, and typing "E", "Er", "Erv": the
    list shown after each keystroke.
   */
  lemma ScenarioKeystrokes()
    ensures Apply(Run([Loaded([Leanne(), Ervin()])]), Typed("E")).filteredMonsters == [Leanne(), Ervin()]
    ensures Apply(Apply(Run([Loaded([Leanne(), Ervin()])]), Typed("E")), Typed("Er")).filteredMonsters == [Ervin()]
    ensures Apply(Apply(Apply(Run([Loaded([Leanne(), Ervin()])]), Typed("E")), Typed("Er")), Typed("Erv")).filteredMonsters
         == [Ervin()]
  {
    var users := [Leanne(), Ervin()];
    var s0 := Run([Loaded(users)]);
    RunIsDeterminedByLastInputs([Loaded(users)]);
    assert [Loaded(users)][..0] == [];
    assert s0 == Settle(users, "");
    assert Lower("E") == "e" && Lower("Er") == "er" && Lower("Erv") == "erv";
    ApplySettled(users, "", Typed("E"));
    ApplySettled(users, "e", Typed("Er"));
    ApplySettled(users, "er", Typed("Erv"));
    ScenarioKeystrokeTerms();
  }

  /**
    The render between a state update and its commit: the new cell is shown
    beside the list derived from the previous cells, and the commit then
    settles that intermediate state.
   */
  lemma RenderBeforeCommit(s: State, e: Event)
    requires Settled(s)
    ensures Inv(Update(s, e))
    ensures Update(s, e).filteredMonsters == Filter(s.monsters, s.searchField)
    ensures Settled(Apply(s, e))
  {
  }

  /**
    With both example users shown for the empty term, typing "er" first
    renders both users beside the new term, although only Ervin Howell
    matches it; the commit then shows Ervin Howell alone.
   */
  lemma ScenarioStaleRender()
    ensures SearchChanged(Settle([Leanne(), Ervin()], ""), "er").filteredMonsters == [Leanne(), Ervin()]
    ensures Filter([Leanne(), Ervin()], "er") == [Ervin()]
    ensures Apply(Settle([Leanne(), Ervin()], ""), Typed("er")).filteredMonsters == [Ervin()]
  {
    ScenarioEmptySearch();
    OnlyErvinMatches("er");
    assert Lower("er") == "er";
    ApplySettled([Leanne(), Ervin()], "", Typed("er"));
  }

  // ----- The component as an object whose state cells are reassigned -----

  class App {
    var searchField: string
    var monsters: seq<Monster>
    var filteredMonsters: seq<Monster>
    var lastDeps: Option<Deps>

    function Snapshot(): State
      reads this
    {
      State(searchField, monsters, filteredMonsters, lastDeps)
    }

    ghost predicate Valid()
      reads this
    {
      Settled(Snapshot())
    }

    /** Mount: the initial cells, then the first run of the filter effect. */
    constructor ()
      ensures Valid() && Snapshot() == Mounted()
    {
      searchField := "";
      monsters := [];
      filteredMonsters := monsters;
      lastDeps := None;
      new;
      RunFilterEffect();
    }

    /** The filter effect on the current cells. */
    method RunFilterEffect()
      modifies this
      ensures Snapshot() == FilterEffect(old(Snapshot()))
    {
      var deps := Deps(monsters, searchField);
      if lastDeps != Some(deps) {
        var newFilteredMonsters := Filter(monsters, searchField);
        filteredMonsters := newFilteredMonsters;
        lastDeps := Some(deps);
      }
    }

    /** `setMonsters(users)` when the fetch completes, followed by the commit. */
    method SetMonsters(users: seq<Monster>)
      requires Valid()
      modifies this
      ensures Valid() && Snapshot() == Apply(old(Snapshot()), Loaded(users))
    {
      monsters := users;
      RunFilterEffect();
      FilterEffectSettles(MonstersLoaded(old(Snapshot()), users));
    }

    /** `onSearchChange(event)` with `event.target.value == value`, followed by the commit. */
    method OnSearchChange(value: string)
      requires Valid()
      modifies this
      ensures Valid() && Snapshot() == Apply(old(Snapshot()), Typed(value))
    {
      var searchFieldString := Lower(value);
      searchField := searchFieldString;
      RunFilterEffect();
      FilterEffectSettles(SearchChanged(old(Snapshot()), value));
    }

    /** The list handed to `CardList`: the monsters whose lower-cased name includes the current term, in order. */
    method CardListMonsters() returns (shown: seq<Monster>)
      requires Valid()
      ensures shown == Filter(monsters, searchField)
    {
      shown := filteredMonsters;
    }
  }
}
