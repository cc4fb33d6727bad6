/**
  Model of src/App.jsx: how the page picks its greeting and its first
  theme, the effect that copies the theme to the document and to storage,
  and the route table.

  The browser is modelled by plain values: local storage and the
  attributes of the document's root element are string-to-string maps, the
  colour-scheme media query is a boolean, and `Math.random()` is a real
  number in [0, 1).
*/
module App {
  import opened Wrappers
  import opened Data
  import opened ThemeToggle

  /** The storage key the theme is kept under. */
  const ThemeKey: string := "theme"

  /** The root-element attribute the style sheet reads the theme from. */
  const ThemeAttribute: string := "data-theme"

  /** `localStorage.getItem(key)`: the stored string, or nothing. */
  function GetItem(storage: map<string, string>, key: string): (item: Option<string>)
    ensures item.Some? <==> key in storage
    ensures item.Some? ==> storage[key] == item.value
  {
    if key in storage then Some(storage[key]) else None
  }

  /**
    The theme the page starts with: a stored, non-empty value exactly as it
    was stored, otherwise "dark" when the system prefers a dark colour
    scheme and "light" when it does not.
  */
  function InitialTheme(saved: Option<string>, prefersDark: bool): (theme: string)
    ensures saved.Some? && saved.value != "" ==> theme == saved.value
    ensures saved.None? || saved.value == "" ==>
      (theme == Dark || theme == Light) && (theme == Dark <==> prefersDark)
    ensures theme != ""
  {
    if saved.Some? && saved.value != "" then saved.value
    else if prefersDark then Dark
    else Light
  }

  /** The index `Math.floor(draw * greetings.length)` picks, for a draw in [0, 1). */
  function GreetingIndex(draw: real): (i: int)
    requires 0.0 <= draw < 1.0
    ensures 0 <= i < |Greetings|
  {
    (draw * |Greetings| as real).Floor
  }

  /** The greeting the hero section shows: always one of the listed greetings. */
  function Greeting(draw: real): (greeting: string)
    requires 0.0 <= draw < 1.0
    ensures greeting in Greetings
  {
    Greetings[GreetingIndex(draw)]
  }

  datatype Page = Home | EcologistPost

  /** The routes in the order they are declared. */
  const Routes: seq<(string, Page)> := [("/", Home), ("/blog/ecologist-ai", EcologistPost)]

  /** The page of the first route whose path is exactly `path`, or nothing when none is. */
  function Match(routes: seq<(string, Page)>, path: string): (page: Option<Page>)
    ensures page.None? <==> forall i :: 0 <= i < |routes| ==> routes[i].0 != path
    ensures page.Some? ==>
      exists i :: 0 <= i < |routes| && routes[i] == (path, page.value) && forall j :: 0 <= j < i ==> routes[j].0 != path
  {
    if routes == [] then None
    else if routes[0].0 == path then Some(routes[0].1)
    else
      Match(routes[1..], path)
  }

  /** What the routed region shows for a path: the home page, the article, or nothing. */
  function Route(path: string): (page: Option<Page>)
    ensures page == Some(Home) <==> path == "/"
    ensures page == Some(EcologistPost) <==> path == "/blog/ecologist-ai"
    ensures page == None <==> path != "/" && path != "/blog/ecologist-ai"
  {
    Match(Routes, path)
  }

  /**
    One loaded page: the greeting chosen once when it loads, the theme it
    holds in memory, and the two browser cells the theme is copied to.
  */
  class Session {
    const greeting: string
    var theme: string
    var rootAttributes: map<string, string>
    var storage: map<string, string>

    /** The document attribute and the stored value both hold the in-memory theme. */
    ghost predicate Synced()
      reads this
    {
      && ThemeAttribute in rootAttributes && rootAttributes[ThemeAttribute] == theme
      && ThemeKey in storage && storage[ThemeKey] == theme
    }

    /** The state initialisers that run when the page loads. */
    constructor Init(storage0: map<string, string>, rootAttributes0: map<string, string>,
                     prefersDark: bool, draw: real)
      requires 0.0 <= draw < 1.0
      ensures greeting == Greeting(draw) && greeting in Greetings
      ensures theme == InitialTheme(GetItem(storage0, ThemeKey), prefersDark)
      ensures rootAttributes == rootAttributes0 && storage == storage0
    {
      greeting := Greeting(draw);
      theme := InitialTheme(GetItem(storage0, ThemeKey), prefersDark);
      rootAttributes := rootAttributes0;
      storage := storage0;
    }

    /** The effect that runs whenever the theme changes: copy it to the document and to storage. */
    method Sync()
      modifies this
      ensures theme == old(theme)
      ensures rootAttributes == old(rootAttributes)[ThemeAttribute := theme]
      ensures storage == old(storage)[ThemeKey := theme]
      ensures Synced()
      ensures old(Synced()) ==> rootAttributes == old(rootAttributes) && storage == old(storage)
    {
      rootAttributes := rootAttributes[ThemeAttribute := theme];
      storage := storage[ThemeKey := theme];
    }

    /** The toggle button's click: switch the theme and write it to all three cells. */
    method Toggle()
      modifies this
      ensures theme == NextTheme(old(theme))
      ensures rootAttributes == old(rootAttributes)[ThemeAttribute := theme]
      ensures storage == old(storage)[ThemeKey := theme]
      ensures Synced()
    {
      var next := NextTheme(theme);
      theme := next;
      rootAttributes := rootAttributes[ThemeAttribute := next];
      storage := storage[ThemeKey := next];
    }

    /** A click followed by the effect the new theme triggers: the effect finds nothing left to do. */
    method Click()
      modifies this
      ensures theme == NextTheme(old(theme))
      ensures rootAttributes == old(rootAttributes)[ThemeAttribute := theme]
      ensures storage == old(storage)[ThemeKey := theme]
      ensures Synced()
    {
      Toggle();
      Sync();
    }
  }

  /** Loading the page: the initialisers, then the effect's first run. */
  method Load(storage0: map<string, string>, rootAttributes0: map<string, string>,
              prefersDark: bool, draw: real) returns (s: Session)
    requires 0.0 <= draw < 1.0
    ensures fresh(s) && s.Synced()
    ensures s.greeting in Greetings
    ensures s.theme == InitialTheme(GetItem(storage0, ThemeKey), prefersDark)
    ensures s.storage == storage0[ThemeKey := s.theme]
    ensures s.rootAttributes == rootAttributes0[ThemeAttribute := s.theme]
  {
    s := new Session.Init(storage0, rootAttributes0, prefersDark, draw);
    s.Sync();
  }

  /**
    A click survives a reload: the next load, which starts from a freshly
    parsed document and keeps only storage, starts on the theme the click
    chose, whatever the system colour scheme then is.
  */
  method ClickThenReload(storage0: map<string, string>, rootAttributes0: map<string, string>,
                         prefersDark: bool, rootAttributesLater: map<string, string>,
                         prefersDarkLater: bool, draw: real, drawLater: real)
    returns (clicked: string, reloaded: string)
    requires 0.0 <= draw < 1.0 && 0.0 <= drawLater < 1.0
    ensures clicked == NextTheme(InitialTheme(GetItem(storage0, ThemeKey), prefersDark))
    ensures reloaded == clicked
  {
    var first := Load(storage0, rootAttributes0, prefersDark, draw);
    first.Click();
    clicked := first.theme;
    var second := Load(first.storage, rootAttributesLater, prefersDarkLater, drawLater);
    reloaded := second.theme;
  }
}
