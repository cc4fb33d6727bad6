# Portfolio site: truncation, theme and routing model

A Dafny model of the three pieces of logic in a single-page personal
portfolio and blog:

- **Word truncation** (`src/data.js`). `truncateWords(text, limit = 50)` splits
  the text on single spaces; text with more than `limit` pieces is cut to its
  first `limit` pieces, rejoined with spaces and marked with `[...]`; shorter
  text is returned unchanged. `Data.Split` and `Data.Join` reproduce
  JavaScript's `split(' ')` and `join(' ')` exactly: consecutive, leading and
  trailing spaces give empty pieces, and those pieces count toward the limit.
  The list of ten greetings is `Data.Greetings`.
- **Theme controller** (`src/ThemeToggle.jsx`, `src/App.jsx`). The page holds a
  theme string in memory and mirrors it into the `data-theme` attribute of the
  document's root element and the `"theme"` key of local storage. The class
  `App.Session` has those three cells as fields (the two browser cells as
  string maps, so that "nothing else changes" can be stated about every other
  key and attribute). Its named constructor `Init` is the state initialisers,
  `Sync` is the effect that runs when the theme changes, and `Toggle` is the
  button's click handler. `ThemeToggle.NextTheme` and `ThemeToggle.IconFor`
  are the pure choices the button makes.
- **Greeting and routes** (`src/App.jsx`). The greeting is
  `greetings[Math.floor(Math.random() * greetings.length)]`, with the random draw
  a parameter in [0, 1). The route table is two exact paths, `/` for the home
  page and `/blog/ecologist-ai` for the article. Any other path shows nothing.

Files: `wrappers.dfy` (an `Option` type), `data.dfy` (module `Data`),
`theme_toggle.dfy` (module `ThemeToggle`), `app.dfy` (module `App`).

Points where the code does more, or less, than its own annotations suggest:

- The JSDoc of the toggle component (src/ThemeToggle.jsx:10-11) types `theme`
  as `'light' | 'dark'`, but the start-up initialiser returns any non-empty
  stored string unchanged (src/App.jsx:23). So the model's theme is a string,
  and `ThemeToggle.ToggleTwiceOther` shows that two clicks from such a string
  end on `"light"`.
- The `localStorage` calls (src/App.jsx:22, src/App.jsx:29,
  src/ThemeToggle.jsx:32) have no `try`/`catch`, so the model has no failure
  path for storage.
- `truncateWords` accepts any number as `limit`. A negative limit is handled
  the way `Array.prototype.slice(0, limit)` handles it: it keeps all but the
  last `-limit` pieces.

## Model

| member | source | states |
|---|---|---|
| Data.Split | src/data.js:15 | `split(' ')` always yields at least one piece and no piece contains a space |
| Data.Join | src/data.js:17 | `join(' ')` starts with the first piece, puts a space right after it when there is a second, and has at least one character per separator |
| Data.JoinSplit | src/data.js:15-19 | joining the pieces of a split with single spaces gives back the original text |
| Data.SplitJoin | src/data.js:17 | splitting a join of one or more space-free pieces gives back exactly those pieces |
| Data.SplitJoinTail | src/data.js:17 | a join followed by a space-free tail splits into the same pieces, with the tail glued to the last one |
| Data.JoinAt | src/data.js:17 | a join is the join of the first k pieces, one space, then the join of the remaining pieces |
| Data.KeptIsPrefix | src/data.js:17 | the join of the first k pieces is a prefix of the join of all pieces |
| Data.SliceEnd | src/data.js:17 | the end index of `slice(0, end)` never passes the array, and a non-negative end within it is used as is |
| Data.TruncateWords | src/data.js:14-20 | at most `limit` pieces: text unchanged; more: result ends in `[...]` and what precedes it is a prefix of the text; for `limit >= 1` that prefix splits into exactly the first `limit` pieces of the text; for limit 0 the result is exactly `[...]`; for a negative limit the prefix splits into all but the last `-limit` pieces, and is empty when no piece is left |
| Data.TruncateWordsDefault | src/data.js:14 | with no limit given, text of at most 50 pieces is unchanged and longer text keeps exactly its first 50 pieces, followed by `[...]` |
| Data.TruncationCutsAtSpace | src/data.js:16-17 | when text is cut at a positive limit the result is the first `limit` pieces joined plus `[...]`, and the cut falls on a space of the original |
| Data.UnchangedIff | src/data.js:15-19 | for a positive limit, the result equals the text if and only if the text has at most `limit` pieces |
| Data.Idempotent | src/data.js:14-20 | for a non-negative limit, truncating an already truncated text changes nothing |
| Data.DocExample | src/data.js:11-12 | the documented call on "This is a long sentence that will be truncated." with limit 5 returns "This is a long sentence[...]" |
| Data.DocExampleWords | src/data.js:11-12 | the documented sentence splits into its nine words |
| ThemeToggle.NextTheme | src/ThemeToggle.jsx:17-22 | the next theme is "light" exactly when the current one is "dark", "dark" for every other string, and never the current theme |
| ThemeToggle.IconFor | src/ThemeToggle.jsx:55-58 | the button shows the sun exactly when the theme is "dark" and the moon otherwise |
| ThemeToggle.IconFlips | src/ThemeToggle.jsx:55-58 | a click always changes the icon |
| ThemeToggle.ToggleTwice | src/ThemeToggle.jsx:22 | two clicks from "light" or "dark" return to the starting theme |
| ThemeToggle.ToggleTwiceOther | src/ThemeToggle.jsx:22 | two clicks from any other string end on "light", which differs from the start |
| ThemeToggle.ToggleParity | src/ThemeToggle.jsx:20-33 | n clicks from "light" or "dark" end on the start for even n and on the other theme for odd n |
| ThemeToggle.ThemeAfter | src/ThemeToggle.jsx:20-33 | after no clicks the theme is the start; after one or more clicks it is "light" or "dark" whatever it started as |
| App.GetItem | src/App.jsx:22 | reading a key gives a value exactly when the key is stored, and then the stored value |
| App.InitialTheme | src/App.jsx:21-25 | a stored non-empty value is the start theme unchanged; with no value or an empty one the start theme is "dark" exactly when the system prefers dark, else "light"; the start theme is never empty |
| App.GreetingIndex | src/App.jsx:20 | for a draw in [0, 1) the chosen index lies within the greeting list |
| App.Greeting | src/App.jsx:20 | the greeting shown is always one of the listed greetings |
| App.Match | src/App.jsx:42-54 | a path finds no page exactly when no route has that path; otherwise it finds the page of the first route with exactly that path |
| App.Route | src/App.jsx:42-54 | "/" shows the home page, "/blog/ecologist-ai" shows the article, and every other path shows nothing |
| App.Session.Init | src/App.jsx:20-25 | a new page holds the start theme and a listed greeting, and leaves storage and the root attributes as they were |
| App.Session.Sync | src/App.jsx:27-30 | the effect writes the theme to the `data-theme` attribute and the `"theme"` key, changes nothing else, keeps the theme, and changes nothing at all when both already hold it |
| App.Session.Toggle | src/ThemeToggle.jsx:20-33 | a click sets the theme to the next theme and writes that same value to the attribute and the stored key, touching no other key or attribute |
| App.Session.Click | src/ThemeToggle.jsx:24-25 | a click followed by the effect it triggers leaves the same state as the click alone |
| App.Load | src/App.jsx:20-30 | after loading, the attribute and the stored key equal the start theme and the greeting is a listed one |
| App.ClickThenReload | src/App.jsx:21-25 | the theme chosen by a click is the theme the next load starts with, whatever the system preference then is |

## Left out

- Browser APIs: `localStorage`, `document.documentElement` and `window.matchMedia` are plain maps and a boolean, not the browser objects. Exceptions they may throw (storage disabled, quota) are not modelled; the code does not handle them either.
- App.GreetingIndex: `Math.random()` is an arbitrary real in [0, 1); floating-point rounding of `draw * 10` is not modelled (for doubles below 1 the product stays below 10, so the index bound is unaffected), and neither is the uniform distribution.
- React scheduling: `setTheme` followed by the effect is modelled as sequential writes (`App.Session.Click`); re-render timing, batching and Strict Mode's double invocation of effects are not modelled. The greeting's stability across re-renders is modelled by making it a `const` field set once at load.
- Route matching is exact string equality on the path. React Router's own normalisation (case-insensitive matching, trailing slashes, the router's base name) is library code and is not part of this model.
- Data.TruncateWords: a `limit` that is not an integer (JavaScript would accept `2.5`) is not modelled; the limit is an integer. Characters are Unicode scalar values rather than UTF-16 code units; this does not affect splitting on spaces.
- The rest of the site is presentational and is not part of this model: the button's CSS classes (src/ThemeToggle.jsx:40-50), the home page and layout components, the article page with its diagram rendering and mutation observer, scroll restoration on navigation (src/ScrollToTop.jsx), the application bootstrap (src/main.jsx), the static post and experience records (of these, only the post's `desc` at src/data.js:41 calls `truncateWords`, with the article preview, which is static text; the experience descriptions are plain literals), and the build configuration files.
