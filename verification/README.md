# Theme toggle model

A Dafny model of the colour-theme toggle of the salehzaidan.site portfolio
(`components/theme-toggle.tsx`), with proofs about it. The toggle's
`ThemeToggle` component works in three steps:

- **Resolution.** When the component mounts, its `useState` initializer picks
  `"dark"` or `"light"`. It reads the value persisted under the local-storage
  key `"sz-theme"` and the system's `prefers-color-scheme: dark` query.
- **Effect.** Whenever the theme changes, an effect runs. It adds the `"dark"`
  class to the document root for the dark theme, or removes it for the light
  theme. It then overwrites the `"sz-theme"` key with `"dark"` or `"light"`.
- **Toggle.** A click on the button inverts the theme.

Everything is in `theming.dfy`, module `Theming`. These parts are pure
functions: `Resolve`, `Toggle`, and the effect's action on the class list and
on the store (`ClassesAfter`, `StoreAfter`). The document root's class list and
local storage are the fields of a `ThemeEnv` object, and its `Apply` method is
the effect. The mounted component is a `ThemeToggle` object. Its constructor is
the mount, and its `OnClick` method is the click. A pure snapshot type, `Page`,
holds the theme, the class list and the store. It is used to state properties
of whole sessions: mount, any number of clicks, then a reload.

The system colour-scheme query (`window.matchMedia(...)`) is a plain boolean
parameter. The DOM class list is a `set<string>`, and local storage is a
`map<string, string>`.

The component has no guard around its `localStorage` reads and writes
(components/theme-toggle.tsx:7-8, 17, 20). If storage throws, the component
throws, so the model has no storage-failure path.

## Model

| member | source | states |
|---|---|---|
| Theming.Name | components/theme-toggle.tsx:15-20 | The stored string is "dark" exactly for the dark theme and "light" exactly for the light theme. |
| Theming.Resolve | components/theme-toggle.tsx:6-12 | A stored "dark" gives Dark whatever the system preference. Any other stored value, even garbage, gives Light even when the system prefers dark. With no stored value, the result is Dark exactly when the system prefers dark. |
| Theming.Toggle | components/theme-toggle.tsx:26 | The result is always the other theme. |
| Theming.ToggleInvolution | components/theme-toggle.tsx:26 | Toggle maps Dark to Light and Light to Dark, and toggling twice returns the original theme. |
| Theming.ClassesAfter | components/theme-toggle.tsx:15-19 | After the effect, "dark" is in the root class list exactly when the theme is Dark. Every other class is present exactly when it was present before. |
| Theming.StoreAfter | components/theme-toggle.tsx:17-20 | After the effect, the "sz-theme" key holds the theme's name. Every other key keeps its presence and its value. |
| Theming.ApplyIdempotent | components/theme-toggle.tsx:14-22 | Running the effect twice for the same theme leaves the same class list and store as running it once. |
| Theming.ResolveAfterApply | components/theme-toggle.tsx:6-20 | After the effect has persisted theme t, resolving from the updated store gives t whatever the system preference, so the choice survives a reload. |
| Theming.Mount | components/theme-toggle.tsx:6-22 | Mounting shows the resolved theme, and afterwards the display and storage agree. Other classes are untouched, and every other storage key keeps its presence and its value. |
| Theming.Click | components/theme-toggle.tsx:14-26 | A click changes the theme, and afterwards the display and storage agree on the new theme. Nothing else in the class list or store changes. |
| Theming.AfterClicks | components/theme-toggle.tsx:14-26 | After n clicks, the theme is the starting one if n is even and the other one if n is odd. After at least one click, the display and storage agree. Other classes and other storage entries are never touched. |
| Theming.TwoClicksRestore | components/theme-toggle.tsx:14-26 | From a page whose display and storage agree, two clicks restore the theme, the class list and the store exactly. |
| Theming.MountOnSynced | components/theme-toggle.tsx:6-22 | Mounting over a page whose display and storage already agree changes nothing. The component recomputes the theme already shown and does not flip it. |
| Theming.RemountKeepsPage | components/theme-toggle.tsx:6-26 | After mounting and any number of clicks, mounting again over the same document leaves the theme, the class list and the store exactly as they were, whatever the system preference is then. |
| Theming.ReloadKeepsTheme | components/theme-toggle.tsx:6-26 | After mounting and any number of clicks, a full reload onto any fresh class list shows the same theme, whatever the system preference is then. Display and storage agree, the store is unchanged, and the new root's other classes are kept. |
| Theming.ThemeEnv.Stored | components/theme-toggle.tsx:7-8 | The stored value is reported present exactly when the "sz-theme" key exists, and it is the value under that key; this is the same read (Lookup) that Mount resolves from. |
| Theming.ThemeEnv.Apply | components/theme-toggle.tsx:14-22 | The effect updates the class list and store in place, exactly as ClassesAfter and StoreAfter describe. |
| Theming.ThemeToggle.constructor | components/theme-toggle.tsx:6-22 | Mounting sets the theme state and runs the effect once. The resulting state is Mount of the environment before mounting, so display and storage agree. |
| Theming.ThemeToggle.OnClick | components/theme-toggle.tsx:14-26 | A click is accepted in any state, including after another tab rewrote the stored theme. It inverts the theme state and runs the effect, and the resulting state is Click of the previous state, so display and storage agree afterwards. When they agreed before the click, one more click would restore the previous state exactly. |

## Left out

- The JSX markup, the button's classes and the choice of sun or moon icon (components/theme-toggle.tsx:24-61). These are presentation only.
- React scheduling: when the effect fires, re-render timing and the laziness of the initializer. The model runs the effect right after each change of theme.
- The early inline script `/init-theme.js` loaded from pages/_document.tsx. /init-theme.js is not part of this model, so the model claims nothing about whether it agrees with `Resolve`. `MountOnSynced` covers only the component's side: mounting over a consistent page changes nothing.
- pages/_document.tsx (static head markup) and pages/works/[slug].tsx (static work pages, slug enumeration, date formatting). They have no theme logic.
- Local storage being unavailable or throwing. The code does not guard against it, so the model has no such path.
- The order of tokens in the root's class list (a DOM token list). The model keeps only membership.
- Storage keys that clash with `Storage` prototype members under JavaScript property access. The key "sz-theme" is not one of them, so the model reads the store as a plain map.
