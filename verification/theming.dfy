/** A model of the site's colour-theme toggle (components/theme-toggle.tsx).

    The component keeps one piece of React state, the active theme. On mount it
    resolves the theme from the persisted value under "sz-theme" and from the
    system's colour-scheme preference; whenever the theme changes, an effect
    adds or removes the "dark" class on the document root and writes the theme
    back to local storage; a click on the button inverts the theme.

    The pure decisions (resolution, toggle, what the effect does to the class
    list and to the store) are functions; the document root and local storage
    are the fields of a `ThemeEnv` object that the effect updates in place; the
    mounted component is a `ThemeToggle` object holding the theme state.
 */
module Theming {

  datatype Option<T> = None | Some(value: T)

  /** The two values of the component's `"dark" | "light"` state. */
  datatype Theme = Dark | Light

  /** Local-storage key under which the chosen theme is persisted. */
  const ThemeKey: string := "sz-theme"

  /** Class on the document root that switches the styling to dark mode. */
  const DarkClass: string := "dark"

  /** The string the component uses for a theme, both as its state and as
      the value it writes to storage. */
  function Name(t: Theme): (s: string)
    ensures s == "dark" <==> t == Dark
    ensures s == "light" <==> t == Light
  {
    match t
    case Dark => "dark"
    case Light => "light"
  }

  /** What the component reads from local storage: `None` when the theme key
      is absent, otherwise the string stored under it. */
  function Lookup(store: map<string, string>): Option<string>
  {
    if ThemeKey in store then Some(store[ThemeKey]) else None
  }

  /** Initial resolution of the theme (the `useState` initializer): dark when
      the stored value is exactly "dark", or when nothing is stored and the
      system prefers a dark colour scheme; light otherwise. A stored value
      other than "dark" -- "light" or anything unexpected -- wins over the
      system preference. */
  function Resolve(stored: Option<string>, systemDark: bool): (t: Theme)
    ensures stored == Some("dark") ==> t == Dark
    ensures stored.Some? && stored.value != "dark" ==> t == Light
    ensures stored.None? ==> (t == Dark <==> systemDark)
  {
    if stored == Some("dark") || (!stored.Some? && systemDark) then Dark else Light
  }

  /** The click's state updater: dark becomes light and anything else
      becomes dark. */
  function Toggle(t: Theme): (r: Theme)
    ensures r != t
  {
    if t == Dark then Light else Dark
  }

  /** The root class list after the effect has run for theme `t`: "dark" is
      present exactly for the dark theme and no other class is touched. */
  function ClassesAfter(classes: set<string>, t: Theme): (r: set<string>)
    ensures DarkClass in r <==> t == Dark
    ensures forall c :: c != DarkClass ==> (c in r <==> c in classes)
  {
    if t == Dark then classes + {DarkClass} else classes - {DarkClass}
  }

  /** Local storage after the effect has run for theme `t`: the theme key
      holds the theme's name, overwriting any earlier value, and every other
      key is left as it was. */
  function StoreAfter(store: map<string, string>, t: Theme): (r: map<string, string>)
    ensures ThemeKey in r && r[ThemeKey] == Name(t)
    ensures forall k :: k != ThemeKey ==> (k in r <==> k in store)
    ensures forall k :: k != ThemeKey && k in store ==> r[k] == store[k]
  {
    store[ThemeKey := Name(t)]
  }

  /** Toggling twice gives back the theme one started from. */
  lemma ToggleInvolution(t: Theme)
    ensures Toggle(Toggle(t)) == t
    ensures Toggle(Dark) == Light && Toggle(Light) == Dark
  {
  }

  /** Running the effect a second time for the same theme changes nothing. */
  lemma ApplyIdempotent(classes: set<string>, store: map<string, string>, t: Theme)
    ensures ClassesAfter(ClassesAfter(classes, t), t) == ClassesAfter(classes, t)
    ensures StoreAfter(StoreAfter(store, t), t) == StoreAfter(store, t)
  {
  }

  /** After the effect has persisted `t`, resolving again from the updated
      store gives `t`, whatever the system preference: the choice survives a
      reload. */
  lemma ResolveAfterApply(store: map<string, string>, t: Theme, systemDark: bool)
    ensures Resolve(Lookup(StoreAfter(store, t)), systemDark) == t
  {
  }

  /** A snapshot of everything the toggle touches: the component's theme
      state, the root class list and local storage. */
  datatype Page = Page(theme: Theme, classes: set<string>, store: map<string, string>)

  /** The displayed theme and the persisted preference agree: the root
      carries "dark" exactly for the dark theme, and storage holds the
      theme's name under the theme key. */
  predicate Synced(p: Page)
  {
    (DarkClass in p.classes <==> p.theme == Dark)
    && ThemeKey in p.store && p.store[ThemeKey] == Name(p.theme)
  }

  /** Mounting the component: resolve the theme, then run the effect for it. */
  function Mount(classes: set<string>, store: map<string, string>, systemDark: bool): (p: Page)
    ensures Synced(p)
    ensures p.theme == Resolve(Lookup(store), systemDark)
    ensures forall c :: c != DarkClass ==> (c in p.classes <==> c in classes)
    ensures forall k :: k != ThemeKey ==> (k in p.store <==> k in store)
    ensures forall k :: k != ThemeKey && k in store ==> p.store[k] == store[k]
  {
    var t := Resolve(Lookup(store), systemDark);
    Page(t, ClassesAfter(classes, t), StoreAfter(store, t))
  }

  /** One click on the button: invert the theme, then run the effect for the
      new theme. */
  function Click(p: Page): (q: Page)
    ensures q.theme != p.theme
    ensures Synced(q)
    ensures forall c :: c != DarkClass ==> (c in q.classes <==> c in p.classes)
    ensures forall k :: k != ThemeKey ==> (k in q.store <==> k in p.store)
    ensures forall k :: k != ThemeKey && k in p.store ==> q.store[k] == p.store[k]
  {
    var t := Toggle(p.theme);
    Page(t, ClassesAfter(p.classes, t), StoreAfter(p.store, t))
  }

  /** The page after `n` clicks. An even number of clicks restores the
      starting theme, an odd number inverts it; after at least one click the
      display and storage agree; classes other than "dark" and storage keys
      other than the theme key are never touched. */
  function AfterClicks(p: Page, n: nat): (q: Page)
    ensures q.theme == if n % 2 == 0 then p.theme else Toggle(p.theme)
    ensures n > 0 || Synced(p) ==> Synced(q)
    ensures forall c :: c != DarkClass ==> (c in q.classes <==> c in p.classes)
    ensures forall k :: k != ThemeKey ==> (k in q.store <==> k in p.store)
    ensures forall k :: k != ThemeKey && k in p.store ==> q.store[k] == p.store[k]
  {
    if n == 0 then p else Click(AfterClicks(p, n - 1))
  }

  /** Toggling twice from any mounted page gives back the same page. */
  lemma TwoClicksRestore(p: Page)
    requires Synced(p)
    ensures Click(Click(p)) == p
  {
  }

  /** Mounting over a page whose display and storage already agree changes
      nothing: the component recomputes the theme already shown and does not
      flip it. */
  lemma MountOnSynced(p: Page, systemDark: bool)
    requires Synced(p)
    ensures Mount(p.classes, p.store, systemDark) == p
  {
  }

  /** Whatever happened since the component was mounted, mounting it again
      over the same document (the same class list and storage, as after a
      client-side navigation) leaves the page exactly as it was, whatever the
      system preference. */
  lemma RemountKeepsPage(
    classes: set<string>, store: map<string, string>, systemDark: bool, n: nat, systemDarkAfter: bool)
    ensures var p := AfterClicks(Mount(classes, store, systemDark), n);
      Mount(p.classes, p.store, systemDarkAfter) == p
  {
  }

  /** A full reload keeps only local storage: the document is rebuilt with a
      fresh class list `reloaded`. Whatever happened since the component was
      mounted, the reloaded component shows the theme that was active before
      the reload, whatever the system preference then; storage is unchanged,
      and the new root keeps its own classes other than "dark". */
  lemma ReloadKeepsTheme(
    classes: set<string>, store: map<string, string>, systemDark: bool, n: nat,
    reloaded: set<string>, systemDarkAfter: bool)
    ensures var p := AfterClicks(Mount(classes, store, systemDark), n);
      var q := Mount(reloaded, p.store, systemDarkAfter);
      q.theme == p.theme && Synced(q) && q.store == p.store
      && (forall c :: c != DarkClass ==> (c in q.classes <==> c in reloaded))
  {
  }

  /** The document root and local storage, which the effect mutates. */
  class ThemeEnv {
    var classes: set<string>
    var store: map<string, string>

    constructor (classes0: set<string>, store0: map<string, string>)
      ensures classes == classes0 && store == store0
    {
      classes := classes0;
      store := store0;
    }

    /** What the component reads at mount: the stored value, if any. */
    method Stored() returns (s: Option<string>)
      ensures s == Lookup(store)
      ensures s.Some? <==> ThemeKey in store
      ensures s.Some? ==> s.value == store[ThemeKey]
    {
      if ThemeKey in store {
        s := Some(store[ThemeKey]);
      } else {
        s := None;
      }
    }

    /** The `useEffect` body: add or remove "dark" on the root and persist the
        theme's name. */
    method Apply(t: Theme)
      modifies this
      ensures classes == ClassesAfter(old(classes), t)
      ensures store == StoreAfter(old(store), t)
    {
      if t == Dark {
        classes := classes + {DarkClass};
        store := store[ThemeKey := "dark"];
      } else {
        classes := classes - {DarkClass};
        store := store[ThemeKey := "light"];
      }
    }
  }

  /** The mounted component: its theme state and the environment its effect
      writes to. */
  class ThemeToggle {
    var theme: Theme
    const env: ThemeEnv

    function Snapshot(): Page
      reads this, env
    {
      Page(theme, env.classes, env.store)
    }

    /** The display and storage agree with the theme state. */
    predicate Valid()
      reads this, env
    {
      Synced(Snapshot())
    }

    /** Mounting: the lazy initializer resolves the theme from storage and the
        system preference, then the effect runs once for it. */
    constructor (e: ThemeEnv, systemDark: bool)
      modifies e
      ensures env == e
      ensures Valid()
      ensures Snapshot() == Mount(old(e.classes), old(e.store), systemDark)
    {
      var stored := e.Stored();
      var t := Resolve(stored, systemDark);
      theme := t;
      env := e;
      new;
      env.Apply(t);
    }

    /** A click: invert the theme, then the effect runs for the new theme.
        It is accepted in any state, also when another tab has rewritten the
        stored theme; when the display and storage agreed before, a further
        click would restore the page exactly as it was. */
    method OnClick()
      modifies this, env
      ensures Valid()
      ensures Snapshot() == Click(old(Snapshot()))
      ensures old(Valid()) ==> Click(Snapshot()) == old(Snapshot())
    {
      if Valid() {
        TwoClicksRestore(Snapshot());
      }
      theme := Toggle(theme);
      env.Apply(theme);
    }
  }
}
