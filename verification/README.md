# Portfolio site core, modelled in Dafny

A model of the logic of a single-page portfolio site: the hash router
(`js/router.js`), the pure decisions of the application shell
(`js/app.js`: contact-form validation and submit, theme, scroll effects,
mobile menu, filter clicks) and the rendering-side helpers
(`js/components.js`: the portfolio-data cache, the renderers' fallback,
the filter categories, the project filter, tab switching, the service
emoji and the short bio).

The DOM is replaced by plain records: a navigation link is its `data-page`
and its `active` class, a form field is its id, value and its group's
`error` class, a project card is its `data-category` and whether it is
displayed. JavaScript's `null`/`undefined` are `Option.None`. A JavaScript
string is a `string`, a sequence of Unicode scalar values. Its JavaScript
`length` is `JsString.Length`, which counts UTF-16 code units: two for a
character beyond U+FFFF, one for any other.

Files, one module each:

- `wrappers.dfy` — `Option`.
- `js_string.dfy` — `length`, `trim`, `indexOf` and `substring(0, n)`,
  with the characterization of `trim` as the unique white-space-free core.
- `url_fragment.dfy` — the percent-encoding the browser applies to a
  value assigned to `location.hash`, after the WHATWG URL Standard's
  fragment state.
- `seqs.dfy` — counting the elements of a sequence that satisfy a
  predicate.
- `router.dfy` — router state, `addRoute`, `navigate`,
  `handleRouteChange` as an explicit step with an ordered effect trace,
  `updateNavLinks`, `getCurrentRoute`, and sessions of operations.
- `app_routes.dfy` — the five routes `setupRouter` registers.
- `theme.dfy`, `scroll.dfy`, `mobile_menu.dfy`, `contact_form.dfy` — the
  decisions of `js/app.js`.
- `data_cache.dfy` — `loadPortfolioData` with the fetch abstracted to its
  outcome, sessions of loads that run one after the other, and two loads
  that overlap.
- `services.dfy`, `projects.dfy`, `tabs.dfy`, `renderers.dfy` — the
  helpers and renderers of `js/components.js`.

Three behaviours of the code worth stating:

- An unregistered route does not make `currentRoute` the default at once.
  The first resolution only rewrites the fragment. The resolution that the
  browser's `hashchange` triggers next activates the default
  (`Router.UnknownRouteHeals`).
- `navigate` only assigns the fragment; it has no coalescing of its own.
- The browser stores an assigned fragment percent-encoded and the router
  reads it back that way. A route whose name holds a non-ASCII letter, a
  space or another escaped character is registered but cannot be reached
  by `navigate`: the resolution redirects to the default
  (`Router.EscapedNameRedirects`). The site's five route names are plain
  ASCII.

## Model

| member | source | states |
|---|---|---|
| JsString.TrimDecomposes | js/app.js:338 | `trim` yields a value with no white space at either end that the input surrounds with white space only |
| JsString.TrimCharacterized | js/app.js:338 | any white-space-free core that the input pads with white space is what `trim` returns, so the trimmed value is unique |
| JsString.TrimIgnoresPadding | js/app.js:338 | adding white space around a value never changes what it trims to |
| JsString.TrimIdempotent | js/app.js:338 | trimming twice is trimming once |
| JsString.IndexOf | js/app.js:351 | `indexOf(c)` is -1 exactly when `c` does not occur; otherwise it is the first position of `c` |
| JsString.IndexOfSubstring | js/components.js:181-184 | `indexOf(pat)` is -1 exactly when `pat` occurs nowhere; otherwise it is the first position where `pat` occurs |
| JsString.Length | js/app.js:343-367 | `length` counts UTF-16 code units: at least one and at most two per character |
| JsString.LengthAppend | js/app.js:343-367 | the `length` of a concatenation is the sum of the lengths |
| JsString.BmpLength | js/app.js:343-367 | without characters beyond U+FFFF, `length` is the number of characters |
| JsString.Prefix | js/components.js:88 | `substring(0, n)` is a prefix of at most `n` UTF-16 code units that cannot take the next character without exceeding `n`; the whole string when it fits |
| Router.AddRoute | js/router.js:57-60 | registering maps the name to the new handler, replacing an earlier one; other names keep their handlers; current route, default and fragment are untouched; a valid router stays valid |
| UrlFragment.EncodeFixedPoints | js/router.js:95-98 | the stored fragment holds only printable ASCII other than space, `"`, `<`, `>` and backtick; it equals the assigned value exactly when the value is made of those characters, so storing twice changes nothing |
| UrlFragment.EncodeSample | js/router.js:95-98 | "iletişim" is stored as "ileti%C5%9Fim" |
| UrlFragment.EncodeSpaceAndTab | js/router.js:95-98 | "a b" is stored as "a%20b", and "a", tab, "b" as "ab" |
| Router.AssignedFragment | js/router.js:69-98 | after `location.hash = value`, `location.hash.slice(1)` gives the value without one leading '#', percent-encoded; it is that value unchanged exactly when the value holds only characters the fragment keeps |
| Router.Navigate | js/router.js:95-98 | navigating changes only the fragment, to the assigned value as the browser stores it; routes and current route are untouched |
| Router.HandleRouteChange | js/router.js:66-88 | a registered target becomes current; then exactly its handler runs, once; then nav links update; then the page scrolls to the top, in that order, with fragment and routes unchanged. An unregistered target leaves the current route unchanged and its only effect is writing the default route to the fragment: no handler runs, the nav links stay and nothing scrolls |
| Router.GetCurrentRoute | js/router.js:139-141 | returns the current route, which is unset or a registered name |
| Router.UpdateNavLinks | js/router.js:105-121 | after the update a link is active iff its `data-page` equals the route; pages are untouched |
| Router.NavLinksOneActive | js/router.js:105-121 | with distinct pages, exactly one link is active when a link points at the route, none otherwise |
| Router.RunTracksCurrentRoute | js/router.js:24-88 | over any sequence of registrations, navigations and resolutions, the current route is the name of the latest successful resolution. It is unset before the first one and always a registered name |
| Router.UnsetUntilFirstActivation | js/router.js:32 | on a new router the current route stays null exactly until some resolution succeeds |
| Router.ReRegisterInvokesLast | js/router.js:57-60 | after registering A then B under one name made of characters the fragment keeps, navigating to it and resolving runs B only |
| Router.NavigateThenResolve | js/router.js:66-98 | navigating to a registered name made of characters the fragment keeps, then resolving, makes it current and runs its handler once |
| Router.UnknownRouteHeals | js/router.js:84-87 | an unregistered target redirects to a registered default made of characters the fragment keeps, which the next resolution activates |
| Router.EscapedNameRedirects | js/router.js:66-98 | a router with the single route "iletişim": navigating to it and resolving runs nothing, leaves the route unset and redirects the fragment to "home" |
| Router.UnregisteredDefaultSettles | js/router.js:84-98 | when neither the default nor the fragment the redirect writes is registered, the redirect is a fixed point: resolving again changes nothing and runs nothing |
| Router.EmptyFragmentIsDefault | js/router.js:69 | an empty fragment resolves to the default route, `"home"` on a new router |
| AppRoutes.SetupRouter | js/app.js:68-118 | the five routes home, about, projects, skills and contact are registered, each with its own page's handler |
| AppRoutes.StartupResolves | js/router.js:66-88 | on the site's router, exactly the five names are routes. A valid fragment is activated at once and an empty one activates home. Any other fragment is redirected to home, which the next resolution activates, running the home page once |
| AppRoutes.UnknownFragmentRedirects | js/router.js:84-98 | on the site's router, the first resolution of an unknown non-empty fragment leaves the route unset, keeps the routes and writes "home" to the fragment |
| Theme.ToggleTheme | js/app.js:193-213 | dark becomes light; anything else, unset included, becomes dark; the stored preference equals the applied theme; the icon, when present, is the sun exactly in dark mode and matches the applied theme |
| Theme.LoadThemePreference | js/app.js:216-234 | a stored non-empty value wins; otherwise the theme is dark iff the system prefers dark, else light; nothing is stored; the icon, when present, matches the applied theme |
| Theme.ToggleTwiceRestores | js/app.js:195-198 | two toggles from dark or light restore the theme |
| Theme.ToggleLandsInPair | js/app.js:198 | after a toggle the theme is dark or light |
| Theme.ToggleSurvivesReload | js/app.js:210-224 | loading the stored preference after a toggle brings back the toggled theme and icon, whatever the system prefers |
| Scroll.HandleScroll | js/app.js:241-261 | the header has `scrolled` iff the offset exceeds 50, the scroll-top button has `visible` iff it exceeds 300; a missing element stays missing |
| Scroll.ScrollIsMemoryless | js/app.js:241-261 | the classes depend on the latest offset only |
| Scroll.ScrollMonotone | js/app.js:246-259 | scrolling further down never removes a class, and a visible scroll-top button implies a shadowed header |
| MobileMenu.ToggleMobileMenu | js/app.js:173-186 | both `active` classes flip; `aria-expanded` and the body lock follow the button's new state |
| MobileMenu.CloseIfOpen | js/app.js:140-165 | a nav click or Escape changes nothing while the navigation is closed; while open it is a full toggle, so the hamburger, `aria-expanded` and the body lock change with the navigation |
| MobileMenu.MenuStaysConsistent | js/app.js:140-186 | toggling and closing keep button, navigation, ARIA state and body lock in agreement, and closing unlocks the body |
| MobileMenu.ToggleTwiceRestores | js/app.js:173-186 | two toggles restore a consistent menu |
| ContactForm.ValidateField | js/app.js:333-380 | the verdict is the field rule for the input's id; the group's error marker is set iff the field is invalid; id and value are untouched |
| ContactForm.FieldRules | js/app.js:338-370 | on the trimmed value: name, subject and message need a `length` of at least 2, 5 and 10 UTF-16 code units; an e-mail needs an '@' and a '.' in any position; any other id is valid |
| ContactForm.OnInput | js/app.js:322-328 | typing re-validates only a field already in error, so it can clear an error but never raise one; the input's id and value are untouched |
| ContactForm.OnBlur | js/app.js:319 | leaving a field marks it in error iff it is invalid |
| ContactForm.ValidityIgnoresPadding | js/app.js:338 | white space around a value never changes its verdict |
| ContactForm.NameSamples | js/app.js:341-346 | "A", " A " and "é" are invalid names; "Al" and a single emoji beyond U+FFFF, two code units long, are valid |
| ContactForm.EmailSamples | js/app.js:349-354 | "a.b" and "a@b" are invalid e-mails; "a@b.c" and ".@" are valid |
| ContactForm.SubjectSamples | js/app.js:357-362 | "abcd" is an invalid subject, "abcde" a valid one |
| ContactForm.MessageSamples | js/app.js:365-370 | nine characters are an invalid message, ten a valid one; a field with another id is valid even when empty |
| ContactForm.HandleFormSubmit | js/app.js:383-435 | every field is validated with no short-circuit, so each error marker reflects its own field. Focus goes to the first invalid field in document order when there is one. A valid form is submitted iff it has inputs with the ids name, email, subject and message; otherwise reading a missing one throws before the form is hidden |
| DataCache.LoadPortfolioData | js/components.js:25-53 | a filled cache is returned without fetching. An empty cache fetches. Only an ok status (200-299) with a document fills the cache and returns it; a network error, a bad status or an unparsable body return null, and a falsy body returns that falsy value, which every caller treats like null; all leave the cache empty. The returned value is always the cache |
| DataCache.Finish | js/components.js:31-52 | after the awaits a load returns the delivered document, or a value every caller treats as null. A document fills the cache, a falsy body empties it, and a failure before the assignment leaves the cache as it was at that moment |
| DataCache.Overlapped | js/components.js:25-52 | two loads started before either finishes both fetch from an empty cache; each returns its own document; the first to finish leaves the cache holding what it delivered (nothing on failure), and the one finishing last decides the cache: its document, empty after a falsy body, unchanged after a failure |
| DataCache.OverlapRefetches | js/components.js:27-41 | two successful loads that overlap fetch twice and leave the second document for later calls, where one after the other the second would not fetch and would return the first |
| DataCache.Session | js/components.js:25-53 | across a sequence of loads, each finishing before the next starts, every load returns exactly what the cache then holds |
| DataCache.LoadedOnce | js/components.js:27-29 | in a session of loads one after the other, once a load returns data, every later load returns the same data without fetching |
| DataCache.CachedStays | js/components.js:27-29 | from a filled cache no load of a session fetches, and each returns the cached data |
| DataCache.FailureRefetches | js/components.js:36-52 | a load that returns null is followed by a load that fetches again |
| Services.Mentions | js/components.js:181-184 | `indexOf(keyword) !== -1` holds iff the keyword occurs in the title |
| Services.ServiceEmoji | js/components.js:180-186 | the emoji of the first case-sensitive keyword match in the order Web, Mobil, API, then UI or Tasarim; the briefcase iff none occurs |
| Services.ServiceEmojiIsFirstMatch | js/components.js:180-186 | the chain of tests equals the first-match reading of the priority table |
| Services.ShortBio | js/components.js:88 | the short bio is the longest prefix of the bio within 150 UTF-16 code units followed by "...", so at most 153 code units; the whole bio when it fits; the ellipsis is added even when nothing was cut |
| Projects.AddNew | js/components.js:335-340 | appending unseen categories keeps the earlier list as a prefix and stays duplicate-free. It adds exactly the missing categories, ordered by first appearance |
| Projects.Categories | js/components.js:334-340 | the category list starts with "all", has no duplicates (even when a project's category is "all"), holds every project category, and keeps first-appearance order |
| Projects.CategoriesSample | js/components.js:334-340 | categories web, all, api, web give the list all, web, api |
| Projects.CategoryLabel | js/components.js:347-351 | the known keys all, web, mobile and api are captioned Tumu, Web, Mobil and API, as a lookup table gives them; any other key is its own caption |
| Projects.FilterBar | js/components.js:343-357 | one button per category, in order, with only the first active |
| Projects.FilterProjects | js/components.js:666-682 | a card is shown iff the filter is "all" or equals the card's category; every other card is hidden; categories are untouched |
| Projects.ClickFilter | js/app.js:284-298 | the clicked button alone becomes active, and the cards are filtered by its category |
| Projects.ExactlyOneActiveFilter | js/app.js:287-296 | the rendered bar and every click on it leave exactly one active button |
| Projects.FilterBarSelectsProjects | js/components.js:334-357 | on the rendered page, after clicking a button a project is shown iff that button is "all" or the project's category; every category has a button |
| Projects.RenderedIsAllFilter | js/components.js:343-371 | the page as rendered is what clicking its "all" button produces |
| Tabs.SwitchTab | js/components.js:685-709 | a button is active with `aria-selected` true iff its `data-tab` equals the name. A panel is shown iff its id is the name followed by `-tab`; an undefined name matches the id "undefined-tab" |
| Tabs.ClickSelectsOne | js/app.js:268-277 | with distinct names and ids, clicking a tab selects it alone and shows at most one panel: the clicked tab's |
| Tabs.InitialIsExperience | js/components.js:288-309 | the rendered tabs are the state switching to "experience" produces, and switching away and back restores it |
| Renderers.RenderHome | js/components.js:60-177 | without data, the fixed home fallback. With data, the name and title from the personal data, the short bio and one emoji per service card in order |
| Renderers.RenderAbout | js/components.js:193-316 | without data, the fixed fallback. With data, two tab buttons, "experience" active and selected and "education" not, and the "experience-tab" panel shown with "education-tab" hidden: the state switching to "experience" produces |
| Renderers.RenderProjects | js/components.js:323-424 | without data, the fixed fallback. With data, the filter bar of the de-duplicated categories and one shown card per project |
| Renderers.RenderSkills | js/components.js:431-437 | the fixed fallback exactly when there is no data |
| Renderers.RenderContact | js/components.js:512-518 | the fixed fallback exactly when there is no data |
| Renderers.EveryRendererFallsBack | js/components.js:65-67 | every renderer falls back exactly when there is no data. The fallback depends only on the page; the same check is at lines 197-199, 327-329, 435-437 and 516-518 |
| Renderers.RenderThroughCache | js/components.js:25-67 | a page rendered through the cache falls back iff the cache was empty and the fetch delivered no document |

## Left out

- DOM querying, class and style mutation, `innerHTML` and the markup text of the renderers: elements are records and the renderers' output is a summary of the tracked parts.
- `fetch`, JSON parsing, `localStorage`, `matchMedia`, `window.scrollTo` and `console`: they are inputs (a fetch outcome, the stored theme, the system preference) or effects (`ScrollToTop`).
- Timed sequencing: the fade of `loadContent` (js/router.js:158-172), the deferred listener attachment (js/app.js:81-116), the skill-bar animation (js/components.js:649-663), the success-message reset (js/app.js:428-434) and `debounce` (js/app.js:442-451).
- Asynchronous `hashchange` delivery: resolution is the explicit step `Router.HandleRouteChange`; whether the browser fires it after a navigation is not modelled.
- Router routes are a true map; the source's plain object also answers inherited keys such as `toString`, and a registered handler that is falsy would count as unregistered. Handlers are always-present opaque values here.
- JsString.Prefix: when the `n`-th code unit of the string is the first half of a surrogate pair, `substring(0, n)` keeps that lone half and returns exactly `n` code units; the model stops before the pair, one code unit short. A Dafny string cannot hold a lone surrogate.
- Services.ShortBio: when the 150th code unit of the bio is the first half of a surrogate pair, the source keeps that lone half and the model stops before the pair. A Dafny string cannot hold a lone surrogate.
- `JsString.IndexOf` and `JsString.IndexOfSubstring` give positions in characters, not code units. The site only compares them with -1, where the two agree.
- The age on the about page (js/components.js:204-205) depends on the clock and is not tracked.
- Project categories that are not strings in the JSON document.
- Listener attachment (js/app.js:268-330): an event-system concern; clicks, blur and input are modelled by the actions they trigger. Each route replaces the page markup (js/router.js:164-169) before its setup runs 200 ms later, so listeners land on new elements. Running a setup twice on the same elements would register the inline tab, filter, blur and input listeners twice, while the submit listener, the same `handleFormSubmit` function each time, would not be added again. That case is not modelled.
- `ContactForm.HandleFormSubmit`: the success effect is the `Submitted` outcome; whether the success message element exists, and the form data logged to the console, are not modelled. The ids read on submit are looked up among the validated inputs; an element with one of those ids that is not a form input is not modelled.
- DataCache.LoadPortfolioData: a body that parses to a truthy value without the document's shape (such as `{}`) is not modelled. The source stores it in the cache and returns it, and the renderers then throw on the missing fields.
- DataCache.Session: models loads that each finish before the next starts. Loads that overlap across the awaits are covered by `DataCache.Overlapped` only, for two loads.
- DataCache.LoadedOnce: holds for loads that do not overlap. A load still in flight when data arrives can overwrite the cache, as `DataCache.OverlapRefetches` shows.
