# Palette navigation and geometry of the GOK on-screen keyboard

The on-screen keyboard shows one *palette* of keys at a time. Its definition
gives each key a zero-based, end-exclusive rectangle (`left`, `top`, `right`,
`bottom`), an optional label, an optional image and a `type`. A key typed
`branch` navigates forward to the palette named by its `target`. A key typed
`branchBack` returns to the previous palette. This project models:

- **Grid geometry** (`KeyModel`). The palette's grid size is the largest
  `bottom` and `right` over its keys, 0/0 for a palette without keys. A key is
  placed on the one-based CSS grid by adding one to each edge.
- **The component-based palette** (`PreactPalette`, `osk-preact/src/Palette.js`).
  It covers `countRowsColumns`, the per-key widget built by `layoutPalette`,
  and the `Palette` component.
- **The DOM-based palette** (`Navigation.Palette`, `src/js/palette.js`). It is
  a class whose keyboard is built lazily:
  - `createKeyboard` builds a root element with one button per key and then
    offers the palette's back key to the branch stack;
  - `layoutKeyboard` builds the keyboard when it has none, and otherwise
    displays it;
  - the `backKey` getter finds the first `branchBack` key.
- **The branch-back stack** (`Navigation.BranchStack`,
  `osk-preact/src/BranchStack.js`). It is a LIFO of palette references with a
  push/pop counter, plus the wiring that attaches click listeners: one back
  listener per palette, and forward listeners for every `branch` key whose
  target resolves in the palette store. `StackModel` gives each stack
  transition as a function on values. The class methods are proved against
  those functions, and the lemmas about sequences of transitions are stated
  there.

Attaching a click listener is recorded in a `Listeners` registry, together
with the stack the handler captured. A click is the handler method the
listener names (`BackClick`, `ForwardClick`), called on that stack. A page
element is a `Container` that remembers which palette it shows.

The model follows the code where the code and its documentation differ:

- No capacity bound: `MAX_STACK_SIZE` is declared but never checked.
- Forward wiring is not idempotent. The handler setup has no guard, so wiring
  a palette twice attaches its listeners twice: every call of
  `SetupPaletteForwardNavigation` appends the palette's forward listeners,
  and for a palette with a qualifying key that list is non-empty
  (`ForwardListenersEmpty`).
- The back-click handler pops the stack's array directly, so the push/pop
  counter is not decremented. After one forward and one back click the stack
  is empty but `pushPopDifference` reads 1 (`ForwardThenBack`,
  `BackPopUnbalances`). Only `push` and `pop` keep it equal to the length.
- Before popping, the back-click handler reads the container's `id`, so a
  null container throws and nothing is popped.
- The back-click handler calls `layoutKeyboard` without a stack. A popped
  palette that was never built therefore gets its root element and then
  throws where `createKeyboard` calls `initBackKey`.
- `layoutKeyboard` on a palette without a root element only builds it. It
  does not display it in the container.
- The `backKey` getter tests the found key *identifier* for truthiness, so a
  back key whose identifier is the empty string is reported as missing.
- A key label that is the empty string is falsy. The DOM button then gets no
  id and no text, while the component palette uses `""` for both.
- `peek` assigns an undeclared variable; see "## Findings".

## Model

| member | source | states |
|---|---|---|
| KeyModel.PlacementOf | src/js/palette.js:127-132 | grid placement keeps the key's width and height, and `right > left` holds exactly when `colEnd > colStart` (same for rows) |
| KeyModel.PlacementRoundTrip | osk-preact/src/Palette.js:98-101 | subtracting one from each grid coordinate gives back the rectangle; a rectangle is well formed exactly when its placement is |
| KeyModel.PlacementInjective | src/js/palette.js:127-132 | distinct rectangles get distinct placements |
| KeyModel.MaxExtent | src/js/palette.js:68-78 | the running maximum is non-negative, bounds every key's far edge, and is 0 or some key's far edge |
| KeyModel.MaxExtentAttained | src/js/palette.js:67-82 | for a non-empty palette with well-formed keys, the grid size equals some key's `right`/`bottom` |
| KeyModel.MaxExtentLeast | osk-preact/src/Palette.js:48-61 | the grid size is the least non-negative bound of all far edges |
| KeyModel.TwoKeyExample | osk-preact/src/Palette.js:48-61 | keys `[0,0,2,1]` and `[2,0,4,1]` give 1 row, 4 columns, and the first is placed at columns 1–3, rows 1–2 |
| StackModel.Peek | osk-preact/src/BranchStack.js:82-105 | a palette is returned exactly when `0 <= i < length`, and it is the entry `i` below the top |
| StackModel.PeekAsWrittenRaises | osk-preact/src/BranchStack.js:91-97 | on every non-empty stack the written `peek` raises, while the documented one returns the top |
| StackModel.PushThenPop | osk-preact/src/BranchStack.js:47-81 | an accepted push is seen by `peek(0)`, and the next pop returns it and restores the prior stack and counter |
| StackModel.PushDuplicate | osk-preact/src/BranchStack.js:54-60 | a dynamic palette already on the stack is not pushed again; a non-dynamic one is appended anyway |
| StackModel.RunKeepsGap | osk-preact/src/BranchStack.js:58-81 | any sequence of `push`/`pop` keeps counter minus length; from a balanced stack the counter equals the length and is never negative |
| StackModel.RunCounterCovers | osk-preact/src/BranchStack.js:107-114 | with back-click pops included, the counter stays at least the length, hence never negative |
| StackModel.BackPopUnbalances | osk-preact/src/BranchStack.js:127 | after one back-click pop of a balanced stack, the counter stays one above the length through any later `push`/`pop` |
| StackModel.ForwardThenBack | osk-preact/src/BranchStack.js:125-133 | forward from a palette, then back: the back click returns that palette and the stack is empty with counter 1 |
| PreactPalette.CountRowsColumns | osk-preact/src/Palette.js:48-61 | the accumulator loop returns the grid size of the definition's keys (0/0 without keys) |
| PreactPalette.WidgetFor | osk-preact/src/Palette.js:98-110 | the label, or `""` without one, is both id and children; placement is the rectangle shifted by one; an image source exists exactly when the key has an image and is the keyboards directory plus its url |
| PreactPalette.LayoutPalette | osk-preact/src/Palette.js:90-123 | exactly one widget per key, the `i`-th being the `i`-th key's widget |
| PreactPalette.Palette | osk-preact/src/Palette.js:126-141 | heading is the palette name, the grid is as wide as the largest `right`, one widget per key in key order |
| Navigation.ButtonFor | src/js/palette.js:108-132 | a button gets id and text exactly when the label is non-empty, an image exactly when the key has one (under `../keyboards/`), and the key's placement |
| Navigation.FirstBackKey | src/js/palette.js:179-180 | finds the first key typed `branchBack` and nothing before it is one; finds nothing exactly when there is none |
| Navigation.BackKeyOf | src/js/palette.js:178-182 | the back key is the first `branchBack` key, reported only when its identifier is non-empty; no `branchBack` key means no back key |
| Navigation.BackListeners | osk-preact/src/BranchStack.js:143-153 | `initBackKey` attaches at most one listener, and exactly one when the palette has a back key and is not configured |
| Navigation.BackListenersIdempotent | osk-preact/src/BranchStack.js:145-152 | once a palette with a back key is configured, offering it again attaches nothing |
| Navigation.ForwardListenersExact | osk-preact/src/BranchStack.js:198-212 | a forward listener is attached exactly for keys typed `branch` with a non-null target that resolves, and it pushes the key's palette and lays out that target |
| Navigation.ForwardListenersBound | osk-preact/src/BranchStack.js:201-211 | wiring a palette never attaches more listeners than it has keys |
| Navigation.ForwardListenersCount | osk-preact/src/BranchStack.js:201-211 | wiring a palette attaches exactly as many listeners as it has keys typed `branch` with a resolvable target: one per such key |
| Navigation.ForwardListenersEmpty | osk-preact/src/BranchStack.js:198-212 | wiring attaches nothing exactly when no key qualifies |
| Navigation.HasWiredKeyExact | osk-preact/src/BranchStack.js:204-207 | a palette has a key forward wiring acts on exactly when some key is `branch` with a resolvable target |
| Navigation.Palette.constructor | src/js/palette.js:41-45 | a new palette has no keys, is not back-configured and has no root element |
| Navigation.Palette.FromJson | src/js/palette.js:62-65 | the definition's name, keys and dynamic flag are copied; everything else is unchanged |
| Navigation.Palette.CountRowsColumns | src/js/palette.js:67-82 | returns the grid size of the keys and stores it in `numRows`/`numCols` |
| Navigation.Palette.CreateKeyboard | src/js/palette.js:93-146 | the root element holds one button per key; then, when there is a stack, the back key is offered to it: one back listener is attached and the palette marked configured only if the palette was not configured and has a back key with a non-empty identifier, otherwise nothing is attached; without a stack the call throws after building |
| Navigation.Palette.LayoutKeyboard | src/js/palette.js:155-170 | null container: nothing changes; no root element: the keyboard is built and not displayed; otherwise the container shows this palette and nothing else changes |
| Navigation.BranchStack.constructor | osk-preact/src/BranchStack.js:28-31 | a new stack is empty with counter 0 |
| Navigation.BranchStack.IsEmpty | osk-preact/src/BranchStack.js:37-39 | true exactly when there are no entries, and then `peek()` is null |
| Navigation.BranchStack.Push | osk-preact/src/BranchStack.js:47-63 | null and an already stacked dynamic palette leave stack and counter unchanged; otherwise the palette is appended above the earlier entries and the counter grows by 1 |
| Navigation.BranchStack.Pop | osk-preact/src/BranchStack.js:71-81 | empty: returns null and changes nothing; otherwise returns the top, removes only it and decrements the counter |
| Navigation.BranchStack.Peek | osk-preact/src/BranchStack.js:82-105 | the documented `peek`, with the index defaulting to 0 (the top): the palette `i` below the top, null exactly when there is none |
| Navigation.BranchStack.PushPopDifference | osk-preact/src/BranchStack.js:107-114 | never negative and at least the length; equal to the length on a balanced stack |
| Navigation.BranchStack.SetupBranchBackHandler | osk-preact/src/BranchStack.js:123-125 | attaches exactly one back listener to the given key, recording this stack as the one its click pops |
| Navigation.BranchStack.InitBackKey | osk-preact/src/BranchStack.js:143-153 | attaches the back listener only when there is a back key and the palette is not configured, and then marks it configured |
| Navigation.BranchStack.BackClick | osk-preact/src/BranchStack.js:125-133 | null container: throws and nothing changes; otherwise the top is popped without touching the counter; empty stack: no previous palette and nothing rendered; else the popped palette is laid out without a stack; no palette other than the popped one can change |
| Navigation.BranchStack.SetupNavigateForwardHandler | osk-preact/src/BranchStack.js:165-167 | attaches exactly one forward listener from the key's palette to the target, recording this stack as the one its click pushes |
| Navigation.BranchStack.ForwardClick | osk-preact/src/BranchStack.js:167-170 | pushes the source palette (by `push`'s rules), then lays out the target with this stack, which never throws since the stack is present |
| Navigation.BranchStack.SetupPaletteForwardNavigation | osk-preact/src/BranchStack.js:198-212 | attaches the forward listeners of the palette's qualifying keys, in key order, and nothing else; every call on a palette with a qualifying key attaches more listeners, since nothing guards against wiring twice |
| Navigation.BranchStack.ForwardNavigationHookup | osk-preact/src/BranchStack.js:180-187 | attaches every listed palette's forward listeners, palette by palette in the store's list order |
| Navigation.HookupListenersExact | osk-preact/src/BranchStack.js:180-187 | a listener is attached by the hookup exactly when it is a forward listener of a palette registered under a name of the store's list |

## Left out

- Loading a palette (`fromJsonUrl` in both palette files, `createAndRenderPalette`) is left out because it is `fetch`, promises and JSON input. The model starts from a parsed `Definition`.
- Element construction is reduced to the values `Button`, `RootDiv`, `PaletteKeyWidget` and `PaletteView`. This covers `createElement`, CSS style strings, class attributes, `replaceChildren`, the `html` templates and Preact's `render`. The `anItem.widget` written on each key is the button or widget at the key's position.
- `addKeyToOutput` is left out: it only writes to the page.
- The keyboard-name hack in `layoutKeyboard` is left out: it only writes to the page.
- The `branchBack` style class added by `initBackKey` is left out: it only changes styling.
- `PaletteKey.js` is left out: it is a rendering component only.
- The module-level store, stack and `render` calls of `osk-preact/src/Palette.js` are left out.
- The dead `row` counters are left out.
- The always-undefined `rowsCols.numCols` used for styling is left out; no model value depends on it.
- `console` output is left out, including the wrong entry named in `pop`'s log.
- `document.getElementById("mainKbd-container")` is the `mainKbd` parameter, because a page lookup is outside the model.
- The palette store is reduced to its list of names and its name-to-palette map. Its own code is not part of this model.
- Browser event dispatch is left out. A click is a direct call of `BackClick` or `ForwardClick` with the listener's recorded arguments.
- Stack capacity is left out: `MAX_STACK_SIZE` is never enforced by the code.
- Key `type` values other than `branch` and `branchBack`, and a missing type, are the role `Normal`. An undefined `target` is modelled like a null one.
- Non-integer or non-numeric `peek` arguments are not modelled.
- Key identifiers are not constrained to be distinct. A JavaScript object's keys are distinct, while a `seq<Entry>` may repeat an identifier. No contract depends on distinctness, but for such a sequence a `Listener`'s key identifier would not name a single key.
- Navigation.Palette.FromJson: `Object.assign` copies every property of the definition. The model copies only the name, the keys and the dynamic flag.
- Navigation.BranchStack.SetupBranchBackHandler: requires a built palette. The source throws a TypeError reading an undefined `widget` otherwise.
- Navigation.BranchStack.SetupNavigateForwardHandler: requires a built palette, for the same reason.
- Navigation.BranchStack.InitBackKey: requires the palette to be built whenever it would attach a listener. The source throws otherwise.
- Navigation.BranchStack.SetupPaletteForwardNavigation: requires the palette to be built when one of its keys qualifies. The source throws at the first such key otherwise, after attaching the earlier ones; that partial result is not modelled.
- Navigation.BranchStack.ForwardNavigationHookup: requires every listed name to resolve to a wireable palette. The source throws at the first name that does not; that partial result is not modelled.

## Findings

| source | as written | input that shows it | evidently intended | confidence | as-written member | corrected member |
|---|---|---|---|---|---|---|
| osk-preact/src/BranchStack.js:97 | `peek` assigns the undeclared name `index`; class bodies are strict-mode code, so this raises a ReferenceError | any non-empty stack, `peek(0)` | declare `index` locally and return the entry `stackIndex` below the top, null when there is none | high; not executed | StackModel.PeekAsWrittenRaises | Navigation.BranchStack.Peek |
