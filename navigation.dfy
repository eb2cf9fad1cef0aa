/** Palettes that build and display their own keyboard, and the branch-back
    stack that records where the user came from and wires the navigation
    keys. The two classes live in one module because each calls the other:
    building a keyboard offers its back key to the stack, and a navigation
    click asks a palette to lay itself out.

    Page elements are modelled as `Container` objects that remember which
    palette's keyboard they show. Attaching a click listener to a key's
    button is recorded as a `Listener` in a `Listeners` registry, and a click
    is modelled by calling the handler method the listener names. */
module Navigation {

  import opened KeyModel
  import StackModel

  /** A page element a palette's keyboard can be placed in. */
  class Container {
    /** The palette whose keyboard replaced this element's children. */
    var shown: Palette?
  }

  // ---------------------------------------------------------------------
  // Keyboard construction

  /** The `<button>` built for a key: an `id` and a text node when the key
      has a non-empty label, an `<img>` when it has an image, and its grid
      placement. */
  datatype Button = Button(id: Option<string>, imageSrc: Option<string>, text: Option<string>, place: Placement)

  /** The keyboard's root `<div>`: its column count (the palette's
      `numCols`, absent until the grid size is computed) and its buttons,
      in key order. The `i`-th button is the `widget` of the `i`-th key. */
  datatype RootDiv = RootDiv(columns: Option<int>, buttons: seq<Button>)

  const ImageDirectory := "../keyboards/"

  /** The button for a key: labelled exactly when the label is non-empty
      (an empty string is falsy), showing an image exactly when the key has
      one, and placed on the key's rectangle shifted by one. */
  function ButtonFor(k: Key): (b: Button)
    ensures b.id.Some? <==> k.keyLabel.Some? && k.keyLabel.value != ""
    ensures b.id.Some? ==> b.id.value == k.keyLabel.value
    ensures b.text == b.id
    ensures b.imageSrc.Some? <==> k.image.Some?
    ensures k.image.Some? ==> b.imageSrc.value == ImageDirectory + k.image.value.url
    ensures RectOf(b.place) == k.rect
    ensures ValidRect(k.rect) <==> ValidPlacement(b.place)
  {
    PlacementRoundTrip(k.rect);
    var shown := match k.keyLabel
      case Some(s) => if s != "" then Some(s) else None
      case None => None;
    var src := match k.image
      case Some(img) => Some(ImageDirectory + img.url)
      case None => None;
    Button(shown, src, shown, PlacementOf(k.rect))
  }

  /** The root element built for a palette with the given column count and
      keys: one button per key, in key order. */
  function RootDivFor(columns: Option<int>, keys: seq<Entry>): (d: RootDiv)
    ensures d.columns == columns
    ensures |d.buttons| == |keys|
    ensures forall j :: 0 <= j < |keys| ==> d.buttons[j] == ButtonFor(keys[j].1)
  {
    RootDiv(columns, seq(|keys|, j requires 0 <= j < |keys| => ButtonFor(keys[j].1)))
  }

  // ---------------------------------------------------------------------
  // Back key

  /** `Object.keys(keys).find(...)`: the position of the first key whose
      type is `branchBack`, if there is one. */
  function FirstBackKey(keys: seq<Entry>): (r: Option<nat>)
    ensures r.Some? ==> r.value < |keys| && keys[r.value].1.role.BranchBack?
    ensures r.Some? ==> forall j :: 0 <= j < r.value ==> !keys[j].1.role.BranchBack?
    ensures r.None? <==> forall j :: 0 <= j < |keys| ==> !keys[j].1.role.BranchBack?
  {
    if |keys| == 0 then None
    else if keys[0].1.role.BranchBack? then Some(0)
    else
      match FirstBackKey(keys[1..])
      case None => None
      case Some(i) => Some(i + 1)
  }

  /** The `backKey` getter: the first `branchBack` key together with its
      identifier, or nothing when there is none. The getter tests the found
      identifier for truthiness, so a back key whose identifier is the empty
      string is reported as missing. */
  function BackKeyOf(keys: seq<Entry>): (r: Option<Entry>)
    ensures r.Some? <==> FirstBackKey(keys).Some? && keys[FirstBackKey(keys).value].0 != ""
    ensures r.Some? ==> r.value.1.role.BranchBack? && r.value in keys
    ensures r.Some? ==> r.value == keys[FirstBackKey(keys).value]
    ensures (forall j :: 0 <= j < |keys| ==> !keys[j].1.role.BranchBack?) ==> r.None?
  {
    match FirstBackKey(keys)
    case None => None
    case Some(i) => if keys[i].0 != "" then Some(keys[i]) else None
  }

  // ---------------------------------------------------------------------
  // Listeners

  /** What a click on a wired key does: go forward (push `from` onto
      `stack`, lay out `target`) or go back (pop `stack` and lay out the
      popped palette). Each carries the stack its handler captured and the
      container it renders into. */
  datatype Action = Forward(stack: BranchStack, from: Palette, target: Palette, container: Container?)
                  | Back(stack: BranchStack, container: Container?)

  /** A click listener attached to the button of key `keyId` of `owner`. */
  datatype Listener = Listener(owner: Palette, keyId: string, action: Action)

  /** Every click listener attached so far, in attachment order. */
  class Listeners {
    var attached: seq<Listener>
  }

  /** The listeners `initBackKey` attaches: none when the palette has no
      back key or was already configured, otherwise one back listener on its
      back key. */
  function BackListeners(stack: BranchStack, owner: Palette, keys: seq<Entry>, configured: bool, container: Container?): (ls: seq<Listener>)
    ensures |ls| <= 1
    ensures |ls| == 1 <==> !configured && BackKeyOf(keys).Some?
    ensures |ls| == 1 ==> ls[0] == Listener(owner, BackKeyOf(keys).value.0, Back(stack, container))
  {
    if configured then []
    else
      match BackKeyOf(keys)
      case None => []
      case Some(e) => [Listener(owner, e.0, Back(stack, container))]
  }

  /** Once a palette with a back key is configured, offering its back key
      again attaches nothing. */
  lemma BackListenersIdempotent(stack: BranchStack, owner: Palette, keys: seq<Entry>, configured: bool, container: Container?)
    ensures var configured' := configured || BackKeyOf(keys).Some?;
            BackListeners(stack, owner, keys, configured', container) == []
  {
  }

  // ---------------------------------------------------------------------
  // Palette store

  /** The palette store as the wiring sees it: the palette names in
      registration order and the palette registered under each name. */
  datatype Store = Store(paletteList: seq<string>, palettes: map<string, Palette>)
  {
    /** `getNamedPalette(name)`: the registered palette, or null. */
    function GetNamedPalette(name: string): (p: Palette?)
      ensures p != null <==> name in palettes
      ensures p != null ==> p == palettes[name]
    {
      if name in palettes then palettes[name] else null
    }
  }

  /** A key that forward wiring attaches a handler to: typed `branch`, with
      a non-null target that names a registered palette. */
  predicate Wired(k: Key, store: Store)
  {
    k.role.Branch? && k.role.target.Some? && store.GetNamedPalette(k.role.target.value) != null
  }

  /** The forward listener for one key, if it gets one. */
  function ForwardListenerFor(stack: BranchStack, p: Palette, e: Entry, store: Store, container: Container?): (ls: seq<Listener>)
  {
    if Wired(e.1, store) then
      [Listener(p, e.0, Forward(stack, p, store.palettes[e.1.role.target.value], container))]
    else []
  }

  /** The listeners `setupPaletteForwardNavigation` attaches for the given
      keys of palette `p`, in key order. */
  function ForwardListeners(stack: BranchStack, p: Palette, keys: seq<Entry>, store: Store, container: Container?): (ls: seq<Listener>)
    decreases |keys|
  {
    if |keys| == 0 then []
    else ForwardListeners(stack, p, keys[..|keys| - 1], store, container)
         + ForwardListenerFor(stack, p, keys[|keys| - 1], store, container)
  }

  /** Forward wiring attaches a listener exactly to the keys of type
      `branch` whose target resolves, and that listener pushes the key's
      own palette and lays out the resolved target. */
  lemma {:induction false} ForwardListenersExact(stack: BranchStack, p: Palette, keys: seq<Entry>, store: Store, container: Container?,
                                                  l: Listener)
    ensures l in ForwardListeners(stack, p, keys, store, container) <==>
            exists i :: 0 <= i < |keys| && Wired(keys[i].1, store) &&
                        l == Listener(p, keys[i].0, Forward(stack, p, store.palettes[keys[i].1.role.target.value], container))
    decreases |keys|
  {
    if |keys| > 0 {
      var init := keys[..|keys| - 1];
      ForwardListenersExact(stack, p, init, store, container, l);
      assert forall i :: 0 <= i < |init| ==> init[i] == keys[i];
    }
  }

  /** The wiring never attaches more listeners than there are keys. */
  lemma {:induction false} ForwardListenersBound(stack: BranchStack, p: Palette, keys: seq<Entry>, store: Store, container: Container?)
    ensures |ForwardListeners(stack, p, keys, store, container)| <= |keys|
    decreases |keys|
  {
    if |keys| > 0 {
      ForwardListenersBound(stack, p, keys[..|keys| - 1], store, container);
    }
  }

  /** The positions of the keys that forward wiring acts on. */
  ghost function WiredPositions(keys: seq<Entry>, store: Store): set<int>
  {
    set i | 0 <= i < |keys| && Wired(keys[i].1, store)
  }

  /** Wiring a palette attaches exactly as many listeners as it has
      qualifying keys: one per such key. */
  lemma {:induction false} ForwardListenersCount(stack: BranchStack, p: Palette, keys: seq<Entry>, store: Store, container: Container?)
    ensures |ForwardListeners(stack, p, keys, store, container)| == |WiredPositions(keys, store)|
    decreases |keys|
  {
    var all := WiredPositions(keys, store);
    if |keys| == 0 {
      assert all == {};
    } else {
      var n := |keys| - 1;
      var init := keys[..n];
      ForwardListenersCount(stack, p, init, store, container);
      var prefix := WiredPositions(init, store);
      assert forall i :: 0 <= i < n ==> init[i] == keys[i];
      if Wired(keys[n].1, store) {
        assert all == prefix + {n};
      } else {
        assert all == prefix;
      }
    }
  }

  /** Wiring a palette attaches nothing exactly when none of its keys
      qualifies. */
  lemma {:induction false} ForwardListenersEmpty(stack: BranchStack, p: Palette, keys: seq<Entry>, store: Store, container: Container?)
    ensures ForwardListeners(stack, p, keys, store, container) == [] <==> !HasWiredKey(keys, store)
    decreases |keys|
  {
    if |keys| > 0 {
      ForwardListenersEmpty(stack, p, keys[..|keys| - 1], store, container);
    }
  }

  /** The listeners `forwardNavigationHookup` attaches for the first `n`
      names of the list: each listed palette's forward listeners, palette
      after palette in list order. */
  ghost function HookupListeners(stack: BranchStack, store: Store, n: nat, container: Container?): (ls: seq<Listener>)
    requires n <= |store.paletteList|
    reads store.palettes.Values
  {
    if n == 0 then []
    else
      var p := store.GetNamedPalette(store.paletteList[n - 1]);
      HookupListeners(stack, store, n - 1, container)
      + (if p == null then [] else ForwardListeners(stack, p, p.keys, store, container))
  }

  /** A listener is attached by the hookup of the first `n` names exactly
      when it is one of the forward listeners of a palette registered under
      one of those names. */
  lemma {:induction false} HookupListenersExact(stack: BranchStack, store: Store, n: nat, container: Container?, l: Listener)
    requires n <= |store.paletteList|
    ensures l in HookupListeners(stack, store, n, container) <==>
            exists i :: 0 <= i < n && ListedForward(stack, store, i, container, l)
  {
    if n > 0 {
      HookupListenersExact(stack, store, n - 1, container, l);
      var earlier := HookupListeners(stack, store, n - 1, container);
      var p := store.GetNamedPalette(store.paletteList[n - 1]);
      var last := if p == null then [] else ForwardListeners(stack, p, p.keys, store, container);
      assert HookupListeners(stack, store, n, container) == earlier + last;
      assert l in last <==> ListedForward(stack, store, n - 1, container, l);
      if l in earlier {
        var i :| 0 <= i < n - 1 && ListedForward(stack, store, i, container, l);
        assert 0 <= i < n && ListedForward(stack, store, i, container, l);
      } else if l in last {
        assert 0 <= n - 1 < n && ListedForward(stack, store, n - 1, container, l);
      } else {
        forall i | 0 <= i < n ensures !ListedForward(stack, store, i, container, l) {
          if i < n - 1 {
            assert !(0 <= i < n - 1 && ListedForward(stack, store, i, container, l));
          }
        }
      }
    }
  }

  /** `l` is a forward listener of the palette registered under the `i`-th
      name of the store's list. */
  ghost predicate ListedForward(stack: BranchStack, store: Store, i: int, container: Container?, l: Listener)
    requires 0 <= i < |store.paletteList|
    reads store.palettes.Values
  {
    var p := store.GetNamedPalette(store.paletteList[i]);
    p != null && l in ForwardListeners(stack, p, p.keys, store, container)
  }

  /** A palette forward wiring can visit without failing: its buttons
      exist, or none of its keys needs one. */
  predicate Wireable(p: Palette, store: Store)
    reads p
  {
    p.rootDiv.Some? || !HasWiredKey(p.keys, store)
  }

  /** A name of the store's list that forward wiring can visit: it names a
      registered palette, which is wireable. */
  predicate ListedWireable(p: Palette?, store: Store)
    reads p
  {
    p != null && Wireable(p, store)
  }

  /** Some of the keys gets a forward listener. */
  predicate HasWiredKey(keys: seq<Entry>, store: Store)
    decreases |keys|
  {
    |keys| > 0 && (Wired(keys[|keys| - 1].1, store) || HasWiredKey(keys[..|keys| - 1], store))
  }

  lemma {:induction false} HasWiredKeyExact(keys: seq<Entry>, store: Store)
    ensures HasWiredKey(keys, store) <==> exists i :: 0 <= i < |keys| && Wired(keys[i].1, store)
    decreases |keys|
  {
    if |keys| > 0 {
      var init := keys[..|keys| - 1];
      HasWiredKeyExact(init, store);
      assert forall i :: 0 <= i < |init| ==> init[i] == keys[i];
    }
  }

  // ---------------------------------------------------------------------
  // Layout

  /** The effect of `createKeyboard(stack)` on palette `p`: the root element
      is built from the keys and the column count, and then, unless there
      is no stack to call (a TypeError after the element is built), the
      back key is offered to the stack, which wires it into `mainKbd`. */
  twostate predicate BuildEffect(p: Palette, stack: BranchStack?, mainKbd: Container?, listeners: Listeners, threw: bool)
    reads p, listeners
  {
    && p.rootDiv == Some(RootDivFor(old(p.numCols), old(p.keys)))
    && p.keys == old(p.keys) && p.name == old(p.name) && p.isDynamic == old(p.isDynamic)
    && p.numRows == old(p.numRows) && p.numCols == old(p.numCols)
    && (threw <==> stack == null)
    && listeners.attached == old(listeners.attached) +
         (if threw then [] else BackListeners(stack, p, old(p.keys), old(p.backConfigured), mainKbd))
    && p.backConfigured == (old(p.backConfigured) || (!threw && BackKeyOf(old(p.keys)).Some?))
  }

  /** The effect of `layoutKeyboard(container, stack)` on palette `p`: with
      no container nothing happens; a palette without a root element builds
      it (and does not display it); a built palette is displayed. */
  twostate predicate LayoutEffect(p: Palette, container: Container?, stack: BranchStack?, mainKbd: Container?,
                                  listeners: Listeners, threw: bool)
    reads p, container, listeners
  {
    if container == null then
      !threw && unchanged(p) && unchanged(listeners)
    else if old(p.rootDiv).None? then
      BuildEffect(p, stack, mainKbd, listeners, threw) && unchanged(container)
    else
      !threw && container.shown == p && unchanged(p) && unchanged(listeners)
  }

  // ---------------------------------------------------------------------
  // Palette

  class Palette {
    var name: string
    var keys: seq<Entry>
    var isDynamic: bool
    var backConfigured: bool
    var rootDiv: Option<RootDiv>
    var numRows: Option<int>
    var numCols: Option<int>

    /** A new palette has no keys, is not configured for back navigation
        and has no keyboard yet. Its name, dynamic flag and grid size are
        unset (empty, false and absent). */
    constructor ()
      ensures keys == [] && !backConfigured && rootDiv.None?
      ensures name == "" && !isDynamic && numRows.None? && numCols.None?
    {
      name := "";
      keys := [];
      isDynamic := false;
      backConfigured := false;
      rootDiv := None;
      numRows := None;
      numCols := None;
    }

    /** `fromJson`: copies the parsed definition's name, keys and dynamic
        flag onto the palette. */
    method FromJson(def: Definition)
      modifies this
      ensures name == def.name && keys == def.keys && isDynamic == def.isDynamic
      ensures backConfigured == old(backConfigured) && rootDiv == old(rootDiv)
      ensures numRows == old(numRows) && numCols == old(numCols)
    {
      name := def.name;
      keys := def.keys;
      isDynamic := def.isDynamic;
    }

    /** `countRowsColumns`: the largest `bottom` and `right` over the keys
        (0/0 without keys), also stored as `numRows`/`numCols`. */
    method CountRowsColumns() returns (rows: int, cols: int)
      modifies this`numRows, this`numCols
      ensures rows == MaxExtent(Values(keys), Rows) && cols == MaxExtent(Values(keys), Cols)
      ensures numRows == Some(rows) && numCols == Some(cols)
    {
      rows, cols := 0, 0;
      var items := Values(keys);
      for i := 0 to |items|
        invariant rows == MaxExtent(items[..i], Rows)
        invariant cols == MaxExtent(items[..i], Cols)
      {
        assert items[..i + 1][..i] == items[..i];
        if items[i].rect.right > cols {
          cols := items[i].rect.right;
        }
        if items[i].rect.bottom > rows {
          rows := items[i].rect.bottom;
        }
      }
      assert items[..|items|] == items;
      numRows := Some(rows);
      numCols := Some(cols);
    }

    /** `createKeyboard(branchStack)`: builds the root element with one
        button per key, then offers the back key to the stack. `mainKbd` is
        the page's main keyboard container, where the back key renders. */
    method CreateKeyboard(branchStack: BranchStack?, mainKbd: Container?, listeners: Listeners) returns (threw: bool)
      modifies this, listeners
      ensures BuildEffect(this, branchStack, mainKbd, listeners, threw)
    {
      rootDiv := Some(RootDiv(numCols, []));
      for i := 0 to |keys|
        invariant keys == old(keys) && name == old(name) && isDynamic == old(isDynamic)
        invariant numRows == old(numRows) && numCols == old(numCols)
        invariant backConfigured == old(backConfigured) && unchanged(listeners)
        invariant rootDiv.Some? && rootDiv.value.columns == old(numCols)
        invariant |rootDiv.value.buttons| == i
        invariant forall j :: 0 <= j < i ==> rootDiv.value.buttons[j] == ButtonFor(keys[j].1)
      {
        rootDiv := Some(RootDiv(numCols, rootDiv.value.buttons + [ButtonFor(keys[i].1)]));
      }
      assert rootDiv.value == RootDivFor(old(numCols), keys);
      if branchStack == null {
        threw := true;
      } else {
        branchStack.InitBackKey(this, mainKbd, listeners);
        threw := false;
      }
    }

    /** `layoutKeyboard(keyboardContainer, branchStack)`. */
    method LayoutKeyboard(keyboardContainer: Container?, branchStack: BranchStack?, mainKbd: Container?,
                          listeners: Listeners) returns (threw: bool)
      modifies this, keyboardContainer, listeners
      ensures LayoutEffect(this, keyboardContainer, branchStack, mainKbd, listeners, threw)
    {
      threw := false;
      if keyboardContainer != null {
        if rootDiv.None? {
          threw := CreateKeyboard(branchStack, mainKbd, listeners);
        } else {
          keyboardContainer.shown := this;
        }
      }
    }
  }

  // ---------------------------------------------------------------------
  // Branch-back stack

  /** What a click on a back key led to. */
  datatype ClickResult = LaidOut(palette: Palette) | NoPrevious | Threw

  function OptionOf(p: Palette?): (o: Option<Palette>)
  {
    if p == null then None else Some(p)
  }

  class BranchStack {
    /** The visited palettes, most recent last. */
    var branchBackStack: seq<Palette>
    /** Accepted pushes minus counted pops. */
    var pushPopDelta: int

    function State(): StackModel.StackState<Palette>
      reads this
    {
      StackModel.StackState(branchBackStack, pushPopDelta)
    }

    /** The counter never falls below the number of entries. */
    ghost predicate Valid()
      reads this
    {
      StackModel.CounterCovers(State())
    }

    /** A new stack has no entries and a zero counter. */
    constructor ()
      ensures branchBackStack == [] && pushPopDelta == 0
      ensures Valid() && StackModel.Balanced(State())
    {
      branchBackStack := [];
      pushPopDelta := 0;
    }

    /** `isEmpty`. */
    function IsEmpty(): (r: bool)
      reads this
      ensures r <==> |branchBackStack| == 0
      ensures r ==> Peek() == null
    {
      |branchBackStack| == 0
    }

    /** `push(palette)`: null is ignored, and so is a dynamic palette that is
        already on the stack; otherwise the palette becomes the new top and
        the counter grows by one. */
    method Push(palette: Palette?)
      modifies this
      ensures State() == StackModel.Push(old(State()), OptionOf(palette), palette != null && palette.isDynamic)
      ensures palette == null || (palette.isDynamic && palette in old(branchBackStack)) ==>
                branchBackStack == old(branchBackStack) && pushPopDelta == old(pushPopDelta)
      ensures palette != null && !(palette.isDynamic && palette in old(branchBackStack)) ==>
                branchBackStack == old(branchBackStack) + [palette] && pushPopDelta == old(pushPopDelta) + 1
      ensures old(Valid()) ==> Valid()
      ensures old(StackModel.Balanced(State())) ==> StackModel.Balanced(State())
    {
      if palette == null {
        return;
      }
      if palette in branchBackStack && palette.isDynamic {
        return;
      }
      branchBackStack := branchBackStack + [palette];
      pushPopDelta := pushPopDelta + 1;
    }

    /** `pop()`: null on an empty stack, which is left as it is; otherwise
        the top is removed and returned and the counter drops by one. */
    method Pop() returns (p: Palette?)
      modifies this
      ensures (State(), OptionOf(p)) == StackModel.Pop(old(State()))
      ensures old(|branchBackStack|) == 0 ==> p == null && unchanged(this)
      ensures old(|branchBackStack|) > 0 ==>
                p == old(branchBackStack[|branchBackStack| - 1]) &&
                branchBackStack == old(branchBackStack[..|branchBackStack| - 1]) &&
                pushPopDelta == old(pushPopDelta) - 1
      ensures old(Valid()) ==> Valid()
      ensures old(StackModel.Balanced(State())) ==> StackModel.Balanced(State())
    {
      if IsEmpty() {
        return null;
      }
      pushPopDelta := pushPopDelta - 1;
      p := branchBackStack[|branchBackStack| - 1];
      branchBackStack := branchBackStack[..|branchBackStack| - 1];
    }

    /** `peek(stackIndex)` as documented: the palette `stackIndex` places
        below the top (by default the top itself), or null when there is
        none. */
    function Peek(stackIndex: int := 0): (r: Palette?)
      reads this
      ensures r != null <==> 0 <= stackIndex < |branchBackStack|
      ensures r != null ==> r == branchBackStack[|branchBackStack| - 1 - stackIndex]
    {
      match StackModel.Peek(State(), stackIndex)
      case None => null
      case Some(p) => p
    }

    /** The `pushPopDifference` getter. */
    function PushPopDifference(): (d: int)
      reads this
      ensures Valid() ==> d >= |branchBackStack| && d >= 0
      ensures StackModel.Balanced(State()) ==> d == |branchBackStack|
    {
      pushPopDelta
    }

    /** `setupBranchBackHandler(backKey, container)`: attaches a back
        listener to the back key's button. */
    method SetupBranchBackHandler(palette: Palette, backKeyId: string, keyboardContainerEl: Container?, listeners: Listeners)
      requires palette.rootDiv.Some?
      modifies listeners
      ensures listeners.attached == old(listeners.attached) + [Listener(palette, backKeyId, Back(this, keyboardContainerEl))]
    {
      listeners.attached := listeners.attached + [Listener(palette, backKeyId, Back(this, keyboardContainerEl))];
    }

    /** `initBackKey(palette, container)`: when the palette has a back key
        and is not yet configured, attaches one back listener to it and marks
        the palette configured; otherwise does nothing. */
    method InitBackKey(palette: Palette, keyboardContainerEl: Container?, listeners: Listeners)
      requires palette.rootDiv.Some? || palette.backConfigured || BackKeyOf(palette.keys).None?
      modifies palette`backConfigured, listeners
      ensures listeners.attached ==
                old(listeners.attached) + BackListeners(this, palette, palette.keys, old(palette.backConfigured), keyboardContainerEl)
      ensures palette.backConfigured == (old(palette.backConfigured) || BackKeyOf(palette.keys).Some?)
    {
      var backKey := BackKeyOf(palette.keys);
      if backKey.None? || palette.backConfigured {
        return;
      }
      SetupBranchBackHandler(palette, backKey.value.0, keyboardContainerEl, listeners);
      palette.backConfigured := true;
    }

    /** The click handler of a back key: the container's id is read first
        (null throws); then the stack's array is popped directly, leaving
        the counter as it was; a popped palette is laid out without a
        stack, and an empty stack is reported. */
    method BackClick(keyboardContainerEl: Container?, listeners: Listeners) returns (r: ClickResult)
      modifies this, keyboardContainerEl, listeners
      modifies if |branchBackStack| > 0 then {branchBackStack[|branchBackStack| - 1]} else {}
      ensures keyboardContainerEl == null ==> r == Threw && unchanged(this) && unchanged(listeners)
      ensures keyboardContainerEl == null ==> forall q :: q in old(branchBackStack) ==> unchanged(q)
      ensures keyboardContainerEl != null ==> State() == StackModel.BackPop(old(State())).0
      ensures keyboardContainerEl != null && old(|branchBackStack|) == 0 ==>
                r == NoPrevious && unchanged(keyboardContainerEl) && unchanged(listeners)
      ensures keyboardContainerEl != null && old(|branchBackStack|) > 0 ==>
                var previous := old(branchBackStack[|branchBackStack| - 1]);
                (r == Threw || r == LaidOut(previous)) &&
                LayoutEffect(previous, keyboardContainerEl, null, null, listeners, r == Threw)
      ensures old(Valid()) ==> Valid()
    {
      if keyboardContainerEl == null {
        return Threw;
      }
      if |branchBackStack| == 0 {
        return NoPrevious;
      }
      var previousPalette := branchBackStack[|branchBackStack| - 1];
      branchBackStack := branchBackStack[..|branchBackStack| - 1];
      var threw := previousPalette.LayoutKeyboard(keyboardContainerEl, null, null, listeners);
      r := if threw then Threw else LaidOut(previousPalette);
    }

    /** `setupNavigateForwardHandler`: attaches a forward listener to the
        navigation key's button. */
    method SetupNavigateForwardHandler(navKeyId: string, fromPalette: Palette, targetPalette: Palette,
                                       keyboardContainerEl: Container?, listeners: Listeners)
      requires fromPalette.rootDiv.Some?
      modifies listeners
      ensures listeners.attached ==
                old(listeners.attached) + [Listener(fromPalette, navKeyId, Forward(this, fromPalette, targetPalette, keyboardContainerEl))]
    {
      listeners.attached := listeners.attached + [Listener(fromPalette, navKeyId, Forward(this, fromPalette, targetPalette, keyboardContainerEl))];
    }

    /** The click handler of a forward key: pushes the palette the key
        belongs to, then lays out the target with this stack. */
    method ForwardClick(fromPalette: Palette, targetPalette: Palette, keyboardContainerEl: Container?,
                        mainKbd: Container?, listeners: Listeners)
      modifies this, targetPalette, keyboardContainerEl, listeners
      ensures State() == StackModel.Push(old(State()), Some(fromPalette), old(fromPalette.isDynamic))
      ensures old(Valid()) ==> Valid()
      ensures LayoutEffect(targetPalette, keyboardContainerEl, this, mainKbd, listeners, false)
    {
      Push(fromPalette);
      var threw := targetPalette.LayoutKeyboard(keyboardContainerEl, this, mainKbd, listeners);
    }

    /** `setupPaletteForwardNavigation`: attaches a forward listener to
        every key of the palette that is typed `branch` and whose target
        resolves in the store, in key order. */
    method SetupPaletteForwardNavigation(palette: Palette, paletteStore: Store, keyboardContainerEl: Container?,
                                         listeners: Listeners)
      requires Wireable(palette, paletteStore)
      modifies listeners
      ensures listeners.attached ==
                old(listeners.attached) + ForwardListeners(this, palette, palette.keys, paletteStore, keyboardContainerEl)
      ensures HasWiredKey(palette.keys, paletteStore) ==> |listeners.attached| > old(|listeners.attached|)
    {
      var keyIDs := palette.keys;
      for i := 0 to |keyIDs|
        invariant listeners.attached ==
                    old(listeners.attached) + ForwardListeners(this, palette, keyIDs[..i], paletteStore, keyboardContainerEl)
      {
        var aKey := keyIDs[i].1;
        assert keyIDs[..i + 1][..i] == keyIDs[..i];
        if aKey.role.Branch? && aKey.role.target.Some? {
          var targetPalette := paletteStore.GetNamedPalette(aKey.role.target.value);
          if targetPalette != null {
            HasWiredKeyExact(keyIDs, paletteStore);
            SetupNavigateForwardHandler(keyIDs[i].0, palette, targetPalette, keyboardContainerEl, listeners);
          }
        }
      }
      assert keyIDs[..|keyIDs|] == keyIDs;
      ForwardListenersEmpty(this, palette, keyIDs, paletteStore, keyboardContainerEl);
    }

    /** `forwardNavigationHookup`: wires every palette of the store, in the
        store's list order. */
    method ForwardNavigationHookup(paletteStore: Store, keyboardContainerEl: Container?, listeners: Listeners)
      requires forall i :: 0 <= i < |paletteStore.paletteList| ==>
                 ListedWireable(paletteStore.GetNamedPalette(paletteStore.paletteList[i]), paletteStore)
      modifies listeners
      ensures listeners.attached ==
                old(listeners.attached) + old(HookupListeners(this, paletteStore, |paletteStore.paletteList|, keyboardContainerEl))
    {
      for i := 0 to |paletteStore.paletteList|
        invariant listeners.attached ==
                    old(listeners.attached) + old(HookupListeners(this, paletteStore, i, keyboardContainerEl))
      {
        var aPalette := paletteStore.GetNamedPalette(paletteStore.paletteList[i]);
        SetupPaletteForwardNavigation(aPalette, paletteStore, keyboardContainerEl, listeners);
      }
    }
  }
}
