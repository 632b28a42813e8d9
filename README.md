# Safe-area view manager, modelled in Dafny

`react-native-safe-area-context` exposes the device's safe-area insets (notch,
status bar, home indicator) to React Native and provides a `SafeAreaView` that
applies them as padding or margin. On Android, `SafeAreaViewManager` receives
the view's JavaScript properties as untyped values and maps them onto the
native view:

- `mode`: the string `"padding"` or `"margin"` selects `SafeAreaViewMode`;
  any other string, or null, is ignored and the view keeps its mode.
- `edges`: a list of strings; `"top"`, `"right"`, `"bottom"` and `"left"` are
  collected into a fresh `EnumSet<SafeAreaViewEdges>`, every other entry
  (null included) is skipped, and the set replaces the view's edges. Only a
  null list leaves the edges alone: a non-null empty list, or one with no
  recognised name, clears them.

The model has three modules:

- `Wrappers` (`Wrappers.dfy`): `Option`, standing for a Kotlin nullable.
- `SafeAreaView` (`SafeAreaView.dfy`): the `Edge` and `Mode` enums and a
  `View` class holding the two fields the manager sets in place.
- `SafeAreaViewManager` (`SafeAreaViewManager.dfy`): the string tables
  (`ParseMode`, `ParseEdge`), the methods `SetMode` and `SetEdges` that mutate
  a `View` as the Kotlin methods do, the function `EdgesFrom` that specifies
  the edge-collecting loop, and the lemmas about it. The host's
  `ReadableArray` is `Option<seq<Option<string>>>`: the array and each of its
  entries may be null.

`getName` returns the constant `REACT_CLASS`, `"RNCSafeAreaView"`, modelled
as the constant `ReactClass`; there is nothing to prove about it. The edges
are a set of the enum `Edge`, so, as with `EnumSet<SafeAreaViewEdges>`, a
collected set can hold nothing but the four edges: that bound comes from the
type, not from the parsing.

## Model

| member | source | states |
|---|---|---|
| SafeAreaViewManager.ParseMode | android/src/main/java/com/th3rdwave/safeareacontext/SafeAreaViewManager.kt:26-33 | a mode is recognised exactly for `"padding"` (PADDING) and `"margin"` (MARGIN), both directions; null and every other string give no mode |
| SafeAreaViewManager.SetMode | android/src/main/java/com/th3rdwave/safeareacontext/SafeAreaViewManager.kt:24-34 | `"padding"` sets PADDING, `"margin"` sets MARGIN, null or any other string leaves the mode unchanged and the view's setter uncalled (its ghost write counter unchanged); the edges never change |
| SafeAreaViewManager.ParseEdge | android/src/main/java/com/th3rdwave/safeareacontext/SafeAreaViewManager.kt:41-54 | an entry yields edge `e` exactly when it is the non-null name of `e`; every other entry yields nothing |
| SafeAreaViewManager.EdgesFromMembers | android/src/main/java/com/th3rdwave/safeareacontext/SafeAreaViewManager.kt:38-55 | the collected set contains `e` exactly when the name of `e` occurs somewhere in the list |
| SafeAreaViewManager.EdgesFromIgnoresOrderAndRepeats | android/src/main/java/com/th3rdwave/safeareacontext/SafeAreaViewManager.kt:38-55 | two lists with the same entries, in any order and with any repetition, collect the same set |
| SafeAreaViewManager.EdgesFromNoneRecognised | android/src/main/java/com/th3rdwave/safeareacontext/SafeAreaViewManager.kt:38-56 | a list with no recognised entry, the empty list included, collects the empty set |
| SafeAreaViewManager.EdgesFromDropsUnknown | android/src/main/java/com/th3rdwave/safeareacontext/SafeAreaViewManager.kt:41-54 | `["top", "bogus", null, "left"]` collects exactly {TOP, LEFT} |
| SafeAreaViewManager.EncodeEdges | android/src/main/java/com/th3rdwave/safeareacontext/SafeAreaViewManager.kt:41-54 | the name list of an edge set holds the name of every edge of the set, nothing but such names, and each at most once |
| SafeAreaViewManager.EdgesRoundTrip | android/src/main/java/com/th3rdwave/safeareacontext/SafeAreaViewManager.kt:41-54 | collecting the name list of any edge set gives that set back |
| SafeAreaViewManager.SetEdges | android/src/main/java/com/th3rdwave/safeareacontext/SafeAreaViewManager.kt:36-58 | a null list leaves the edges unchanged and the view's edge setter uncalled; a non-null list (empty included) replaces them with the set of edges whose names occur in it, so an empty list clears them; the mode never changes |

## Left out

- `SafeAreaView.kt` and `SafeAreaViewShadowNode.kt` are not part of this model: the view is an abstract holder of `mode` and `edges`, and its own `setMode`/`setEdges` are modelled as plain field replacement plus a ghost call counter per setter; the counter is what distinguishes "the setter was not called" from "the setter was called with the current value", and the model promises nothing about side effects of those setters (relayout, state updates) beyond the field write. Inset measurement and the padding/margin application (the effective-box computation) live there and depend on OS inset APIs and the host's layout engine.
- The view's initial mode and edges are set by `SafeAreaView`, which is not part of this model, so the `View` constructor takes them as parameters rather than fixing defaults.
- `updateState` (SafeAreaViewManager.kt lines 60-67) only hands the host's state wrapper to the view's state manager; it is host plumbing.
- `createViewInstance`, `createShadowNodeInstance` and `getShadowNodeClass` are factories for host and view classes that are not modelled.
- `SafeAreaContextPackage.kt` only registers the module and the view managers with the host, through annotation reflection and build flags; there is nothing to state beyond the objects it returns.
- `ReadableArray` and the `@ReactProp` dispatch are reduced to an optional sequence of optional strings; no other host semantics is modelled.
