/**
 * The view manager of the safe-area view: it maps the untyped `mode` and
 * `edges` properties sent by the host UI framework onto the view's native
 * enum values. A Kotlin nullable is an `Option`; the host's readable array
 * of strings is a sequence of optional strings, since both the array and
 * each of its entries may be null.
 */
module SafeAreaViewManager {
  import opened Wrappers
  import opened SafeAreaView

  /** The manager's name (`REACT_CLASS`), which `getName` returns. */
  const ReactClass: string := "RNCSafeAreaView"

  // ---------------------------------------------------------------------------
  // Mode

  /** The property value that selects a mode. */
  function ModeName(m: Mode): string
  {
    match m
    case Padding => "padding"
    case Margin => "margin"
  }

  /** The string-to-mode table of `setMode`; anything else, null included, maps to nothing. */
  function ParseMode(s: Option<string>): (r: Option<Mode>)
    ensures forall m :: r == Some(m) <==> s == Some(ModeName(m))
  {
    match s
    case Some("padding") => Some(Padding)
    case Some("margin") => Some(Margin)
    case _ => None
  }

  /**
   * `setMode`: a recognised mode is written to the view; an unrecognised
   * string or null leaves the view untouched, its setter not called. The
   * edges never change.
   */
  method SetMode(view: View, mode: Option<string>)
    modifies view
    ensures view.edges == old(view.edges) && view.edgeWrites == old(view.edgeWrites)
    ensures mode == Some("padding") ==> view.mode == Padding
    ensures mode == Some("margin") ==> view.mode == Margin
    ensures mode == Some("padding") || mode == Some("margin") ==>
      view.modeWrites == old(view.modeWrites) + 1
    ensures mode != Some("padding") && mode != Some("margin") ==>
      view.mode == old(view.mode) && view.modeWrites == old(view.modeWrites)
  {
    match ParseMode(mode) {
      case Some(m) => view.SetMode(m);
      case None =>
    }
  }

  // ---------------------------------------------------------------------------
  // Edges

  /** The property value that names an edge. */
  function EdgeName(e: Edge): string
  {
    match e
    case Top => "top"
    case Right => "right"
    case Bottom => "bottom"
    case Left => "left"
  }

  /** The string-to-edge table of `setEdges`; anything else, null included, maps to nothing. */
  function ParseEdge(s: Option<string>): (r: Option<Edge>)
    ensures forall e :: r == Some(e) <==> s == Some(EdgeName(e))
  {
    match s
    case Some("top") => Some(Top)
    case Some("right") => Some(Right)
    case Some("bottom") => Some(Bottom)
    case Some("left") => Some(Left)
    case _ => None
  }

  /**
   * The edge set `setEdges` accumulates over a list, entry by entry from the
   * first: each recognised entry adds its edge, every other entry adds nothing.
   */
  function EdgesFrom(props: seq<Option<string>>): (r: set<Edge>)
  {
    if props == [] then {}
    else
      var rest := EdgesFrom(props[..|props| - 1]);
      match ParseEdge(props[|props| - 1])
      case Some(e) => rest + {e}
      case None => rest
  }

  /** An edge is in the accumulated set exactly when its name occurs in the list. */
  lemma {:induction false} EdgesFromMembers(props: seq<Option<string>>, e: Edge)
    ensures e in EdgesFrom(props) <==> Some(EdgeName(e)) in props
  {
    if props != [] {
      var init := props[..|props| - 1];
      EdgesFromMembers(init, e);
      assert props == init + [props[|props| - 1]];
    }
  }

  /**
   * The accumulated set depends only on which entries occur in the list:
   * reordering the list or repeating entries does not change it.
   */
  lemma {:induction false} EdgesFromIgnoresOrderAndRepeats(p: seq<Option<string>>, q: seq<Option<string>>)
    requires forall x :: x in p <==> x in q
    ensures EdgesFrom(p) == EdgesFrom(q)
  {
    forall e: Edge
      ensures e in EdgesFrom(p) <==> e in EdgesFrom(q)
    {
      EdgesFromMembers(p, e);
      EdgesFromMembers(q, e);
    }
  }

  /** A list with no recognised entry, the empty list included, yields the empty set. */
  lemma {:induction false} EdgesFromNoneRecognised(props: seq<Option<string>>)
    requires forall i :: 0 <= i < |props| ==> ParseEdge(props[i]).None?
    ensures EdgesFrom(props) == {}
  {
    forall e: Edge
      ensures e !in EdgesFrom(props)
    {
      EdgesFromMembers(props, e);
    }
  }

  /** Unrecognised and null entries are dropped: `["top", "bogus", null, "left"]` gives `{Top, Left}`. */
  lemma EdgesFromDropsUnknown()
    ensures EdgesFrom([Some("top"), Some("bogus"), None, Some("left")]) == {Top, Left}
  {
    var p := [Some("top"), Some("bogus"), None, Some("left")];
    forall e: Edge
      ensures e in EdgesFrom(p) <==> e in {Top, Left}
    {
      EdgesFromMembers(p, e);
    }
  }

  /** The list of names of an edge set, in the order top, right, bottom, left. */
  function EncodeEdges(es: set<Edge>): (r: seq<Option<string>>)
    ensures forall e :: e in es <==> Some(EdgeName(e)) in r
    ensures forall x :: x in r ==> exists e :: e in es && x == Some(EdgeName(e))
    ensures forall i, j :: 0 <= i < j < |r| ==> r[i] != r[j]
  {
    (if Top in es then [Some("top")] else [])
    + (if Right in es then [Some("right")] else [])
    + (if Bottom in es then [Some("bottom")] else [])
    + (if Left in es then [Some("left")] else [])
  }

  /** Encoding an edge set as names and accumulating the names gives the set back. */
  lemma EdgesRoundTrip(es: set<Edge>)
    ensures EdgesFrom(EncodeEdges(es)) == es
  {
    forall e: Edge
      ensures e in EdgesFrom(EncodeEdges(es)) <==> e in es
    {
      EdgesFromMembers(EncodeEdges(es), e);
    }
  }

  /**
   * `setEdges`: a null list leaves the view untouched; a non-null list, even
   * an empty one, replaces the view's edges with the edges named in it. The
   * mode never changes.
   */
  method SetEdges(view: View, propList: Option<seq<Option<string>>>)
    modifies view
    ensures view.mode == old(view.mode) && view.modeWrites == old(view.modeWrites)
    ensures propList.None? ==> view.edges == old(view.edges) && view.edgeWrites == old(view.edgeWrites)
    ensures propList.Some? ==> view.edgeWrites == old(view.edgeWrites) + 1
    ensures propList.Some? ==> view.edges == EdgesFrom(propList.value)
    ensures propList.Some? ==>
      forall e :: e in view.edges <==> Some(EdgeName(e)) in propList.value
    ensures propList == Some([]) ==> view.edges == {}
  {
    var edges: set<Edge> := {};
    if propList.Some? {
      var props := propList.value;
      for i := 0 to |props|
        invariant edges == EdgesFrom(props[..i])
      {
        assert props[..i + 1][..i] == props[..i];
        match ParseEdge(props[i]) {
          case Some(e) => edges := edges + {e};
          case None =>
        }
      }
      assert props[..|props|] == props;
      forall e: Edge
        ensures e in edges <==> Some(EdgeName(e)) in props
      {
        EdgesFromMembers(props, e);
      }
      view.SetEdges(edges);
    }
  }
}
