/**
 * The native safe-area view as the view manager sees it: an abstract holder
 * of an application mode and a set of participating edges. How the view
 * measures insets and applies them is not part of this model.
 */
module SafeAreaView {

  /** The four sides of the view (`SafeAreaViewEdges`). */
  datatype Edge = Top | Right | Bottom | Left

  /** Whether insets are applied as padding or as margin (`SafeAreaViewMode`). */
  datatype Mode = Padding | Margin

  /**
   * The view whose `mode` and `edges` the view manager sets in place. The
   * ghost counters record how often each setter was called, so that a
   * skipped call can be told apart from a call that writes the same value.
   */
  class View {
    var mode: Mode
    var edges: set<Edge>
    ghost var modeWrites: nat
    ghost var edgeWrites: nat

    constructor (mode0: Mode, edges0: set<Edge>)
      ensures mode == mode0 && edges == edges0
      ensures modeWrites == 0 && edgeWrites == 0
    {
      mode := mode0;
      edges := edges0;
      modeWrites := 0;
      edgeWrites := 0;
    }

    /** Replaces the mode; the edges stay as they were. */
    method SetMode(m: Mode)
      modifies this
      ensures mode == m && modeWrites == old(modeWrites) + 1
      ensures edges == old(edges) && edgeWrites == old(edgeWrites)
    {
      mode := m;
      modeWrites := modeWrites + 1;
    }

    /** Replaces the edge set; the mode stays as it was. */
    method SetEdges(es: set<Edge>)
      modifies this
      ensures edges == es && edgeWrites == old(edgeWrites) + 1
      ensures mode == old(mode) && modeWrites == old(modeWrites)
    {
      edges := es;
      edgeWrites := edgeWrites + 1;
    }
  }
}
