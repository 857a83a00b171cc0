/**
 * Workspace problem markers, as the plug-ins create and delete them through
 * `IResource.createMarker`, `IResource.findMarkers`, `IMarker.delete` and
 * `IFile.deleteMarkers`. A resource is named by its workspace path.
 */
module Markers {
  import opened Wrappers
  import opened Seqs

  /** `IMarker.PROBLEM`. */
  const ProblemMarker: string := "org.eclipse.core.resources.problemmarker"
  /** `IMarker.SEVERITY_ERROR`. */
  const SeverityError: int := 2

  /** A marker: where it is, its type, its `SOURCE_ID` attribute (`""` when unset), message, severity and line. */
  datatype Marker = Marker(resource: string, kind: string, source: string, message: string, severity: int, line: int)

  /**
   * Which markers a deletion takes: those of type `kind`, on `resource` (or
   * anywhere when it is `None`), and with source `source` (or any source when
   * it is `None`).
   */
  datatype Selection = Selection(resource: Option<string>, kind: string, source: Option<string>)

  predicate Selects(sel: Selection, m: Marker) {
    && (sel.resource.None? || m.resource == sel.resource.value)
    && m.kind == sel.kind
    && (sel.source.None? || m.source == sel.source.value)
  }

  /** The markers left after deleting the selected ones, in their order. */
  function Remove(ms: seq<Marker>, sel: Selection): (r: seq<Marker>)
    ensures |r| <= |ms|
  {
    if ms == [] then []
    else
      var last := ms[|ms| - 1];
      Remove(ms[..|ms| - 1], sel) + (if Selects(sel, last) then [] else [last])
  }

  /** Deleting removes exactly the selected markers: every other marker stays. */
  lemma {:induction false} RemoveSpec(ms: seq<Marker>, sel: Selection, m: Marker)
    ensures m in Remove(ms, sel) <==> m in ms && !Selects(sel, m)
  {
    if ms != [] {
      var front := ms[..|ms| - 1];
      RemoveSpec(front, sel, m);
      DropLast(ms);
    }
  }

  /** Deleting again deletes nothing. */
  lemma {:induction false} RemoveTwice(ms: seq<Marker>, sel: Selection)
    ensures Remove(Remove(ms, sel), sel) == Remove(ms, sel)
  {
    if ms != [] {
      var front := ms[..|ms| - 1];
      var last := ms[|ms| - 1];
      RemoveTwice(front, sel);
      var r := Remove(front, sel);
      if !Selects(sel, last) {
        assert Remove(ms, sel) == r + [last];
        RemoveSnoc(r, last, sel);
      } else {
        assert r + [] == r;
        assert Remove(ms, sel) == r;
      }
    }
  }

  /** Deleting from a list with one more marker at its end. */
  lemma RemoveSnoc(ms: seq<Marker>, m: Marker, sel: Selection)
    ensures Remove(ms + [m], sel) == Remove(ms, sel) + (if Selects(sel, m) then [] else [m])
  {
    SnocTake(ms, m);
  }

  /** The markers of a workspace, which the handlers add to and delete from. */
  class Workspace {
    var markers: seq<Marker>

    constructor(markers: seq<Marker>)
      ensures this.markers == markers
    {
      this.markers := markers;
    }

    /** Finds the selected markers and deletes them one by one. */
    method Delete(sel: Selection)
      modifies this
      ensures markers == Remove(old(markers), sel)
    {
      var found := markers;
      var kept: seq<Marker> := [];
      for i := 0 to |found|
        invariant kept == Remove(found[..i], sel)
      {
        RemoveSnoc(found[..i], found[i], sel);
        TakeNext(found, i);
        if !Selects(sel, found[i]) {
          kept := kept + [found[i]];
        }
      }
      TakeAll(found);
      markers := kept;
    }

    /** `createMarker` with its attributes set. */
    method Create(m: Marker)
      modifies this
      ensures markers == old(markers) + [m]
    {
      markers := markers + [m];
    }
  }
}
