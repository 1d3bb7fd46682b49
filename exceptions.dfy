/** Java exceptions, reduced to what the duologue's control flow depends on:
    whether a `catch (IOException e)` block sees them, which exception it is,
    and the suppressed exceptions attached to it. */
module Exceptions {
  import opened Wrappers

  /** `IOFailure` is an `IOException` (or a subclass); `Unchecked` is any
      `RuntimeException`, which only a `catch (Exception e)` block sees. */
  datatype ExnKind = IOFailure | Unchecked

  /** One thrown exception: its kind, an identity distinguishing it from
      other exceptions, and its list of suppressed exceptions. */
  datatype Exn = Exn(kind: ExnKind, id: nat, suppressed: seq<Exn>)

  /** The exception that leaves `try { body } finally { cleanup }`: when the
      finally block throws, its exception replaces the body's, which is lost. */
  function Finally(body: Option<Exn>, cleanup: Option<Exn>): Option<Exn>
  {
    if cleanup.Some? then cleanup else body
  }

  /** `e.addSuppressed(pe)` when the cleanup threw `pe`; `e` unchanged otherwise.
      The original exception keeps its identity: the cleanup failure never
      replaces it, it is only appended to its suppressed list. */
  function AddSuppressed(e: Exn, cleanup: Option<Exn>): (r: Exn)
    ensures r.kind == e.kind && r.id == e.id
    ensures |e.suppressed| <= |r.suppressed| <= |e.suppressed| + 1
    ensures r.suppressed[..|e.suppressed|] == e.suppressed
    ensures cleanup.Some? <==> |r.suppressed| == |e.suppressed| + 1
    ensures cleanup.Some? ==> r.suppressed[|e.suppressed|] == cleanup.value
  {
    match cleanup
    case None => e
    case Some(pe) => e.(suppressed := e.suppressed + [pe])
  }
}
