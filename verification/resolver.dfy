/**
 * Name-or-handle resolution for the arguments of the RTI ambassador
 * commands. A token that Tcl reads as a wide integer is taken as the handle
 * itself, without asking the RTI whether it exists; any other token is looked
 * up by name with exactly one RTI query, scoped by the class where the
 * handle kind needs one.
 */
module Resolver {
  import opened TclValues

  /** The kind of handle a command argument names, with its scope. */
  datatype HandleKind =
    | ObjectClassKind                        // getOClassHandleFromObj
    | AttributeKind(cls: Handle)             // getAttrHandleFromObj, scoped by object class
    | InteractionClassKind                   // getIClassHandleFromObj
    | ParameterKind(ic: Handle)              // getParmHandleFromObj, scoped by interaction class
    | SpaceKind                              // getSpaceHandleFromObj

  /** One name-to-handle query on the RTI ambassador. */
  datatype HandleQuery = HandleQuery(kind: HandleKind, name: string)

  /** The RTI ambassador's name-to-handle services; a failure is the RTI exception it throws. */
  type HandleService = HandleQuery -> Result<Handle, RtiException>

  /** What resolving one token gave, and the RTI queries it made. */
  datatype Resolution = Resolution(result: Result<Handle, TclError>, queries: seq<HandleQuery>)

  /**
   * getHandleFromObj: the token as a wide integer, cast to a handle; a token
   * that is not an integer is an error and nothing else happens.
   */
  function GetHandleFromObj(tcl: TclConversions, w: Word): (r: Result<Handle, TclError>)
    ensures r.Ok? <==> ParsesAsInt(tcl, w)
    ensures r.Ok? ==> r.value == HandleOf(tcl.wideInt(w).value)
    ensures r.Err? ==> r.error == NotAnInteger(w)
  {
    match tcl.wideInt(w)
    case Some(wi) => Ok(HandleOf(wi))
    case None => Err(NotAnInteger(w))
  }

  /**
   * The get*HandleFromObj resolvers: first the integer reading, then, with
   * the integer error discarded, one query by the token's string.
   */
  function ResolveHandle(tcl: TclConversions, hs: HandleService, kind: HandleKind, w: Word): (r: Resolution)
    ensures ParsesAsInt(tcl, w) ==> r == Resolution(Ok(HandleOf(tcl.wideInt(w).value)), [])
    ensures !ParsesAsInt(tcl, w) ==>
      && r.queries == [HandleQuery(kind, tcl.stringOf(w))]
      && (r.result.Ok? <==> hs(HandleQuery(kind, tcl.stringOf(w))).Ok?)
      && (r.result.Ok? ==> r.result.value == hs(HandleQuery(kind, tcl.stringOf(w))).value)
      && (r.result.Err? ==> r.result.error == RtiError(hs(HandleQuery(kind, tcl.stringOf(w))).error))
  {
    match GetHandleFromObj(tcl, w)
    case Ok(h) => Resolution(Ok(h), [])
    case Err(_) =>
      var q := HandleQuery(kind, tcl.stringOf(w));
      match hs(q)
      case Ok(h) => Resolution(Ok(h), [q])
      case Err(e) => Resolution(Err(RtiError(e)), [q])
  }

  /**
   * An integer token is accepted unvalidated: the result is the same whatever
   * the RTI knows, so a handle that names no class, attribute or space gets
   * through, and a class whose name reads as an integer can never be named.
   */
  lemma {:induction false} IntegerTokensIgnoreService(tcl: TclConversions, hs1: HandleService, hs2: HandleService,
                                                       kind: HandleKind, w: Word)
    requires ParsesAsInt(tcl, w)
    ensures ResolveHandle(tcl, hs1, kind, w) == ResolveHandle(tcl, hs2, kind, w)
    ensures ResolveHandle(tcl, hs1, kind, w).result.Ok?
  {
    assert GetHandleFromObj(tcl, w).Ok?;
  }

  /** A name token's resolution depends only on the RTI's answer to its one query. */
  lemma {:induction false} NameTokensAskOnce(tcl: TclConversions, hs1: HandleService, hs2: HandleService,
                                             kind: HandleKind, w: Word)
    requires !ParsesAsInt(tcl, w)
    requires hs1(HandleQuery(kind, tcl.stringOf(w))) == hs2(HandleQuery(kind, tcl.stringOf(w)))
    ensures ResolveHandle(tcl, hs1, kind, w) == ResolveHandle(tcl, hs2, kind, w)
  {
    assert GetHandleFromObj(tcl, w).Err?;
  }

  /** A handle written as its own decimal wide integer resolves to itself. */
  lemma WideHandleResolvesToItself(tcl: TclConversions, hs: HandleService, kind: HandleKind, h: Handle)
    requires Consistent(tcl)
    ensures ResolveHandle(tcl, hs, kind, Wide(h)) == Resolution(Ok(h), [])
  {
    assert tcl.wideInt(Wide(h)) == Some(h);
  }
}
