/**
 * The federate ambassador of the bridge (class FedAmb). The RTI calls it back
 * from deep inside `tick`; it must not run Tcl there, so each callback builds
 * one Tcl command and appends it to `methodQueue`, and `EvalQueue` later runs
 * the queued commands from the top level. Handle-to-name lookups made while
 * building commands go through four name caches.
 */
module FedAmbassador {
  import opened TclValues

  /** The RTI ambassador's handle-to-name services, as seen from callbacks. */
  datatype NameService = NameService(
    objectClassName: Handle -> string,
    interactionClassName: Handle -> string,
    attributeName: (Handle, Handle) -> string,   // (attribute, object class)
    parameterName: (Handle, Handle) -> string,   // (parameter, interaction class)
    objectClassOf: Handle -> Handle)             // getObjectClass(object instance)

  /** One call made on the RTI ambassador's name services. */
  datatype NameQuery =
    | ObjectClassName(cls: Handle)
    | InteractionClassName(cls: Handle)
    | AttributeName(attr: Handle, cls: Handle)
    | ParameterName(parm: Handle, cls: Handle)
    | ObjectClassOf(obj: Handle)

  /** The two-int hash key {leaf, scope}; class tables use {class, 0}. */
  type CacheKey = (Handle, Handle)

  /** How the handles of a set are named: attributes of a class, or parameters of an interaction class. */
  datatype Namer =
    | AttributeNamer(ns: NameService, cls: Handle)
    | ParameterNamer(ns: NameService, ic: Handle)
  {
    function NameOf(h: Handle): string {
      match this
      case AttributeNamer(ns, cls) => ns.attributeName(h, cls)
      case ParameterNamer(ns, ic) => ns.parameterName(h, ic)
    }
  }

  const OPT_TIME: Word := Str("-time")
  const OPT_TAG: Word := Str("-tag")
  const OPT_ERH: Word := Str("-erh")

  /**
   * The inbound handle/value set flattened for Tcl: the name of each handle
   * followed by its bytes, in the set's own order.
   */
  function FlatPairs(pairs: seq<HandleValue>, nameOf: Namer): (r: seq<Word>)
    ensures |r| == 2 * |pairs|
  {
    if pairs == [] then []
    else
      var last := pairs[|pairs| - 1];
      FlatPairs(pairs[..|pairs| - 1], nameOf) + [Str(nameOf.NameOf(last.handle)), ByteArray(last.value)]
  }

  /** Pair i of the set lands at positions 2i (its name) and 2i+1 (its bytes). */
  lemma {:induction false} FlatPairsAt(pairs: seq<HandleValue>, nameOf: Namer, i: nat)
    requires i < |pairs|
    ensures FlatPairs(pairs, nameOf)[2 * i] == Str(nameOf.NameOf(pairs[i].handle))
    ensures FlatPairs(pairs, nameOf)[2 * i + 1] == ByteArray(pairs[i].value)
  {
    if i < |pairs| - 1 {
      FlatPairsAt(pairs[..|pairs| - 1], nameOf, i);
    }
  }

  /** The names of an attribute handle set, as a Tcl list, in the set's order. */
  function NameList(hs: seq<Handle>, nameOf: Namer): (r: seq<Word>)
    ensures |r| == |hs|
  {
    if hs == [] then [] else NameList(hs[..|hs| - 1], nameOf) + [Str(nameOf.NameOf(hs[|hs| - 1]))]
  }

  /** The direct (uncached) attribute-name queries `qmWithHAs` makes. */
  function AttributeNameQueries(hs: seq<Handle>, cls: Handle): (r: seq<NameQuery>)
    ensures |r| == |hs|
  {
    if hs == [] then [] else AttributeNameQueries(hs[..|hs| - 1], cls) + [AttributeName(hs[|hs| - 1], cls)]
  }

  /** The time stamp and event retraction handle of a timestamped callback. */
  datatype Stamp = Stamp(time: real, erh: RetractionHandle)

  /** `-time t -erh {serial federate}`, or nothing for a receive-order callback. */
  function StampWords(stamp: Option<Stamp>): (r: seq<Word>)
    ensures |r| == if stamp.Some? then 4 else 0
  {
    match stamp
    case None => []
    case Some(s) => [OPT_TIME, Dbl(s.time), OPT_ERH, List([Wide(s.erh.serial), Wide(s.erh.federate)])]
  }

  /** Synchronization-point callbacks (federation management). */
  datatype SyncCallback =
    | SynchronizationPointRegistrationSucceeded(lbl: string)
    | SynchronizationPointRegistrationFailed(lbl: string)
    | AnnounceSynchronizationPoint(lbl: string, tag: string)
    | FederationSynchronized(lbl: string)
  {
    function Name(): string {
      match this
      case SynchronizationPointRegistrationSucceeded(_) => "synchronizationPointRegistrationSucceeded"
      case SynchronizationPointRegistrationFailed(_) => "synchronizationPointRegistrationFailed"
      case AnnounceSynchronizationPoint(_, _) => "announceSynchronizationPoint"
      case FederationSynchronized(_) => "federationSynchronized"
    }

    function Arguments(): seq<Word> {
      match this
      case SynchronizationPointRegistrationSucceeded(lbl) => [Str(lbl)]
      case SynchronizationPointRegistrationFailed(lbl) => [Str(lbl)]
      case AnnounceSynchronizationPoint(lbl, tag) => [Str(lbl), Str(tag)]
      case FederationSynchronized(lbl) => [Str(lbl)]
    }
  }

  /** Federation save callbacks. */
  datatype SaveCallback =
    | InitiateFederateSave(lbl: string)
    | FederationSaved
    | FederationNotSaved
  {
    function Name(): string {
      match this
      case InitiateFederateSave(_) => "initiateFederateSave"
      case FederationSaved => "federationSaved"
      case FederationNotSaved => "federationNotSaved"
    }

    function Arguments(): seq<Word> {
      match this
      case InitiateFederateSave(lbl) => [Str(lbl)]
      case FederationSaved => []
      case FederationNotSaved => []
    }
  }

  /** Federation restore callbacks; both requestFederationRestoreFailed overloads queue the same method. */
  datatype RestoreCallback =
    | RequestFederationRestoreSucceeded(lbl: string)
    | RequestFederationRestoreFailed(lbl: string)
    | RequestFederationRestoreFailedWithReason(lbl: string, reason: string)
    | FederationRestoreBegun
    | InitiateFederateRestore(lbl: string, federate: Handle)
    | FederationRestored
    | FederationNotRestored
  {
    function Name(): string {
      match this
      case RequestFederationRestoreSucceeded(_) => "requestFederationRestoreSucceeded"
      case RequestFederationRestoreFailed(_) => "requestFederationRestoreFailed"
      case RequestFederationRestoreFailedWithReason(_, _) => "requestFederationRestoreFailed"
      case FederationRestoreBegun => "federationRestoreBegun"
      case InitiateFederateRestore(_, _) => "initiateFederateRestore"
      case FederationRestored => "federationRestored"
      case FederationNotRestored => "federationNotRestored"
    }

    function Arguments(): seq<Word> {
      match this
      case RequestFederationRestoreSucceeded(lbl) => [Str(lbl)]
      case RequestFederationRestoreFailed(lbl) => [Str(lbl)]
      case RequestFederationRestoreFailedWithReason(lbl, reason) => [Str(lbl), Str(reason)]
      case FederationRestoreBegun => []
      case InitiateFederateRestore(lbl, federate) => [Str(lbl), Wide(federate)]
      case FederationRestored => []
      case FederationNotRestored => []
    }
  }

  /** Declaration management callbacks: the class name comes through the name caches. */
  datatype DeclarationCallback =
    | StartRegistrationForObjectClass(cls: Handle)
    | StopRegistrationForObjectClass(cls: Handle)
    | TurnInteractionsOn(cls: Handle)
    | TurnInteractionsOff(cls: Handle)
  {
    function Name(): string {
      match this
      case StartRegistrationForObjectClass(_) => "startRegistrationForObjectClass"
      case StopRegistrationForObjectClass(_) => "stopRegistrationForObjectClass"
      case TurnInteractionsOn(_) => "turnInteractionsOn"
      case TurnInteractionsOff(_) => "turnInteractionsOff"
    }

    function Arguments(ns: NameService): seq<Word> {
      match this
      case StartRegistrationForObjectClass(cls) => [Str(ns.objectClassName(cls))]
      case StopRegistrationForObjectClass(cls) => [Str(ns.objectClassName(cls))]
      case TurnInteractionsOn(ic) => [Str(ns.interactionClassName(ic))]
      case TurnInteractionsOff(ic) => [Str(ns.interactionClassName(ic))]
    }
  }

  /** Object management callbacks. */
  datatype ObjectCallback =
    | DiscoverObjectInstance(obj: Handle, cls: Handle, objName: string)
    | ReflectAttributeValues(obj: Handle, attributes: seq<HandleValue>, tag: string, stamp: Option<Stamp>)
    | ReceiveInteraction(cls: Handle, parameters: seq<HandleValue>, tag: string, stamp: Option<Stamp>)
    | RemoveObjectInstance(obj: Handle, tag: string, stamp: Option<Stamp>)
    | ProvideAttributeValueUpdate(obj: Handle, attrs: seq<Handle>)
    | TurnUpdatesOnForObjectInstance(obj: Handle, attrs: seq<Handle>)
    | TurnUpdatesOffForObjectInstance(obj: Handle, attrs: seq<Handle>)
  {
    function Name(): string {
      match this
      case DiscoverObjectInstance(_, _, _) => "discoverObjectInstance"
      case ReflectAttributeValues(_, _, _, _) => "reflectAttributeValues"
      case ReceiveInteraction(_, _, _, _) => "receiveInteraction"
      case RemoveObjectInstance(_, _, _) => "removeObjectInstance"
      case ProvideAttributeValueUpdate(_, _) => "provideAttributeValueUpdate"
      case TurnUpdatesOnForObjectInstance(_, _) => "turnUpdatesOnForObjectInstance"
      case TurnUpdatesOffForObjectInstance(_, _) => "turnUpdatesOffForObjectInstance"
    }

    function Arguments(ns: NameService): seq<Word> {
      match this
      case DiscoverObjectInstance(obj, cls, objName) => [Wide(obj), Str(ns.objectClassName(cls)), Str(objName)]
      case ReflectAttributeValues(obj, avs, tag, stamp) =>
        [Wide(obj), List(FlatPairs(avs, AttributeNamer(ns, ns.objectClassOf(obj)))), OPT_TAG, Str(tag)]
        + StampWords(stamp)
      case ReceiveInteraction(ic, ps, tag, stamp) =>
        [Str(ns.interactionClassName(ic)), List(FlatPairs(ps, ParameterNamer(ns, ic))), OPT_TAG, Str(tag)]
        + StampWords(stamp)
      case RemoveObjectInstance(obj, tag, stamp) => [Wide(obj), OPT_TAG, Str(tag)] + StampWords(stamp)
      case ProvideAttributeValueUpdate(obj, hs) => HandleAttributesArguments(obj, hs, ns)
      case TurnUpdatesOnForObjectInstance(obj, hs) => HandleAttributesArguments(obj, hs, ns)
      case TurnUpdatesOffForObjectInstance(obj, hs) => HandleAttributesArguments(obj, hs, ns)
    }
  }

  /** Ownership management callbacks. */
  datatype OwnershipCallback =
    | AttributeOwnershipAcquisitionNotification(obj: Handle, attrs: seq<Handle>)
    | AttributeOwnershipUnavailable(obj: Handle, attrs: seq<Handle>)
    | ConfirmAttributeOwnershipAcquisitionCancellation(obj: Handle, attrs: seq<Handle>)
  {
    function Name(): string {
      match this
      case AttributeOwnershipAcquisitionNotification(_, _) => "attributeOwnershipAcquisitionNotification"
      case AttributeOwnershipUnavailable(_, _) => "attributeOwnershipUnavailable"
      case ConfirmAttributeOwnershipAcquisitionCancellation(_, _) => "confirmAttributeOwnershipAcquisitionCancellation"
    }

    function Arguments(ns: NameService): seq<Word> {
      HandleAttributesArguments(obj, attrs, ns)
    }
  }

  /** Time management callbacks. */
  datatype TimeCallback =
    | TimeRegulationEnabled(time: real)
    | TimeConstrainedEnabled(time: real)
    | TimeAdvanceGrant(time: real)
  {
    function Name(): string {
      match this
      case TimeRegulationEnabled(_) => "timeRegulationEnabled"
      case TimeConstrainedEnabled(_) => "timeConstrainedEnabled"
      case TimeAdvanceGrant(_) => "timeAdvanceGrant"
    }

    function Arguments(): seq<Word> {
      [Dbl(time)]
    }
  }

  /** The federate-ambassador callbacks the bridge implements, by service group. */
  datatype Callback =
    | Synchronization(sync: SyncCallback)
    | Save(save: SaveCallback)
    | Restore(restore: RestoreCallback)
    | Declaration(decl: DeclarationCallback)
    | Object(om: ObjectCallback)
    | Ownership(own: OwnershipCallback)
    | Time(tm: TimeCallback)
  {
    /** The Tcl method the callback is queued under. */
    function Name(): string {
      match this
      case Synchronization(c) => c.Name()
      case Save(c) => c.Name()
      case Restore(c) => c.Name()
      case Declaration(c) => c.Name()
      case Object(c) => c.Name()
      case Ownership(c) => c.Name()
      case Time(c) => c.Name()
    }

    /** The words queued after the federate-ambassador command and the method name. */
    function Arguments(ns: NameService): seq<Word> {
      match this
      case Synchronization(c) => c.Arguments()
      case Save(c) => c.Arguments()
      case Restore(c) => c.Arguments()
      case Declaration(c) => c.Arguments(ns)
      case Object(c) => c.Arguments(ns)
      case Ownership(c) => c.Arguments(ns)
      case Time(c) => c.Arguments()
    }
  }

  /** The object handle and the attribute-name list `qmWithHAs` queues. */
  function HandleAttributesArguments(obj: Handle, attrs: seq<Handle>, ns: NameService): seq<Word> {
    [Wide(obj), List(NameList(attrs, AttributeNamer(ns, ns.objectClassOf(obj))))]
  }

  /**
   * The command a callback appends to the queue when the RTI's names are `ns`
   * and the federate-ambassador object is `fa`.
   */
  function CommandFor(cb: Callback, fa: Word, ns: NameService): Command {
    [fa, Str(cb.Name())] + cb.Arguments(ns)
  }

  /**
   * The number of words in a callback's command, by enqueue helper: qm 2;
   * qmWithO, qmWithS, qmWithT 3; qmWithSS, qmWithSH, qmWithHAs 4;
   * discoverObjectInstance 5; updates and interactions 10 timestamped and 6
   * without; removeObjectInstance 9 timestamped and 5 without.
   */
  function Arity(cb: Callback): nat {
    match cb
    case Synchronization(c) => if c.AnnounceSynchronizationPoint? then 4 else 3
    case Save(c) => if c.InitiateFederateSave? then 3 else 2
    case Restore(c) =>
      if c.RequestFederationRestoreFailedWithReason? || c.InitiateFederateRestore? then 4
      else if c.RequestFederationRestoreSucceeded? || c.RequestFederationRestoreFailed? then 3
      else 2
    case Declaration(_) => 3
    case Object(c) =>
      (match c
       case DiscoverObjectInstance(_, _, _) => 5
       case ReflectAttributeValues(_, _, _, stamp) => if stamp.Some? then 10 else 6
       case ReceiveInteraction(_, _, _, stamp) => if stamp.Some? then 10 else 6
       case RemoveObjectInstance(_, _, stamp) => if stamp.Some? then 9 else 5
       case _ => 4)
    case Ownership(_) => 4
    case Time(_) => 3
  }

  /** Every callback's command has the fixed length of its enqueue helper. */
  lemma CommandLength(cb: Callback, fa: Word, ns: NameService)
    ensures |CommandFor(cb, fa, ns)| == Arity(cb)
  {
  }

  /**
   * In an inbound update or interaction, the flattened pair list holds
   * 2 * size words with pair i at positions 2i and 2i+1, and the tag follows
   * the list.
   */
  lemma InboundLayout(c: ObjectCallback, fa: Word, ns: NameService, i: nat)
    requires c.ReceiveInteraction? || c.ReflectAttributeValues?
    requires i < |if c.ReceiveInteraction? then c.parameters else c.attributes|
    ensures var cmd := CommandFor(Object(c), fa, ns);
      var ps := if c.ReceiveInteraction? then c.parameters else c.attributes;
      var nameOf := if c.ReceiveInteraction? then ParameterNamer(ns, c.cls)
                    else AttributeNamer(ns, ns.objectClassOf(c.obj));
      && cmd[3].List? && |cmd[3].items| == 2 * |ps|
      && cmd[3].items[2 * i] == Str(nameOf.NameOf(ps[i].handle))
      && cmd[3].items[2 * i + 1] == ByteArray(ps[i].value)
      && cmd[4] == OPT_TAG && cmd[5] == Str(c.tag)
  {
    if c.ReceiveInteraction? {
      FlatPairsAt(c.parameters, ParameterNamer(ns, c.cls), i);
    } else {
      FlatPairsAt(c.attributes, AttributeNamer(ns, ns.objectClassOf(c.obj)), i);
    }
  }

  /** The commands a run of callbacks appends, in delivery order. */
  function CommandsFor(cbs: seq<Callback>, fa: Word, ns: NameService): (r: seq<Command>)
    ensures |r| == |cbs|
  {
    if cbs == [] then [] else CommandsFor(cbs[..|cbs| - 1], fa, ns) + [CommandFor(cbs[|cbs| - 1], fa, ns)]
  }

  /** The i-th delivered callback yields the i-th queued command. */
  lemma {:induction false} CommandsForAt(cbs: seq<Callback>, fa: Word, ns: NameService, i: nat)
    requires i < |cbs|
    ensures CommandsFor(cbs, fa, ns)[i] == CommandFor(cbs[i], fa, ns)
  {
    if i < |cbs| - 1 {
      CommandsForAt(cbs[..|cbs| - 1], fa, ns, i);
    }
  }

  /** What evaluating one queued command did: its completion code, the
      interpreter result, and the commands appended to the queue meanwhile. */
  datatype EvalOutcome = EvalOutcome(ok: bool, result: string, appended: seq<Command>)

  /** The interpreter: the outcome of the i-th evaluation of a drain. */
  type Host = (nat, Command) -> EvalOutcome

  /** One call of the `bgerror` helper: the command it evaluates and the
      ::errorInfo it sets beforehand, if any. */
  datatype BgErrorCall = BgErrorCall(command: Command, errorInfo: Option<string>)

  const ERROR_INFO_NOTE: string := "\n    while in the RTI library for FederateAmbassador method\n"

  /**
   * The static `bgerror` helper: evaluates `bgerror <result>`; only when given
   * a method name does it first set ::errorInfo to the result annotated with
   * that name.
   */
  function BgError(result: string, methodName: Option<string>): (call: BgErrorCall)
    ensures call.command == [Str("bgerror"), Str(result)]
    ensures call.errorInfo.Some? <==> methodName.Some?
    ensures methodName.Some? ==> call.errorInfo == Some(result + ERROR_INFO_NOTE + methodName.value)
  {
    BgErrorCall([Str("bgerror"), Str(result)],
                if methodName.Some? then Some(result + ERROR_INFO_NOTE + methodName.value) else None)
  }

  /** The error reports of a drain over `snapshot`: one per failing entry, in order. */
  function DrainReports(snapshot: seq<Command>, host: Host): (r: seq<BgErrorCall>)
    ensures |r| <= |snapshot|
  {
    if snapshot == [] then []
    else
      var n := |snapshot| - 1;
      var out := host(n, snapshot[n]);
      DrainReports(snapshot[..n], host) + (if out.ok then [] else [BgError(out.result, None)])
  }

  /** A drain reports nothing exactly when every entry succeeds. */
  lemma {:induction false} DrainReportsEmpty(snapshot: seq<Command>, host: Host)
    ensures DrainReports(snapshot, host) == []
        <==> forall i :: 0 <= i < |snapshot| ==> host(i, snapshot[i]).ok
  {
    if snapshot != [] {
      var n := |snapshot| - 1;
      DrainReportsEmpty(snapshot[..n], host);
      assert forall i :: 0 <= i < n ==> snapshot[..n][i] == snapshot[i];
    }
  }

  /** Continue on error: a drain reports once per entry exactly when every entry fails. */
  lemma {:induction false} DrainReportsAll(snapshot: seq<Command>, host: Host)
    ensures |DrainReports(snapshot, host)| == |snapshot|
        <==> forall i :: 0 <= i < |snapshot| ==> !host(i, snapshot[i]).ok
  {
    if snapshot != [] {
      var n := |snapshot| - 1;
      DrainReportsAll(snapshot[..n], host);
      assert forall i :: 0 <= i < n ==> snapshot[..n][i] == snapshot[i];
    }
  }

  /** Every failing entry is reported, with its own result and no annotation. */
  lemma {:induction false} DrainReportsFailure(snapshot: seq<Command>, host: Host, i: nat)
    requires i < |snapshot| && !host(i, snapshot[i]).ok
    ensures BgErrorCall([Str("bgerror"), Str(host(i, snapshot[i]).result)], None)
            in DrainReports(snapshot, host)
  {
    var n := |snapshot| - 1;
    if i < n {
      DrainReportsFailure(snapshot[..n], host, i);
    }
  }

  /** No drain report carries the callback-name annotation. */
  lemma {:induction false} DrainReportsUnannotated(snapshot: seq<Command>, host: Host)
    ensures forall c :: c in DrainReports(snapshot, host) ==> c.errorInfo.None?
  {
    if snapshot != [] {
      DrainReportsUnannotated(snapshot[..|snapshot| - 1], host);
    }
  }

  /** The positions among the first n snapshot entries whose evaluation fails, in increasing order. */
  function FailingEntries(snapshot: seq<Command>, host: Host, n: nat): (r: seq<nat>)
    requires n <= |snapshot|
    ensures |r| <= n
    ensures forall k :: 0 <= k < |r| ==> r[k] < n
  {
    if n == 0 then []
    else FailingEntries(snapshot, host, n - 1) + (if host(n - 1, snapshot[n - 1]).ok then [] else [n - 1])
  }

  /** The failing positions are exactly the entries that fail, each once, in snapshot order. */
  lemma {:induction false} FailingEntriesExact(snapshot: seq<Command>, host: Host, n: nat)
    requires n <= |snapshot|
    ensures forall i :: 0 <= i < n ==> (i in FailingEntries(snapshot, host, n) <==> !host(i, snapshot[i]).ok)
    ensures forall j, k :: 0 <= j < k < |FailingEntries(snapshot, host, n)| ==>
              FailingEntries(snapshot, host, n)[j] < FailingEntries(snapshot, host, n)[k]
  {
    if n > 0 {
      FailingEntriesExact(snapshot, host, n - 1);
    }
  }

  /**
   * A drain reports exactly once per failing entry, in snapshot order: report
   * k is `bgerror` of the result of the k-th failing entry, unannotated.
   */
  lemma {:induction false} DrainReportsInOrder(snapshot: seq<Command>, host: Host, n: nat)
    requires n <= |snapshot|
    ensures |DrainReports(snapshot[..n], host)| == |FailingEntries(snapshot, host, n)|
    ensures forall k :: 0 <= k < |FailingEntries(snapshot, host, n)| ==>
              var i := FailingEntries(snapshot, host, n)[k];
              DrainReports(snapshot[..n], host)[k] == BgError(host(i, snapshot[i]).result, None)
  {
    if n > 0 {
      DrainReportsInOrder(snapshot, host, n - 1);
      assert snapshot[..n][..n - 1] == snapshot[..n - 1];
      assert snapshot[..n][n - 1] == snapshot[n - 1];
    }
  }

  /** The reports of a whole drain are the unannotated `bgerror` calls of its failing entries, in order. */
  lemma DrainReportsExactly(snapshot: seq<Command>, host: Host)
    ensures |DrainReports(snapshot, host)| == |FailingEntries(snapshot, host, |snapshot|)|
    ensures forall k :: 0 <= k < |FailingEntries(snapshot, host, |snapshot|)| ==>
              var i := FailingEntries(snapshot, host, |snapshot|)[k];
              DrainReports(snapshot, host)[k] == BgError(host(i, snapshot[i]).result, None)
  {
    DrainReportsInOrder(snapshot, host, |snapshot|);
    assert snapshot[..|snapshot|] == snapshot;
  }

  /**
   * The interpreter result a drain leaves behind: the last entry's result when
   * that entry succeeded, or whatever the `bgerror` call reporting it left,
   * of which the model knows only the call.
   */
  datatype DrainValue = Evaluated(value: string) | AfterBgError(call: BgErrorCall)

  /** The interpreter result after a drain over `snapshot` that started with the result `initial`. */
  function DrainValueOf(snapshot: seq<Command>, host: Host, initial: string): (r: DrainValue)
    ensures snapshot == [] ==> r == Evaluated(initial)
    ensures r.AfterBgError? <==> snapshot != [] && !host(|snapshot| - 1, snapshot[|snapshot| - 1]).ok
    ensures r.Evaluated? && snapshot != [] ==> r.value == host(|snapshot| - 1, snapshot[|snapshot| - 1]).result
    ensures r.AfterBgError? ==>
              && DrainReports(snapshot, host) != []
              && r.call == DrainReports(snapshot, host)[|DrainReports(snapshot, host)| - 1]
  {
    if snapshot == [] then Evaluated(initial)
    else
      var out := host(|snapshot| - 1, snapshot[|snapshot| - 1]);
      if out.ok then Evaluated(out.result) else AfterBgError(BgError(out.result, None))
  }

  /** The four name caches of the federate ambassador, keyed {leaf, scope}. */
  datatype NameTables = NameTables(
    objClass: map<CacheKey, string>,
    intClass: map<CacheKey, string>,
    objAttr: map<CacheKey, string>,
    intParm: map<CacheKey, string>)
  {
    /** The table entry a name query is cached under is present. */
    predicate Holds(q: NameQuery) {
      match q
      case ObjectClassName(c) => (c, 0) in objClass
      case InteractionClassName(c) => (c, 0) in intClass
      case AttributeName(a, c) => (a, c) in objAttr
      case ParameterName(p, c) => (p, c) in intParm
      case ObjectClassOf(_) => false
    }

    /** Caches the answer to a name query. */
    function Insert(q: NameQuery, name: string): (t: NameTables)
      requires !q.ObjectClassOf?
      ensures t.Holds(q)
    {
      match q
      case ObjectClassName(c) => this.(objClass := objClass[(c, 0) := name])
      case InteractionClassName(c) => this.(intClass := intClass[(c, 0) := name])
      case AttributeName(a, c) => this.(objAttr := objAttr[(a, c) := name])
      case ParameterName(p, c) => this.(intParm := intParm[(p, c) := name])
    }
  }

  const EMPTY_TABLES: NameTables := NameTables(map[], map[], map[], map[])

  /** What the RTI ambassador answers to a name query. */
  function Answer(ns: NameService, q: NameQuery): string
    requires !q.ObjectClassOf?
  {
    match q
    case ObjectClassName(c) => ns.objectClassName(c)
    case InteractionClassName(c) => ns.interactionClassName(c)
    case AttributeName(a, c) => ns.attributeName(a, c)
    case ParameterName(p, c) => ns.parameterName(p, c)
  }

  ghost predicate NoDuplicates<T>(s: seq<T>) {
    forall i, j :: 0 <= i < j < |s| ==> s[i] != s[j]
  }

  /**
   * The memoisation invariant: the class tables use scope 0, and the RTI
   * fetches logged since the last clear are exactly the cached keys, with no
   * key fetched twice.
   */
  ghost predicate Memoised(t: NameTables, log: seq<NameQuery>) {
    && (forall k :: k in t.objClass ==> k.1 == 0)
    && (forall k :: k in t.intClass ==> k.1 == 0)
    && NoDuplicates(log)
    && (forall q :: q in log <==> t.Holds(q))
  }

  /** Every cached name is the RTI's answer for its key. */
  ghost predicate Agrees(t: NameTables, ns: NameService) {
    && (forall k :: k in t.objClass ==> t.objClass[k] == ns.objectClassName(k.0))
    && (forall k :: k in t.intClass ==> t.intClass[k] == ns.interactionClassName(k.0))
    && (forall k :: k in t.objAttr ==> t.objAttr[k] == ns.attributeName(k.0, k.1))
    && (forall k :: k in t.intParm ==> t.intParm[k] == ns.parameterName(k.0, k.1))
  }

  lemma EmptyTables(ns: NameService)
    ensures Memoised(EMPTY_TABLES, []) && Agrees(EMPTY_TABLES, ns)
  {
  }

  /** A miss that fetches and caches the answer keeps the invariant. */
  lemma MemoisedInsert(t: NameTables, log: seq<NameQuery>, q: NameQuery, name: string)
    requires Memoised(t, log) && !q.ObjectClassOf? && !t.Holds(q)
    ensures Memoised(t.Insert(q, name), log + [q])
  {
    var t' := t.Insert(q, name);
    forall r: NameQuery
      ensures r in log + [q] <==> t'.Holds(r)
    {
      assert t'.Holds(r) <==> t.Holds(r) || r == q;
    }
  }

  /** Caching the RTI's own answer keeps the tables in agreement with it. */
  lemma AgreesInsert(t: NameTables, ns: NameService, q: NameQuery)
    requires !q.ObjectClassOf?
    ensures Agrees(t, ns) ==> Agrees(t.Insert(q, Answer(ns, q)), ns)
  {
  }

  class FedAmb {
    /** The federate-ambassador Tcl command (faObj) and the RTI ambassador used
        for name lookups (rtiAmb); both are set by SetFaName. */
    var faObj: Word
    var rtiAmb: NameService
    var named: bool

    var methodQueue: seq<Command>

    var intClassNameHash: map<CacheKey, string>
    var intParmNameHash: map<CacheKey, string>
    var objAttrNameHash: map<CacheKey, string>
    var objClassNameHash: map<CacheKey, string>

    /** Every query made on the RTI's name services. */
    ghost var rtiCalls: seq<NameQuery>
    /** The cache misses since the last ClearCache. */
    ghost var fetchesSinceClear: seq<NameQuery>

    /** The four name tables, as one value. */
    ghost function Tables(): NameTables
      reads this`intClassNameHash, this`intParmNameHash, this`objAttrNameHash, this`objClassNameHash
    {
      NameTables(objClassNameHash, intClassNameHash, objAttrNameHash, intParmNameHash)
    }

    /** The cache misses since the last clear are exactly the cached keys, each once. */
    ghost predicate Valid()
      reads this`intClassNameHash, this`intParmNameHash, this`objAttrNameHash, this`objClassNameHash,
            this`fetchesSinceClear
    {
      Memoised(Tables(), fetchesSinceClear)
    }

    /** Every cached name is the one the current RTI ambassador gives. */
    ghost predicate Coherent()
      reads this`rtiAmb, this`intClassNameHash, this`intParmNameHash, this`objAttrNameHash,
            this`objClassNameHash
    {
      Agrees(Tables(), rtiAmb)
    }

    constructor ()
      ensures !named && methodQueue == []
      ensures intClassNameHash == map[] && intParmNameHash == map[]
      ensures objAttrNameHash == map[] && objClassNameHash == map[]
      ensures rtiCalls == [] && fetchesSinceClear == []
      ensures Valid() && Coherent()
    {
      faObj := Str("");
      rtiAmb := NameService(_ => "", _ => "", (_, _) => "", (_, _) => "", _ => 0);
      named := false;
      methodQueue := [];
      intClassNameHash, intParmNameHash := map[], map[];
      objAttrNameHash, objClassNameHash := map[], map[];
      rtiCalls, fetchesSinceClear := [], [];
      new;
      EmptyTables(rtiAmb);
    }

    /** Saves the federate-ambassador command name and the RTI ambassador. */
    method SetFaName(faName: string, ns: NameService)
      modifies this`faObj, this`rtiAmb, this`named
      ensures faObj == Str(faName) && rtiAmb == ns && named
    {
      faObj := Str(faName);
      rtiAmb := ns;
      named := true;
    }

    /**
     * Evaluates every queued command in arrival order, reporting each failure
     * through bgerror with no method annotation and carrying on; then replaces
     * the queue with a fresh empty one, dropping whatever was appended while
     * the commands ran. An empty queue is left as it is. `initial` is the
     * interpreter result on entry; `value` is the one left on return.
     */
    method EvalQueue(host: Host, initial: string)
      returns (evaluated: seq<Command>, reports: seq<BgErrorCall>, value: DrainValue)
      modifies this`methodQueue
      ensures evaluated == old(methodQueue)
      ensures reports == DrainReports(old(methodQueue), host)
      ensures value == DrainValueOf(old(methodQueue), host, initial)
      ensures methodQueue == []
    {
      var listv := methodQueue;
      evaluated, reports, value := [], [], Evaluated(initial);
      if |listv| == 0 {
        return;
      }
      var i := 0;
      while i < |listv|
        invariant 0 <= i <= |listv|
        invariant evaluated == listv[..i]
        invariant reports == DrainReports(listv[..i], host)
        invariant value == DrainValueOf(listv[..i], host, initial)
      {
        var out := host(i, listv[i]);
        evaluated := evaluated + [listv[i]];
        methodQueue := methodQueue + out.appended;
        if out.ok {
          value := Evaluated(out.result);
        } else {
          var call := BgError(out.result, None);
          reports := reports + [call];
          value := AfterBgError(call);
        }
        assert listv[..i + 1][..i] == listv[..i];
        i := i + 1;
      }
      assert listv[..i] == listv;
      methodQueue := [];
    }

    method Qm(methodName: string)
      requires named
      modifies this`methodQueue
      ensures methodQueue == old(methodQueue) + [[faObj, Str(methodName)]]
    {
      methodQueue := methodQueue + [[faObj, Str(methodName)]];
    }

    method QmWithO(methodName: string, o: Word)
      requires named
      modifies this`methodQueue
      ensures methodQueue == old(methodQueue) + [[faObj, Str(methodName)] + [o]]
    {
      methodQueue := methodQueue + [[faObj, Str(methodName)] + [o]];
    }

    method QmWithS(methodName: string, s: string)
      requires named
      modifies this`methodQueue
      ensures methodQueue == old(methodQueue) + [[faObj, Str(methodName)] + [Str(s)]]
    {
      methodQueue := methodQueue + [[faObj, Str(methodName)] + [Str(s)]];
    }

    method QmWithSS(methodName: string, s1: string, s2: string)
      requires named
      modifies this`methodQueue
      ensures methodQueue == old(methodQueue) + [[faObj, Str(methodName)] + [Str(s1), Str(s2)]]
    {
      methodQueue := methodQueue + [[faObj, Str(methodName)] + [Str(s1), Str(s2)]];
    }

    method QmWithSH(methodName: string, s: string, h: Handle)
      requires named
      modifies this`methodQueue
      ensures methodQueue == old(methodQueue) + [[faObj, Str(methodName)] + [Str(s), Wide(h)]]
    {
      methodQueue := methodQueue + [[faObj, Str(methodName)] + [Str(s), Wide(h)]];
    }

    method QmWithT(methodName: string, t: real)
      requires named
      modifies this`methodQueue
      ensures methodQueue == old(methodQueue) + [[faObj, Str(methodName)] + [Dbl(t)]]
    {
      methodQueue := methodQueue + [[faObj, Str(methodName)] + [Dbl(t)]];
    }

    /**
     * Queues the object handle and the names of an attribute handle set. The
     * class and the names are fetched from the RTI directly, bypassing the
     * caches.
     */
    method QmWithHAs(methodName: string, h: Handle, ahs: seq<Handle>)
      requires named
      modifies this`methodQueue, this`rtiCalls
      ensures methodQueue == old(methodQueue) + [[faObj, Str(methodName)] + HandleAttributesArguments(h, ahs, rtiAmb)]
      ensures rtiCalls == old(rtiCalls) + [ObjectClassOf(h)] + AttributeNameQueries(ahs, rtiAmb.objectClassOf(h))
    {
      var ch := rtiAmb.objectClassOf(h);
      rtiCalls := rtiCalls + [ObjectClassOf(h)];
      var names: seq<Word> := [];
      var i := 0;
      while i < |ahs|
        invariant 0 <= i <= |ahs|
        invariant names == NameList(ahs[..i], AttributeNamer(rtiAmb, ch))
        invariant rtiCalls == old(rtiCalls) + [ObjectClassOf(h)] + AttributeNameQueries(ahs[..i], ch)
        invariant methodQueue == old(methodQueue)
      {
        var nameStr := rtiAmb.attributeName(ahs[i], ch);
        rtiCalls := rtiCalls + [AttributeName(ahs[i], ch)];
        names := names + [Str(nameStr)];
        assert ahs[..i + 1][..i] == ahs[..i];
        i := i + 1;
      }
      assert ahs[..i] == ahs;
      methodQueue := methodQueue + [[faObj, Str(methodName)] + [Wide(h), List(names)]];
    }

    /** Empties all four name tables, so every later lookup fetches again. */
    method ClearCache()
      modifies this`intClassNameHash, this`intParmNameHash, this`objAttrNameHash, this`objClassNameHash,
               this`fetchesSinceClear
      ensures intClassNameHash == map[] && intParmNameHash == map[]
      ensures objAttrNameHash == map[] && objClassNameHash == map[]
      ensures fetchesSinceClear == []
      ensures Valid() && Coherent()
    {
      intClassNameHash := map[];
      intParmNameHash := map[];
      objAttrNameHash := map[];
      objClassNameHash := map[];
      fetchesSinceClear := [];
      EmptyTables(rtiAmb);
    }

    /** The name of attribute `attr` of object class `cls`, through the cache. */
    method GetAttributeTclObj(attr: Handle, cls: Handle) returns (name: string)
      requires Valid()
      modifies this`objAttrNameHash, this`fetchesSinceClear, this`rtiCalls
      ensures Valid()
      ensures old(Coherent()) ==> Coherent() && name == rtiAmb.attributeName(attr, cls)
      ensures (attr, cls) in old(objAttrNameHash) ==>
        && name == old(objAttrNameHash)[(attr, cls)]
        && objAttrNameHash == old(objAttrNameHash)
        && rtiCalls == old(rtiCalls) && fetchesSinceClear == old(fetchesSinceClear)
      ensures (attr, cls) !in old(objAttrNameHash) ==>
        && name == rtiAmb.attributeName(attr, cls)
        && objAttrNameHash == old(objAttrNameHash)[(attr, cls) := name]
        && rtiCalls == old(rtiCalls) + [AttributeName(attr, cls)]
        && fetchesSinceClear == old(fetchesSinceClear) + [AttributeName(attr, cls)]
    {
      var key := (attr, cls);
      if key !in objAttrNameHash {
        var q := AttributeName(attr, cls);
        name := rtiAmb.attributeName(attr, cls);
        MemoisedInsert(Tables(), fetchesSinceClear, q, name);
        AgreesInsert(Tables(), rtiAmb, q);
        rtiCalls := rtiCalls + [q];
        fetchesSinceClear := fetchesSinceClear + [q];
        objAttrNameHash := objAttrNameHash[key := name];
        assert Tables() == old(Tables()).Insert(q, name);
      } else {
        name := objAttrNameHash[key];
      }
    }

    /** The name of parameter `parm` of interaction class `ic`, through the cache. */
    method GetParameterTclObj(parm: Handle, ic: Handle) returns (name: string)
      requires Valid()
      modifies this`intParmNameHash, this`fetchesSinceClear, this`rtiCalls
      ensures Valid()
      ensures old(Coherent()) ==> Coherent() && name == rtiAmb.parameterName(parm, ic)
      ensures (parm, ic) in old(intParmNameHash) ==>
        && name == old(intParmNameHash)[(parm, ic)]
        && intParmNameHash == old(intParmNameHash)
        && rtiCalls == old(rtiCalls) && fetchesSinceClear == old(fetchesSinceClear)
      ensures (parm, ic) !in old(intParmNameHash) ==>
        && name == rtiAmb.parameterName(parm, ic)
        && intParmNameHash == old(intParmNameHash)[(parm, ic) := name]
        && rtiCalls == old(rtiCalls) + [ParameterName(parm, ic)]
        && fetchesSinceClear == old(fetchesSinceClear) + [ParameterName(parm, ic)]
    {
      var key := (parm, ic);
      if key !in intParmNameHash {
        var q := ParameterName(parm, ic);
        name := rtiAmb.parameterName(parm, ic);
        MemoisedInsert(Tables(), fetchesSinceClear, q, name);
        AgreesInsert(Tables(), rtiAmb, q);
        rtiCalls := rtiCalls + [q];
        fetchesSinceClear := fetchesSinceClear + [q];
        intParmNameHash := intParmNameHash[key := name];
        assert Tables() == old(Tables()).Insert(q, name);
      } else {
        name := intParmNameHash[key];
      }
    }

    /** The name of object class `cls`, through the cache under key (cls, 0). */
    method GetObjClassTclObj(cls: Handle) returns (name: string)
      requires Valid()
      modifies this`objClassNameHash, this`fetchesSinceClear, this`rtiCalls
      ensures Valid()
      ensures old(Coherent()) ==> Coherent() && name == rtiAmb.objectClassName(cls)
      ensures (cls, 0) in old(objClassNameHash) ==>
        && name == old(objClassNameHash)[(cls, 0)]
        && objClassNameHash == old(objClassNameHash)
        && rtiCalls == old(rtiCalls) && fetchesSinceClear == old(fetchesSinceClear)
      ensures (cls, 0) !in old(objClassNameHash) ==>
        && name == rtiAmb.objectClassName(cls)
        && objClassNameHash == old(objClassNameHash)[(cls, 0) := name]
        && rtiCalls == old(rtiCalls) + [ObjectClassName(cls)]
        && fetchesSinceClear == old(fetchesSinceClear) + [ObjectClassName(cls)]
    {
      var key := (cls, 0);
      if key !in objClassNameHash {
        var q := ObjectClassName(cls);
        name := rtiAmb.objectClassName(cls);
        MemoisedInsert(Tables(), fetchesSinceClear, q, name);
        AgreesInsert(Tables(), rtiAmb, q);
        rtiCalls := rtiCalls + [q];
        fetchesSinceClear := fetchesSinceClear + [q];
        objClassNameHash := objClassNameHash[key := name];
        assert Tables() == old(Tables()).Insert(q, name);
      } else {
        name := objClassNameHash[key];
      }
    }

    /** The name of interaction class `ic`, through the cache under key (ic, 0). */
    method GetIntClassTclObj(ic: Handle) returns (name: string)
      requires Valid()
      modifies this`intClassNameHash, this`fetchesSinceClear, this`rtiCalls
      ensures Valid()
      ensures old(Coherent()) ==> Coherent() && name == rtiAmb.interactionClassName(ic)
      ensures (ic, 0) in old(intClassNameHash) ==>
        && name == old(intClassNameHash)[(ic, 0)]
        && intClassNameHash == old(intClassNameHash)
        && rtiCalls == old(rtiCalls) && fetchesSinceClear == old(fetchesSinceClear)
      ensures (ic, 0) !in old(intClassNameHash) ==>
        && name == rtiAmb.interactionClassName(ic)
        && intClassNameHash == old(intClassNameHash)[(ic, 0) := name]
        && rtiCalls == old(rtiCalls) + [InteractionClassName(ic)]
        && fetchesSinceClear == old(fetchesSinceClear) + [InteractionClassName(ic)]
    {
      var key := (ic, 0);
      if key !in intClassNameHash {
        var q := InteractionClassName(ic);
        name := rtiAmb.interactionClassName(ic);
        MemoisedInsert(Tables(), fetchesSinceClear, q, name);
        AgreesInsert(Tables(), rtiAmb, q);
        rtiCalls := rtiCalls + [q];
        fetchesSinceClear := fetchesSinceClear + [q];
        intClassNameHash := intClassNameHash[key := name];
        assert Tables() == old(Tables()).Insert(q, name);
      } else {
        name := intClassNameHash[key];
      }
    }

    /** The parameter pairs of an interaction flattened, names from the cache. */
    method FlattenParameters(ic: Handle, ps: seq<HandleValue>) returns (list: seq<Word>)
      requires Valid() && Coherent()
      modifies this`intParmNameHash, this`fetchesSinceClear, this`rtiCalls
      ensures Valid() && Coherent()
      ensures list == FlatPairs(ps, ParameterNamer(rtiAmb, ic))
    {
      var nameOf := ParameterNamer(rtiAmb, ic);
      list := [];
      var i := 0;
      while i < |ps|
        invariant 0 <= i <= |ps|
        invariant Valid() && Coherent()
        invariant list == FlatPairs(ps[..i], nameOf)
      {
        var name := GetParameterTclObj(ps[i].handle, ic);
        assert name == nameOf.NameOf(ps[i].handle);
        list := list + [Str(name), ByteArray(ps[i].value)];
        assert ps[..i + 1][..i] == ps[..i];
        i := i + 1;
      }
      assert ps[..i] == ps;
    }

    /** The attribute pairs of an update flattened, names from the cache under class `ch`. */
    method FlattenAttributes(ch: Handle, avs: seq<HandleValue>) returns (list: seq<Word>)
      requires Valid() && Coherent()
      modifies this`objAttrNameHash, this`fetchesSinceClear, this`rtiCalls
      ensures Valid() && Coherent()
      ensures list == FlatPairs(avs, AttributeNamer(rtiAmb, ch))
    {
      var nameOf := AttributeNamer(rtiAmb, ch);
      list := [];
      var i := 0;
      while i < |avs|
        invariant 0 <= i <= |avs|
        invariant Valid() && Coherent()
        invariant list == FlatPairs(avs[..i], nameOf)
      {
        var name := GetAttributeTclObj(avs[i].handle, ch);
        assert name == nameOf.NameOf(avs[i].handle);
        list := list + [Str(name), ByteArray(avs[i].value)];
        assert avs[..i + 1][..i] == avs[..i];
        i := i + 1;
      }
      assert avs[..i] == avs;
    }

    /**
     * The first six words of an inbound interaction: the interaction class
     * name, the flattened parameter list with names from the cache, and the tag.
     */
    method SetupReceiveInteraction(ic: Handle, ps: seq<HandleValue>, tag: string) returns (objv: seq<Word>)
      requires named && Valid() && Coherent()
      modifies this`intClassNameHash, this`intParmNameHash, this`fetchesSinceClear, this`rtiCalls
      ensures Valid() && Coherent()
      ensures objv == [faObj, Str("receiveInteraction")]
                      + [Str(rtiAmb.interactionClassName(ic)), List(FlatPairs(ps, ParameterNamer(rtiAmb, ic))),
                         OPT_TAG, Str(tag)]
    {
      var className := GetIntClassTclObj(ic);
      var list := FlattenParameters(ic, ps);
      objv := [faObj, Str("receiveInteraction")] + [Str(className), List(list), OPT_TAG, Str(tag)];
    }

    /**
     * The first six words of an attribute update: the object handle, the
     * flattened attribute list with names from the cache (scoped by the
     * object's class, fetched directly), and the tag.
     */
    method SetupReflectAttributeValues(obj: Handle, avs: seq<HandleValue>, tag: string) returns (objv: seq<Word>)
      requires named && Valid() && Coherent()
      modifies this`objAttrNameHash, this`fetchesSinceClear, this`rtiCalls
      ensures Valid() && Coherent()
      ensures objv == [faObj, Str("reflectAttributeValues")]
                      + [Wide(obj), List(FlatPairs(avs, AttributeNamer(rtiAmb, rtiAmb.objectClassOf(obj)))),
                         OPT_TAG, Str(tag)]
    {
      var ch := rtiAmb.objectClassOf(obj);
      rtiCalls := rtiCalls + [ObjectClassOf(obj)];
      var list := FlattenAttributes(ch, avs);
      objv := [faObj, Str("reflectAttributeValues")] + [Wide(obj), List(list), OPT_TAG, Str(tag)];
    }

    /** Both receiveInteraction callbacks: six words, or ten with a time stamp. */
    method ReceiveInteraction(ic: Handle, ps: seq<HandleValue>, tag: string, stamp: Option<Stamp>)
      requires named && Valid() && Coherent()
      modifies this`methodQueue, this`intClassNameHash, this`intParmNameHash, this`fetchesSinceClear,
               this`rtiCalls
      ensures Valid() && Coherent()
      ensures methodQueue == old(methodQueue) + [[faObj, Str("receiveInteraction")]
        + ObjectCallback.ReceiveInteraction(ic, ps, tag, stamp).Arguments(rtiAmb)]
    {
      var objv := SetupReceiveInteraction(ic, ps, tag);
      assert objv + StampWords(stamp) == [objv[0], objv[1]] + (objv[2..] + StampWords(stamp));
      methodQueue := methodQueue + [objv + StampWords(stamp)];
    }

    /** Both reflectAttributeValues callbacks: six words, or ten with a time stamp. */
    method ReflectAttributeValues(obj: Handle, avs: seq<HandleValue>, tag: string, stamp: Option<Stamp>)
      requires named && Valid() && Coherent()
      modifies this`methodQueue, this`objAttrNameHash, this`fetchesSinceClear, this`rtiCalls
      ensures Valid() && Coherent()
      ensures methodQueue == old(methodQueue) + [[faObj, Str("reflectAttributeValues")]
        + ObjectCallback.ReflectAttributeValues(obj, avs, tag, stamp).Arguments(rtiAmb)]
    {
      var objv := SetupReflectAttributeValues(obj, avs, tag);
      assert objv + StampWords(stamp) == [objv[0], objv[1]] + (objv[2..] + StampWords(stamp));
      methodQueue := methodQueue + [objv + StampWords(stamp)];
    }

    /** Both removeObjectInstance callbacks: five words, or nine with a time stamp. */
    method RemoveObjectInstance(obj: Handle, tag: string, stamp: Option<Stamp>)
      requires named
      modifies this`methodQueue
      ensures methodQueue == old(methodQueue) + [[faObj, Str("removeObjectInstance")]
        + ObjectCallback.RemoveObjectInstance(obj, tag, stamp).Arguments(rtiAmb)]
    {
      var objv := [faObj, Str("removeObjectInstance")] + [Wide(obj), OPT_TAG, Str(tag)];
      assert objv + StampWords(stamp) == [objv[0], objv[1]] + (objv[2..] + StampWords(stamp));
      methodQueue := methodQueue + [objv + StampWords(stamp)];
    }

    /** discoverObjectInstance fetches the class name directly, bypassing the cache. */
    method DiscoverObjectInstance(obj: Handle, cls: Handle, objName: string)
      requires named
      modifies this`methodQueue, this`rtiCalls
      ensures methodQueue == old(methodQueue) + [[faObj, Str("discoverObjectInstance")]
        + ObjectCallback.DiscoverObjectInstance(obj, cls, objName).Arguments(rtiAmb)]
      ensures rtiCalls == old(rtiCalls) + [ObjectClassName(cls)]
    {
      var name := rtiAmb.objectClassName(cls);
      rtiCalls := rtiCalls + [ObjectClassName(cls)];
      methodQueue := methodQueue + [[faObj, Str("discoverObjectInstance")] + [Wide(obj), Str(name), Str(objName)]];
    }

    /** A synchronization-point callback: qmWithS, or qmWithSS for the announcement. */
    method DeliverSynchronization(c: SyncCallback)
      requires named
      modifies this`methodQueue
      ensures Valid() == old(Valid()) && Coherent() == old(Coherent())
      ensures methodQueue == old(methodQueue) + [[faObj, Str(c.Name())] + c.Arguments()]
    {
      var m := c.Name();
      match c
      case SynchronizationPointRegistrationSucceeded(lbl) => QmWithS(m, lbl);
      case SynchronizationPointRegistrationFailed(lbl) => QmWithS(m, lbl);
      case AnnounceSynchronizationPoint(lbl, tag) => QmWithSS(m, lbl, tag);
      case FederationSynchronized(lbl) => QmWithS(m, lbl);
    }

    /** A save callback: qmWithS for the initiation, qm otherwise. */
    method DeliverSave(c: SaveCallback)
      requires named
      modifies this`methodQueue
      ensures Valid() == old(Valid()) && Coherent() == old(Coherent())
      ensures methodQueue == old(methodQueue) + [[faObj, Str(c.Name())] + c.Arguments()]
    {
      var m := c.Name();
      assert c.Arguments() == [] ==> [faObj, Str(m)] + c.Arguments() == [faObj, Str(m)];
      match c
      case InitiateFederateSave(lbl) => QmWithS(m, lbl);
      case FederationSaved => Qm(m);
      case FederationNotSaved => Qm(m);
    }

    /** A restore callback: qm, qmWithS, qmWithSS or qmWithSH by its arguments. */
    method DeliverRestore(c: RestoreCallback)
      requires named
      modifies this`methodQueue
      ensures Valid() == old(Valid()) && Coherent() == old(Coherent())
      ensures methodQueue == old(methodQueue) + [[faObj, Str(c.Name())] + c.Arguments()]
    {
      var m := c.Name();
      assert c.Arguments() == [] ==> [faObj, Str(m)] + c.Arguments() == [faObj, Str(m)];
      match c
      case RequestFederationRestoreSucceeded(lbl) => QmWithS(m, lbl);
      case RequestFederationRestoreFailed(lbl) => QmWithS(m, lbl);
      case RequestFederationRestoreFailedWithReason(lbl, reason) => QmWithSS(m, lbl, reason);
      case FederationRestoreBegun => Qm(m);
      case InitiateFederateRestore(lbl, federate) => QmWithSH(m, lbl, federate);
      case FederationRestored => Qm(m);
      case FederationNotRestored => Qm(m);
    }

    /** A declaration callback: qmWithO of the class name, looked up through the cache. */
    method DeliverDeclaration(c: DeclarationCallback)
      requires named && Valid() && Coherent()
      modifies this`methodQueue, this`intClassNameHash, this`objClassNameHash, this`fetchesSinceClear,
               this`rtiCalls
      ensures Valid() && Coherent()
      ensures methodQueue == old(methodQueue) + [[faObj, Str(c.Name())] + c.Arguments(rtiAmb)]
    {
      var m := c.Name();
      var name;
      if c.StartRegistrationForObjectClass? || c.StopRegistrationForObjectClass? {
        name := GetObjClassTclObj(c.cls);
      } else {
        name := GetIntClassTclObj(c.cls);
      }
      QmWithO(m, Str(name));
    }

    /** An object-management callback, through its builder or qmWithHAs. */
    method DeliverObject(c: ObjectCallback)
      requires named && Valid() && Coherent()
      modifies this`methodQueue, this`intClassNameHash, this`intParmNameHash, this`objAttrNameHash,
               this`fetchesSinceClear, this`rtiCalls
      ensures Valid() && Coherent()
      ensures methodQueue == old(methodQueue) + [[faObj, Str(c.Name())] + c.Arguments(rtiAmb)]
    {
      var m := c.Name();
      match c
      case DiscoverObjectInstance(obj, cls, objName) => DiscoverObjectInstance(obj, cls, objName);
      case ReflectAttributeValues(obj, avs, tag, stamp) => ReflectAttributeValues(obj, avs, tag, stamp);
      case ReceiveInteraction(ic, ps, tag, stamp) => ReceiveInteraction(ic, ps, tag, stamp);
      case RemoveObjectInstance(obj, tag, stamp) => RemoveObjectInstance(obj, tag, stamp);
      case ProvideAttributeValueUpdate(obj, hs) => QmWithHAs(m, obj, hs);
      case TurnUpdatesOnForObjectInstance(obj, hs) => QmWithHAs(m, obj, hs);
      case TurnUpdatesOffForObjectInstance(obj, hs) => QmWithHAs(m, obj, hs);
    }

    /** An ownership callback: qmWithHAs, with names fetched directly. */
    method DeliverOwnership(c: OwnershipCallback)
      requires named
      modifies this`methodQueue, this`rtiCalls
      ensures Valid() == old(Valid()) && Coherent() == old(Coherent())
      ensures methodQueue == old(methodQueue) + [[faObj, Str(c.Name())] + c.Arguments(rtiAmb)]
    {
      QmWithHAs(c.Name(), c.obj, c.attrs);
    }

    /** A time-management callback: qmWithT of the granted time. */
    method DeliverTime(c: TimeCallback)
      requires named
      modifies this`methodQueue
      ensures Valid() == old(Valid()) && Coherent() == old(Coherent())
      ensures methodQueue == old(methodQueue) + [[faObj, Str(c.Name())] + c.Arguments()]
    {
      QmWithT(c.Name(), c.time);
    }

    /** The RTI invokes one federate-ambassador callback: exactly one command is appended. */
    method Deliver(cb: Callback)
      requires named && Valid() && Coherent()
      modifies this`methodQueue, this`intClassNameHash, this`intParmNameHash, this`objAttrNameHash,
               this`objClassNameHash, this`fetchesSinceClear, this`rtiCalls
      ensures Valid() && Coherent()
      ensures methodQueue == old(methodQueue) + [CommandFor(cb, faObj, rtiAmb)]
    {
      match cb
      case Synchronization(c) => DeliverSynchronization(c);
      case Save(c) => DeliverSave(c);
      case Restore(c) => DeliverRestore(c);
      case Declaration(c) => DeliverDeclaration(c);
      case Object(c) => DeliverObject(c);
      case Ownership(c) => DeliverOwnership(c);
      case Time(c) => DeliverTime(c);
    }
  }
}
