/**
 * The outbound send commands sendInteraction, updateAttributeValues and
 * sendInteractionWithRegion. Each checks its arity, resolves its target,
 * scans the options, builds the handle/value set, and only then calls the
 * RTI; with `-time` the RTI's event-retraction handle becomes the Tcl result.
 */
module SendCommands {
  import opened TclValues
  import opened Resolver
  import opened Options
  import opened PairSets
  import opened Regions

  /**
   * One send as handed to the RTI ambassador: the interaction class or object
   * instance, the handle/value set, the tag, the time stamp when `-time` was
   * given, and the region of sendInteractionWithRegion.
   */
  datatype Send = Send(target: Handle, pairs: seq<HandleValue>, tag: string, time: Option<real>,
                       region: Option<RegionRef>)

  /** The RTI's answer to a send: the event-retraction handle, or the exception it throws. */
  type SendService = Send -> Result<RetractionHandle, RtiException>

  /** The RTI's getObjectClass on an object instance. */
  type ClassService = Handle -> Result<Handle, RtiException>

  /**
   * The Tcl result of a send: a timed send returns the list {serial federate},
   * an untimed one the empty result; an RTI exception becomes the error.
   */
  function Reply(s: Send, answer: Result<RetractionHandle, RtiException>): (r: Result<Word, TclError>)
    ensures r.Ok? <==> answer.Ok?
    ensures r.Err? ==> r.error == RtiError(answer.error)
    ensures r.Ok? && s.time.Some? ==> r.value == List([Wide(answer.value.serial), Wide(answer.value.federate)])
    ensures r.Ok? && s.time.None? ==> r.value == Str("")
  {
    match answer
    case Err(e) => Err(RtiError(e))
    case Ok(erh) => Ok(if s.time.Some? then List([Wide(erh.serial), Wide(erh.federate)]) else Str(""))
  }

  /**
   * What sendInteraction (options from 4) and sendInteractionWithRegion
   * (options from 5) send, before the region: interaction class, then
   * options, then the parameter list.
   */
  function InteractionRequest(tcl: TclConversions, hs: HandleService, objv: seq<Word>, optionsAt: nat)
    : (r: Result<Send, TclError>)
    requires 4 <= optionsAt
    ensures r.Ok? ==> |objv| >= optionsAt && r.value.region.None?
  {
    if |objv| < optionsAt then Err(WrongNumArgs)
    else
      var cls := ResolveHandle(tcl, hs, InteractionClassKind, objv[2]).result;
      if cls.Err? then Err(cls.error)
      else
        var opts := ScanFrom(tcl, objv, optionsAt, DEFAULT_OPTIONS);
        if opts.Err? then Err(opts.error)
        else
          var ps := PairSet(tcl, hs, ParameterKind(cls.value), "theParameters", objv[3]).result;
          if ps.Err? then Err(ps.error)
          else Ok(Send(cls.value, ps.value, opts.value.tag, opts.value.time, None))
  }

  /**
   * What updateAttributeValues sends: the object token must be an integer
   * handle, its class comes from the RTI, then the options and the attribute
   * list scoped by that class.
   */
  function UpdateRequest(tcl: TclConversions, hs: HandleService, classOf: ClassService, objv: seq<Word>)
    : (r: Result<Send, TclError>)
    ensures r.Ok? ==> |objv| >= 4 && r.value.region.None?
  {
    if |objv| < 4 then Err(WrongNumArgs)
    else match GetHandleFromObj(tcl, objv[2])
      case Err(e) => Err(e)
      case Ok(obj) =>
        match classOf(obj)
        case Err(e) => Err(RtiError(e))
        case Ok(ch) =>
          var opts := ScanFrom(tcl, objv, 4, DEFAULT_OPTIONS);
          if opts.Err? then Err(opts.error)
          else
            var ps := PairSet(tcl, hs, AttributeKind(ch), "theAttributes", objv[3]).result;
            if ps.Err? then Err(ps.error)
            else Ok(Send(obj, ps.value, opts.value.tag, opts.value.time, None))
  }

  /** sendInteractionWithRegion: the region token is looked up last, after the parameter set is built. */
  function RegionSendRequest(tcl: TclConversions, hs: HandleService, t: RegionTable, objv: seq<Word>)
    : (r: Result<Send, TclError>)
  {
    match InteractionRequest(tcl, hs, objv, 5)
    case Err(e) => Err(e)
    case Ok(s) =>
      match t.Find(tcl.stringOf(objv[4]))
      case Err(e) => Err(e)
      case Ok(reg) => Ok(s.(region := Some(reg)))
  }

  /**
   * An interaction is sent exactly when the arity holds, the class resolves,
   * the options are well formed and the parameter list is a non-empty,
   * even-length list whose names all resolve; the set then holds one pair per
   * two list elements, and the send is timed exactly when some option
   * position holds `-time`.
   */
  lemma InteractionRequestOk(tcl: TclConversions, hs: HandleService, objv: seq<Word>, optionsAt: nat)
    requires 4 <= optionsAt
    ensures var r := InteractionRequest(tcl, hs, objv, optionsAt);
      r.Ok? <==>
        && |objv| >= optionsAt
        && ResolveHandle(tcl, hs, InteractionClassKind, objv[2]).result.Ok?
        && WellFormed(tcl, objv, optionsAt)
        && PairSet(tcl, hs, ParameterKind(ResolveHandle(tcl, hs, InteractionClassKind, objv[2]).result.value),
                   "theParameters", objv[3]).result.Ok?
    ensures var r := InteractionRequest(tcl, hs, objv, optionsAt);
      r.Ok? ==>
        && r.value.target == ResolveHandle(tcl, hs, InteractionClassKind, objv[2]).result.value
        && tcl.listElements(objv[3]).Some?
        && 0 < 2 * |r.value.pairs| == |tcl.listElements(objv[3]).value|
        && (r.value.time.Some? <==> exists j :: OptionAt(objv, optionsAt, j) && tcl.stringOf(objv[j]) == TIME_OPTION)
  {
    var r := InteractionRequest(tcl, hs, objv, optionsAt);
    if |objv| >= optionsAt {
      ScanSucceedsIffWellFormed(tcl, objv, optionsAt, DEFAULT_OPTIONS);
      var cls := ResolveHandle(tcl, hs, InteractionClassKind, objv[2]).result;
      if cls.Ok? {
        PairSetValidatesFirst(tcl, hs, ParameterKind(cls.value), "theParameters", objv[3]);
        if r.Ok? {
          TimeGivenIffTimeOption(tcl, objv, optionsAt, DEFAULT_OPTIONS);
        }
      }
    }
  }

  /**
   * An update is sent exactly when the object token is an integer, the RTI
   * knows its class, the options are well formed and the attribute list,
   * scoped by that class, resolves; the object handle is never looked up by
   * name.
   */
  lemma UpdateRequestOk(tcl: TclConversions, hs: HandleService, classOf: ClassService, objv: seq<Word>)
    ensures var r := UpdateRequest(tcl, hs, classOf, objv);
      r.Ok? <==>
        && |objv| >= 4
        && ParsesAsInt(tcl, objv[2])
        && classOf(HandleOf(tcl.wideInt(objv[2]).value)).Ok?
        && WellFormed(tcl, objv, 4)
        && PairSet(tcl, hs, AttributeKind(classOf(HandleOf(tcl.wideInt(objv[2]).value)).value),
                   "theAttributes", objv[3]).result.Ok?
    ensures var r := UpdateRequest(tcl, hs, classOf, objv);
      r.Ok? ==>
        && r.value.target == HandleOf(tcl.wideInt(objv[2]).value)
        && tcl.listElements(objv[3]).Some?
        && 0 < 2 * |r.value.pairs| == |tcl.listElements(objv[3]).value|
        && (r.value.time.Some? <==> exists j :: OptionAt(objv, 4, j) && tcl.stringOf(objv[j]) == TIME_OPTION)
    ensures |objv| >= 4 && !ParsesAsInt(tcl, objv[2]) ==> UpdateRequest(tcl, hs, classOf, objv) == Err(NotAnInteger(objv[2]))
  {
    var r := UpdateRequest(tcl, hs, classOf, objv);
    if |objv| >= 4 {
      ScanSucceedsIffWellFormed(tcl, objv, 4, DEFAULT_OPTIONS);
      if ParsesAsInt(tcl, objv[2]) {
        var obj := HandleOf(tcl.wideInt(objv[2]).value);
        if classOf(obj).Ok? {
          PairSetValidatesFirst(tcl, hs, AttributeKind(classOf(obj).value), "theAttributes", objv[3]);
          if r.Ok? {
            TimeGivenIffTimeOption(tcl, objv, 4, DEFAULT_OPTIONS);
          }
        }
      }
    }
  }

  /**
   * The region is resolved only once the rest of the request is good, so a
   * bad class, option or parameter list is reported whatever the region
   * token; a good request is sent with the region bound to the token.
   */
  lemma RegionSendRequestOk(tcl: TclConversions, hs: HandleService, t: RegionTable, objv: seq<Word>)
    ensures InteractionRequest(tcl, hs, objv, 5).Err? ==>
              RegionSendRequest(tcl, hs, t, objv) == Err(InteractionRequest(tcl, hs, objv, 5).error)
    ensures InteractionRequest(tcl, hs, objv, 5).Ok? ==>
              (RegionSendRequest(tcl, hs, t, objv).Ok? <==> t.live && tcl.stringOf(objv[4]) in t.entries)
    ensures RegionSendRequest(tcl, hs, t, objv).Ok? ==>
              RegionSendRequest(tcl, hs, t, objv).value.region == Some(t.entries[tcl.stringOf(objv[4])])
  {
  }

  /** The common front of sendInteraction and sendInteractionWithRegion, up to the built parameter set. */
  method PrepareInteraction(tcl: TclConversions, hs: HandleService, objv: seq<Word>, optionsAt: nat)
    returns (r: Result<Send, TclError>)
    requires 4 <= optionsAt
    ensures r == InteractionRequest(tcl, hs, objv, optionsAt)
  {
    if |objv| < optionsAt {
      return Err(WrongNumArgs);
    }
    var cls := ResolveHandle(tcl, hs, InteractionClassKind, objv[2]).result;
    if cls.Err? {
      return Err(cls.error);
    }
    var opts := ScanOptions(tcl, objv, optionsAt);
    if opts.Err? {
      return Err(opts.error);
    }
    var parms, queries := BuildPairSet(tcl, hs, ParameterKind(cls.value), "theParameters", objv[3]);
    if parms.Err? {
      return Err(parms.error);
    }
    r := Ok(Send(cls.value, parms.value, opts.value.tag, opts.value.time, None));
  }

  /** sendInteraction: the RTI is called only with a fully built request. */
  method SendInteraction(tcl: TclConversions, hs: HandleService, rti: SendService, objv: seq<Word>)
    returns (r: Result<Word, TclError>, sent: Option<Send>)
    ensures sent.Some? <==> InteractionRequest(tcl, hs, objv, 4).Ok?
    ensures sent.Some? ==> sent.value == InteractionRequest(tcl, hs, objv, 4).value
                           && r == Reply(sent.value, rti(sent.value))
    ensures sent.None? ==> r == Err(InteractionRequest(tcl, hs, objv, 4).error)
  {
    var req := PrepareInteraction(tcl, hs, objv, 4);
    if req.Err? {
      return Err(req.error), None;
    }
    sent := Some(req.value);
    r := Reply(req.value, rti(req.value));
  }

  /** updateAttributeValues: the RTI is called only with a fully built request. */
  method UpdateAttributeValues(tcl: TclConversions, hs: HandleService, classOf: ClassService, rti: SendService,
                               objv: seq<Word>)
    returns (r: Result<Word, TclError>, sent: Option<Send>)
    ensures sent.Some? <==> UpdateRequest(tcl, hs, classOf, objv).Ok?
    ensures sent.Some? ==> sent.value == UpdateRequest(tcl, hs, classOf, objv).value
                           && r == Reply(sent.value, rti(sent.value))
    ensures sent.None? ==> r == Err(UpdateRequest(tcl, hs, classOf, objv).error)
  {
    if |objv| < 4 {
      return Err(WrongNumArgs), None;
    }
    var obj := GetHandleFromObj(tcl, objv[2]);
    if obj.Err? {
      return Err(obj.error), None;
    }
    var ch := classOf(obj.value);
    if ch.Err? {
      return Err(RtiError(ch.error)), None;
    }
    var opts := ScanOptions(tcl, objv, 4);
    if opts.Err? {
      return Err(opts.error), None;
    }
    var attrs, queries := BuildPairSet(tcl, hs, AttributeKind(ch.value), "theAttributes", objv[3]);
    if attrs.Err? {
      return Err(attrs.error), None;
    }
    var s := Send(obj.value, attrs.value, opts.value.tag, opts.value.time, None);
    sent := Some(s);
    r := Reply(s, rti(s));
  }
}
