/**
 * The RTI ambassador command's own state (RtiAmbInfo): the federate
 * ambassador it hands to the RTI, the region registry and the counter that
 * numbers region tokens. Join and resign reset that state; tick lets the RTI
 * deliver callbacks and then drains the queue they filled.
 */
module RtiCommands {
  import opened TclValues
  import opened FedAmbassador
  import opened Resolver
  import opened SendCommands
  import opened Regions

  /** The resign actions, in the order of RTI::ResignAction (which starts at 1). */
  const RESIGN_ACTIONS: seq<string> :=
    ["RELEASE_ATTRIBUTES", "DELETE_OBJECTS", "DELETE_OBJECTS_AND_RELEASE_ATTRIBUTES", "NO_ACTION"]

  /** Tcl_GetIndexFromObj over the resign actions, exact match only, then shifted to the RTI's numbering. */
  function ResignAction(tcl: TclConversions, w: Word): (r: Result<nat, TclError>)
    ensures r.Ok? <==> tcl.stringOf(w) in RESIGN_ACTIONS
    ensures r.Ok? ==> 1 <= r.value <= |RESIGN_ACTIONS| && RESIGN_ACTIONS[r.value - 1] == tcl.stringOf(w)
    ensures r.Err? ==> r.error == BadIndex("action", tcl.stringOf(w))
  {
    var s := tcl.stringOf(w);
    if s == RESIGN_ACTIONS[0] then Ok(1)
    else if s == RESIGN_ACTIONS[1] then Ok(2)
    else if s == RESIGN_ACTIONS[2] then Ok(3)
    else if s == RESIGN_ACTIONS[3] then Ok(4)
    else Err(BadIndex("action", s))
  }

  /** The arguments createRegion hands to the RTI: the routing space and the number of extents. */
  datatype RegionSpec = RegionSpec(space: Handle, extents: int)

  /** The arity check, the space token and the extent count of createRegion, read before the RTI is called. */
  function RegionArguments(tcl: TclConversions, hs: HandleService, objv: seq<Word>): (r: Result<RegionSpec, TclError>)
    ensures r.Ok? ==> |objv| == 4 && ParsesAsInt(tcl, objv[3]) && r.value.extents == tcl.wideInt(objv[3]).value
    ensures r.Ok? ==> && ResolveHandle(tcl, hs, SpaceKind, objv[2]).result.Ok?
                      && r.value.space == ResolveHandle(tcl, hs, SpaceKind, objv[2]).result.value
    ensures |objv| != 4 ==> r == Err(WrongNumArgs)
  {
    if |objv| != 4 then Err(WrongNumArgs)
    else
      var space := ResolveHandle(tcl, hs, SpaceKind, objv[2]).result;
      if space.Err? then Err(space.error)
      else match tcl.wideInt(objv[3])
        case None => Err(NotAnInteger(objv[3]))
        case Some(extents) => Ok(RegionSpec(space.value, extents))
  }

  /** The region tokens numbered above n among the interpreter's commands. */
  ghost function TokensFrom(commands: set<string>, n: nat): set<string> {
    set c | c in commands && RegionIndexOf(c).Some? && RegionIndexOf(c).value >= n
  }

  class RtiAmbInfo {
    /** The federate ambassador handed to the RTI at join. */
    const fedAmb: FedAmb
    /** The region registry. */
    var regionHash: RegionTable
    /** The last region number used. */
    var regionNum: nat
    /** The names of the interpreter's commands; only whether a name is taken matters. */
    var commands: set<string>

    /**
     * The cache agrees with the RTI in use and every bound token is numbered
     * within the counter. The table may be deleted: a successful resign leaves
     * it so until the next join.
     */
    ghost predicate Valid()
      reads this, fedAmb
    {
      && fedAmb.Valid() && fedAmb.Coherent()
      && Numbered(regionHash, regionNum)
    }

    constructor (interpCommands: set<string>, counter: nat)
      ensures fresh(fedAmb) && !fedAmb.named && fedAmb.methodQueue == []
      ensures regionHash == EMPTY_REGION_TABLE && regionNum == counter && commands == interpCommands
      ensures Valid()
    {
      fedAmb := new FedAmb();
      regionHash := EMPTY_REGION_TABLE;
      regionNum := counter;
      commands := interpCommands;
    }

    /**
     * joinFederationExecution yourName executionName fedAmbCmd. Only once the
     * RTI has accepted the join are the callback command saved, the name
     * cache cleared and a fresh empty registry started, so a failed join
     * changes nothing.
     */
    method JoinFederationExecution(tcl: TclConversions, objv: seq<Word>, ns: NameService,
                                   join: (string, string) -> Option<RtiException>)
      returns (r: Result<(), TclError>)
      requires fedAmb.Valid() && Numbered(regionHash, regionNum)
      modifies this`regionHash, fedAmb`faObj, fedAmb`rtiAmb, fedAmb`named,
               fedAmb`intClassNameHash, fedAmb`intParmNameHash, fedAmb`objAttrNameHash, fedAmb`objClassNameHash,
               fedAmb`fetchesSinceClear
      ensures |objv| != 5 ==> r == Err(WrongNumArgs)
      ensures |objv| == 5 ==>
                var answer := join(tcl.stringOf(objv[2]), tcl.stringOf(objv[3]));
                (r.Ok? <==> answer.None?) && (r.Err? ==> r.error == RtiError(answer.value))
      ensures r.Err? ==> regionHash == old(regionHash) && unchanged(fedAmb)
      ensures r.Ok? ==> && fedAmb.named && fedAmb.faObj == Str(tcl.stringOf(objv[4])) && fedAmb.rtiAmb == ns
                        && fedAmb.Tables() == EMPTY_TABLES
                        && regionHash == EMPTY_REGION_TABLE
                        && Valid()
    {
      if |objv| != 5 {
        return Err(WrongNumArgs);
      }
      var answer := join(tcl.stringOf(objv[2]), tcl.stringOf(objv[3]));
      if answer.Some? {
        return Err(RtiError(answer.value));
      }
      fedAmb.SetFaName(tcl.stringOf(objv[4]), ns);
      fedAmb.ClearCache();
      regionHash := EMPTY_REGION_TABLE;
      r := Ok(());
    }

    /** The loop of cleanUpRegions: deletes the command of every bound token that still has one. */
    method DeleteRegionCommands()
      modifies this`commands
      ensures commands == old(commands) - regionHash.entries.Keys
    {
      var keys := regionHash.entries.Keys;
      while keys != {}
        invariant keys <= regionHash.entries.Keys
        invariant commands == old(commands) - (regionHash.entries.Keys - keys)
        decreases keys
      {
        var name :| name in keys;
        if name in commands {
          commands := commands - {name};
        }
        keys := keys - {name};
      }
    }

    /**
     * cleanUpRegions as written: deletes the region commands, then the table
     * itself with Tcl_DeleteHashTable, leaving it deleted until the next join.
     */
    method CleanUpRegions()
      modifies this`regionHash, this`commands
      ensures commands == old(commands) - old(regionHash.entries.Keys)
      ensures regionHash == DELETED_REGION_TABLE
    {
      DeleteRegionCommands();
      regionHash := DELETED_REGION_TABLE;
    }

    /**
     * resignFederationExecution theAction. The action word is checked first;
     * only a resign the RTI accepts runs cleanUpRegions, so a failed resign
     * changes nothing. As written, a successful resign leaves the table
     * deleted. `action` is the RTI::ResignAction passed, if the RTI was called.
     */
    method ResignFederationExecution(tcl: TclConversions, objv: seq<Word>, resign: nat -> Option<RtiException>)
      returns (r: Result<(), TclError>, action: Option<nat>)
      requires Valid()
      modifies this`regionHash, this`commands
      ensures Valid()
      ensures |objv| != 3 ==> r == Err(WrongNumArgs) && action == None
      ensures |objv| == 3 && ResignAction(tcl, objv[2]).Err? ==>
                r == Err(ResignAction(tcl, objv[2]).error) && action == None
      ensures |objv| == 3 && ResignAction(tcl, objv[2]).Ok? ==> action == Some(ResignAction(tcl, objv[2]).value)
      ensures action.Some? ==> (r.Ok? <==> resign(action.value).None?)
                               && (r.Err? ==> r.error == RtiError(resign(action.value).value))
      ensures r.Err? ==> regionHash == old(regionHash) && commands == old(commands)
      ensures r.Ok? ==> regionHash == DELETED_REGION_TABLE && commands == old(commands) - old(regionHash.entries.Keys)
    {
      action := None;
      if |objv| != 3 {
        return Err(WrongNumArgs), None;
      }
      var index := ResignAction(tcl, objv[2]);
      if index.Err? {
        return Err(index.error), None;
      }
      action := Some(index.value);
      var answer := resign(index.value);
      if answer.Some? {
        return Err(RtiError(answer.value)), action;
      }
      CleanUpRegions();
      r := Ok(());
    }

    /**
     * The intended resign: the same command followed by Tcl_InitHashTable, so
     * a successful resign leaves every region forgotten but the table usable.
     */
    method ResignAndReinitialise(tcl: TclConversions, objv: seq<Word>, resign: nat -> Option<RtiException>)
      returns (r: Result<(), TclError>, action: Option<nat>)
      requires Valid()
      modifies this`regionHash, this`commands
      ensures Valid()
      ensures |objv| != 3 ==> r == Err(WrongNumArgs) && action == None
      ensures |objv| == 3 && ResignAction(tcl, objv[2]).Err? ==>
                r == Err(ResignAction(tcl, objv[2]).error) && action == None
      ensures |objv| == 3 && ResignAction(tcl, objv[2]).Ok? ==> action == Some(ResignAction(tcl, objv[2]).value)
      ensures action.Some? ==> (r.Ok? <==> resign(action.value).None?)
                               && (r.Err? ==> r.error == RtiError(resign(action.value).value))
      ensures r.Err? ==> regionHash == old(regionHash) && commands == old(commands)
      ensures r.Ok? ==> regionHash == EMPTY_REGION_TABLE && commands == old(commands) - old(regionHash.entries.Keys)
    {
      r, action := ResignFederationExecution(tcl, objv, resign);
      if r.Ok? {
        regionHash := EMPTY_REGION_TABLE;
      }
    }

    /**
     * createRegion theSpace numberOfExtents. Once the RTI has made the region,
     * the counter is pre-incremented until `::RTI::region<n>` names no
     * command; that token is bound to the region and becomes a command.
     * Binding into a deleted table is a Tcl panic.
     */
    method CreateRegion(tcl: TclConversions, hs: HandleService, objv: seq<Word>,
                        create: RegionSpec -> Result<RegionRef, RtiException>)
      returns (r: Result<string, TclError>)
      requires Numbered(regionHash, regionNum)
      modifies this`regionHash, this`regionNum, this`commands
      ensures Numbered(regionHash, regionNum)
      ensures RegionArguments(tcl, hs, objv).Err? ==>
                r == Err(RegionArguments(tcl, hs, objv).error) && regionNum == old(regionNum)
      ensures RegionArguments(tcl, hs, objv).Ok? && create(RegionArguments(tcl, hs, objv).value).Err? ==>
                r == Err(RtiError(create(RegionArguments(tcl, hs, objv).value).error)) && regionNum == old(regionNum)
      ensures r.Err? ==> regionHash == old(regionHash) && commands == old(commands)
      ensures regionNum != old(regionNum) ==>
                && regionNum > old(regionNum)
                && RegionName(regionNum) !in old(commands)
                && (forall k :: old(regionNum) < k < regionNum ==> RegionName(k) in old(commands))
      ensures r.Ok? <==> RegionArguments(tcl, hs, objv).Ok? && create(RegionArguments(tcl, hs, objv).value).Ok?
                         && old(regionHash.live)
      ensures (RegionArguments(tcl, hs, objv).Ok? && create(RegionArguments(tcl, hs, objv).value).Ok?
               && !old(regionHash.live)) ==> r == Err(Panic("Tcl_CreateHashEntry"))
      ensures r.Ok? ==>
                && regionNum > old(regionNum)
                && r.value == RegionName(regionNum)
                && r.value !in old(regionHash.entries)
                && regionHash == old(regionHash).(entries := old(regionHash.entries)[r.value := create(RegionArguments(tcl, hs, objv).value).value])
                && commands == old(commands) + {r.value}
    {
      var args := RegionArguments(tcl, hs, objv);
      if args.Err? {
        return Err(args.error);
      }
      var region := create(args.value);
      if region.Err? {
        return Err(RtiError(region.error));
      }
      MintRegionNumber();
      if !regionHash.live {
        return Err(Panic("Tcl_CreateHashEntry"));
      }
      var name := RegionName(regionNum);
      RegionNameRoundTrip(regionNum);
      regionHash := regionHash.(entries := regionHash.entries[name := region.value]);
      commands := commands + {name};
      r := Ok(name);
    }

    /** The do-while loop of createRegion: the next number whose token names no command. */
    method MintRegionNumber()
      modifies this`regionNum
      ensures regionNum > old(regionNum)
      ensures RegionName(regionNum) !in commands
      ensures forall k :: old(regionNum) < k < regionNum ==> RegionName(k) in commands
    {
      regionNum := regionNum + 1;
      while RegionName(regionNum) in commands
        invariant regionNum > old(regionNum)
        invariant forall k :: old(regionNum) < k < regionNum ==> RegionName(k) in commands
        decreases TokensFrom(commands, regionNum)
      {
        RegionNameRoundTrip(regionNum);
        assert RegionName(regionNum) in TokensFrom(commands, regionNum);
        regionNum := regionNum + 1;
      }
    }

    /**
     * deleteRegion theRegion. The token must be bound; only when the RTI has
     * deleted the region are the binding and the token's command removed, so
     * a failed delete leaves the token resolvable.
     */
    method DeleteRegion(tcl: TclConversions, objv: seq<Word>, delete: RegionRef -> Option<RtiException>)
      returns (r: Result<(), TclError>)
      modifies this`regionHash, this`commands
      ensures |objv| != 3 ==> r == Err(WrongNumArgs)
      ensures |objv| == 3 ==>
                var found := old(regionHash).Find(tcl.stringOf(objv[2]));
                && (found.Err? ==> r == Err(found.error))
                && (found.Ok? ==> (r.Ok? <==> delete(found.value).None?))
                && (found.Ok? && r.Err? ==> r.error == RtiError(delete(found.value).value))
      ensures r.Err? ==> regionHash == old(regionHash) && commands == old(commands)
      ensures r.Ok? ==> && regionHash == old(regionHash).(entries := old(regionHash.entries) - {tcl.stringOf(objv[2])})
                        && commands == old(commands) - {tcl.stringOf(objv[2])}
      ensures Numbered(old(regionHash), regionNum) ==> Numbered(regionHash, regionNum)
    {
      if |objv| != 3 {
        return Err(WrongNumArgs);
      }
      var name := tcl.stringOf(objv[2]);
      var found := regionHash.Find(name);
      if found.Err? {
        return Err(found.error);
      }
      var answer := delete(found.value);
      if answer.Some? {
        return Err(RtiError(answer.value));
      }
      regionHash := regionHash.(entries := regionHash.entries - {name});
      commands := commands - {name};
      r := Ok(());
    }

    /** sendInteractionWithRegion: reads the registry, after the parameter set is built. */
    method SendInteractionWithRegion(tcl: TclConversions, hs: HandleService, rti: SendService, objv: seq<Word>)
      returns (r: Result<Word, TclError>, sent: Option<Send>)
      ensures sent.Some? <==> RegionSendRequest(tcl, hs, regionHash, objv).Ok?
      ensures sent.Some? ==> sent.value == RegionSendRequest(tcl, hs, regionHash, objv).value
                             && r == Reply(sent.value, rti(sent.value))
      ensures sent.None? ==> r == Err(RegionSendRequest(tcl, hs, regionHash, objv).error)
    {
      var req := PrepareInteraction(tcl, hs, objv, 5);
      if req.Err? {
        return Err(req.error), None;
      }
      var found := regionHash.Find(tcl.stringOf(objv[4]));
      if found.Err? {
        return Err(found.error), None;
      }
      var s := req.value.(region := Some(found.value));
      sent := Some(s);
      r := Reply(s, rti(s));
    }

    /**
     * tick ?minimum maximum?. The RTI delivers `callbacks` to the federate
     * ambassador, each queueing one command; then, unless the RTI threw, the
     * queue is drained. A bad argument stops tick before the RTI is called.
     * A successful tick leaves as its value the interpreter result of the
     * drain, which starts from the empty result Tcl gives a command.
     */
    method Tick(tcl: TclConversions, objv: seq<Word>, callbacks: seq<Callback>, failure: Option<RtiException>,
                host: Host)
      returns (r: Result<DrainValue, TclError>, evaluated: seq<Command>, reports: seq<BgErrorCall>)
      requires fedAmb.Valid() && fedAmb.Coherent()
      requires callbacks == [] || fedAmb.named
      modifies fedAmb`methodQueue, fedAmb`intClassNameHash, fedAmb`intParmNameHash, fedAmb`objAttrNameHash,
               fedAmb`objClassNameHash, fedAmb`fetchesSinceClear, fedAmb`rtiCalls
      ensures fedAmb.Valid() && fedAmb.Coherent()
      ensures |objv| != 2 && |objv| != 4 ==> r == Err(WrongNumArgs)
      ensures |objv| == 4 && tcl.double(objv[2]).None? ==> r == Err(NotADouble(objv[2]))
      ensures |objv| == 4 && tcl.double(objv[2]).Some? && tcl.double(objv[3]).None? ==> r == Err(NotADouble(objv[3]))
      ensures !TickArguments(tcl, objv) ==> fedAmb.methodQueue == old(fedAmb.methodQueue) && evaluated == [] && reports == []
      ensures !TickArguments(tcl, objv) ==> unchanged(fedAmb)
      ensures TickArguments(tcl, objv) && failure.Some? ==>
                && r == Err(RtiError(failure.value))
                && fedAmb.methodQueue == old(fedAmb.methodQueue) + CommandsFor(callbacks, fedAmb.faObj, fedAmb.rtiAmb)
                && evaluated == [] && reports == []
      ensures TickArguments(tcl, objv) && failure.None? ==>
                && evaluated == old(fedAmb.methodQueue) + CommandsFor(callbacks, fedAmb.faObj, fedAmb.rtiAmb)
                && reports == DrainReports(evaluated, host)
                && r == Ok(DrainValueOf(evaluated, host, ""))
                && fedAmb.methodQueue == []
    {
      evaluated, reports := [], [];
      if !TickArguments(tcl, objv) {
        if |objv| != 2 && |objv| != 4 {
          return Err(WrongNumArgs), [], [];
        } else if tcl.double(objv[2]).None? {
          return Err(NotADouble(objv[2])), [], [];
        } else {
          return Err(NotADouble(objv[3])), [], [];
        }
      }
      DeliverAll(callbacks);
      if failure.Some? {
        return Err(RtiError(failure.value)), [], [];
      }
      var value;
      evaluated, reports, value := fedAmb.EvalQueue(host, "");
      r := Ok(value);
    }

    /** The RTI's delivery of callbacks during tick, one Deliver per callback in order. */
    method DeliverAll(callbacks: seq<Callback>)
      requires fedAmb.Valid() && fedAmb.Coherent()
      requires callbacks == [] || fedAmb.named
      modifies fedAmb`methodQueue, fedAmb`intClassNameHash, fedAmb`intParmNameHash, fedAmb`objAttrNameHash,
               fedAmb`objClassNameHash, fedAmb`fetchesSinceClear, fedAmb`rtiCalls
      ensures fedAmb.Valid() && fedAmb.Coherent()
      ensures fedAmb.methodQueue == old(fedAmb.methodQueue) + CommandsFor(callbacks, fedAmb.faObj, fedAmb.rtiAmb)
    {
      ghost var fa, ns, queue := fedAmb.faObj, fedAmb.rtiAmb, fedAmb.methodQueue;
      var i := 0;
      while i < |callbacks|
        invariant 0 <= i <= |callbacks|
        invariant fedAmb.Valid() && fedAmb.Coherent()
        invariant (callbacks == [] || fedAmb.named) && fedAmb.faObj == fa && fedAmb.rtiAmb == ns
        invariant fedAmb.methodQueue == queue + CommandsFor(callbacks[..i], fa, ns)
      {
        fedAmb.Deliver(callbacks[i]);
        assert callbacks[..i + 1][..i] == callbacks[..i];
        assert CommandsFor(callbacks[..i + 1], fa, ns) == CommandsFor(callbacks[..i], fa, ns) + [CommandFor(callbacks[i], fa, ns)];
        i := i + 1;
      }
      assert callbacks[..i] == callbacks;
    }
  }

  /** The tick arguments are acceptable: none, or a minimum and a maximum that both read as doubles. */
  predicate TickArguments(tcl: TclConversions, objv: seq<Word>) {
    |objv| == 2 || (|objv| == 4 && tcl.double(objv[2]).Some? && tcl.double(objv[3]).Some?)
  }

  /**
   * As written, a successful resign leaves the registry table deleted, and
   * deleteRegion then looks the token up in it: Tcl panics instead of
   * refusing the unknown token.
   */
  method DeleteRegionAfterResign(tcl: TclConversions, joinArgs: seq<Word>, ns: NameService,
                                 join: (string, string) -> Option<RtiException>,
                                 resignArgs: seq<Word>, resign: nat -> Option<RtiException>,
                                 objv: seq<Word>, delete: RegionRef -> Option<RtiException>)
    returns (r: Result<(), TclError>)
    requires |joinArgs| == 5 && join(tcl.stringOf(joinArgs[2]), tcl.stringOf(joinArgs[3])).None?
    requires |resignArgs| == 3 && ResignAction(tcl, resignArgs[2]).Ok?
    requires resign(ResignAction(tcl, resignArgs[2]).value).None?
    requires |objv| == 3
    ensures r == Err(Panic("Tcl_FindHashEntry"))
  {
    var rai := new RtiAmbInfo({}, 0);
    var joined := rai.JoinFederationExecution(tcl, joinArgs, ns, join);
    var resigned, _ := rai.ResignFederationExecution(tcl, resignArgs, resign);
    r := rai.DeleteRegion(tcl, objv, delete);
  }

  /** With the resign that re-initialises the table, the same deleteRegion is refused as an unknown region. */
  method DeleteRegionAfterCorrectedResign(tcl: TclConversions, joinArgs: seq<Word>, ns: NameService,
                                          join: (string, string) -> Option<RtiException>,
                                          resignArgs: seq<Word>, resign: nat -> Option<RtiException>,
                                          objv: seq<Word>, delete: RegionRef -> Option<RtiException>)
    returns (r: Result<(), TclError>)
    requires |joinArgs| == 5 && join(tcl.stringOf(joinArgs[2]), tcl.stringOf(joinArgs[3])).None?
    requires |resignArgs| == 3 && ResignAction(tcl, resignArgs[2]).Ok?
    requires resign(ResignAction(tcl, resignArgs[2]).value).None?
    requires |objv| == 3
    ensures r == Err(UnknownRegion(tcl.stringOf(objv[2])))
  {
    var rai := new RtiAmbInfo({}, 0);
    var joined := rai.JoinFederationExecution(tcl, joinArgs, ns, join);
    var resigned, _ := rai.ResignAndReinitialise(tcl, resignArgs, resign);
    r := rai.DeleteRegion(tcl, objv, delete);
  }
}
