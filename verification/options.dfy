/**
 * The `?-time fedTime? ?-tag theTag?` options of sendInteraction,
 * updateAttributeValues and sendInteractionWithRegion. The scanner steps two
 * words at a time from the first option position; only the exact words
 * `-time` and `-tag` are options, each needs a value, and a later occurrence
 * overrides an earlier one.
 */
module Options {
  import opened TclValues

  const TIME_OPTION: string := "-time"
  const TAG_OPTION: string := "-tag"

  /** The scanned options: the tag (default empty) and the time stamp, if one was given. */
  datatype SendOptions = SendOptions(tag: string, time: Option<real>)

  const DEFAULT_OPTIONS: SendOptions := SendOptions("", None)

  /** The scan from position i on, with the options read so far in acc. */
  function ScanFrom(tcl: TclConversions, objv: seq<Word>, i: nat, acc: SendOptions): Result<SendOptions, TclError>
    decreases |objv| - i
  {
    if i >= |objv| then Ok(acc)
    else
      var name := tcl.stringOf(objv[i]);
      if name != TIME_OPTION && name != TAG_OPTION then Err(BadIndex("option", name))
      else if i + 1 >= |objv| then Err(MissingOptionValue)
      else if name == TIME_OPTION then
        match tcl.double(objv[i + 1])
        case None => Err(NotADouble(objv[i + 1]))
        case Some(t) => ScanFrom(tcl, objv, i + 2, acc.(time := Some(t)))
      else ScanFrom(tcl, objv, i + 2, acc.(tag := tcl.stringOf(objv[i + 1])))
  }

  /** Position i is an option position of a scan that starts at `start`. */
  ghost predicate OptionAt(objv: seq<Word>, start: nat, i: int) {
    start <= i < |objv| && (i - start) % 2 == 0
  }

  /** The option positions after the first are those of the scan two words on. */
  lemma OptionAtNext(objv: seq<Word>, start: nat, i: int)
    ensures OptionAt(objv, start + 2, i) <==> OptionAt(objv, start, i) && i != start
  {
    if start < i {
      assert (i - start) % 2 == (i - (start + 2)) % 2 by {
        assert i - start == (i - (start + 2)) + 2;
      }
    }
  }

  /** Every option position holds a known option followed by a value, and every time parses. */
  ghost predicate WellFormed(tcl: TclConversions, objv: seq<Word>, start: nat) {
    forall i :: OptionAt(objv, start, i) ==> GoodOption(tcl, objv, i)
  }

  /** Position i holds a known option followed by a value, and a time there parses. */
  ghost predicate GoodOption(tcl: TclConversions, objv: seq<Word>, i: int) {
    && 0 <= i < |objv|
    && (tcl.stringOf(objv[i]) == TIME_OPTION || tcl.stringOf(objv[i]) == TAG_OPTION)
    && i + 1 < |objv|
    && (tcl.stringOf(objv[i]) == TIME_OPTION ==> tcl.double(objv[i + 1]).Some?)
  }

  /**
   * The option loop of the send commands: `tag`, `gotTime` and `t` are
   * updated in place, and the first bad word ends the scan with its error.
   */
  method ScanOptions(tcl: TclConversions, objv: seq<Word>, start: nat) returns (r: Result<SendOptions, TclError>)
    requires start <= |objv|
    ensures r == ScanFrom(tcl, objv, start, DEFAULT_OPTIONS)
    ensures start == |objv| ==> r == Ok(SendOptions("", None))
  {
    var tag := "";
    var gotTime := false;
    var t: real := 0.0;
    var i := start;
    while i < |objv|
      invariant start <= i <= |objv|
      invariant ScanFrom(tcl, objv, start, DEFAULT_OPTIONS)
             == ScanFrom(tcl, objv, i, SendOptions(tag, if gotTime then Some(t) else None))
      decreases |objv| - i
    {
      var name := tcl.stringOf(objv[i]);
      if name != TIME_OPTION && name != TAG_OPTION {
        return Err(BadIndex("option", name));
      }
      if i + 1 >= |objv| {
        return Err(MissingOptionValue);
      }
      if name == TIME_OPTION {
        var d := tcl.double(objv[i + 1]);
        if d.None? {
          return Err(NotADouble(objv[i + 1]));
        }
        t := d.value;
        gotTime := true;
      } else {
        tag := tcl.stringOf(objv[i + 1]);
      }
      i := i + 2;
    }
    r := Ok(SendOptions(tag, if gotTime then Some(t) else None));
  }

  /** The scan succeeds exactly when the options are well formed. */
  lemma {:induction false} ScanSucceedsIffWellFormed(tcl: TclConversions, objv: seq<Word>, start: nat, acc: SendOptions)
    ensures ScanFrom(tcl, objv, start, acc).Ok? <==> WellFormed(tcl, objv, start)
    decreases |objv| - start
  {
    if start < |objv| {
      var name := tcl.stringOf(objv[start]);
      assert OptionAt(objv, start, start);
      if (name == TIME_OPTION || name == TAG_OPTION) && start + 1 < |objv|
         && (name == TIME_OPTION ==> tcl.double(objv[start + 1]).Some?) {
        var acc' := if name == TIME_OPTION then acc.(time := tcl.double(objv[start + 1])) else acc.(tag := tcl.stringOf(objv[start + 1]));
        ScanSucceedsIffWellFormed(tcl, objv, start + 2, acc');
        assert GoodOption(tcl, objv, start);
        if WellFormed(tcl, objv, start) {
          forall i | OptionAt(objv, start + 2, i) ensures GoodOption(tcl, objv, i) {
            OptionAtNext(objv, start, i);
          }
        }
        if WellFormed(tcl, objv, start + 2) {
          forall i | OptionAt(objv, start, i) ensures GoodOption(tcl, objv, i) {
            OptionAtNext(objv, start, i);
          }
        }
      }
    }
  }

  /** A scan over positions that hold no `-tag` keeps the tag it started with. */
  lemma {:induction false} TagKept(tcl: TclConversions, objv: seq<Word>, start: nat, acc: SendOptions)
    requires ScanFrom(tcl, objv, start, acc).Ok?
    requires forall j :: OptionAt(objv, start, j) ==> tcl.stringOf(objv[j]) != TAG_OPTION
    ensures ScanFrom(tcl, objv, start, acc).value.tag == acc.tag
    decreases |objv| - start
  {
    if start < |objv| {
      assert OptionAt(objv, start, start);
      var name := tcl.stringOf(objv[start]);
      forall j | OptionAt(objv, start + 2, j) ensures OptionAt(objv, start, j) { }
      var acc' := acc.(time := tcl.double(objv[start + 1]));
      TagKept(tcl, objv, start + 2, acc');
    }
  }

  /** A scan over positions that hold no `-time` keeps the time it started with. */
  lemma {:induction false} TimeKept(tcl: TclConversions, objv: seq<Word>, start: nat, acc: SendOptions)
    requires ScanFrom(tcl, objv, start, acc).Ok?
    requires forall j :: OptionAt(objv, start, j) ==> tcl.stringOf(objv[j]) != TIME_OPTION
    ensures ScanFrom(tcl, objv, start, acc).value.time == acc.time
    decreases |objv| - start
  {
    if start < |objv| {
      assert OptionAt(objv, start, start);
      forall j | OptionAt(objv, start + 2, j) ensures OptionAt(objv, start, j) { }
      var acc' := acc.(tag := tcl.stringOf(objv[start + 1]));
      TimeKept(tcl, objv, start + 2, acc');
    }
  }

  /** The last `-tag` decides the tag: a later occurrence overrides an earlier one. */
  lemma {:induction false} LastTagWins(tcl: TclConversions, objv: seq<Word>, start: nat, acc: SendOptions, i: nat)
    requires ScanFrom(tcl, objv, start, acc).Ok?
    requires OptionAt(objv, start, i) && tcl.stringOf(objv[i]) == TAG_OPTION
    requires forall j :: OptionAt(objv, start, j) && j > i ==> tcl.stringOf(objv[j]) != TAG_OPTION
    ensures i + 1 < |objv| && ScanFrom(tcl, objv, start, acc).value.tag == tcl.stringOf(objv[i + 1])
    decreases |objv| - start
  {
    var name := tcl.stringOf(objv[start]);
    assert OptionAt(objv, start, start);
    if start == i {
      var acc' := acc.(tag := tcl.stringOf(objv[i + 1]));
      forall j | OptionAt(objv, start + 2, j) ensures OptionAt(objv, start, j) && j > i { }
      TagKept(tcl, objv, start + 2, acc');
    } else {
      forall j | OptionAt(objv, start + 2, j) ensures OptionAt(objv, start, j) { }
      assert OptionAt(objv, start + 2, i);
      var acc' := if name == TIME_OPTION then acc.(time := tcl.double(objv[start + 1])) else acc.(tag := tcl.stringOf(objv[start + 1]));
      LastTagWins(tcl, objv, start + 2, acc', i);
    }
  }

  /** The last `-time` decides the time stamp. */
  lemma {:induction false} LastTimeWins(tcl: TclConversions, objv: seq<Word>, start: nat, acc: SendOptions, i: nat)
    requires ScanFrom(tcl, objv, start, acc).Ok?
    requires OptionAt(objv, start, i) && tcl.stringOf(objv[i]) == TIME_OPTION
    requires forall j :: OptionAt(objv, start, j) && j > i ==> tcl.stringOf(objv[j]) != TIME_OPTION
    ensures i + 1 < |objv| && ScanFrom(tcl, objv, start, acc).value.time == tcl.double(objv[i + 1])
    ensures ScanFrom(tcl, objv, start, acc).value.time.Some?
    decreases |objv| - start
  {
    var name := tcl.stringOf(objv[start]);
    assert OptionAt(objv, start, start);
    if start == i {
      var acc' := acc.(time := tcl.double(objv[i + 1]));
      forall j | OptionAt(objv, start + 2, j) ensures OptionAt(objv, start, j) && j > i { }
      TimeKept(tcl, objv, start + 2, acc');
    } else {
      forall j | OptionAt(objv, start + 2, j) ensures OptionAt(objv, start, j) { }
      assert OptionAt(objv, start + 2, i);
      var acc' := if name == TIME_OPTION then acc.(time := tcl.double(objv[start + 1])) else acc.(tag := tcl.stringOf(objv[start + 1]));
      LastTimeWins(tcl, objv, start + 2, acc', i);
    }
  }

  /** The scan ends with a time stamp exactly when one was given, here or at some option position. */
  lemma {:induction false} TimeGivenIffTimeOption(tcl: TclConversions, objv: seq<Word>, start: nat, acc: SendOptions)
    requires ScanFrom(tcl, objv, start, acc).Ok?
    ensures ScanFrom(tcl, objv, start, acc).value.time.Some?
        <==> acc.time.Some? || exists j :: OptionAt(objv, start, j) && tcl.stringOf(objv[j]) == TIME_OPTION
    decreases |objv| - start
  {
    if start >= |objv| {
      assert forall j :: !OptionAt(objv, start, j);
    } else {
      var name := tcl.stringOf(objv[start]);
      var acc' := if name == TIME_OPTION then acc.(time := tcl.double(objv[start + 1])) else acc.(tag := tcl.stringOf(objv[start + 1]));
      TimeGivenIffTimeOption(tcl, objv, start + 2, acc');
      assert OptionAt(objv, start, start);
      forall j | OptionAt(objv, start + 2, j) ensures OptionAt(objv, start, j) { }
      forall j | OptionAt(objv, start, j) && j != start ensures OptionAt(objv, start + 2, j) { }
    }
  }
}
