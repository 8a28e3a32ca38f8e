/**
 * Values shared by every part of the Tcl/RTI bridge: RTI handles, Tcl values,
 * the conversions the Tcl library performs on them, RTI exceptions and the
 * errors a bridge command returns to its Tcl caller.
 */
module TclValues {

  newtype byte = x: int | 0 <= x < 256

  /** RTI::Handle is an unsigned long; the model fixes its width at 32 bits. */
  const HANDLE_MODULUS: int := 0x1_0000_0000

  type Handle = h: int | 0 <= h < HANDLE_MODULUS

  /**
   * The C conversion `(RTI::Handle)wi` of a Tcl wide integer: conversion to an
   * unsigned type keeps the value modulo 2^32, so a negative or oversized
   * integer becomes some other handle rather than an error.
   */
  function HandleOf(wi: int): (h: Handle)
    ensures 0 <= wi < HANDLE_MODULUS ==> h == wi
    ensures exists k :: wi == k * HANDLE_MODULUS + h
  {
    var h := wi % HANDLE_MODULUS;
    assert wi == (wi / HANDLE_MODULUS) * HANDLE_MODULUS + h;
    h
  }

  datatype Option<+T> = None | Some(value: T)

  datatype Result<+T, +E> = Ok(value: T) | Err(error: E)

  /** A Tcl value. Strings, wide integers, doubles, byte arrays and lists. */
  datatype Word =
    | Str(s: string)
    | Wide(i: int)
    | Dbl(d: real)
    | ByteArray(bytes: seq<byte>)
    | List(items: seq<Word>)

  /** A queued command: a Tcl list of words, evaluated as `cmd arg ...`. */
  type Command = seq<Word>

  /** A handle together with the value bytes sent or received for it. */
  datatype HandleValue = HandleValue(handle: Handle, value: seq<byte>)

  /** RTI::EventRetractionHandle. */
  datatype RetractionHandle = RetractionHandle(serial: int, federate: Handle)

  /** An RTI::Exception: its class name (copied to errorCode) and its text. */
  datatype RtiException = RtiException(name: string, reason: string)

  /**
   * The conversions the Tcl library offers on a value: Tcl_GetWideIntFromObj
   * (also used for Tcl_GetLongFromObj), Tcl_GetDoubleFromObj,
   * Tcl_GetStringFromObj, Tcl_GetByteArrayFromObj and Tcl_ListObjGetElements.
   * Their lexical rules are Tcl's and are kept abstract.
   */
  datatype TclConversions = TclConversions(
    wideInt: Word -> Option<int>,
    double: Word -> Option<real>,
    stringOf: Word -> string,
    byteArray: Word -> seq<byte>,
    listElements: Word -> Option<seq<Word>>)

  predicate ParsesAsInt(tcl: TclConversions, w: Word) {
    tcl.wideInt(w).Some?
  }

  /** What Tcl guarantees of a value that already has the requested type. */
  ghost predicate Consistent(tcl: TclConversions) {
    && (forall b :: tcl.byteArray(ByteArray(b)) == b)
    && (forall s :: tcl.stringOf(Str(s)) == s)
    && (forall i :: tcl.wideInt(Wide(i)) == Some(i))
    && (forall xs :: tcl.listElements(List(xs)) == Some(xs))
  }

  /** The errors a bridge command returns with TCL_ERROR. */
  datatype TclError =
    | WrongNumArgs
    | BadIndex(table: string, text: string)  // Tcl_GetIndexFromObj refused the word
    | MissingOptionValue
    | NotAnInteger(word: Word)
    | NotADouble(word: Word)
    | NotAList(word: Word)
    | NoElements(listName: string)
    | OddElements(listName: string)
    | RtiError(exception: RtiException)
    | UnknownRegion(token: string)
    | Panic(call: string)                     // Tcl_Panic: the process aborts

  /**
   * The result text the bridge itself sets for an error; None where Tcl or the
   * RTI supplies the text, or where the bridge leaves the result untouched.
   */
  function SourceMessage(e: TclError): (m: Option<string>)
    ensures m.Some? <==> e.MissingOptionValue? || e.NoElements? || e.OddElements?
  {
    match e
    case MissingOptionValue => Some("Missing option value")
    case NoElements(l) => Some(l + " has no elements.")
    case OddElements(l) => Some(l + " must have an even number of elements.")
    case _ => None
  }
}
