/**
 * The names createRegion mints for DDM regions: `::RTI::region<n>`, where n
 * is written the way `sprintf("%d")` writes a positive int. Reading a name
 * back recovers n, so distinct numbers give distinct names.
 */
module Regions {
  import opened TclValues

  const REGION_PREFIX: string := "::RTI::region"

  function DigitChar(d: nat): (c: char)
    requires d < 10
    ensures '0' <= c <= '9'
  {
    "0123456789"[d]
  }

  function DigitValue(c: char): nat
    requires '0' <= c <= '9'
  {
    (c as int - '0' as int) as nat
  }

  predicate AllDigits(s: string) {
    forall i :: 0 <= i < |s| ==> '0' <= s[i] <= '9'
  }

  /** The decimal digits of n, most significant first, with no leading zero. */
  function Decimal(n: nat): (s: string)
    ensures |s| > 0 && AllDigits(s)
    ensures s[0] == '0' ==> n == 0
  {
    if n < 10 then [DigitChar(n)] else Decimal(n / 10) + [DigitChar(n % 10)]
  }

  /** The value of a string of decimal digits. */
  function DigitsValue(s: string): nat
    requires AllDigits(s)
  {
    if s == [] then 0 else DigitsValue(s[..|s| - 1]) * 10 + DigitValue(s[|s| - 1])
  }

  /** Reading the digits back gives the number. */
  lemma {:induction false} DecimalRoundTrip(n: nat)
    ensures DigitsValue(Decimal(n)) == n
  {
    var s := Decimal(n);
    if n >= 10 {
      DecimalRoundTrip(n / 10);
      assert s[..|s| - 1] == Decimal(n / 10);
      assert DigitValue(DigitChar(n % 10)) == n % 10;
    } else {
      assert DigitValue(DigitChar(n)) == n;
    }
  }

  /** The token of region number n. */
  function RegionName(n: nat): (name: string)
    ensures |name| > |REGION_PREFIX| && name[..|REGION_PREFIX|] == REGION_PREFIX
  {
    REGION_PREFIX + Decimal(n)
  }

  /** The number of a region token, if the string is one. */
  function RegionIndexOf(name: string): (k: Option<nat>)
  {
    if |name| > |REGION_PREFIX| && name[..|REGION_PREFIX|] == REGION_PREFIX && AllDigits(name[|REGION_PREFIX|..])
    then Some(DigitsValue(name[|REGION_PREFIX|..]))
    else None
  }

  /** A region token reads back as its own number. */
  lemma RegionNameRoundTrip(n: nat)
    ensures RegionIndexOf(RegionName(n)) == Some(n)
  {
    assert RegionName(n)[|REGION_PREFIX|..] == Decimal(n);
    DecimalRoundTrip(n);
  }

  /** Distinct region numbers give distinct tokens. */
  lemma RegionNameInjective(j: nat, k: nat)
    ensures RegionName(j) == RegionName(k) ==> j == k
  {
    RegionNameRoundTrip(j);
    RegionNameRoundTrip(k);
  }

  /** An RTI::Region*, kept by identity. */
  type RegionRef = nat

  /**
   * regionHash: region tokens bound to the regions they name. `live` is false
   * once Tcl_DeleteHashTable has run on the table and Tcl_InitHashTable has not
   * run since; Tcl then panics on any lookup in it.
   */
  datatype RegionTable = RegionTable(entries: map<string, RegionRef>, live: bool)
  {
    /** getRegionFromObj: the region bound to a token. */
    function Find(name: string): (r: Result<RegionRef, TclError>)
      ensures r.Ok? <==> live && name in entries
      ensures r.Ok? ==> r.value == entries[name]
      ensures live && r.Err? ==> r.error == UnknownRegion(name)
      ensures !live ==> r == Err(Panic("Tcl_FindHashEntry"))
    {
      if !live then Err(Panic("Tcl_FindHashEntry"))
      else if name in entries then Ok(entries[name])
      else Err(UnknownRegion(name))
    }
  }

  /** A table just initialised with Tcl_InitHashTable. */
  const EMPTY_REGION_TABLE: RegionTable := RegionTable(map[], true)

  /** A table after Tcl_DeleteHashTable. */
  const DELETED_REGION_TABLE: RegionTable := RegionTable(map[], false)

  /** Every bound token is a region token numbered at most n. */
  ghost predicate Numbered(t: RegionTable, n: nat) {
    forall name :: name in t.entries ==> RegionIndexOf(name).Some? && RegionIndexOf(name).value <= n
  }

  /** The lookups of a region list in order; the first token that fails decides the error. */
  function FindEach(tcl: TclConversions, t: RegionTable, ws: seq<Word>): (r: Result<seq<RegionRef>, TclError>)
    ensures r.Ok? ==> |r.value| == |ws|
  {
    if ws == [] then Ok([])
    else
      var n := |ws| - 1;
      match FindEach(tcl, t, ws[..n])
      case Err(e) => Err(e)
      case Ok(rs) =>
        match t.Find(tcl.stringOf(ws[n]))
        case Err(e) => Err(e)
        case Ok(reg) => Ok(rs + [reg])
  }

  /** The lookups succeed exactly when every token is bound, and give the bound regions in order. */
  lemma {:induction false} FindEachOk(tcl: TclConversions, t: RegionTable, ws: seq<Word>)
    ensures FindEach(tcl, t, ws).Ok? <==> forall i :: 0 <= i < |ws| ==> t.Find(tcl.stringOf(ws[i])).Ok?
    ensures FindEach(tcl, t, ws).Ok? ==>
              forall i :: 0 <= i < |ws| ==> FindEach(tcl, t, ws).value[i] == t.entries[tcl.stringOf(ws[i])]
  {
    if ws != [] {
      var n := |ws| - 1;
      FindEachOk(tcl, t, ws[..n]);
      assert forall i :: 0 <= i < n ==> ws[..n][i] == ws[i];
    }
  }

  /** The first token that is not bound decides the error. */
  lemma {:induction false} FindEachFirstFailure(tcl: TclConversions, t: RegionTable, ws: seq<Word>, i: nat)
    requires i < |ws| && t.Find(tcl.stringOf(ws[i])).Err?
    requires forall j :: 0 <= j < i ==> t.Find(tcl.stringOf(ws[j])).Ok?
    ensures FindEach(tcl, t, ws) == Err(t.Find(tcl.stringOf(ws[i])).error)
  {
    var n := |ws| - 1;
    if i < n {
      FindEachFirstFailure(tcl, t, ws[..n], i);
    } else {
      FindEachOk(tcl, t, ws[..n]);
      assert forall j :: 0 <= j < n ==> ws[..n][j] == ws[j];
    }
  }

  /** getRegionArrayFromObj: the regions of a Tcl list of region tokens. */
  function RegionArray(tcl: TclConversions, t: RegionTable, w: Word): Result<seq<RegionRef>, TclError> {
    match tcl.listElements(w)
    case None => Err(NotAList(w))
    case Some(ws) => FindEach(tcl, t, ws)
  }

  /**
   * The loop of getRegionArrayFromObj: fills an array with one region per
   * list element, in order, and gives up at the first token not bound.
   */
  method GetRegionArrayFromObj(tcl: TclConversions, t: RegionTable, w: Word) returns (r: Result<seq<RegionRef>, TclError>)
    ensures r == RegionArray(tcl, t, w)
  {
    var listv := tcl.listElements(w);
    if listv.None? {
      return Err(NotAList(w));
    }
    var ws := listv.value;
    var regions: seq<RegionRef> := [];
    var i := 0;
    while i < |ws|
      invariant 0 <= i <= |ws|
      invariant FindEach(tcl, t, ws[..i]) == Ok(regions)
    {
      var found := t.Find(tcl.stringOf(ws[i]));
      assert ws[..i + 1][..i] == ws[..i];
      if found.Err? {
        FindEachFirstFailure(tcl, t, ws, i) by {
          FindEachOk(tcl, t, ws[..i]);
          assert forall j :: 0 <= j < i ==> ws[..i][j] == ws[j];
        }
        return Err(found.error);
      }
      regions := regions + [found.value];
      i := i + 1;
    }
    assert ws[..i] == ws;
    r := Ok(regions);
  }
}
