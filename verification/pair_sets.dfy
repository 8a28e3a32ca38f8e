/**
 * The outbound builders of the RTI ambassador commands: the attribute handle
 * array and set built from a Tcl list of names or handles, and the
 * handle/value pair set built from an alternating name/value list. Elements
 * are resolved in list order; the first failure discards what was built and
 * becomes the command's error.
 */
module PairSets {
  import opened TclValues
  import opened Resolver
  import FedAmbassador

  /** What resolving a list of tokens gave, and the RTI queries made on the way. */
  datatype ListResolution = ListResolution(result: Result<seq<Handle>, TclError>, queries: seq<HandleQuery>)

  /** What building a pair set gave, and the RTI queries made on the way. */
  datatype PairResolution = PairResolution(result: Result<seq<HandleValue>, TclError>, queries: seq<HandleQuery>)

  /** Resolves the tokens in order; after the first failure nothing more is resolved. */
  function ResolveEach(tcl: TclConversions, hs: HandleService, kind: HandleKind, ws: seq<Word>): (r: ListResolution)
    ensures r.result.Ok? ==> |r.result.value| == |ws|
  {
    if ws == [] then ListResolution(Ok([]), [])
    else
      var prev := ResolveEach(tcl, hs, kind, ws[..|ws| - 1]);
      if prev.result.Err? then prev
      else
        var res := ResolveHandle(tcl, hs, kind, ws[|ws| - 1]);
        match res.result
        case Ok(h) => ListResolution(Ok(prev.result.value + [h]), prev.queries + res.queries)
        case Err(e) => ListResolution(Err(e), prev.queries + res.queries)
  }

  /** A list resolves exactly when every token does, and then handle i is token i's. */
  lemma {:induction false} ResolveEachOk(tcl: TclConversions, hs: HandleService, kind: HandleKind, ws: seq<Word>)
    ensures ResolveEach(tcl, hs, kind, ws).result.Ok?
        <==> forall i :: 0 <= i < |ws| ==> ResolveHandle(tcl, hs, kind, ws[i]).result.Ok?
    ensures ResolveEach(tcl, hs, kind, ws).result.Ok? ==>
      forall i :: 0 <= i < |ws| ==>
        ResolveEach(tcl, hs, kind, ws).result.value[i] == ResolveHandle(tcl, hs, kind, ws[i]).result.value
  {
    if ws != [] {
      var n := |ws| - 1;
      ResolveEachOk(tcl, hs, kind, ws[..n]);
      assert forall i :: 0 <= i < n ==> ws[..n][i] == ws[i];
    }
  }

  /**
   * The first failing token decides the error, and no token after it is
   * resolved: the queries are those of the prefix that ends with it.
   */
  lemma {:induction false} ResolveEachFirstFailure(tcl: TclConversions, hs: HandleService, kind: HandleKind,
                                                   ws: seq<Word>, i: nat)
    requires i < |ws| && ResolveHandle(tcl, hs, kind, ws[i]).result.Err?
    requires forall j :: 0 <= j < i ==> ResolveHandle(tcl, hs, kind, ws[j]).result.Ok?
    ensures ResolveEach(tcl, hs, kind, ws) == ResolveEach(tcl, hs, kind, ws[..i + 1])
    ensures ResolveEach(tcl, hs, kind, ws).result == Err(ResolveHandle(tcl, hs, kind, ws[i]).result.error)
  {
    if |ws| == i + 1 {
      assert ws[..i + 1] == ws;
      assert ws[..i] == ws[..|ws| - 1];
      ResolveEachOk(tcl, hs, kind, ws[..i]);
    } else {
      var n := |ws| - 1;
      assert ws[..n][i] == ws[i];
      assert forall j :: 0 <= j < i ==> ws[..n][j] == ws[j];
      ResolveEachFirstFailure(tcl, hs, kind, ws[..n], i);
      assert ws[..n][..i + 1] == ws[..i + 1];
    }
  }

  /** The attribute list of getAttrArrayFromObj and getAttrSetFromObj, scoped by object class `cls`. */
  function AttributeList(tcl: TclConversions, hs: HandleService, cls: Handle, w: Word): (r: ListResolution)
    ensures tcl.listElements(w).None? ==> r == ListResolution(Err(NotAList(w)), [])
    ensures tcl.listElements(w).Some? ==> r == ResolveEach(tcl, hs, AttributeKind(cls), tcl.listElements(w).value)
  {
    match tcl.listElements(w)
    case None => ListResolution(Err(NotAList(w)), [])
    case Some(xs) => ResolveEach(tcl, hs, AttributeKind(cls), xs)
  }

  /**
   * getAttrArrayFromObj: one handle per list element, in list order; the
   * first element that does not resolve discards the array.
   */
  method GetAttrArrayFromObj(tcl: TclConversions, hs: HandleService, cls: Handle, w: Word)
    returns (r: Result<seq<Handle>, TclError>, queries: seq<HandleQuery>)
    ensures ListResolution(r, queries) == AttributeList(tcl, hs, cls, w)
  {
    queries := [];
    var listv := tcl.listElements(w);
    if listv.None? {
      return Err(NotAList(w)), queries;
    }
    var xs := listv.value;
    var attrs: seq<Handle> := [];
    var i := 0;
    while i < |xs|
      invariant 0 <= i <= |xs|
      invariant ResolveEach(tcl, hs, AttributeKind(cls), xs[..i]) == ListResolution(Ok(attrs), queries)
    {
      var res := ResolveHandle(tcl, hs, AttributeKind(cls), xs[i]);
      queries := queries + res.queries;
      assert xs[..i + 1][..i] == xs[..i];
      if res.result.Err? {
        ResolveEachOk(tcl, hs, AttributeKind(cls), xs[..i]);
        ResolveEachFirstFailure(tcl, hs, AttributeKind(cls), xs, i);
        return Err(res.result.error), queries;
      }
      attrs := attrs + [res.result.value];
      i := i + 1;
    }
    assert xs[..i] == xs;
    r := Ok(attrs);
  }

  /**
   * getAttrSetFromObj: the same resolution, each handle added to an RTI
   * attribute handle set, so the result is the set of the resolved handles.
   */
  method GetAttrSetFromObj(tcl: TclConversions, hs: HandleService, cls: Handle, w: Word)
    returns (r: Result<set<Handle>, TclError>, queries: seq<HandleQuery>)
    ensures queries == AttributeList(tcl, hs, cls, w).queries
    ensures r.Ok? <==> AttributeList(tcl, hs, cls, w).result.Ok?
    ensures r.Ok? ==> forall h :: h in r.value <==> h in AttributeList(tcl, hs, cls, w).result.value
    ensures r.Err? ==> r.error == AttributeList(tcl, hs, cls, w).result.error
  {
    queries := [];
    var listv := tcl.listElements(w);
    if listv.None? {
      return Err(NotAList(w)), queries;
    }
    var xs := listv.value;
    var attrs: set<Handle> := {};
    ghost var added: seq<Handle> := [];
    var i := 0;
    while i < |xs|
      invariant 0 <= i <= |xs|
      invariant ResolveEach(tcl, hs, AttributeKind(cls), xs[..i]) == ListResolution(Ok(added), queries)
      invariant forall h :: h in attrs <==> h in added
    {
      var res := ResolveHandle(tcl, hs, AttributeKind(cls), xs[i]);
      queries := queries + res.queries;
      assert xs[..i + 1][..i] == xs[..i];
      if res.result.Err? {
        ResolveEachOk(tcl, hs, AttributeKind(cls), xs[..i]);
        ResolveEachFirstFailure(tcl, hs, AttributeKind(cls), xs, i);
        return Err(res.result.error), queries;
      }
      attrs := attrs + {res.result.value};
      added := added + [res.result.value];
      i := i + 1;
    }
    assert xs[..i] == xs;
    r := Ok(attrs);
  }

  /**
   * Resolves an alternating name/value list, pair by pair: the name through
   * the resolver, the value as Tcl's byte array.
   */
  function ResolvePairs(tcl: TclConversions, hs: HandleService, kind: HandleKind, ws: seq<Word>): PairResolution
  {
    if |ws| < 2 then PairResolution(Ok([]), [])
    else
      var n := |ws| - 2;
      PairStep(ResolvePairs(tcl, hs, kind, ws[..n]), ResolveHandle(tcl, hs, kind, ws[n]), tcl.byteArray(ws[n + 1]))
  }

  /** One pair more: a failure so far stays; otherwise the name's resolution decides. */
  function PairStep(prev: PairResolution, res: Resolution, bytes: seq<byte>): (r: PairResolution)
    ensures r.result.Ok? <==> prev.result.Ok? && res.result.Ok?
    ensures r.result.Ok? ==> r.result.value == prev.result.value + [HandleValue(res.result.value, bytes)]
    ensures prev.result.Err? ==> r == prev
  {
    if prev.result.Err? then prev
    else
      match res.result
      case Ok(h) => PairResolution(Ok(prev.result.value + [HandleValue(h, bytes)]), prev.queries + res.queries)
      case Err(e) => PairResolution(Err(e), prev.queries + res.queries)
  }

  /** The resolution of the first 2k + 2 words extends that of the first 2k by one pair. */
  lemma PairsSnoc(tcl: TclConversions, hs: HandleService, kind: HandleKind, xs: seq<Word>, k: nat)
    requires 2 * k + 2 <= |xs|
    ensures ResolvePairs(tcl, hs, kind, xs[..2 * k + 2])
         == PairStep(ResolvePairs(tcl, hs, kind, xs[..2 * k]), ResolveHandle(tcl, hs, kind, xs[2 * k]),
                     tcl.byteArray(xs[2 * k + 1]))
  {
    assert xs[..2 * k + 2][..2 * k] == xs[..2 * k];
  }

  /** A list of m pairs that resolves gives m pairs, pair i being (resolve(list[2i]), bytes(list[2i+1])). */
  lemma {:induction false} ResolvePairsAt(tcl: TclConversions, hs: HandleService, kind: HandleKind,
                                          ws: seq<Word>, m: nat, i: nat)
    requires |ws| == 2 * m && ResolvePairs(tcl, hs, kind, ws).result.Ok?
    requires i < m
    ensures |ResolvePairs(tcl, hs, kind, ws).result.value| == m
    ensures ResolveHandle(tcl, hs, kind, ws[2 * i]).result.Ok?
    ensures ResolvePairs(tcl, hs, kind, ws).result.value[i]
         == HandleValue(ResolveHandle(tcl, hs, kind, ws[2 * i]).result.value, tcl.byteArray(ws[2 * i + 1]))
  {
    var n := |ws| - 2;
    if i < m - 1 {
      ResolvePairsAt(tcl, hs, kind, ws[..n], m - 1, i);
      assert ws[..n][2 * i] == ws[2 * i] && ws[..n][2 * i + 1] == ws[2 * i + 1];
    } else if m > 1 {
      ResolvePairsAt(tcl, hs, kind, ws[..n], m - 1, 0);
    }
  }

  /** A list of m pairs resolves exactly when every name position does. */
  lemma {:induction false} ResolvePairsOk(tcl: TclConversions, hs: HandleService, kind: HandleKind, ws: seq<Word>, m: nat)
    requires |ws| == 2 * m
    ensures ResolvePairs(tcl, hs, kind, ws).result.Ok?
        <==> forall i :: 0 <= i < m ==> ResolveHandle(tcl, hs, kind, ws[2 * i]).result.Ok?
  {
    if m > 0 {
      var n := |ws| - 2;
      ResolvePairsOk(tcl, hs, kind, ws[..n], m - 1);
      assert forall i :: 0 <= i < m - 1 ==> ws[..n][2 * i] == ws[2 * i];
    }
  }

  /** Once a pair's name fails, the rest of the list leaves the failure as it is. */
  lemma {:induction false} PairPrefixFailure(tcl: TclConversions, hs: HandleService, kind: HandleKind,
                                             xs: seq<Word>, m: nat, k: nat)
    requires |xs| == 2 * m && k < m
    requires ResolvePairs(tcl, hs, kind, xs[..2 * k + 2]).result.Err?
    ensures ResolvePairs(tcl, hs, kind, xs) == ResolvePairs(tcl, hs, kind, xs[..2 * k + 2])
  {
    if k + 1 == m {
      assert xs[..2 * k + 2] == xs;
    } else {
      var n := |xs| - 2;
      assert xs[..n][..2 * k + 2] == xs[..2 * k + 2];
      PairPrefixFailure(tcl, hs, kind, xs[..n], m - 1, k);
    }
  }

  /**
   * The pair list of sendInteraction, updateAttributeValues and
   * sendInteractionWithRegion: it must be a non-empty list of even length
   * before any element is resolved; `listName` names it in the error.
   */
  function PairSet(tcl: TclConversions, hs: HandleService, kind: HandleKind, listName: string, w: Word): PairResolution
  {
    match tcl.listElements(w)
    case None => PairResolution(Err(NotAList(w)), [])
    case Some(xs) =>
      if |xs| == 0 then PairResolution(Err(NoElements(listName)), [])
      else if |xs| % 2 != 0 then PairResolution(Err(OddElements(listName)), [])
      else ResolvePairs(tcl, hs, kind, xs)
  }

  /**
   * A list that is empty or of odd length is refused with its message before
   * any token is resolved; a list of m pairs that resolves gives m pairs.
   */
  lemma PairSetValidatesFirst(tcl: TclConversions, hs: HandleService, kind: HandleKind, listName: string, w: Word)
    ensures var xs := tcl.listElements(w);
      && (xs.Some? && |xs.value| == 0 ==>
            PairSet(tcl, hs, kind, listName, w) == PairResolution(Err(NoElements(listName)), []))
      && (xs.Some? && |xs.value| % 2 == 1 ==>
            PairSet(tcl, hs, kind, listName, w) == PairResolution(Err(OddElements(listName)), []))
      && (PairSet(tcl, hs, kind, listName, w).result.Ok? ==>
            xs.Some? && |xs.value| > 0 && |xs.value| % 2 == 0
            && 2 * |PairSet(tcl, hs, kind, listName, w).result.value| == |xs.value|)
  {
    var xs := tcl.listElements(w);
    if xs.Some? && |xs.value| > 0 && |xs.value| % 2 == 0 && PairSet(tcl, hs, kind, listName, w).result.Ok? {
      ResolvePairsAt(tcl, hs, kind, xs.value, |xs.value| / 2, 0);
    }
  }

  /**
   * The pair-list loop of the send commands: checks the length, then
   * resolves the names in list order and adds each pair to the set; the
   * first failure deletes the partial set.
   */
  method BuildPairSet(tcl: TclConversions, hs: HandleService, kind: HandleKind, listName: string, w: Word)
    returns (r: Result<seq<HandleValue>, TclError>, queries: seq<HandleQuery>)
    ensures PairResolution(r, queries) == PairSet(tcl, hs, kind, listName, w)
  {
    var listv := tcl.listElements(w);
    if listv.None? {
      return Err(NotAList(w)), [];
    }
    var xs := listv.value;
    if |xs| == 0 {
      return Err(NoElements(listName)), [];
    }
    if |xs| % 2 != 0 {
      return Err(OddElements(listName)), [];
    }
    r, queries := AddPairs(tcl, hs, kind, xs, |xs| / 2);
  }

  /** The loop of BuildPairSet over the m pairs of a checked list. */
  method AddPairs(tcl: TclConversions, hs: HandleService, kind: HandleKind, xs: seq<Word>, m: nat)
    returns (r: Result<seq<HandleValue>, TclError>, queries: seq<HandleQuery>)
    requires |xs| == 2 * m
    ensures PairResolution(r, queries) == ResolvePairs(tcl, hs, kind, xs)
  {
    queries := [];
    var pairs: seq<HandleValue> := [];
    var k := 0;
    while k < m
      invariant k <= m
      invariant ResolvePairs(tcl, hs, kind, xs[..2 * k]) == PairResolution(Ok(pairs), queries)
    {
      var res := ResolveHandle(tcl, hs, kind, xs[2 * k]);
      queries := queries + res.queries;
      PairsSnoc(tcl, hs, kind, xs, k);
      if res.result.Err? {
        PairPrefixFailure(tcl, hs, kind, xs, m, k);
        return Err(res.result.error), queries;
      }
      pairs := pairs + [HandleValue(res.result.value, tcl.byteArray(xs[2 * k + 1]))];
      k := k + 1;
    }
    assert xs[..2 * k] == xs;
    r := Ok(pairs);
  }

  /**
   * What a federate receives can be sent back: an inbound pair list,
   * flattened with the RTI's names, builds the same pairs again when the RTI
   * maps each name back to its handle and no name reads as an integer.
   */
  lemma {:induction false} FlatPairsRoundTrip(tcl: TclConversions, hs: HandleService, ns: FedAmbassador.NameService,
                                              ic: Handle, ps: seq<HandleValue>)
    requires Consistent(tcl)
    requires forall p :: p in ps ==> !ParsesAsInt(tcl, Str(ns.parameterName(p.handle, ic)))
    requires forall p :: p in ps ==>
      hs(HandleQuery(ParameterKind(ic), ns.parameterName(p.handle, ic))) == Ok(p.handle)
    ensures ResolvePairs(tcl, hs, ParameterKind(ic), FedAmbassador.FlatPairs(ps, FedAmbassador.ParameterNamer(ns, ic))).result
         == Ok(ps)
  {
    var namer := FedAmbassador.ParameterNamer(ns, ic);
    if ps != [] {
      var m := |ps| - 1;
      var ws := FedAmbassador.FlatPairs(ps, namer);
      var n := |ws| - 2;
      var name := ns.parameterName(ps[m].handle, ic);
      assert ws[..n] == FedAmbassador.FlatPairs(ps[..m], namer);
      assert ws[n] == Str(name) && ws[n + 1] == ByteArray(ps[m].value);
      assert forall p :: p in ps[..m] ==> p in ps;
      FlatPairsRoundTrip(tcl, hs, ns, ic, ps[..m]);
      assert ps[m] in ps;
      NameResolvesBack(tcl, hs, ParameterKind(ic), name, ps[m].handle);
      assert tcl.byteArray(ByteArray(ps[m].value)) == ps[m].value;
      ResolvePairsSnoc(tcl, hs, ParameterKind(ic), ws, ps[..m], ps[m]);
      LastSplit(ps);
    }
  }

  /** A non-empty sequence is its prefix followed by its last element. */
  lemma LastSplit<T>(s: seq<T>)
    requires s != []
    ensures s == s[..|s| - 1] + [s[|s| - 1]]
  {
  }

  /** A list whose last pair resolves extends the resolution of the rest by that pair. */
  lemma ResolvePairsSnoc(tcl: TclConversions, hs: HandleService, kind: HandleKind, ws: seq<Word>,
                         prefix: seq<HandleValue>, last: HandleValue)
    requires |ws| >= 2
    requires ResolvePairs(tcl, hs, kind, ws[..|ws| - 2]).result == Ok(prefix)
    requires ResolveHandle(tcl, hs, kind, ws[|ws| - 2]).result == Ok(last.handle)
    requires tcl.byteArray(ws[|ws| - 1]) == last.value
    ensures ResolvePairs(tcl, hs, kind, ws).result == Ok(prefix + [last])
  {
  }

  /** A name that does not read as an integer resolves to the handle the RTI maps it to. */
  lemma NameResolvesBack(tcl: TclConversions, hs: HandleService, kind: HandleKind, name: string, h: Handle)
    requires Consistent(tcl)
    requires !ParsesAsInt(tcl, Str(name)) && hs(HandleQuery(kind, name)) == Ok(h)
    ensures ResolveHandle(tcl, hs, kind, Str(name)).result == Ok(h)
  {
    assert tcl.stringOf(Str(name)) == name;
  }

  /** The round trip through the whole pair-list check, for a non-empty interaction. */
  lemma PairSetRoundTrip(tcl: TclConversions, hs: HandleService, ns: FedAmbassador.NameService,
                         ic: Handle, ps: seq<HandleValue>)
    requires Consistent(tcl) && ps != []
    requires forall p :: p in ps ==> !ParsesAsInt(tcl, Str(ns.parameterName(p.handle, ic)))
    requires forall p :: p in ps ==>
      hs(HandleQuery(ParameterKind(ic), ns.parameterName(p.handle, ic))) == Ok(p.handle)
    ensures PairSet(tcl, hs, ParameterKind(ic), "theParameters",
                    List(FedAmbassador.FlatPairs(ps, FedAmbassador.ParameterNamer(ns, ic)))).result == Ok(ps)
  {
    var ws := FedAmbassador.FlatPairs(ps, FedAmbassador.ParameterNamer(ns, ic));
    assert tcl.listElements(List(ws)) == Some(ws);
    assert |ws| % 2 == 0 && |ws| != 0 by {
      assert |ws| == 2 * |ps|;
    }
    FlatPairsRoundTrip(tcl, hs, ns, ic, ps);
    assert PairSet(tcl, hs, ParameterKind(ic), "theParameters", List(ws)) == ResolvePairs(tcl, hs, ParameterKind(ic), ws);
  }
}
