/** `normalize_references`: after every importer has run, each `relatedTo`
    entry is looked up in the global id map under `"<value>***<namingSystem>"`.
    A found entry contributes the whole id list filed under that key; an
    entry that is not found contributes nothing and yields one warning. */
module References {
  import opened Wrappers
  import opened Elements
  import AssocList
  import CompositeKey

  /** The key a `relatedTo` entry is looked up under. */
  function RefKey(r: Ref): string {
    CompositeKey.JoinKey(r.value, r.namingSystem)
  }

  predicate Resolves(idMap: IdMap, r: Ref) {
    AssocList.Lookup(idMap, RefKey(r)).Some?
  }

  /** "Related To Id: <namingSystem>(root), <value>(extension) cannot be found
      in QRDA file." */
  function UnresolvedWarning(r: Ref): Warning {
    UnresolvedReference(r.namingSystem, r.value)
  }

  /** The resolved ids of one element and the warnings its lookups raised. */
  datatype Resolution = Resolution(ids: seq<Id>, warnings: seq<Warning>)

  /** The loop over one element's `relatedTo` entries, in order. */
  function ResolveRefs(refs: seq<Ref>, idMap: IdMap): (r: Resolution)
    ensures |r.warnings| <= |refs|
  {
    if |refs| == 0 then Resolution([], [])
    else
      var rest := ResolveRefs(refs[1..], idMap);
      match AssocList.Lookup(idMap, RefKey(refs[0]))
      case Some(ids) => Resolution(ids + rest.ids, rest.warnings)
      case None => Resolution(rest.ids, [UnresolvedWarning(refs[0])] + rest.warnings)
  }

  /** No warning exactly when every entry is found. */
  lemma {:induction false} NoWarningsIffAllResolve(refs: seq<Ref>, idMap: IdMap)
    ensures ResolveRefs(refs, idMap).warnings == [] <==> forall i :: 0 <= i < |refs| ==> Resolves(idMap, refs[i])
    decreases |refs|
  {
    if |refs| > 0 {
      NoWarningsIffAllResolve(refs[1..], idMap);
      assert forall i :: 0 < i < |refs| ==> refs[i] == refs[1..][i - 1];
    }
  }

  /** An id is in the resolved list exactly when it is filed under the key of
      some entry that was found. */
  lemma {:induction false} ResolvedIds(refs: seq<Ref>, idMap: IdMap, x: Id)
    ensures x in ResolveRefs(refs, idMap).ids <==>
              exists i :: 0 <= i < |refs| && Resolves(idMap, refs[i]) && x in AssocList.Lookup(idMap, RefKey(refs[i])).value
    decreases |refs|
  {
    if |refs| > 0 {
      ResolvedIds(refs[1..], idMap, x);
      assert forall i :: 0 < i < |refs| ==> refs[i] == refs[1..][i - 1];
    }
  }

  /** Every warning names an entry that was not found. */
  lemma {:induction false} UnresolvedWarnings(refs: seq<Ref>, idMap: IdMap)
    ensures forall w :: w in ResolveRefs(refs, idMap).warnings ==>
              exists i :: 0 <= i < |refs| && !Resolves(idMap, refs[i]) && w == UnresolvedWarning(refs[i])
    decreases |refs|
  {
    if |refs| > 0 {
      UnresolvedWarnings(refs[1..], idMap);
      assert forall i :: 0 < i < |refs| ==> refs[i] == refs[1..][i - 1];
    }
  }

  /** Resolving a list of entries is resolving its parts and concatenating. */
  lemma ResolveRefsAppend(a: seq<Ref>, b: seq<Ref>, idMap: IdMap)
    ensures ResolveRefs(a + b, idMap) ==
              Resolution(ResolveRefs(a, idMap).ids + ResolveRefs(b, idMap).ids,
                         ResolveRefs(a, idMap).warnings + ResolveRefs(b, idMap).warnings)
  {
    ResolvedIdsAppend(a, b, idMap);
    UnresolvedAppend(a, b, idMap);
  }

  lemma {:induction false} ResolvedIdsAppend(a: seq<Ref>, b: seq<Ref>, idMap: IdMap)
    ensures ResolveRefs(a + b, idMap).ids == ResolveRefs(a, idMap).ids + ResolveRefs(b, idMap).ids
    decreases |a|
  {
    if |a| == 0 {
      assert a + b == b;
    } else {
      var ab := a + b;
      assert ab[0] == a[0] && ab[1..] == a[1..] + b;
      ResolvedIdsAppend(a[1..], b, idMap);
      var ra, rb := ResolveRefs(a[1..], idMap).ids, ResolveRefs(b, idMap).ids;
      if Resolves(idMap, a[0]) {
        var ids := AssocList.Lookup(idMap, RefKey(a[0])).value;
        assert ids + (ra + rb) == (ids + ra) + rb;
      }
    }
  }

  lemma {:induction false} UnresolvedAppend(a: seq<Ref>, b: seq<Ref>, idMap: IdMap)
    ensures ResolveRefs(a + b, idMap).warnings == ResolveRefs(a, idMap).warnings + ResolveRefs(b, idMap).warnings
    decreases |a|
  {
    if |a| == 0 {
      assert a + b == b;
    } else {
      var ab := a + b;
      assert ab[0] == a[0] && ab[1..] == a[1..] + b;
      UnresolvedAppend(a[1..], b, idMap);
      var ra, rb := ResolveRefs(a[1..], idMap).warnings, ResolveRefs(b, idMap).warnings;
      if !Resolves(idMap, a[0]) {
        var w := [UnresolvedWarning(a[0])];
        assert w + (ra + rb) == (w + ra) + rb;
      }
    }
  }

  /** A single entry contributes its key's whole id list, or one warning
      naming its root and extension. */
  lemma ResolveOneRef(r: Ref, idMap: IdMap)
    ensures ResolveRefs([r], idMap) ==
              if Resolves(idMap, r) then Resolution(AssocList.Lookup(idMap, RefKey(r)).value, [])
              else Resolution([], [UnresolvedWarning(r)])
  {
    assert [r][1..] == [];
  }

  /** One element: untouched apart from `relatedTo`, which, unless nil,
      becomes the resolved ids. */
  function NormalizeElement(e: Extracted, idMap: IdMap): (r: (DataElement<Id>, seq<Warning>))
    ensures r.0.id == e.id && r.0.qdmType == e.qdmType && r.0.codes == e.codes && r.0.relevantPeriod == e.relevantPeriod
    ensures r.0.relatedTo.None? <==> e.relatedTo.None?
    ensures e.relatedTo.None? ==> r.1 == []
    ensures e.relatedTo.Some? ==> r.0.relatedTo.value == ResolveRefs(e.relatedTo.value, idMap).ids
    ensures e.relatedTo.Some? ==> r.1 == ResolveRefs(e.relatedTo.value, idMap).warnings
  {
    match e.relatedTo
    case None => (DataElement(e.id, e.qdmType, e.codes, e.relevantPeriod, None), [])
    case Some(refs) =>
      var res := ResolveRefs(refs, idMap);
      (DataElement(e.id, e.qdmType, e.codes, e.relevantPeriod, Some(res.ids)), res.warnings)
  }

  /** Every element in order; warnings in element order. */
  function NormalizeReferences(elements: seq<Extracted>, idMap: IdMap): (r: (seq<DataElement<Id>>, seq<Warning>))
    ensures |r.0| == |elements|
    ensures forall i :: 0 <= i < |elements| ==> r.0[i] == NormalizeElement(elements[i], idMap).0
  {
    if |elements| == 0 then ([], [])
    else
      var (e, ws) := NormalizeElement(elements[0], idMap);
      var (es, ws') := NormalizeReferences(elements[1..], idMap);
      assert forall i :: 0 < i < |elements| ==> elements[i] == elements[1..][i - 1];
      ([e] + es, ws + ws')
  }

  /** All `relatedTo` entries of some elements, in order. */
  function AllRefs(elements: seq<Extracted>): seq<Ref> {
    if |elements| == 0 then []
    else (match elements[0].relatedTo case None => [] case Some(refs) => refs) + AllRefs(elements[1..])
  }

  /** Normalising element by element warns exactly as resolving all their
      entries as one list would: one warning per unresolved entry, in order. */
  lemma {:induction false} NormalizeWarnings(elements: seq<Extracted>, idMap: IdMap)
    ensures NormalizeReferences(elements, idMap).1 == ResolveRefs(AllRefs(elements), idMap).warnings
    decreases |elements|
  {
    if |elements| > 0 {
      NormalizeWarnings(elements[1..], idMap);
      var own := match elements[0].relatedTo case None => [] case Some(refs) => refs;
      ResolveRefsAppend(own, AllRefs(elements[1..]), idMap);
      if elements[0].relatedTo.None? {
        assert ResolveRefs([], idMap).warnings == [];
      }
    }
  }
}
