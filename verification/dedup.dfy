/** Per-importer deduplication: the body of the `id_map.each_pair` loop in
    `import_data_elements`. For every key of one importer's id map it warns
    when the key lists several ids, keeps the element found by the LAST id,
    warns and keeps nothing when that element is missing, and for encounters
    also keeps each earlier duplicate whose uniqueness key is new. */
module Dedup {
  import opened Wrappers
  import opened Elements
  import opened EncounterUniqueness

  /** The `NoMethodError` raised when an earlier duplicate id of an encounter
      names no element (`nil.codes` in the uniqueness key). */
  datatype Crash = NilDuplicate(key: string, id: Id)

  /** What one key contributes: kept elements and warnings, in order. */
  datatype Outcome = Outcome(kept: seq<Extracted>, warnings: seq<Warning>)

  /** The uniqueness keys of some elements. */
  function KeysOf(s: seq<Extracted>, key: Extracted -> string): set<string> {
    set e | e in s :: key(e)
  }

  predicate PairwiseDistinctKeys(s: seq<Extracted>, key: Extracted -> string) {
    forall i, j :: 0 <= i < j < |s| ==> key(s[i]) != key(s[j])
  }

  /** The elements named by `ids`, or nil if any id names none. */
  function ResolveAll(elements: seq<Extracted>, ids: seq<Id>): (r: Option<seq<Extracted>>)
    ensures r.None? <==> exists j :: 0 <= j < |ids| && Find(elements, ids[j]).None?
    ensures r.Some? ==> |r.value| == |ids|
    ensures r.Some? ==> forall j :: 0 <= j < |ids| ==> Find(elements, ids[j]) == Some(r.value[j])
  {
    if |ids| == 0 then Some([])
    else match Find(elements, ids[0])
      case None => None
      case Some(d) =>
        var rest := ResolveAll(elements, ids[1..]);
        assert forall j :: 0 < j < |ids| ==> ids[j] == ids[1..][j - 1];
        if rest.None? then None
        else
          var r := [d] + rest.value;
          assert forall j :: 0 < j < |ids| ==> r[j] == rest.value[j - 1];
          Some(r)
  }

  /** The loop over the earlier duplicates (all ids but the last): a duplicate
      whose key is in `seen` is skipped, any other is kept and its key added to
      `seen`. It fails with the first id that names no element. */
  function Refine(elements: seq<Extracted>, ids: seq<Id>, key: Extracted -> string, seen: set<string>)
    : (r: Result<seq<Extracted>, Id>)
    ensures r.Failure? <==> ResolveAll(elements, ids).None?
    ensures r.Failure? ==> r.error in ids && Find(elements, r.error).None?
    ensures r.Success? ==> |r.value| <= |ids|
    ensures r.Success? ==> forall i :: 0 <= i < |r.value| ==> r.value[i] in elements
    decreases |ids|
  {
    if |ids| == 0 then Success([])
    else match Find(elements, ids[0])
      case None => Failure(ids[0])
      case Some(d) =>
        var k := key(d);
        if k in seen then
          var r := Refine(elements, ids[1..], key, seen);
          assert r.Failure? ==> r.error in ids;
          r
        else match Refine(elements, ids[1..], key, seen + {k})
          case Failure(id) =>
            assert id in ids;
            Failure(id)
          case Success(rest) =>
            var kept := [d] + rest;
            assert forall i :: 0 < i < |kept| ==> kept[i] == rest[i - 1];
            Success(kept)
  }

  /** What the loop keeps has pairwise different keys, none of them in
      `seen`. */
  lemma {:induction false} RefineKeysFresh(elements: seq<Extracted>, ids: seq<Id>, key: Extracted -> string, seen: set<string>)
    requires Refine(elements, ids, key, seen).Success?
    ensures var kept := Refine(elements, ids, key, seen).value;
            && PairwiseDistinctKeys(kept, key)
            && forall i :: 0 <= i < |kept| ==> key(kept[i]) !in seen
    decreases |ids|
  {
    if |ids| > 0 {
      var d := Find(elements, ids[0]).value;
      var k := key(d);
      if k in seen {
        RefineKeysFresh(elements, ids[1..], key, seen);
      } else {
        RefineKeysFresh(elements, ids[1..], key, seen + {k});
        var rest := Refine(elements, ids[1..], key, seen + {k}).value;
        var kept := [d] + rest;
        assert Refine(elements, ids, key, seen).value == kept;
        assert forall i :: 0 < i < |kept| ==> kept[i] == rest[i - 1];
      }
    }
  }

  /** Together with `seen`, what the loop keeps covers the key of every
      duplicate. */
  lemma {:induction false} RefineCoversKeys(elements: seq<Extracted>, ids: seq<Id>, key: Extracted -> string, seen: set<string>)
    requires Refine(elements, ids, key, seen).Success?
    ensures forall d :: d in ResolveAll(elements, ids).value ==> key(d) in seen + KeysOf(Refine(elements, ids, key, seen).value, key)
    decreases |ids|
  {
    if |ids| > 0 {
      var d := Find(elements, ids[0]).value;
      var k := key(d);
      var dups := ResolveAll(elements, ids[1..]).value;
      assert ResolveAll(elements, ids).value == [d] + dups;
      if k in seen {
        RefineCoversKeys(elements, ids[1..], key, seen);
      } else {
        RefineCoversKeys(elements, ids[1..], key, seen + {k});
        var rest := Refine(elements, ids[1..], key, seen + {k}).value;
        assert Refine(elements, ids, key, seen).value == [d] + rest;
        KeysOfCons(d, rest, key);
      }
    }
  }

  /** Reference definition of what the loop keeps: an earlier duplicate is
      kept exactly when its key is neither in `seen` nor the key of any
      duplicate before it. */
  function FirstOccurrences(ds: seq<Extracted>, key: Extracted -> string, seen: set<string>): seq<Extracted>
    decreases |ds|
  {
    if |ds| == 0 then []
    else
      var init, d := ds[..|ds| - 1], ds[|ds| - 1];
      FirstOccurrences(init, key, seen)
        + (if key(d) !in seen && key(d) !in KeysOf(init, key) then [d] else [])
  }

  lemma {:induction false} FirstOccurrencesCons(d: Extracted, rest: seq<Extracted>, key: Extracted -> string, seen: set<string>)
    ensures FirstOccurrences([d] + rest, key, seen) ==
              if key(d) in seen then FirstOccurrences(rest, key, seen)
              else [d] + FirstOccurrences(rest, key, seen + {key(d)})
    decreases |rest|
  {
    var k := key(d);
    if |rest| == 0 {
      assert [d] + rest == [d];
      assert [d][..0] == [];
    } else {
      var init, x := rest[..|rest| - 1], rest[|rest| - 1];
      var all := [d] + rest;
      assert all[..|all| - 1] == [d] + init;
      assert all[|all| - 1] == x;
      assert KeysOf([d] + init, key) == {k} + KeysOf(init, key);
      FirstOccurrencesCons(d, init, key, seen);
      var kx := key(x);
      if k in seen {
        var tail := if kx !in seen && kx !in KeysOf(init, key) then [x] else [];
        assert FirstOccurrences(all, key, seen) == FirstOccurrences(init, key, seen) + tail;
        assert FirstOccurrences(rest, key, seen) == FirstOccurrences(init, key, seen) + tail;
      } else {
        var tail := if kx !in seen + {k} && kx !in KeysOf(init, key) then [x] else [];
        assert FirstOccurrences(all, key, seen) == [d] + FirstOccurrences(init, key, seen + {k}) + tail;
        assert FirstOccurrences(rest, key, seen + {k}) == FirstOccurrences(init, key, seen + {k}) + tail;
      }
    }
  }

  /** The loop keeps exactly the first occurrence of every key not yet seen. */
  lemma {:induction false} RefineIsFirstOccurrences(elements: seq<Extracted>, ids: seq<Id>, key: Extracted -> string, seen: set<string>)
    requires ResolveAll(elements, ids).Some?
    ensures Refine(elements, ids, key, seen) == Success(FirstOccurrences(ResolveAll(elements, ids).value, key, seen))
    decreases |ids|
  {
    if |ids| > 0 {
      var d := Find(elements, ids[0]).value;
      var rest := ResolveAll(elements, ids[1..]).value;
      assert ResolveAll(elements, ids).value == [d] + rest;
      FirstOccurrencesCons(d, rest, key, seen);
      if key(d) in seen {
        RefineIsFirstOccurrences(elements, ids[1..], key, seen);
      } else {
        RefineIsFirstOccurrences(elements, ids[1..], key, seen + {key(d)});
      }
    }
  }

  lemma {:induction false} FirstOccurrencesSubset(ds: seq<Extracted>, key: Extracted -> string, seen: set<string>)
    ensures forall x :: x in FirstOccurrences(ds, key, seen) ==> x in ds
    decreases |ds|
  {
    if |ds| > 0 {
      var init := ds[..|ds| - 1];
      FirstOccurrencesSubset(init, key, seen);
      assert forall x :: x in init ==> x in ds;
    }
  }

  /** The ids before the last one. */
  function Earlier(ids: seq<Id>): seq<Id> {
    if |ids| == 0 then [] else ids[..|ids| - 1]
  }

  /** One key of the id map: warn on several ids, keep the element found by
      the last id (or warn that the template did not parse), and refine
      encounters. */
  function DedupKey(elements: seq<Extracted>, key: string, ids: seq<Id>): (r: Result<Outcome, Crash>)
    ensures r.Success? ==> r.value.warnings == (if |ids| > 1 then [DuplicateIdWarning(key)] else []) +
                                                (if FindLast(elements, ids).None? then [ParseErrorWarning(key)] else [])
    ensures r.Success? ==> forall e :: e in r.value.kept ==> e in elements
    ensures FindLast(elements, ids).None? ==> r.Success? && r.value.kept == []
    ensures FindLast(elements, ids).Some? && FindLast(elements, ids).value.qdmType != EncounterPerformedType ==>
              r.Success? && r.value.kept == [FindLast(elements, ids).value]
    ensures FindLast(elements, ids).Some? && FindLast(elements, ids).value.qdmType == EncounterPerformedType ==>
              (r.Failure? <==> ResolveAll(elements, Earlier(ids)).None?)
    ensures FindLast(elements, ids).Some? && r.Success? ==>
              1 <= |r.value.kept| <= |ids| && r.value.kept[0] == FindLast(elements, ids).value
    ensures r.Failure? ==> r.error.key == key && r.error.id in ids && Find(elements, r.error.id).None?
  {
    var dup := if |ids| > 1 then [DuplicateIdWarning(key)] else [];
    match FindLast(elements, ids)
    case None =>
      var ws := dup + [ParseErrorWarning(key)];
      assert ws[|dup|] == ParseErrorWarning(key);
      Success(Outcome([], ws))
    case Some(e) =>
      assert dup + [] == dup;
      if e.qdmType != EncounterPerformedType then Success(Outcome([e], dup))
      else
        match Refine(elements, Earlier(ids), UniquenessKey, {UniquenessKey(e)})
        case Failure(id) =>
          assert id in ids;
          Failure(NilDuplicate(key, id))
        case Success(extra) => Success(Outcome([e] + extra, dup))
  }

  /** One key warns once about shared ids when it lists several, and once
      about a template that did not parse when its last id names nothing. */
  lemma DedupKeyCounts(elements: seq<Extracted>, key: string, ids: seq<Id>)
    requires DedupKey(elements, key, ids).Success?
    ensures CountWhere(DedupKey(elements, key, ids).value.warnings, IsDuplicateId) == (if |ids| > 1 then 1 else 0)
    ensures CountWhere(DedupKey(elements, key, ids).value.warnings, IsTemplateParseError) == (if FindLast(elements, ids).None? then 1 else 0)
  {
    var dup := if |ids| > 1 then [DuplicateIdWarning(key)] else [];
    var parse := if FindLast(elements, ids).None? then [ParseErrorWarning(key)] else [];
    CountWhereAppend(dup, parse, IsDuplicateId);
    CountWhereAppend(dup, parse, IsTemplateParseError);
  }

  /** For an encounter whose earlier duplicates all resolve, the kept
      elements are the element of the last id followed by the first earlier
      duplicate of each uniqueness key not already kept. */
  lemma EncounterRefinement(elements: seq<Extracted>, key: string, ids: seq<Id>)
    requires FindLast(elements, ids).Some? && FindLast(elements, ids).value.qdmType == EncounterPerformedType
    requires ResolveAll(elements, Earlier(ids)).Some?
    ensures var e := FindLast(elements, ids).value;
            var dups := ResolveAll(elements, Earlier(ids)).value;
            DedupKey(elements, key, ids) == Success(Outcome(
              [e] + FirstOccurrences(dups, UniquenessKey, {UniquenessKey(e)}),
              if |ids| > 1 then [DuplicateIdWarning(key)] else []))
  {
    var e := FindLast(elements, ids).value;
    RefineIsFirstOccurrences(elements, Earlier(ids), UniquenessKey, {UniquenessKey(e)});
  }

  /** The encounters kept for one key have pairwise different uniqueness keys,
      and every duplicate's key is among them: nothing distinct is dropped. */
  lemma EncounterKeysDistinct(elements: seq<Extracted>, key: string, ids: seq<Id>)
    requires FindLast(elements, ids).Some? && FindLast(elements, ids).value.qdmType == EncounterPerformedType
    requires ResolveAll(elements, Earlier(ids)).Some?
    ensures DedupKey(elements, key, ids).Success?
    ensures PairwiseDistinctKeys(DedupKey(elements, key, ids).value.kept, UniquenessKey)
    ensures var e := FindLast(elements, ids).value;
            var dups := ResolveAll(elements, Earlier(ids)).value;
            KeysOf(DedupKey(elements, key, ids).value.kept, UniquenessKey) == KeysOf([e] + dups, UniquenessKey)
  {
    var e := FindLast(elements, ids).value;
    PrimaryAndRefinedKeys(elements, Earlier(ids), UniquenessKey, e);
  }

  /** The primary element followed by what the loop keeps after it has
      pairwise different keys, covering the keys of all duplicates. */
  lemma PrimaryAndRefinedKeys(elements: seq<Extracted>, ids: seq<Id>, key: Extracted -> string, e: Extracted)
    requires ResolveAll(elements, ids).Some?
    ensures var extra := Refine(elements, ids, key, {key(e)}).value;
            && PairwiseDistinctKeys([e] + extra, key)
            && KeysOf([e] + extra, key) == KeysOf([e] + ResolveAll(elements, ids).value, key)
  {
    var seen := {key(e)};
    var dups := ResolveAll(elements, ids).value;
    var extra := Refine(elements, ids, key, seen).value;
    RefineKeysFresh(elements, ids, key, seen);
    RefineCoversKeys(elements, ids, key, seen);
    PairwiseCons(e, extra, key);
    KeysOfCons(e, extra, key);
    KeysOfCons(e, dups, key);
    assert KeysOf(extra, key) <= KeysOf(dups, key) by {
      RefineIsFirstOccurrences(elements, ids, key, seen);
      FirstOccurrencesSubset(dups, key, seen);
      KeysOfSubset(extra, dups, key);
    }
  }

  lemma KeysOfCons(e: Extracted, s: seq<Extracted>, key: Extracted -> string)
    ensures KeysOf([e] + s, key) == {key(e)} + KeysOf(s, key)
  {
    assert forall x :: x in [e] + s <==> x == e || x in s;
  }

  lemma KeysOfSubset(a: seq<Extracted>, b: seq<Extracted>, key: Extracted -> string)
    requires forall x :: x in a ==> x in b
    ensures KeysOf(a, key) <= KeysOf(b, key)
  {
  }

  lemma PairwiseCons(e: Extracted, s: seq<Extracted>, key: Extracted -> string)
    requires PairwiseDistinctKeys(s, key)
    requires forall i :: 0 <= i < |s| ==> key(s[i]) != key(e)
    ensures PairwiseDistinctKeys([e] + s, key)
  {
    var t := [e] + s;
    assert forall i :: 0 < i < |t| ==> t[i] == s[i - 1];
  }

  /** The whole `id_map.each_pair` loop of one importer: key by key, in the
      id map's order. The first key that crashes ends the import. */
  function DedupImporter(elements: seq<Extracted>, idMap: IdMap): (r: Result<Outcome, Crash>)
    ensures r.Failure? <==> exists i :: 0 <= i < |idMap| && DedupKey(elements, idMap[i].0, idMap[i].1).Failure?
    ensures r.Success? ==> forall e :: e in r.value.kept ==> e in elements
    decreases |idMap|
  {
    if |idMap| == 0 then Success(Outcome([], []))
    else
      var head := DedupKey(elements, idMap[0].0, idMap[0].1);
      var rest := DedupImporter(elements, idMap[1..]);
      assert forall i :: 0 < i < |idMap| ==> idMap[i] == idMap[1..][i - 1];
      Chain(head, rest)
  }

  /** One part of the loop followed by the next: the first raise wins, and
      otherwise the survivors and warnings of the two parts in order. */
  function Chain(first: Result<Outcome, Crash>, next: Result<Outcome, Crash>): Result<Outcome, Crash> {
    if first.Failure? then first
    else if next.Failure? then next
    else Success(Outcome(first.value.kept + next.value.kept, first.value.warnings + next.value.warnings))
  }

  lemma ChainAssociative(x: Result<Outcome, Crash>, y: Result<Outcome, Crash>, z: Result<Outcome, Crash>)
    ensures Chain(Chain(x, y), z) == Chain(x, Chain(y, z))
  {
    if x.Success? && y.Success? && z.Success? {
      assert x.value.kept + (y.value.kept + z.value.kept) == (x.value.kept + y.value.kept) + z.value.kept;
      assert x.value.warnings + (y.value.warnings + z.value.warnings) == (x.value.warnings + y.value.warnings) + z.value.warnings;
    }
  }

  lemma ChainEmpty(x: Result<Outcome, Crash>)
    ensures Chain(Success(Outcome([], [])), x) == x && Chain(x, Success(Outcome([], []))) == x
  {
    if x.Success? {
      assert [] + x.value.kept == x.value.kept && [] + x.value.warnings == x.value.warnings;
      assert x.value.kept + [] == x.value.kept && x.value.warnings + [] == x.value.warnings;
    }
  }

  /** The loop runs key by key: on an id map split in two, a raise in the
      first part is the result, then a raise in the second, and otherwise
      the survivors and the warnings of the first part come before those of
      the second. */
  lemma {:induction false} DedupImporterAppend(elements: seq<Extracted>, a: IdMap, b: IdMap)
    ensures DedupImporter(elements, a).Failure? ==> DedupImporter(elements, a + b) == DedupImporter(elements, a)
    ensures DedupImporter(elements, a).Success? && DedupImporter(elements, b).Failure? ==>
              DedupImporter(elements, a + b) == DedupImporter(elements, b)
    ensures DedupImporter(elements, a).Success? && DedupImporter(elements, b).Success? ==>
              var oa := DedupImporter(elements, a).value;
              var ob := DedupImporter(elements, b).value;
              DedupImporter(elements, a + b) == Success(Outcome(oa.kept + ob.kept, oa.warnings + ob.warnings))
    decreases |a|
  {
    assert DedupImporter(elements, a + b) == Chain(DedupImporter(elements, a), DedupImporter(elements, b)) by {
      if |a| == 0 {
        assert a + b == b;
        ChainEmpty(DedupImporter(elements, b));
      } else {
        assert (a + b)[0] == a[0] && (a + b)[1..] == a[1..] + b;
        DedupImporterAppend(elements, a[1..], b);
        ChainAssociative(DedupKey(elements, a[0].0, a[0].1), DedupImporter(elements, a[1..]), DedupImporter(elements, b));
      }
    }
  }

  /** An id map of one key yields exactly what that key yields. */
  lemma DedupImporterOne(elements: seq<Extracted>, key: string, ids: seq<Id>)
    ensures DedupImporter(elements, [(key, ids)]) == DedupKey(elements, key, ids)
  {
    var m: IdMap := [(key, ids)];
    assert m[1..] == [];
    ChainEmpty(DedupKey(elements, key, ids));
  }

  /** Two encounters filed under one key whose uniqueness keys agree (the same
      codes and the same period, by `UniquenessKeyEquality`): one warning, and
      only the element of the last id survives. */
  lemma TwoEncountersSameKey(elements: seq<Extracted>, key: string, e1: Extracted, e2: Extracted)
    requires Find(elements, e1.id) == Some(e1) && Find(elements, e2.id) == Some(e2)
    requires e2.qdmType == EncounterPerformedType
    requires UniquenessKey(e1) == UniquenessKey(e2)
    ensures DedupKey(elements, key, [e1.id, e2.id]) == Success(Outcome([e2], [DuplicateIdWarning(key)]))
  {
    var ids := [e1.id, e2.id];
    assert Last(ids) == Some(e2.id) && Earlier(ids) == [e1.id];
    assert [e1.id][1..] == [];
    assert Refine(elements, [e1.id], UniquenessKey, {UniquenessKey(e2)}) == Success([]);
    assert [e2] + [] == [e2];
  }

  /** Two encounters filed under one key whose uniqueness keys differ (other
      codes or another period): one warning, and both survive, the element of
      the last id first. */
  lemma TwoEncountersDifferentKey(elements: seq<Extracted>, key: string, e1: Extracted, e2: Extracted)
    requires Find(elements, e1.id) == Some(e1) && Find(elements, e2.id) == Some(e2)
    requires e2.qdmType == EncounterPerformedType
    requires UniquenessKey(e1) != UniquenessKey(e2)
    ensures DedupKey(elements, key, [e1.id, e2.id]) == Success(Outcome([e2, e1], [DuplicateIdWarning(key)]))
  {
    var ids := [e1.id, e2.id];
    assert Last(ids) == Some(e2.id) && Earlier(ids) == [e1.id];
    assert FindLast(elements, ids) == Some(e2);
    var earlier := [e1.id];
    assert earlier[0] == e1.id && earlier[1..] == [];
    var seen := {UniquenessKey(e2)};
    assert UniquenessKey(e1) !in seen;
    assert Refine(elements, earlier[1..], UniquenessKey, seen + {UniquenessKey(e1)}) == Success([]);
    assert [e1] + [] == [e1];
    assert Refine(elements, earlier, UniquenessKey, seen) == Success([e1]);
    assert [e2] + [e1] == [e2, e1];
  }

  /** How many keys list more than one id. */
  function SharedKeys(idMap: IdMap): nat {
    if |idMap| == 0 then 0 else (if |idMap[0].1| > 1 then 1 else 0) + SharedKeys(idMap[1..])
  }

  /** How many keys name no element with their last id. */
  function UnparsedKeys(elements: seq<Extracted>, idMap: IdMap): nat {
    if |idMap| == 0 then 0
    else (if FindLast(elements, idMap[0].1).None? then 1 else 0) + UnparsedKeys(elements, idMap[1..])
  }

  /** One "Two or more entries share the Id" warning per key that lists
      several ids, and one "Error parsing template" warning per key whose last
      id names no element. */
  lemma {:induction false} DedupWarningCounts(elements: seq<Extracted>, idMap: IdMap)
    requires DedupImporter(elements, idMap).Success?
    ensures CountWhere(DedupImporter(elements, idMap).value.warnings, IsDuplicateId) == SharedKeys(idMap)
    ensures CountWhere(DedupImporter(elements, idMap).value.warnings, IsTemplateParseError) == UnparsedKeys(elements, idMap)
    decreases |idMap|
  {
    if |idMap| > 0 {
      var o := DedupKey(elements, idMap[0].0, idMap[0].1).value;
      var o' := DedupImporter(elements, idMap[1..]).value;
      DedupWarningCounts(elements, idMap[1..]);
      DedupKeyCounts(elements, idMap[0].0, idMap[0].1);
      CountWhereAppend(o.warnings, o'.warnings, IsDuplicateId);
      CountWhereAppend(o.warnings, o'.warnings, IsTemplateParseError);
    }
  }

  /** A key listing a single id that names an element keeps that element and
      warns about nothing, whatever its category. */
  lemma SingleIdKey(elements: seq<Extracted>, key: string, id: Id)
    requires Find(elements, id).Some?
    ensures DedupKey(elements, key, [id]) == Success(Outcome([Find(elements, id).value], []))
  {
    assert Earlier([id]) == [];
    assert Last([id]) == Some(id);
    var e := Find(elements, id).value;
    assert FindLast(elements, [id]) == Some(e);
    assert Refine(elements, [], UniquenessKey, {UniquenessKey(e)}) == Success([]);
    assert [e] + [] == [e];
  }

  /** Without shared ids and with every id naming an element, deduplication
      keeps one element per key, in id-map order, and warns about nothing. */
  lemma {:induction false} NoDuplicatesKeepsEverything(elements: seq<Extracted>, idMap: IdMap)
    requires forall i :: 0 <= i < |idMap| ==> |idMap[i].1| == 1 && Find(elements, idMap[i].1[0]).Some?
    ensures DedupImporter(elements, idMap).Success?
    ensures |DedupImporter(elements, idMap).value.kept| == |idMap|
    ensures forall i :: 0 <= i < |idMap| ==> DedupImporter(elements, idMap).value.kept[i].id == idMap[i].1[0]
    ensures DedupImporter(elements, idMap).value.warnings == []
    decreases |idMap|
  {
    if |idMap| > 0 {
      var t := idMap[1..];
      assert forall i :: 0 <= i < |t| ==> t[i] == idMap[i + 1];
      NoDuplicatesKeepsEverything(elements, t);
      var ids := idMap[0].1;
      assert ids == [ids[0]];
      SingleIdKey(elements, idMap[0].0, ids[0]);
      var o' := DedupImporter(elements, t).value;
      var kept := [Find(elements, ids[0]).value] + o'.kept;
      DedupImporterStep(elements, idMap);
      assert [] + o'.warnings == o'.warnings;
      assert forall i :: 0 < i < |kept| ==> kept[i] == o'.kept[i - 1];
    }
  }

  /** The fold over the id map, one key at a time. */
  lemma DedupImporterStep(elements: seq<Extracted>, idMap: IdMap)
    requires |idMap| > 0
    requires DedupKey(elements, idMap[0].0, idMap[0].1).Success? && DedupImporter(elements, idMap[1..]).Success?
    ensures var o := DedupKey(elements, idMap[0].0, idMap[0].1).value;
            var o' := DedupImporter(elements, idMap[1..]).value;
            DedupImporter(elements, idMap) == Success(Outcome(o.kept + o'.kept, o.warnings + o'.warnings))
  {
  }

}
