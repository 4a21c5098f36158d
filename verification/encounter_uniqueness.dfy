/** The key that decides whether two encounters sharing an identifier are the
    same encounter: the sorted `"<code>_<system>"` strings rendered with
    `Array#to_s`, followed directly by the admission time and then the
    discharge time, with nothing between them. */
module EncounterUniqueness {
  import opened Wrappers
  import opened Elements
  import StringOrder
  import RubyInspect

  /** `"#{dec.code}_#{dec.system}"`. */
  function CodeString(c: Code): string {
    c.code + "_" + c.system
  }

  /** `encounter.codes.collect { … }`: one string per code, in order. */
  function CodeStrings(codes: seq<Code>): (r: seq<string>)
    ensures |r| == |codes|
    ensures forall i :: 0 <= i < |codes| ==> r[i] == CodeString(codes[i])
  {
    if |codes| == 0 then []
    else
      var rest := CodeStrings(codes[1..]);
      assert forall i :: 0 < i < |codes| ==> codes[i] == codes[1..][i - 1];
      [CodeString(codes[0])] + rest
  }

  /** `encounter&.relevantPeriod&.low.to_s`: `""` when the period or its low
      bound is nil. */
  function Admission(e: Extracted): string {
    match e.relevantPeriod
    case None => ""
    case Some(p) => p.low.GetOr("")
  }

  /** `encounter&.relevantPeriod&.high.to_s`. */
  function Discharge(e: Extracted): string {
    match e.relevantPeriod
    case None => ""
    case Some(p) => p.high.GetOr("")
  }

  /** `key_elements_for_determining_encounter_uniqueness`. */
  function UniquenessKey(e: Extracted): string {
    RubyInspect.Inspect(StringOrder.Sort(CodeStrings(e.codes))) + Admission(e) + Discharge(e)
  }

  /** Reading an inspected array off the front of an encounter's key gives
      its code strings in sorted order, and what is left is the admission
      time followed by the discharge time. */
  lemma UniquenessKeyDecodes(e: Extracted)
    ensures var d := RubyInspect.ReadArray(UniquenessKey(e));
            && d.Some?
            && StringOrder.Sorted(d.value.0)
            && multiset(d.value.0) == multiset(CodeStrings(e.codes))
            && d.value.1 == Admission(e) + Discharge(e)
  {
    var sorted := StringOrder.Sort(CodeStrings(e.codes));
    var times := Admission(e) + Discharge(e);
    RubyInspect.ReadArrayInspect(sorted, times);
    assert UniquenessKey(e) == RubyInspect.Inspect(sorted) + times;
  }

  lemma {:induction false} CodeStringsAppend(a: seq<Code>, b: seq<Code>)
    ensures CodeStrings(a + b) == CodeStrings(a) + CodeStrings(b)
    decreases |a|
  {
    if |a| == 0 {
      assert a + b == b;
    } else {
      assert (a + b)[0] == a[0] && (a + b)[1..] == a[1..] + b;
      CodeStringsAppend(a[1..], b);
    }
  }

  /** Taking one code out of the middle of a list takes its string out. */
  lemma CodeStringsRemove(x: seq<Code>, c: Code, y: seq<Code>)
    ensures multiset(CodeStrings(x + [c] + y)) == multiset(CodeStrings(x + y)) + multiset{CodeString(c)}
  {
    CodeStringsAppend(x + [c], y);
    CodeStringsAppend(x, [c]);
    CodeStringsAppend(x, y);
    assert CodeStrings([c]) == [CodeString(c)];
  }

  /** Reordering an element's codes reorders their strings and nothing more. */
  lemma {:induction false} CodeStringsPermutation(a: seq<Code>, b: seq<Code>)
    requires multiset(a) == multiset(b)
    ensures multiset(CodeStrings(a)) == multiset(CodeStrings(b))
    decreases |a|
  {
    if |a| == 0 {
      assert |multiset(b)| == 0;
      assert b == [];
    } else {
      var c, t := a[0], a[1..];
      var k := RemovalPoint(a, b);
      var x, y := b[..k], b[k + 1..];
      var m := multiset{CodeString(c)};
      calc {
        multiset(CodeStrings(b));
        { assert b == x + [c] + y; }
        multiset(CodeStrings(x + [c] + y));
        { CodeStringsRemove(x, c, y); }
        multiset(CodeStrings(x + y)) + m;
        { CodeStringsPermutation(t, x + y); }
        multiset(CodeStrings(t)) + m;
        multiset([CodeString(c)] + CodeStrings(t));
        multiset(CodeStrings(a));
      }
    }
  }

  /** Where the first code of `a` sits in its permutation `b`, such that the
      rest of `a` is a permutation of `b` without it. */
  lemma RemovalPoint(a: seq<Code>, b: seq<Code>) returns (k: nat)
    requires |a| > 0 && multiset(a) == multiset(b)
    ensures k < |b| && b[k] == a[0]
    ensures multiset(a[1..]) == multiset(b[..k] + b[k + 1..])
  {
    var c, t := a[0], a[1..];
    assert c in multiset(b);
    k :| 0 <= k < |b| && b[k] == c;
    var x, y := b[..k], b[k + 1..];
    assert b == x + [c] + y;
    assert a == [c] + t;
    calc {
      multiset(t);
      multiset(a) - multiset{c};
      multiset(b) - multiset{c};
      multiset(x) + multiset(y);
      multiset(x + y);
    }
  }

  /** Two encounters get the same key exactly when they hold the same code
      strings, in any order and with the same multiplicities, and their
      admission and discharge times concatenate to the same string. */
  lemma UniquenessKeyEquality(e1: Extracted, e2: Extracted)
    ensures UniquenessKey(e1) == UniquenessKey(e2) <==>
              multiset(CodeStrings(e1.codes)) == multiset(CodeStrings(e2.codes)) &&
              Admission(e1) + Discharge(e1) == Admission(e2) + Discharge(e2)
  {
    assert UniquenessKey(e1) == SortedKey(CodeStrings(e1.codes), Admission(e1) + Discharge(e1));
    assert UniquenessKey(e2) == SortedKey(CodeStrings(e2.codes), Admission(e2) + Discharge(e2));
    SortedKeyEquality(CodeStrings(e1.codes), Admission(e1) + Discharge(e1), CodeStrings(e2.codes), Admission(e2) + Discharge(e2));
  }

  /** Some strings sorted and inspected, then a suffix. */
  function SortedKey(strings: seq<string>, suffix: string): string {
    RubyInspect.Inspect(StringOrder.Sort(strings)) + suffix
  }

  lemma SortedKeyEquality(c1: seq<string>, t1: string, c2: seq<string>, t2: string)
    ensures SortedKey(c1, t1) == SortedKey(c2, t2) <==> multiset(c1) == multiset(c2) && t1 == t2
  {
    var s1, s2 := StringOrder.Sort(c1), StringOrder.Sort(c2);
    RubyInspect.InspectPrefixFree(s1, t1, s2, t2);
    if multiset(c1) == multiset(c2) {
      StringOrder.SortIgnoresOrder(c1, c2);
    }
  }

  /** The order of an encounter's codes does not affect its key. */
  lemma KeyIgnoresCodeOrder(e1: Extracted, e2: Extracted)
    requires multiset(e1.codes) == multiset(e2.codes)
    requires e1.relevantPeriod == e2.relevantPeriod
    ensures UniquenessKey(e1) == UniquenessKey(e2)
  {
    CodeStringsPermutation(e1.codes, e2.codes);
    UniquenessKeyEquality(e1, e2);
  }

  /** Encounters whose code strings differ have different keys. */
  lemma DifferentCodesGiveDifferentKeys(e1: Extracted, e2: Extracted)
    requires multiset(CodeStrings(e1.codes)) != multiset(CodeStrings(e2.codes))
    ensures UniquenessKey(e1) != UniquenessKey(e2)
  {
    UniquenessKeyEquality(e1, e2);
  }

  /** With admission times of equal length (fixed-width timestamps, say),
      encounters whose admission or discharge differ have different keys. */
  lemma DifferentTimesGiveDifferentKeys(e1: Extracted, e2: Extracted)
    requires |Admission(e1)| == |Admission(e2)|
    requires Admission(e1) != Admission(e2) || Discharge(e1) != Discharge(e2)
    ensures UniquenessKey(e1) != UniquenessKey(e2)
  {
    UniquenessKeyEquality(e1, e2);
    var a1, a2, d1, d2 := Admission(e1), Admission(e2), Discharge(e1), Discharge(e2);
    assert (a1 + d1)[..|a1|] == a1 && (a1 + d1)[|a1|..] == d1;
    assert (a2 + d2)[..|a2|] == a2 && (a2 + d2)[|a2|..] == d2;
  }

  /** Because the times are concatenated without a separator, an encounter
      with only an admission time and one with only the same discharge time
      get the same key. */
  lemma OpenEndedPeriodsCollide(codes: seq<Code>, t: string, id1: Id, id2: Id)
    ensures var e1 := DataElement(id1, EncounterPerformedType, codes, Some(Period(Some(t), None)), None);
            var e2 := DataElement(id2, EncounterPerformedType, codes, Some(Period(None, Some(t))), None);
            e1.relevantPeriod != e2.relevantPeriod && UniquenessKey(e1) == UniquenessKey(e2)
  {
    var e1 := DataElement(id1, EncounterPerformedType, codes, Some(Period(Some(t), None)), None);
    var e2 := DataElement(id2, EncounterPerformedType, codes, Some(Period(None, Some(t))), None);
    assert Admission(e1) + Discharge(e1) == t == Admission(e2) + Discharge(e2);
    UniquenessKeyEquality(e1, e2);
  }
}
