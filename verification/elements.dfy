/** The data elements an importer returns from `create_entries`, reduced to
    the attributes the reconciliation core reads, and the warnings it emits. */
module Elements {
  import opened Wrappers
  import AssocList
  import CompositeKey

  /** A data element's own identifier (its `id`, rendered with `to_s`). */
  type Id = string

  /** One entry of `codes`: a code and its code system. */
  datatype Code = Code(code: string, system: string)

  /** `relevantPeriod`, with each bound held as its `to_s` rendering or nil. */
  datatype Period = Period(low: Option<string>, high: Option<string>)

  /** One raw `relatedTo` entry as extracted: an identifier's extension
      (`value`) and root (`namingSystem`). */
  datatype Ref = Ref(value: string, namingSystem: string)

  /** A QDM data element. `relatedTo` is None when the element type has no
      such attribute or its value is nil. The type parameter is the type of a
      `relatedTo` entry: `Ref` as extracted, `Id` once normalised. */
  datatype DataElement<R> = DataElement(
    id: Id,
    qdmType: string,
    codes: seq<Code>,
    relevantPeriod: Option<Period>,
    relatedTo: Option<seq<R>>)

  /** An id map: composite key to the ids filed under it, in document order. */
  type IdMap = AssocList.AList<seq<Id>>

  /** A data element as an importer produces it. */
  type Extracted = DataElement<Ref>

  /** The `_type` of the only category that refines duplicates. */
  const EncounterPerformedType: string := "QDM::EncounterPerformed"

  /** A `ValidationError`, reduced to what it names. */
  datatype Warning =
    | DuplicateId(root: string, extension: string)
    | TemplateParseError(root: string, extension: string)
    | UnresolvedReference(root: string, extension: string)
    | ImporterWarning(message: string)

  /** "Two or more entries share the Id: <root>(root), <extension>(extension)." */
  function DuplicateIdWarning(key: string): Warning {
    DuplicateId(CompositeKey.RootOf(key), CompositeKey.ExtensionOf(key))
  }

  /** "Error parsing template with Id: <root>(root), <extension>(extension)." */
  function ParseErrorWarning(key: string): Warning {
    TemplateParseError(CompositeKey.RootOf(key), CompositeKey.ExtensionOf(key))
  }

  /** `data_elements.find { |de| de.id == id }`: the first element carrying
      `id`, or nil when none does. */
  function Find(elements: seq<Extracted>, id: Id): (r: Option<Extracted>)
    ensures r.None? <==> forall i :: 0 <= i < |elements| ==> elements[i].id != id
    ensures r.Some? ==> r.value in elements && r.value.id == id
    ensures forall i :: (0 <= i < |elements| && elements[i].id == id &&
                         forall j :: 0 <= j < i ==> elements[j].id != id) ==> r == Some(elements[i])
  {
    if |elements| == 0 then None
    else if elements[0].id == id then Some(elements[0])
    else
      var r := Find(elements[1..], id);
      assert forall i :: 0 < i < |elements| ==> elements[i] == elements[1..][i - 1];
      r
  }

  /** Ruby's `elem_ids.last`, nil for an empty list. */
  function Last(ids: seq<Id>): Option<Id> {
    if |ids| == 0 then None else Some(ids[|ids| - 1])
  }

  /** The element an id list keeps: the one found by the list's last id. */
  function FindLast(elements: seq<Extracted>, ids: seq<Id>): Option<Extracted> {
    match Last(ids)
    case None => None
    case Some(id) => Find(elements, id)
  }

  /** How many warnings satisfy `p`. */
  function CountWhere(ws: seq<Warning>, p: Warning -> bool): nat {
    if |ws| == 0 then 0 else (if p(ws[0]) then 1 else 0) + CountWhere(ws[1..], p)
  }

  lemma {:induction false} CountWhereAppend(a: seq<Warning>, b: seq<Warning>, p: Warning -> bool)
    ensures CountWhere(a + b, p) == CountWhere(a, p) + CountWhere(b, p)
    decreases |a|
  {
    if |a| > 0 {
      assert (a + b)[0] == a[0] && (a + b)[1..] == a[1..] + b;
      CountWhereAppend(a[1..], b, p);
    } else {
      assert a + b == b;
    }
  }

  predicate IsDuplicateId(w: Warning) { w.DuplicateId? }
  predicate IsTemplateParseError(w: Warning) { w.TemplateParseError? }
}
