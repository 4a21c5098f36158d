/** Composite keys of the id maps. An importer files each data element under
    `"<extension>***<root>"`, and the warnings take the key apart again with
    Ruby's `key.split('***')`, showing field 1 as the root and field 0 as the
    extension. */
module CompositeKey {
  import opened Wrappers

  const Separator: string := "***"

  /** The key under which an identifier with this extension and root is filed. */
  function JoinKey(extension: string, root: string): string {
    extension + Separator + root
  }

  predicate SeparatorAt(s: string, i: nat) {
    i + 3 <= |s| && s[i..i + 3] == Separator
  }

  /** The leftmost occurrence of the separator at or after `from`. */
  function FindSeparator(s: string, from: nat): (r: Option<nat>)
    ensures r.Some? ==> from <= r.value && SeparatorAt(s, r.value)
    ensures r.Some? ==> forall j :: from <= j < r.value ==> !SeparatorAt(s, j)
    ensures r.None? ==> forall j :: from <= j ==> !SeparatorAt(s, j)
    decreases |s| - from
  {
    if from + 3 > |s| then None
    else if SeparatorAt(s, from) then Some(from)
    else FindSeparator(s, from + 1)
  }

  /** `s.split('***')[n].to_s`: field `n`, or `""` when there is none. Ruby's
      split drops trailing empty fields, which only turns an empty field into a
      missing one; both render as `""`. */
  function Field(s: string, n: nat): (r: string)
    ensures forall j: nat :: !SeparatorAt(r, j)
    ensures n == 0 ==> r <= s && (|r| == |s| || SeparatorAt(s, |r|))
    ensures n == 0 ==> forall j: nat :: j < |r| ==> !SeparatorAt(s, j)
    ensures |r| <= |s|
    decreases n
  {
    match FindSeparator(s, 0)
    case None => if n == 0 then s else ""
    case Some(p) =>
      if n == 0 then
        NoSeparatorBefore(s, p);
        s[..p]
      else Field(s[p + 3..], n - 1)
  }

  /** Past the leftmost separator, the fields are those of the rest of the
      key: field `n + 1` of `s` is field `n` of what follows the separator. */
  lemma FieldAfterSeparator(s: string, p: nat, n: nat)
    requires SeparatorAt(s, p) && forall j :: 0 <= j < p ==> !SeparatorAt(s, j)
    ensures Field(s, n + 1) == Field(s[p + 3..], n)
  {
    assert FindSeparator(s, 0) == Some(p);
  }

  /** The text before the leftmost separator holds no separator. */
  lemma NoSeparatorBefore(s: string, p: nat)
    requires p <= |s| && forall j :: 0 <= j < p ==> !SeparatorAt(s, j)
    ensures forall j: nat :: !SeparatorAt(s[..p], j)
  {
    forall j: nat ensures !SeparatorAt(s[..p], j) {
      if j + 3 <= p {
        assert s[..p][j..j + 3] == s[j..j + 3];
        assert !SeparatorAt(s, j);
      }
    }
  }

  /** The root a warning shows for a key (`split_id[1]`). */
  function RootOf(key: string): string { Field(key, 1) }

  /** The extension a warning shows for a key (`split_id[0]`). */
  function ExtensionOf(key: string): string { Field(key, 0) }

  /** When neither part contains a `*`, splitting a joined key gives back its
      extension and root. */
  lemma SplitJoinKey(extension: string, root: string)
    requires '*' !in extension && '*' !in root
    ensures ExtensionOf(JoinKey(extension, root)) == extension
    ensures RootOf(JoinKey(extension, root)) == root
  {
    var k := JoinKey(extension, root);
    assert SeparatorAt(k, |extension|) by {
      assert k[|extension|..|extension| + 3] == Separator;
    }
    forall j | 0 <= j < |extension| ensures !SeparatorAt(k, j) {
      assert k[j..j + 3][0] == extension[j];
    }
    assert FindSeparator(k, 0) == Some(|extension|);
    assert k[..|extension|] == extension;
    assert k[|extension| + 3..] == root;
    forall j | 0 <= j ensures !SeparatorAt(root, j) {
      if j + 3 <= |root| { assert root[j..j + 3][0] == root[j]; }
    }
    assert FindSeparator(root, 0) == None;
  }

  /** A key without the separator shows the whole key as extension and an
      empty root. */
  lemma SplitWithoutSeparator(key: string)
    requires forall j :: !SeparatorAt(key, j)
    ensures ExtensionOf(key) == key && RootOf(key) == ""
  {
  }
}
