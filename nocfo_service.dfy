/** The two pure members of NocfoService (src/services/nocfo.ts):
    the linking-key matcher `findExistingEntry` and the change test
    `isEntryUnchanged`. */
module NocfoService {
  import opened Wrappers
  import opened Types

  /** The separator between a transaction id and the rest of a description. */
  const Separator: string := " - "

  /** `s` holds the separator at position `i`. */
  predicate SeparatorAt(s: string, i: int)
  {
    0 <= i && i + 3 <= |s| && s[i] == ' ' && s[i + 1] == '-' && s[i + 2] == ' '
  }

  // ---------------------------------------------------------- linking key

  /** `s.split(' - ')[0]`: the text before the first separator, or all of
      `s` when it holds none. */
  function LinkKey(s: string): (k: string)
    ensures |k| <= |s| && k == s[..|k|]
    ensures forall i :: 0 <= i < |k| ==> !SeparatorAt(s, i)
    ensures |k| < |s| ==> SeparatorAt(s, |k|)
  {
    if |s| < 3 then s
    else if SeparatorAt(s, 0) then ""
    else
      var rest := LinkKey(s[1..]);
      assert forall i :: 1 <= i < |rest| + 1 ==> SeparatorAt(s, i) == SeparatorAt(s[1..], i - 1);
      [s[0]] + rest
  }

  /** The three properties of LinkKey's contract single out one prefix:
      they are a complete description of `split(' - ')[0]`. */
  lemma LinkKeyUnique(s: string, k: string)
    requires |k| <= |s| && k == s[..|k|]
    requires forall i :: 0 <= i < |k| ==> !SeparatorAt(s, i)
    requires |k| < |s| ==> SeparatorAt(s, |k|)
    ensures k == LinkKey(s)
  {
    var key := LinkKey(s);
    if |k| < |key| {
      assert false;
    } else if |key| < |k| {
      assert false;
    }
  }

  /** `id` can head a description: no separator starts inside `id` in
      `id + " - "`. */
  predicate KeySafe(id: string)
  {
    forall i :: 0 <= i < |id| ==> !SeparatorAt(id + Separator, i)
  }

  /** `id` ends in " -", so that `id + " - "` holds a separator that starts
      inside `id`. */
  predicate EndsInDash(id: string)
  {
    |id| >= 2 && id[|id| - 2] == ' ' && id[|id| - 1] == '-'
  }

  /** Key-safety in terms of `id` alone: it holds no separator and does not
      end in " -". */
  lemma KeySafeExactly(id: string)
    ensures KeySafe(id) <==> (forall i :: 0 <= i < |id| ==> !SeparatorAt(id, i)) && !EndsInDash(id)
  {
    var s := id + Separator;
    forall i | 0 <= i && i + 3 <= |id|
      ensures SeparatorAt(s, i) == SeparatorAt(id, i)
    {
      assert s[i] == id[i] && s[i + 1] == id[i + 1] && s[i + 2] == id[i + 2];
    }
    if |id| >= 1 {
      assert s[|id|] == ' ';
      assert !SeparatorAt(s, |id| - 1);
    }
    if |id| >= 2 {
      assert s[|id| - 2] == id[|id| - 2] && s[|id| - 1] == id[|id| - 1] && s[|id|] == ' ';
      assert SeparatorAt(s, |id| - 2) <==> EndsInDash(id);
    }
  }

  /** A description written as `<id> - <rest>` links back to `id` exactly
      when `id` is key-safe. */
  lemma LinkKeyOfDescription(id: string, rest: string)
    ensures LinkKey(id + Separator + rest) == id <==> KeySafe(id)
  {
    var s := id + Separator + rest;
    assert s[..|id|] == id;
    assert forall i :: 0 <= i < |id| ==> SeparatorAt(s, i) == SeparatorAt(id + Separator, i) by {
      forall i | 0 <= i < |id|
        ensures SeparatorAt(s, i) == SeparatorAt(id + Separator, i)
      {
      }
    }
    assert SeparatorAt(s, |id|);
    if KeySafe(id) {
      LinkKeyUnique(s, id);
    }
  }

  /** Ids without a space, such as Stripe's `txn_...`, are key-safe. */
  lemma SpaceFreeIdIsKeySafe(id: string)
    requires forall i :: 0 <= i < |id| ==> id[i] != ' '
    ensures KeySafe(id)
  {
    forall i | 0 <= i < |id|
      ensures !SeparatorAt(id + Separator, i)
    {
      assert (id + Separator)[i] == id[i];
    }
  }

  /** No id ending in " -" is key-safe: its description never links back
      to it. */
  lemma IdEndingInDashLinksElsewhere(id: string, rest: string)
    requires EndsInDash(id)
    ensures !KeySafe(id)
    ensures LinkKey(id + Separator + rest) != id
  {
    KeySafeExactly(id);
    LinkKeyOfDescription(id, rest);
  }

  /** For example, the description of id "a -" links to "a". */
  lemma DashEndedIdExample()
    ensures LinkKey("a -" + Separator + "x") == "a"
  {
    var s := "a -" + Separator + "x";
    assert !SeparatorAt(s, 0);
    assert SeparatorAt(s[1..], 0);
    assert LinkKey(s[1..]) == "";
  }

  /** A description with no separator links only to itself as a whole. */
  lemma PlainDescriptionIsItsOwnKey(s: string)
    requires forall i :: 0 <= i < |s| ==> !SeparatorAt(s, i)
    ensures LinkKey(s) == s
  {
  }

  /** Linking is equality of the whole first segment, not a prefix test: a
      description that starts with an id may still link to a longer one. */
  lemma PrefixIsNotALink()
    ensures LinkKey("txn_12" + Separator + "x") == "txn_12"
    ensures LinkKey("txn_12" + Separator + "x") != "txn_1"
  {
    SpaceFreeIdIsKeySafe("txn_12");
    LinkKeyOfDescription("txn_12", "x");
    assert "txn_12"[5] != "txn_1"[4] || |"txn_12"| != |"txn_1"|;
  }

  // ---------------------------------------------------------- find entry

  /** `e`'s description links it to `transactionId`. */
  predicate Links(e: Entry, transactionId: string)
  {
    LinkKey(e.description) == transactionId
  }

  /** `findExistingEntry`: the first entry whose description links to
      `transactionId`, if any. */
  function FindExistingEntry(transactionId: string, entries: seq<Entry>): (r: Option<Entry>)
    ensures r.None? <==> forall i :: 0 <= i < |entries| ==> !Links(entries[i], transactionId)
    ensures r.Some? ==> exists i ::
      && 0 <= i < |entries| && entries[i] == r.value && Links(r.value, transactionId)
      && forall j :: 0 <= j < i ==> !Links(entries[j], transactionId)
  {
    if entries == [] then None
    else if Links(entries[0], transactionId) then Some(entries[0])
    else
      var r := FindExistingEntry(transactionId, entries[1..]);
      assert forall i :: 1 <= i < |entries| ==> entries[1..][i - 1] == entries[i];
      r
  }

  /** The first linked entry is the one found. */
  lemma {:induction false} FindExistingEntryFirst(transactionId: string, entries: seq<Entry>, i: int)
    requires 0 <= i < |entries| && Links(entries[i], transactionId)
    requires forall j :: 0 <= j < i ==> !Links(entries[j], transactionId)
    ensures FindExistingEntry(transactionId, entries) == Some(entries[i])
  {
    if i > 0 {
      FindExistingEntryFirst(transactionId, entries[1..], i - 1);
    }
  }

  /** Entries appended after a match do not change what is found. */
  lemma {:induction false} FindExistingEntryAppend(transactionId: string, entries: seq<Entry>, more: seq<Entry>)
    requires FindExistingEntry(transactionId, entries).Some?
    ensures FindExistingEntry(transactionId, entries + more) == FindExistingEntry(transactionId, entries)
  {
    if !Links(entries[0], transactionId) {
      assert (entries + more)[1..] == entries[1..] + more;
      FindExistingEntryAppend(transactionId, entries[1..], more);
    }
  }

  // ------------------------------------------------------- change check

  /** The JSON object that `JSON.stringify` writes out. A listed NocfoEntry
      carries its `id`; a draft has no `id` key at all. */
  datatype Document = Document(
    id: Option<string>,
    blueprintType: Option<BlueprintType>,
    blueprint: Blueprint,
    date: string,
    description: string)

  function EntryDocument(e: Entry): Document
  {
    Document(Some(e.id), e.blueprintType, e.blueprint, e.date, e.description)
  }

  function DraftDocument(d: Draft): Document
  {
    Document(None, Some(d.blueprintType), d.blueprint, d.date, d.description)
  }

  /** Two documents serialise to the same text exactly when they are equal. */
  predicate SameSerialisation(a: Document, b: Document)
  {
    a == b
  }

  /** `isEntryUnchanged` as written: compares the serialised entry, `id`
      included, with the serialised draft. */
  function IsEntryUnchanged(existing: Entry, draft: Draft): bool
  {
    SameSerialisation(EntryDocument(existing), DraftDocument(draft))
  }

  /** As written the comparison never succeeds: the entry's `id` key has no
      counterpart in a draft, not even in the document stored from that very
      draft. */
  lemma IsEntryUnchangedNeverHolds(existing: Entry, draft: Draft)
    ensures !IsEntryUnchanged(existing, draft)
    ensures !IsEntryUnchanged(Stored(existing.id, draft), draft)
  {
  }

  /** The comparison as intended: the entry's content, leaving out the `id`
      NOCFO assigned, against the draft. It holds exactly for the stored copy
      of the draft. */
  function ContentUnchanged(existing: Entry, draft: Draft): (r: bool)
    ensures r <==> existing == Stored(existing.id, draft)
  {
    SameSerialisation(EntryDocument(existing).(id := None), DraftDocument(draft))
  }
}
