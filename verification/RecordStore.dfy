/**
  The per-form-type record lists of `submittedData` and the two changes the
  form makes to them: `push` of a copy of the form data on submit and
  `splice(index, 1)` on delete.
 */
module RecordStore {
  import opened FormModel

  /** The records submitted for `formType`; a type never submitted has none. */
  function Records(store: Store, formType: string): seq<Record>
  {
    if formType in store then store[formType] else []
  }

  /**
    `updatedData[formType].push(copy)` when the list exists (an empty array is
    truthy), `updatedData[formType] = [copy]` otherwise.
   */
  function Appended(store: Store, formType: string, rec: Record): (s: Store)
    ensures formType in s && s.Keys == store.Keys + {formType}
    ensures Records(s, formType) == Records(store, formType) + [rec]
    ensures forall t :: t != formType ==> Records(s, t) == Records(store, t)
    ensures forall t :: t != formType && t in store ==> t in s && s[t] == store[t]
  {
    if formType in store then store[formType := store[formType] + [rec]]
    else store[formType := [rec]]
  }

  /** `list.splice(index, 1)`: removes the element at `index`, or nothing when `index` is past the end. */
  function Spliced<T>(list: seq<T>, index: nat): (r: seq<T>)
    ensures index < |list| ==> |r| == |list| - 1
    ensures index >= |list| ==> r == list
    ensures forall j :: 0 <= j < index && j < |list| ==> r[j] == list[j]
    ensures forall j :: index <= j < |r| ==> r[j] == list[j + 1]
  {
    if index < |list| then list[..index] + list[index + 1..] else list
  }

  /** Removing the element at `index` removes exactly that one occurrence from the list's multiset. */
  lemma SplicedMultiset<T>(list: seq<T>, index: nat)
    requires index < |list|
    ensures multiset(Spliced(list, index)) + multiset{list[index]} == multiset(list)
  {
    assert list == list[..index] + [list[index]] + list[index + 1..];
  }
}
