/** `TopicPartitionList` (src/topic_partition_list.rs): a native list that should behave like a map.

    Native contract: adding appends without looking for a duplicate, finding returns the first match, and a
    fresh element has the offset Invalid and empty metadata. */
module TopicPartitionList {
  import opened Counting
  import opened OffsetCodec

  datatype Key = Key(topic: string, partition: int)
  datatype Elem = Elem(key: Key, raw: int, metadata: string)
  datatype Entry = Entry(key: Key, offset: Offset)
  datatype Value = Value(offset: Offset, metadata: string)

  function Fresh(key: Key): Elem {
    Elem(key, OFFSET_INVALID, "")
  }

  // ---- Lookup and equality ----

  /** The index of the first element with the key, or the length of the list. */
  function Find(list: seq<Elem>, key: Key): (i: nat)
    ensures i <= |list| && (i < |list| ==> list[i].key == key)
    ensures forall j :: 0 <= j < i ==> list[j].key != key
  {
    if list == [] || list[0].key == key then 0 else 1 + Find(list[1..], key)
  }

  predicate ElemEq(a: Elem, b: Elem) {
    a.key == b.key && FromRaw(a.raw) == FromRaw(b.raw) && a.metadata == b.metadata
  }

  /** Is the element equal to what the list has under its key? */
  predicate Matched(e: Elem, list: seq<Elem>) {
    var i := Find(list, e.key);
    i < |list| && ElemEq(e, list[i])
  }

  /** `==` on lists: the same count, and every element on the left matched on the right. */
  predicate ListEq(a: seq<Elem>, b: seq<Elem>) {
    |a| == |b| && forall i :: 0 <= i < |a| ==> Matched(a[i], b)
  }

  ghost predicate DistinctKeys(list: seq<Elem>) {
    forall i, j :: 0 <= i < j < |list| ==> list[i].key != list[j].key
  }

  function Keys(list: seq<Elem>): set<Key> {
    set i | 0 <= i < |list| :: list[i].key
  }

  /** The map that the list stands for; a later element replaces an earlier one, as collecting into a map does. */
  function Contents(list: seq<Elem>): map<Key, Value> {
    if list == [] then map[]
    else var last := list[|list| - 1];
      Contents(list[..|list| - 1])[last.key := Value(FromRaw(last.raw), last.metadata)]
  }

  function ToTopicMap(list: seq<Elem>): map<Key, Offset> {
    if list == [] then map[]
    else var last := list[|list| - 1];
      ToTopicMap(list[..|list| - 1])[last.key := FromRaw(last.raw)]
  }

  lemma KeysOfFront(list: seq<Elem>)
    requires list != []
    ensures Keys(list) == Keys(list[..|list| - 1]) + {list[|list| - 1].key}
  {
  }

  /** Counting keys: there are at most as many as elements, and as many exactly when none repeats. */
  lemma {:induction false} KeyCount(list: seq<Elem>)
    ensures |Keys(list)| <= |list|
    ensures |Keys(list)| == |list| <==> DistinctKeys(list)
  {
    if list != [] {
      KeyCount(list[..|list| - 1]);
      KeysOfFront(list);
      DistinctByFront(list);
    }
  }

  lemma DistinctByFront(list: seq<Elem>)
    requires list != []
    ensures var front := list[..|list| - 1];
      DistinctKeys(list) <==> DistinctKeys(front) && list[|list| - 1].key !in Keys(front)
  {
    var front := list[..|list| - 1];
    assert forall i :: 0 <= i < |front| ==> front[i] == list[i];
  }

  lemma {:induction false} ContentsKeys(list: seq<Elem>)
    ensures Contents(list).Keys == Keys(list)
  {
    if list != [] {
      ContentsKeys(list[..|list| - 1]);
      KeysOfFront(list);
    }
  }

  /** The map of a duplicate-free list is what lookup finds. */
  lemma {:induction false} ContentsAt(list: seq<Elem>, i: nat)
    requires DistinctKeys(list) && i < |list|
    ensures list[i].key in Contents(list)
    ensures Contents(list)[list[i].key] == Value(FromRaw(list[i].raw), list[i].metadata)
  {
    if i < |list| - 1 {
      ContentsAt(list[..|list| - 1], i);
    }
  }

  /** Equality on the left of which no key repeats: the right has the same keys and repeats none either. The count
      check and the one-way lookup are enough, by counting. */
  lemma EqTransfersKeys(a: seq<Elem>, b: seq<Elem>)
    requires DistinctKeys(a) && |a| == |b| && Keys(a) <= Keys(b)
    ensures Keys(a) == Keys(b) && DistinctKeys(b)
  {
    KeyCount(a);
    KeyCount(b);
    SubsetOfSameSize(Keys(a), Keys(b));
  }

  lemma EqFindsKeys(a: seq<Elem>, b: seq<Elem>)
    requires ListEq(a, b)
    ensures Keys(a) <= Keys(b)
  {
    forall k | k in Keys(a) ensures k in Keys(b) {
      var i :| 0 <= i < |a| && a[i].key == k;
      assert Matched(a[i], b);
      assert b[Find(b, k)].key == k;
    }
  }

  lemma EqFindsValue(a: seq<Elem>, b: seq<Elem>, k: Key)
    requires DistinctKeys(a) && DistinctKeys(b) && ListEq(a, b) && k in Keys(a)
    ensures k in Contents(a) && k in Contents(b) && Contents(a)[k] == Contents(b)[k]
  {
    var i :| 0 <= i < |a| && a[i].key == k;
    assert Matched(a[i], b);
    ContentsAt(a, i);
    ContentsAt(b, Find(b, k));
  }

  lemma EqImpliesSameContents(a: seq<Elem>, b: seq<Elem>)
    requires DistinctKeys(a) && ListEq(a, b)
    ensures DistinctKeys(b) && Contents(a) == Contents(b)
  {
    EqFindsKeys(a, b);
    EqTransfersKeys(a, b);
    ContentsKeys(a);
    ContentsKeys(b);
    forall k | k in Keys(a) ensures Contents(a)[k] == Contents(b)[k] { EqFindsValue(a, b, k); }
  }

  lemma SameContentsImpliesEq(a: seq<Elem>, b: seq<Elem>)
    requires DistinctKeys(a) && |a| == |b| && Contents(a) == Contents(b)
    ensures ListEq(a, b)
  {
    ContentsKeys(a);
    ContentsKeys(b);
    EqTransfersKeys(a, b);
    forall i | 0 <= i < |a| ensures Matched(a[i], b) {
      assert a[i].key in Keys(b);
      ContentsAt(a, i);
      ContentsAt(b, Find(b, a[i].key));
    }
  }

  /** On duplicate-free lists `==` is equality of the maps they stand for. Only the left side has to be known to be
      duplicate-free. */
  lemma EqIsMapEquality(a: seq<Elem>, b: seq<Elem>)
    requires DistinctKeys(a)
    ensures ListEq(a, b) <==> |a| == |b| && Contents(a) == Contents(b)
  {
    if ListEq(a, b) { EqImpliesSameContents(a, b); }
    if |a| == |b| && Contents(a) == Contents(b) { SameContentsImpliesEq(a, b); }
  }

  /** An equivalence relation on duplicate-free lists, where nothing is asked of the right-hand sides; transitivity
      holds of all lists. */
  lemma EqIsEquivalence(a: seq<Elem>, b: seq<Elem>, c: seq<Elem>)
    ensures DistinctKeys(a) ==> ListEq(a, a)
    ensures DistinctKeys(a) && ListEq(a, b) ==> DistinctKeys(b) && ListEq(b, a)
    ensures ListEq(a, b) && ListEq(b, c) ==> ListEq(a, c)
  {
    if DistinctKeys(a) {
      EqIsMapEquality(a, a);
      if ListEq(a, b) {
        EqImpliesSameContents(a, b);
        EqIsMapEquality(b, a);
      }
    }
    if ListEq(a, b) && ListEq(b, c) {
      forall i | 0 <= i < |a| ensures Matched(a[i], c) {
        assert Matched(a[i], b);
        assert Matched(b[Find(b, a[i].key)], c);
      }
    }
  }

  /** Elements with the same key are equal. */
  ghost predicate RepeatsAgree(a: seq<Elem>) {
    forall i, j :: 0 <= i < j < |a| && a[i].key == a[j].key ==> ElemEq(a[i], a[j])
  }

  /** With duplicates, a list equals itself exactly when elements with the same key are equal. */
  lemma ReflexiveIff(a: seq<Elem>)
    ensures ListEq(a, a) <==> RepeatsAgree(a)
  {
    if ListEq(a, a) {
      forall i, j | 0 <= i < j < |a| && a[i].key == a[j].key ensures ElemEq(a[i], a[j]) {
        assert Matched(a[i], a) && Matched(a[j], a);
      }
    }
    if RepeatsAgree(a) {
      forall i | 0 <= i < |a| ensures Matched(a[i], a) {
        var f := Find(a, a[i].key);
        assert f <= i;
      }
    }
  }

  lemma MatchedAgree(x: Elem, y: Elem, list: seq<Elem>)
    requires x.key == y.key && Matched(x, list) && Matched(y, list)
    ensures ElemEq(x, y)
  {
  }

  lemma MatchedBack(a: seq<Elem>, b: seq<Elem>, j: nat)
    requires ListEq(a, b) && RepeatsAgree(b) && j < |b| && b[j].key in Keys(a)
    ensures Matched(b[j], a)
  {
    var i, f := Find(a, b[j].key), Find(b, b[j].key);
    assert i < |a| && Matched(a[i], b);
    assert f <= j && ElemEq(b[f], b[j]);
  }

  /** And equality of a with b turns round exactly when b has no key of its own and its repeats agree. */
  lemma SymmetricIff(a: seq<Elem>, b: seq<Elem>)
    requires ListEq(a, b)
    ensures ListEq(b, a) <==> Keys(b) <= Keys(a) && RepeatsAgree(b)
  {
    if ListEq(b, a) {
      EqFindsKeys(b, a);
      forall i, j | 0 <= i < j < |b| && b[i].key == b[j].key ensures ElemEq(b[i], b[j]) {
        MatchedAgree(b[i], b[j], a);
      }
    }
    if Keys(b) <= Keys(a) && RepeatsAgree(b) {
      forall j | 0 <= j < |b| ensures Matched(b[j], a) {
        assert b[j].key in Keys(b);
        MatchedBack(a, b, j);
      }
    }
  }

  /** Without that, symmetry and reflexivity both fail. */
  lemma EqFailsOnDuplicates() returns (a: seq<Elem>, b: seq<Elem>)
    ensures ListEq(a, b) && !ListEq(b, a) && !ListEq(b, b)
  {
    var k := Key("t", 0);
    a := [Elem(k, 1, ""), Elem(k, 1, "")];
    b := [Elem(k, 1, ""), Elem(k, 2, "")];
    assert Find(a, k) == 0 && Find(b, k) == 0;
    assert Matched(a[0], b) && Matched(a[1], b);
    assert !Matched(b[1], a) && !Matched(b[1], b);
  }

  // ---- Building lists ----

  ghost predicate DistinctEntries(entries: seq<Entry>) {
    forall i, j :: 0 <= i < j < |entries| ==> entries[i].key != entries[j].key
  }

  predicate Encodable(entries: seq<Entry>) {
    forall i :: 0 <= i < |entries| ==> entries[i].offset.ToRaw().Some?
  }

  /** One element per entry, in order. */
  function ListOf(entries: seq<Entry>): (list: seq<Elem>)
    requires Encodable(entries)
    ensures |list| == |entries|
    ensures forall i :: 0 <= i < |entries| ==> list[i] == Elem(entries[i].key, entries[i].offset.ToRaw().value, "")
  {
    seq(|entries|, i requires 0 <= i < |entries| => Elem(entries[i].key, entries[i].offset.ToRaw().value, ""))
  }

  /** Append a fresh element, then set the offset of the first one with the key. */
  function AddedByKey(list: seq<Elem>, key: Key, raw: int): (r: seq<Elem>)
    ensures |r| == |list| + 1 && r[|list|].key == key
    ensures forall i :: 0 <= i < |list| ==> r[i].key == list[i].key
  {
    var longer := list + [Fresh(key)];
    var i := Find(longer, key);
    assert longer[|list|].key == key;
    longer[i := longer[i].(raw := raw)]
  }

  // ---- Exactly when the two ways of building a list agree ----

  /** The wanted elements one after the other, each added and then set by its key. */
  function Rebuilt(want: seq<Elem>): (list: seq<Elem>)
    ensures |list| == |want| && forall i :: 0 <= i < |want| ==> list[i].key == want[i].key
  {
    if want == [] then []
    else
      var last := want[|want| - 1];
      AddedByKey(Rebuilt(want[..|want| - 1]), last.key, last.raw)
  }

  /** The index of the last element with the same key. */
  function LastAlike(list: seq<Elem>, i: nat): (l: nat)
    requires i < |list|
    ensures i <= l < |list| && list[l].key == list[i].key
    decreases |list|
  {
    var n := |list| - 1;
    if list[n].key == list[i].key then n else LastAlike(list[..n], i)
  }

  /** Lookup sees keys only. */
  lemma {:induction false} FindByKeys(a: seq<Elem>, b: seq<Elem>, key: Key)
    requires |a| == |b| && forall i :: 0 <= i < |a| ==> a[i].key == b[i].key
    ensures Find(a, key) == Find(b, key)
  {
  }

  lemma {:induction false} FindInFront(list: seq<Elem>, key: Key)
    requires list != []
    ensures var n := |list| - 1; var f := Find(list[..n], key);
      Find(list, key) == if f < n then f else if list[n].key == key then n else n + 1
  {
    var n := |list| - 1;
    assert forall i :: 0 <= i < n ==> list[..n][i] == list[i];
  }

  /** What becomes of a wanted element: one that repeats a key stays as it was added, and the first with its key ends up
      with the offset of the last. */
  function Settled(want: seq<Elem>, i: nat): Elem
    requires i < |want|
  {
    Elem(want[i].key, if Find(want, want[i].key) < i then OFFSET_INVALID else want[LastAlike(want, i)].raw, "")
  }

  /** One more element changes the first with its key and no other. */
  lemma {:induction false} AddedAt(list: seq<Elem>, want: seq<Elem>, i: nat)
    requires |want| == |list| + 1 && i < |want| && forall h :: 0 <= h < |list| ==> list[h].key == want[h].key
    ensures var last := want[|list|];
      var was := if i < |list| then list[i] else Fresh(last.key);
      AddedByKey(list, last.key, last.raw)[i] == if i == Find(want, last.key) then was.(raw := last.raw) else was
  {
    FindByKeys(list + [Fresh(want[|list|].key)], want, want[|list|].key);
  }

  lemma {:induction false} RebuiltAt(want: seq<Elem>, i: nat)
    requires i < |want|
    ensures Rebuilt(want)[i] == Settled(want, i)
    decreases |want|
  {
    var n := |want| - 1;
    AddedAt(Rebuilt(want[..n]), want, i);
    if i < n {
      RebuiltAt(want[..n], i);
      SettledNext(want, i);
    }
  }

  lemma {:induction false} SettledNext(want: seq<Elem>, i: nat)
    requires i < |want| - 1
    ensures var n := |want| - 1; var was := Settled(want[..n], i);
      Settled(want, i) == if i == Find(want, want[n].key) then was.(raw := want[n].raw) else was
  {
    FindInFront(want, want[i].key);
    if want[i].key == want[|want| - 1].key {
      assert Find(want, want[i].key) <= i;
    }
  }

  /** Elements with the same key all have the offset that a fresh element has. */
  ghost predicate RepeatsInvalid(want: seq<Elem>) {
    forall i, j :: 0 <= i < j < |want| && want[i].key == want[j].key ==>
      want[i].raw == OFFSET_INVALID && want[j].raw == OFFSET_INVALID
  }

  lemma RepeatIsInvalid(want: seq<Elem>, i: nat, j: nat)
    requires Rebuilt(want) == want && i < j < |want| && want[i].key == want[j].key
    ensures want[i].raw == OFFSET_INVALID && want[j].raw == OFFSET_INVALID
  {
    var l := LastAlike(want, j);
    RebuiltAt(want, i);
    RebuiltAt(want, j);
    RebuiltAt(want, l);
    LastAlikeShared(want, i, j);
  }

  lemma {:induction false} LastAlikeShared(list: seq<Elem>, i: nat, j: nat)
    requires i < |list| && j < |list| && list[i].key == list[j].key
    ensures LastAlike(list, i) == LastAlike(list, j)
    decreases |list|
  {
    var n := |list| - 1;
    if list[n].key != list[i].key { LastAlikeShared(list[..n], i, j); }
  }

  lemma InvalidIsSettled(want: seq<Elem>, i: nat)
    requires RepeatsInvalid(want) && i < |want| && want[i].metadata == ""
    ensures Settled(want, i) == want[i]
  {
    var f, l := Find(want, want[i].key), LastAlike(want, i);
    if f < i {
      assert want[f].key == want[i].key;
    } else if l > i {
      assert want[l].key == want[i].key;
    }
  }

  /** Adding the entries by key gives one element per entry exactly when no key repeats but with the offset Invalid. */
  lemma BuildersAgreeIff(entries: seq<Entry>)
    requires Encodable(entries)
    ensures Rebuilt(ListOf(entries)) == ListOf(entries) <==> RepeatsInvalid(ListOf(entries))
  {
    var want := ListOf(entries);
    if Rebuilt(want) == want {
      forall i, j | 0 <= i < j < |want| && want[i].key == want[j].key
        ensures want[i].raw == OFFSET_INVALID && want[j].raw == OFFSET_INVALID
      {
        RepeatIsInvalid(want, i, j);
      }
    }
    if RepeatsInvalid(want) {
      forall i | 0 <= i < |want| ensures Rebuilt(want)[i] == want[i] {
        RebuiltAt(want, i);
        InvalidIsSettled(want, i);
      }
    }
  }

  lemma {:induction false} EncodableOneMore(entries: seq<Entry>, n: nat)
    requires n < |entries|
    ensures Encodable(entries[..n + 1]) <==> Encodable(entries[..n]) && entries[n].offset.ToRaw().Some?
    ensures Encodable(entries) ==> Encodable(entries[..n + 1])
  {
    assert forall i :: 0 <= i < n ==> entries[..n][i] == entries[..n + 1][i];
    assert entries[..n + 1][n] == entries[n];
  }

  lemma {:induction false} RebuiltOneMore(entries: seq<Entry>, n: nat)
    requires n < |entries| && Encodable(entries[..n + 1]) && Encodable(entries[..n])
    ensures entries[n].offset.ToRaw().Some?
    ensures Rebuilt(ListOf(entries[..n + 1])) ==
      AddedByKey(Rebuilt(ListOf(entries[..n])), entries[n].key, entries[n].offset.ToRaw().value)
  {
    var want := ListOf(entries[..n + 1]);
    assert entries[..n + 1][n] == entries[n];
    assert want[..n] == ListOf(entries[..n]);
  }

  /** They do differ: a later entry with the same key overwrites the first. */
  lemma BuildersDifferOnDuplicates() returns (entries: seq<Entry>)
    ensures Encodable(entries) && Rebuilt(ListOf(entries)) != ListOf(entries)
  {
    var k := Key("t", 0);
    entries := [Entry(k, Exactly(1)), Entry(k, Exactly(2))];
    var want := ListOf(entries);
    assert want[0].key == want[1].key && want[0].raw == 1;
    BuildersAgreeIff(entries);
  }

  datatype Result = Ok | InvalidArgument | UnknownPartition

  /** The mutable list. */
  class List {
    var elems: seq<Elem>

    constructor ()
      ensures elems == []
    {
      elems := [];
    }

    /** Appends a fresh element and returns where it is. */
    method AddPartition(key: Key) returns (at: nat)
      modifies this
      ensures elems == old(elems) + [Fresh(key)] && at == |old(elems)|
    {
      at := |elems|;
      elems := elems + [Fresh(key)];
    }

    /** `TopicPartitionListElem::set_offset` on the element at a position. */
    method SetOffset(at: nat, offset: Offset) returns (r: Result)
      requires at < |elems|
      modifies this
      ensures r == if offset.ToRaw().Some? then Ok else InvalidArgument
      ensures elems == if r.Ok? then old(elems)[at := old(elems)[at].(raw := offset.ToRaw().value)] else old(elems)
    {
      match offset.ToRaw() {
        case Some(raw) =>
          elems := elems[at := elems[at].(raw := raw)];
          r := Ok;
        case None =>
          r := InvalidArgument;
      }
    }

    /** Sets the offset of the first element with the key; nothing changes unless it succeeds. */
    method SetPartitionOffset(key: Key, offset: Offset) returns (r: Result)
      modifies this
      ensures r == if offset.ToRaw().None? then InvalidArgument
                   else if key in Keys(old(elems)) then Ok else UnknownPartition
      ensures !r.Ok? ==> elems == old(elems)
      ensures r.Ok? ==> var i := Find(old(elems), key);
        i < |old(elems)| && elems == old(elems)[i := old(elems)[i].(raw := offset.ToRaw().value)]
    {
      if offset.ToRaw().None? {
        return InvalidArgument;
      }
      var i := Find(elems, key);
      if i == |elems| {
        return UnknownPartition;
      }
      assert elems[i].key in Keys(elems);
      r := SetOffset(i, offset);
    }

    method AddPartitionOffset(key: Key, offset: Offset) returns (r: Result)
      modifies this
      ensures r == if offset.ToRaw().Some? then Ok else InvalidArgument
      ensures elems == if r.Ok? then AddedByKey(old(elems), key, offset.ToRaw().value) else old(elems) + [Fresh(key)]
    {
      var at := AddPartition(key);
      assert elems[at].key in Keys(elems);
      r := SetPartitionOffset(key, offset);
    }

    /** Sets every offset, or none: an offset that cannot be encoded fails unless there is nothing to set. */
    method SetAllOffsets(offset: Offset) returns (r: Result)
      modifies this
      ensures r.Ok? <==> offset.ToRaw().Some? || old(elems) == []
      ensures |elems| == |old(elems)|
      ensures forall i :: 0 <= i < |elems| ==>
        elems[i] == if r.Ok? then old(elems)[i].(raw := offset.ToRaw().value) else old(elems)[i]
    {
      var n := 0;
      while n < |elems|
        invariant n <= |elems| == |old(elems)|
        invariant n > 0 ==> offset.ToRaw().Some?
        invariant forall i :: 0 <= i < n ==> elems[i] == old(elems)[i].(raw := offset.ToRaw().value)
        invariant forall i :: n <= i < |elems| ==> elems[i] == old(elems)[i]
      {
        r := SetOffset(n, offset);
        if !r.Ok? {
          return;
        }
        n := n + 1;
      }
      r := Ok;
    }

    /** `from_topic_map`, with the entries in whatever order the hash map yields them: it succeeds exactly when every
        offset can be encoded, and then yields one element per entry. */
    method FromTopicMap(entries: seq<Entry>) returns (r: Result)
      requires DistinctEntries(entries) && elems == []
      modifies this
      ensures r == if Encodable(entries) then Ok else InvalidArgument
      ensures r.Ok? ==> elems == ListOf(entries)
    {
      r := AddEach(entries);
      if r.Ok? {
        BuildersAgreeIff(entries);
      }
    }

    /** Adding entries one by one to a fresh list, where keys may repeat. */
    method AddEach(entries: seq<Entry>) returns (r: Result)
      requires elems == []
      modifies this
      ensures r == if Encodable(entries) then Ok else InvalidArgument
      ensures r.Ok? ==> elems == Rebuilt(ListOf(entries))
    {
      r := Ok;
      var n := 0;
      while n < |entries| && r.Ok?
        invariant n <= |entries| && r == if Encodable(entries[..n]) then Ok else InvalidArgument
        invariant r.Ok? ==> elems == Rebuilt(ListOf(entries[..n]))
      {
        r := AddPartitionOffset(entries[n].key, entries[n].offset);
        EncodableOneMore(entries, n);
        if r.Ok? {
          RebuiltOneMore(entries, n);
        }
        n := n + 1;
      }
      assert entries[..|entries|] == entries;
    }

    /** Collecting from an iterator: it sets the element just added, and panics (here: fails) on an offset that cannot
        be encoded. Keys may repeat. */
    method FromIter(entries: seq<Entry>) returns (r: Result)
      requires elems == []
      modifies this
      ensures r == if Encodable(entries) then Ok else InvalidArgument
      ensures r.Ok? ==> elems == ListOf(entries)
    {
      var n := 0;
      while n < |entries|
        invariant n <= |entries| && Encodable(entries[..n])
        invariant elems == ListOf(entries[..n])
      {
        var at := AddPartition(entries[n].key);
        r := SetOffset(at, entries[n].offset);
        if !r.Ok? {
          return;
        }
        n := n + 1;
      }
      assert entries[..n] == entries;
      r := Ok;
    }
  }

  // ---- Maps there and back ----

  /** The entries are the map's, each once, in some order. */
  ghost predicate OrderOf(entries: seq<Entry>, m: map<Key, Offset>) {
    && DistinctEntries(entries)
    && (forall i :: 0 <= i < |entries| ==> entries[i].key in m && m[entries[i].key] == entries[i].offset)
    && (forall k :: k in m ==> exists i :: 0 <= i < |entries| && entries[i].key == k)
  }

  lemma {:induction false} TopicMapKeys(list: seq<Elem>)
    ensures ToTopicMap(list).Keys == Keys(list)
  {
    if list != [] {
      TopicMapKeys(list[..|list| - 1]);
      KeysOfFront(list);
    }
  }

  lemma {:induction false} TopicMapAt(list: seq<Elem>, i: nat)
    requires DistinctKeys(list) && i < |list|
    ensures list[i].key in ToTopicMap(list) && ToTopicMap(list)[list[i].key] == FromRaw(list[i].raw)
  {
    if i < |list| - 1 {
      TopicMapAt(list[..|list| - 1], i);
    }
  }

  lemma ListOfKeys(entries: seq<Entry>, m: map<Key, Offset>)
    requires OrderOf(entries, m) && Encodable(entries)
    ensures DistinctKeys(ListOf(entries)) && Keys(ListOf(entries)) == m.Keys
  {
    var list := ListOf(entries);
    forall k | k in m ensures k in Keys(list) {
      var i :| 0 <= i < |entries| && entries[i].key == k;
      assert list[i].key == k;
    }
  }

  lemma KeyRoundTrip(entries: seq<Entry>, m: map<Key, Offset>, k: Key)
    requires OrderOf(entries, m) && Encodable(entries) && k in m && m[k].WellTyped()
    ensures k in ToTopicMap(ListOf(entries)) && (ToTopicMap(ListOf(entries))[k] == m[k] <==> m[k].Fits())
  {
    ListOfKeys(entries, m);
    var i :| 0 <= i < |entries| && entries[i].key == k;
    TopicMapAt(ListOf(entries), i);
    OffsetRoundTrip(m[k]);
  }

  /** The map round trip, for every iteration order: a map of encodable offsets comes back unchanged exactly when no
      encoding overflows. */
  lemma MapRoundTripIff(entries: seq<Entry>, m: map<Key, Offset>)
    requires OrderOf(entries, m) && Encodable(entries)
    requires forall k :: k in m ==> m[k].WellTyped()
    ensures ToTopicMap(ListOf(entries)) == m <==> forall k :: k in m ==> m[k].Fits()
  {
    var back := ToTopicMap(ListOf(entries));
    assert back.Keys == m.Keys by {
      ListOfKeys(entries, m);
      TopicMapKeys(ListOf(entries));
    }
    forall k | k in m ensures back[k] == m[k] <==> m[k].Fits() { KeyRoundTrip(entries, m, k); }
  }

  /** The element of one order's list is what the other's has under its key. */
  lemma OrdersMatch(a: seq<Entry>, b: seq<Entry>, m: map<Key, Offset>, i: nat)
    requires OrderOf(a, m) && OrderOf(b, m) && Encodable(a) && Encodable(b) && i < |a|
    ensures Matched(ListOf(a)[i], ListOf(b))
  {
    var y := ListOf(b);
    assert a[i].key in m;
    var k :| 0 <= k < |b| && b[k].key == a[i].key;
    var j := Find(y, a[i].key);
    assert y[k].key == a[i].key;
    assert j < |y| && b[j].key == a[i].key;
  }

  /** Two iteration orders of the same map give equal lists. */
  lemma OrdersAgree(a: seq<Entry>, b: seq<Entry>, m: map<Key, Offset>)
    requires OrderOf(a, m) && OrderOf(b, m) && Encodable(a) && Encodable(b)
    ensures ListEq(ListOf(a), ListOf(b))
  {
    ListOfKeys(a, m);
    ListOfKeys(b, m);
    KeyCount(ListOf(a));
    KeyCount(ListOf(b));
    forall i | 0 <= i < |a| ensures Matched(ListOf(a)[i], ListOf(b)) { OrdersMatch(a, b, m, i); }
  }
}
