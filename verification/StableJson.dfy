/** The canonical form of JSON values: object keys sorted at every depth. */
module StableJson {
  import opened Json

  /** A JSON value whose objects list their members in order. */
  datatype OrderedJson =
    | Leaf(value: Json)
    | List(items: seq<OrderedJson>)
    | Record(entries: seq<Entry>)

  datatype Entry = Entry(key: string, value: OrderedJson)

  /** The comparison of keys: at most as great as. */
  type Order = (string, string) -> bool

  ghost predicate TotalPreorder(leq: Order) {
    && (forall x, y :: leq(x, y) || leq(y, x))
    && (forall x, y, z :: leq(x, y) && leq(y, z) ==> leq(x, z))
  }

  // ---------- the sort ----------

  /** A stable sort by key. */
  function SortEntries(entries: seq<Entry>, leq: Order): seq<Entry> {
    if entries == [] then [] else InsertEntry(entries[0], SortEntries(entries[1..], leq), leq)
  }

  function InsertEntry(e: Entry, entries: seq<Entry>, leq: Order): seq<Entry> {
    if entries == [] || leq(e.key, entries[0].key) then [e] + entries
    else [entries[0]] + InsertEntry(e, entries[1..], leq)
  }

  function SortJson(value: OrderedJson, leq: Order): OrderedJson {
    match value
    case Leaf(_) => value
    case List(items) => List(seq(|items|, i requires 0 <= i < |items| => SortJson(items[i], leq)))
    case Record(entries) =>
      SortEntriesMembers(entries, leq);
      var sorted := SortEntries(entries, leq);
      Record(seq(|sorted|, i requires 0 <= i < |sorted| => (
        assert sorted[i] in entries;
        Entry(sorted[i].key, SortJson(sorted[i].value, leq)))))
  }

  // ---------- what an ordered value means ----------

  ghost predicate UniqueKeys(entries: seq<Entry>) {
    forall i, j :: 0 <= i < j < |entries| ==> entries[i].key != entries[j].key
  }

  /** Leaves are no collections, and no object has the same key twice. */
  ghost predicate WellFormed(value: OrderedJson) {
    match value
    case Leaf(v) => !v.Arr? && !v.Obj?
    case List(items) => forall i :: 0 <= i < |items| ==> WellFormed(items[i])
    case Record(entries) => UniqueKeys(entries) && forall i :: 0 <= i < |entries| ==> WellFormed(entries[i].value)
  }

  /** No two keys of these entries compare as equal. */
  ghost predicate ToldApart(entries: seq<Entry>, leq: Order) {
    forall e, f :: e in entries && f in entries && leq(e.key, f.key) && leq(f.key, e.key) ==> e.key == f.key
  }

  /** The comparison tells the keys of every object in the value apart. */
  ghost predicate Distinguished(value: OrderedJson, leq: Order) {
    match value
    case Leaf(_) => true
    case List(items) => forall i :: 0 <= i < |items| ==> Distinguished(items[i], leq)
    case Record(entries) =>
      ToldApart(entries, leq) && forall i :: 0 <= i < |entries| ==> Distinguished(entries[i].value, leq)
  }

  /** The value with the order of its members forgotten. */
  ghost function Meaning(value: OrderedJson): Json
    decreases value, 1
  {
    match value
    case Leaf(v) => v
    case List(items) => Arr(seq(|items|, i requires 0 <= i < |items| => Meaning(items[i])))
    case Record(entries) => Obj(Members(entries))
  }

  ghost function Members(entries: seq<Entry>): map<string, Json>
    decreases entries, 0
  {
    if entries == [] then map[]
    else Members(entries[1..])[entries[0].key := Meaning(entries[0].value)]
  }

  // ---------- sorting permutes ----------

  lemma {:induction false} InsertEntryMembers(e: Entry, entries: seq<Entry>, leq: Order)
    ensures |InsertEntry(e, entries, leq)| == |entries| + 1
    ensures forall x :: x in InsertEntry(e, entries, leq) <==> x == e || x in entries
  {
    if entries != [] && !leq(e.key, entries[0].key) {
      InsertEntryMembers(e, entries[1..], leq);
    }
  }

  lemma {:induction false} SortEntriesMembers(entries: seq<Entry>, leq: Order)
    ensures |SortEntries(entries, leq)| == |entries|
    ensures forall x :: x in SortEntries(entries, leq) <==> x in entries
  {
    if entries != [] {
      SortEntriesMembers(entries[1..], leq);
      InsertEntryMembers(entries[0], SortEntries(entries[1..], leq), leq);
    }
  }

  ghost predicate Ascending(entries: seq<Entry>, leq: Order) {
    forall i, j :: 0 <= i < j < |entries| ==> leq(entries[i].key, entries[j].key)
  }

  lemma {:induction false} InsertEntryAscending(e: Entry, entries: seq<Entry>, leq: Order)
    requires TotalPreorder(leq) && Ascending(entries, leq) && UniqueKeys(entries)
    requires forall x :: x in entries ==> x.key != e.key
    ensures Ascending(InsertEntry(e, entries, leq), leq) && UniqueKeys(InsertEntry(e, entries, leq))
  {
    if entries != [] && !leq(e.key, entries[0].key) {
      InsertEntryAscending(e, entries[1..], leq);
      InsertEntryMembers(e, entries[1..], leq);
      assert forall x :: x in entries[1..] ==> leq(entries[0].key, x.key) && x.key != entries[0].key;
    }
  }

  lemma {:induction false} SortEntriesAscending(entries: seq<Entry>, leq: Order)
    requires TotalPreorder(leq) && UniqueKeys(entries)
    ensures Ascending(SortEntries(entries, leq), leq) && UniqueKeys(SortEntries(entries, leq))
  {
    if entries != [] {
      SortEntriesAscending(entries[1..], leq);
      SortEntriesMembers(entries[1..], leq);
      InsertEntryAscending(entries[0], SortEntries(entries[1..], leq), leq);
    }
  }

  // ---------- the sorted form keeps the meaning ----------

  lemma {:induction false} MeaningOfEntry(entries: seq<Entry>, i: int)
    requires UniqueKeys(entries) && 0 <= i < |entries|
    ensures entries[i].key in Members(entries) && Members(entries)[entries[i].key] == Meaning(entries[i].value)
  {
    if i > 0 {
      MeaningOfEntry(entries[1..], i - 1);
      assert entries[1..][i - 1] == entries[i];
    }
  }

  ghost predicate HasKey(entries: seq<Entry>, key: string) {
    exists i :: 0 <= i < |entries| && entries[i].key == key
  }

  lemma {:induction false} KeysOfMeaning(entries: seq<Entry>, key: string)
    ensures key in Members(entries) <==> HasKey(entries, key)
  {
    if entries != [] {
      KeysOfMeaning(entries[1..], key);
      if i :| 0 < i < |entries| && entries[i].key == key {
        assert entries[1..][i - 1].key == key;
      }
    }
  }

  /** The sorted record: its entries in ascending order, each with its value sorted. */
  lemma SortedRecord(entries: seq<Entry>, leq: Order)
    requires TotalPreorder(leq) && UniqueKeys(entries)
    ensures var sorted, r := SortEntries(entries, leq), SortJson(Record(entries), leq);
            && r.Record? && |r.entries| == |sorted| == |entries|
            && Ascending(r.entries, leq) && UniqueKeys(r.entries)
            && forall i :: 0 <= i < |sorted| ==>
                 && sorted[i] in entries
                 && r.entries[i] == Entry(sorted[i].key, SortJson(sorted[i].value, leq))
  {
    SortEntriesMembers(entries, leq);
    SortEntriesAscending(entries, leq);
    assert forall i :: 0 <= i < |entries| ==> SortEntries(entries, leq)[i] in entries;
  }

  /** Every key keeps its value, sorted, and no key is added. */
  lemma SortKeepsEntries(entries: seq<Entry>, leq: Order)
    requires TotalPreorder(leq) && UniqueKeys(entries)
    ensures var r := SortJson(Record(entries), leq);
            forall e :: e in r.entries <==> exists x :: x in entries && e == Entry(x.key, SortJson(x.value, leq))
  {
    SortedRecord(entries, leq);
    SortEntriesMembers(entries, leq);
    var sorted, r := SortEntries(entries, leq), SortJson(Record(entries), leq);
    forall x | x in entries ensures Entry(x.key, SortJson(x.value, leq)) in r.entries {
      assert x in sorted;
      var i :| 0 <= i < |sorted| && sorted[i] == x;
      assert r.entries[i] == Entry(x.key, SortJson(x.value, leq));
    }
  }

  lemma {:induction false} SortKeepsMeaning(value: OrderedJson, leq: Order)
    requires TotalPreorder(leq) && WellFormed(value)
    ensures WellFormed(SortJson(value, leq))
    ensures Meaning(SortJson(value, leq)) == Meaning(value)
  {
    match value
    case Leaf(_) =>
    case List(items) =>
      forall i | 0 <= i < |items|
        ensures WellFormed(SortJson(items[i], leq)) && Meaning(SortJson(items[i], leq)) == Meaning(items[i])
      {
        SortKeepsMeaning(items[i], leq);
      }
    case Record(entries) =>
      SortedRecord(entries, leq);
      var sorted, r := SortEntries(entries, leq), SortJson(value, leq);
      forall i | 0 <= i < |sorted|
        ensures WellFormed(r.entries[i].value) && Meaning(r.entries[i].value) == Meaning(sorted[i].value)
      {
        SortKeepsMeaning(sorted[i].value, leq);
      }
      RecordKeepsMeaning(entries, sorted, r.entries, leq);
  }

  lemma RecordKeepsMeaning(entries: seq<Entry>, sorted: seq<Entry>, result: seq<Entry>, leq: Order)
    requires UniqueKeys(entries) && UniqueKeys(result) && sorted == SortEntries(entries, leq)
    requires |sorted| == |result|
    requires forall i :: 0 <= i < |sorted| ==>
               result[i].key == sorted[i].key && Meaning(result[i].value) == Meaning(sorted[i].value)
    ensures Meaning(Record(result)) == Meaning(Record(entries))
  {
    var before, after := Members(entries), Members(result);
    forall key ensures (key in before <==> key in after) && (key in before ==> before[key] == after[key]) {
      KeysOfMeaning(entries, key);
      KeysOfMeaning(result, key);
      SortedHasKey(entries, leq, key);
      assert HasKey(sorted, key) <==> HasKey(result, key) by {
        assert forall i :: 0 <= i < |sorted| ==> result[i].key == sorted[i].key;
      }
      if key in before {
        var i :| 0 <= i < |result| && result[i].key == key;
        MeaningOfEntry(result, i);
        SortEntriesMembers(entries, leq);
        assert sorted[i] in entries;
        EntryMeaning(entries, sorted[i]);
      }
    }
    assert before == after;
  }

  lemma SortedHasKey(entries: seq<Entry>, leq: Order, key: string)
    ensures HasKey(SortEntries(entries, leq), key) <==> HasKey(entries, key)
  {
    SortEntriesMembers(entries, leq);
    var sorted := SortEntries(entries, leq);
    assert HasKey(sorted, key) <==> exists e :: e in sorted && e.key == key;
    assert HasKey(entries, key) <==> exists e :: e in entries && e.key == key;
  }

  lemma EntryMeaning(entries: seq<Entry>, e: Entry)
    requires UniqueKeys(entries) && e in entries
    ensures e.key in Members(entries) && Members(entries)[e.key] == Meaning(e.value)
  {
    var i :| 0 <= i < |entries| && entries[i] == e;
    MeaningOfEntry(entries, i);
  }

  // ---------- sorting twice is sorting once ----------

  lemma {:induction false} AscendingIsSorted(entries: seq<Entry>, leq: Order)
    requires Ascending(entries, leq)
    ensures SortEntries(entries, leq) == entries
  {
    if entries != [] {
      AscendingIsSorted(entries[1..], leq);
      assert |entries| > 1 ==> leq(entries[0].key, entries[1].key);
    }
  }

  lemma {:induction false} SortIdempotent(value: OrderedJson, leq: Order)
    requires TotalPreorder(leq) && WellFormed(value)
    ensures SortJson(SortJson(value, leq), leq) == SortJson(value, leq)
  {
    match value
    case Leaf(_) =>
    case List(items) =>
      forall i | 0 <= i < |items| ensures SortJson(SortJson(items[i], leq), leq) == SortJson(items[i], leq) {
        SortIdempotent(items[i], leq);
      }
    case Record(entries) =>
      SortedRecord(entries, leq);
      var sorted, r := SortEntries(entries, leq), SortJson(value, leq);
      AscendingIsSorted(r.entries, leq);
      SortedRecord(r.entries, leq);
      forall i | 0 <= i < |sorted|
        ensures SortJson(SortJson(sorted[i].value, leq), leq) == SortJson(sorted[i].value, leq)
      {
        SortIdempotent(sorted[i].value, leq);
      }
      assert SortJson(r, leq).entries == r.entries;
  }

  // ---------- the sorted form is canonical ----------

  /** Two values, the keys of one told apart, have the same sorted form exactly when they
      mean the same. */
  lemma SortIsCanonical(a: OrderedJson, b: OrderedJson, leq: Order)
    requires TotalPreorder(leq) && WellFormed(a) && WellFormed(b) && Distinguished(a, leq)
    ensures SortJson(a, leq) == SortJson(b, leq) <==> Meaning(a) == Meaning(b)
  {
    SortKeepsMeaning(a, leq);
    SortKeepsMeaning(b, leq);
    if Meaning(a) == Meaning(b) {
      SameMeaningSameForm(a, b, leq);
    }
  }

  lemma {:induction false} SameMeaningSameForm(a: OrderedJson, b: OrderedJson, leq: Order)
    requires TotalPreorder(leq) && WellFormed(a) && WellFormed(b) && Distinguished(a, leq)
    requires Meaning(a) == Meaning(b)
    ensures SortJson(a, leq) == SortJson(b, leq)
    decreases a
  {
    match a
    case Leaf(_) =>
    case List(items) =>
      assert b.List? && |b.items| == |items|;
      forall i | 0 <= i < |items| ensures SortJson(items[i], leq) == SortJson(b.items[i], leq) {
        assert Meaning(items[i]) == Meaning(a).items[i] && Meaning(b.items[i]) == Meaning(b).items[i];
        SameMeaningSameForm(items[i], b.items[i], leq);
      }
    case Record(entries) =>
      assert b.Record?;
      SortedRecord(entries, leq);
      SortedRecord(b.entries, leq);
      var x, y := SortEntries(entries, leq), SortEntries(b.entries, leq);
      SortEntriesAscending(entries, leq);
      SortEntriesAscending(b.entries, leq);
      SortEntriesMembers(entries, leq);
      forall key ensures HasKey(x, key) <==> HasKey(y, key) {
        SortedHasKey(entries, leq, key);
        SortedHasKey(b.entries, leq, key);
        KeysOfMeaning(entries, key);
        KeysOfMeaning(b.entries, key);
      }
      SameKeys(x, y, leq);
      forall i | 0 <= i < |x| ensures SortJson(x[i].value, leq) == SortJson(y[i].value, leq) {
        EntryMeaning(entries, x[i]);
        EntryMeaning(b.entries, y[i]);
        SameMeaningSameForm(x[i].value, y[i].value, leq);
      }
      assert SortJson(a, leq).entries == SortJson(b, leq).entries;
  }

  /** Entries in ascending order whose keys are told apart are determined by their keys. */
  lemma {:induction false} SameKeys(x: seq<Entry>, y: seq<Entry>, leq: Order)
    requires TotalPreorder(leq) && ToldApart(x, leq)
    requires Ascending(x, leq) && UniqueKeys(x) && Ascending(y, leq) && UniqueKeys(y)
    requires forall key :: HasKey(x, key) <==> HasKey(y, key)
    ensures |x| == |y| && forall i :: 0 <= i < |x| ==> x[i].key == y[i].key
  {
    if x == [] || y == [] {
      assert x != [] ==> HasKey(x, x[0].key);
      assert y != [] ==> HasKey(y, y[0].key);
    } else {
      assert HasKey(y, x[0].key) && HasKey(x, y[0].key);
      SameLeastKey(x, y, leq);
      forall key ensures HasKey(x[1..], key) <==> HasKey(y[1..], key) {
        TailKeys(x, key);
        TailKeys(y, key);
      }
      SameKeys(x[1..], y[1..], leq);
      assert forall i :: 0 < i < |x| ==> x[i] == x[1..][i - 1] && y[i] == y[1..][i - 1];
    }
  }

  lemma SameLeastKey(x: seq<Entry>, y: seq<Entry>, leq: Order)
    requires ToldApart(x, leq) && Ascending(x, leq) && Ascending(y, leq) && x != [] && y != []
    requires HasKey(y, x[0].key) && HasKey(x, y[0].key)
    ensures x[0].key == y[0].key
  {
    LeastKey(x, y[0].key, leq);
    LeastKey(y, x[0].key, leq);
    var i :| 0 <= i < |x| && x[i].key == y[0].key;
    assert x[i] in x && x[0] in x;
  }

  lemma LeastKey(x: seq<Entry>, key: string, leq: Order)
    requires Ascending(x, leq) && HasKey(x, key)
    ensures x[0].key == key || leq(x[0].key, key)
  {
  }

  lemma TailKeys(x: seq<Entry>, key: string)
    requires UniqueKeys(x) && x != []
    ensures HasKey(x[1..], key) <==> HasKey(x, key) && key != x[0].key
  {
    if i :| 0 <= i < |x| && x[i].key == key {
      assert i > 0 ==> x[1..][i - 1].key == key;
    }
  }

  // ---------- values with more than one sorted form ----------

  /** All values that mean the same have the same sorted form. */
  ghost predicate HasOneForm(a: OrderedJson, leq: Order) {
    forall b :: WellFormed(b) && Meaning(b) == Meaning(a) ==> SortJson(b, leq) == SortJson(a, leq)
  }

  /** A value has one sorted form, whatever the order of its keys, exactly when the comparison
      tells the keys of each of its objects apart. */
  lemma OneFormIff(a: OrderedJson, leq: Order)
    requires TotalPreorder(leq) && WellFormed(a)
    ensures HasOneForm(a, leq) <==> Distinguished(a, leq)
  {
    if Distinguished(a, leq) {
      forall b | WellFormed(b) && Meaning(b) == Meaning(a) ensures SortJson(b, leq) == SortJson(a, leq) {
        SortIsCanonical(a, b, leq);
      }
    } else {
      var b := OtherForm(a, leq);
    }
  }

  /** Some value means the same and has another sorted form. */
  lemma {:induction false} OtherForm(a: OrderedJson, leq: Order) returns (b: OrderedJson)
    requires TotalPreorder(leq) && WellFormed(a) && !Distinguished(a, leq)
    ensures WellFormed(b) && Meaning(b) == Meaning(a) && SortJson(b, leq) != SortJson(a, leq)
    decreases a
  {
    match a
    case Leaf(_) =>
    case List(items) =>
      var i :| 0 <= i < |items| && !Distinguished(items[i], leq);
      var other := OtherForm(items[i], leq);
      b := List(items[i := other]);
      assert Meaning(b).items == Meaning(a).items;
      assert SortJson(b, leq).items[i] != SortJson(a, leq).items[i];
    case Record(entries) =>
      if i :| 0 <= i < |entries| && !Distinguished(entries[i].value, leq) {
        var other := OtherForm(entries[i].value, leq);
        b := Record(entries[i := Entry(entries[i].key, other)]);
        OtherValue(entries, i, Entry(entries[i].key, other), leq);
      } else {
        var i, j := EqualPair(entries, leq);
        b := Record(Swapped(entries, i, j));
        OtherOrder(entries, i, j, leq);
      }
  }

  lemma EqualPair(entries: seq<Entry>, leq: Order) returns (i: nat, j: nat)
    requires !ToldApart(entries, leq)
    ensures i < j < |entries| && leq(entries[i].key, entries[j].key) && leq(entries[j].key, entries[i].key)
  {
    var x, y :| x in entries && y in entries && leq(x.key, y.key) && leq(y.key, x.key) && x.key != y.key;
    i :| 0 <= i < |entries| && entries[i] == x;
    j :| 0 <= j < |entries| && entries[j] == y;
    if j < i { i, j := j, i; }
  }

  /** Records with the same keys, each with the same meaning, mean the same. */
  lemma SameMembers(a: seq<Entry>, b: seq<Entry>)
    requires UniqueKeys(a) && UniqueKeys(b)
    requires forall key :: HasKey(a, key) <==> HasKey(b, key)
    requires forall e, f :: e in a && f in b && e.key == f.key ==> Meaning(e.value) == Meaning(f.value)
    ensures Members(a) == Members(b)
  {
    forall key ensures (key in Members(a) <==> key in Members(b))
                       && (key in Members(a) ==> Members(a)[key] == Members(b)[key])
    {
      KeysOfMeaning(a, key);
      KeysOfMeaning(b, key);
      if HasKey(a, key) {
        var i :| 0 <= i < |a| && a[i].key == key;
        var j :| 0 <= j < |b| && b[j].key == key;
        EntryMeaning(a, a[i]);
        EntryMeaning(b, b[j]);
      }
    }
    assert Members(a) == Members(b);
  }

  /** Another form of one member's value gives another form of the record. */
  lemma OtherValue(entries: seq<Entry>, i: nat, e: Entry, leq: Order)
    requires TotalPreorder(leq) && WellFormed(Record(entries)) && i < |entries| && e.key == entries[i].key
    requires WellFormed(e.value) && Meaning(e.value) == Meaning(entries[i].value)
    requires SortJson(e.value, leq) != SortJson(entries[i].value, leq)
    ensures WellFormed(Record(entries[i := e])) && Meaning(Record(entries[i := e])) == Meaning(Record(entries))
    ensures SortJson(Record(entries[i := e]), leq) != SortJson(Record(entries), leq)
  {
    var others := entries[i := e];
    forall key ensures HasKey(entries, key) <==> HasKey(others, key) {
      assert forall k :: 0 <= k < |entries| ==> entries[k].key == others[k].key;
    }
    SameMembers(entries, others);
    SortedEntry(entries, i, leq);
    SortedEntry(others, i, leq);
  }

  /** The sorted record has each member, sorted, and no other with its key. */
  lemma SortedEntry(entries: seq<Entry>, i: nat, leq: Order)
    requires TotalPreorder(leq) && UniqueKeys(entries) && i < |entries|
    ensures var r := SortJson(Record(entries), leq).entries;
            && Entry(entries[i].key, SortJson(entries[i].value, leq)) in r
            && forall x :: x in r && x.key == entries[i].key ==> x.value == SortJson(entries[i].value, leq)
  {
    assert entries[i] in entries;
    SortedRecord(entries, leq);
    SortKeepsEntries(entries, leq);
  }

  // ---------- the sort is stable ----------

  /** Key x comes before key y. */
  ghost predicate Before(entries: seq<Entry>, x: string, y: string) {
    exists p, q :: 0 <= p < q < |entries| && entries[p].key == x && entries[q].key == y
  }

  /** Where an entry is inserted: before the first key it is at most as great as. */
  function Place(e: Entry, entries: seq<Entry>, leq: Order): (p: nat)
    ensures p <= |entries| && forall r :: 0 <= r < p ==> !leq(e.key, entries[r].key)
    ensures InsertEntry(e, entries, leq) == entries[..p] + [e] + entries[p..]
  {
    if entries == [] || leq(e.key, entries[0].key) then 0 else 1 + Place(e, entries[1..], leq)
  }

  lemma InsertKeepsBefore(e: Entry, entries: seq<Entry>, x: string, y: string, leq: Order)
    requires Before(entries, x, y)
    ensures Before(InsertEntry(e, entries, leq), x, y)
  {
    var p := Place(e, entries, leq);
    var a, b :| 0 <= a < b < |entries| && entries[a].key == x && entries[b].key == y;
    MovedUp(e, entries, p, a);
    MovedUp(e, entries, p, b);
  }

  function UpFrom(p: nat, i: nat): nat { if i < p then i else i + 1 }

  lemma MovedUp(e: Entry, entries: seq<Entry>, p: nat, i: nat)
    requires p <= |entries| && i < |entries|
    ensures UpFrom(p, i) <= |entries| && (entries[..p] + [e] + entries[p..])[UpFrom(p, i)] == entries[i]
  {
  }

  lemma InsertedBefore(e: Entry, entries: seq<Entry>, q: nat, leq: Order)
    requires q < |entries| && leq(e.key, entries[q].key)
    ensures Before(InsertEntry(e, entries, leq), e.key, entries[q].key)
  {
    var p := Place(e, entries, leq);
    assert InsertEntry(e, entries, leq)[p].key == e.key;
    assert InsertEntry(e, entries, leq)[q + 1].key == entries[q].key;
  }

  /** Entries keep their order if the first is at most as great as the second. */
  lemma {:induction false} SortIsStable(entries: seq<Entry>, i: nat, j: nat, leq: Order)
    requires i < j < |entries| && leq(entries[i].key, entries[j].key)
    ensures Before(SortEntries(entries, leq), entries[i].key, entries[j].key)
  {
    var rest := SortEntries(entries[1..], leq);
    if i == 0 {
      SortEntriesMembers(entries[1..], leq);
      assert entries[1..][j - 1] in rest;
      var q :| 0 <= q < |rest| && rest[q] == entries[j];
      InsertedBefore(entries[0], rest, q, leq);
    } else {
      SortIsStable(entries[1..], i - 1, j - 1, leq);
      InsertKeepsBefore(entries[0], rest, entries[i].key, entries[j].key, leq);
    }
  }

  function Swapped(entries: seq<Entry>, i: nat, j: nat): seq<Entry>
    requires i < j < |entries|
  {
    entries[i := entries[j]][j := entries[i]]
  }

  lemma SwappedMeansTheSame(entries: seq<Entry>, i: nat, j: nat)
    requires WellFormed(Record(entries)) && i < j < |entries|
    ensures WellFormed(Record(Swapped(entries, i, j)))
    ensures Meaning(Record(Swapped(entries, i, j))) == Meaning(Record(entries))
  {
    var others := Swapped(entries, i, j);
    forall key ensures HasKey(entries, key) <==> HasKey(others, key) {
      assert others[i] == entries[j] && others[j] == entries[i];
      assert forall k :: 0 <= k < |entries| && k != i && k != j ==> others[k] == entries[k];
    }
    SameMembers(entries, others);
  }

  /** Exchanging two members whose keys compare as equal gives another form of the record. */
  lemma OtherOrder(entries: seq<Entry>, i: nat, j: nat, leq: Order)
    requires TotalPreorder(leq) && WellFormed(Record(entries)) && i < j < |entries|
    requires leq(entries[i].key, entries[j].key) && leq(entries[j].key, entries[i].key)
    ensures WellFormed(Record(Swapped(entries, i, j)))
    ensures Meaning(Record(Swapped(entries, i, j))) == Meaning(Record(entries))
    ensures SortJson(Record(Swapped(entries, i, j)), leq) != SortJson(Record(entries), leq)
  {
    var others, x, y := Swapped(entries, i, j), entries[i].key, entries[j].key;
    SwappedMeansTheSame(entries, i, j);
    SortIsStable(entries, i, j, leq);
    SortIsStable(others, i, j, leq);
    SortedRecord(entries, leq);
    SortedRecord(others, leq);
    var r, s := SortJson(Record(entries), leq).entries, SortJson(Record(others), leq).entries;
    SameOrder(SortEntries(entries, leq), r, x, y);
    SameOrder(SortEntries(others, leq), s, y, x);
    OneOrder(r, x, y);
  }

  lemma SameOrder(a: seq<Entry>, b: seq<Entry>, x: string, y: string)
    requires |a| == |b| && forall i :: 0 <= i < |a| ==> a[i].key == b[i].key
    ensures Before(a, x, y) ==> Before(b, x, y)
  {
    if Before(a, x, y) {
      var p, q :| 0 <= p < q < |a| && a[p].key == x && a[q].key == y;
      assert b[p].key == x && b[q].key == y;
    }
  }

  lemma OneOrder(entries: seq<Entry>, x: string, y: string)
    requires UniqueKeys(entries) && Before(entries, x, y)
    ensures !Before(entries, y, x)
  {
  }

  /** The least example: two keys that compare as equal. */
  function TwoEntries(first: string, second: string): OrderedJson {
    Record([Entry(first, Leaf(Str(first))), Entry(second, Leaf(Str(second)))])
  }

  /** Where two distinct keys compare as equal, the sorted form is not canonical: they stay
      in the order they came in. */
  lemma EqualKeysKeepTheirOrder(x: string, y: string, leq: Order)
    requires x != y && leq(x, y) && leq(y, x)
    ensures WellFormed(TwoEntries(x, y)) && WellFormed(TwoEntries(y, x))
    ensures Meaning(TwoEntries(x, y)) == Meaning(TwoEntries(y, x))
    ensures SortJson(TwoEntries(x, y), leq) != SortJson(TwoEntries(y, x), leq)
  {
    TwoEntriesSorted(x, y, leq);
    TwoEntriesSorted(y, x, leq);
    var a, b := TwoEntries(x, y).entries, TwoEntries(y, x).entries;
    MeaningOfEntry(a, 0);
    MeaningOfEntry(a, 1);
    MeaningOfEntry(b, 0);
    MeaningOfEntry(b, 1);
    assert Members(a) == Members(b);
  }

  lemma TwoEntriesSorted(x: string, y: string, leq: Order)
    requires leq(x, y)
    ensures SortJson(TwoEntries(x, y), leq) == TwoEntries(x, y)
  {
    var entries := TwoEntries(x, y).entries;
    assert entries[1..] == [entries[1]];
    assert SortEntries(entries[1..], leq) == [entries[1]];
    assert SortEntries(entries, leq) == entries;
    assert SortJson(TwoEntries(x, y), leq).entries == entries;
  }
}
