/** The image gallery: the owner-filtered query, the client-side ordering of
    the fetched records newest first, and the choice between spinner, empty
    state and cards. */
module Gallery {
  import opened ModelCall

  datatype User = User(uid: string)

  /** A stored timestamp: seconds and nanoseconds since the epoch. */
  datatype Timestamp = Timestamp(seconds: int, nanoseconds: int)

  datatype ImageRecord = ImageRecord(
    id: string,
    userId: string,
    originalImageUrl: string,
    transformedImageUrl: string,
    originalFileName: string,
    timestamp: Option<Timestamp>)

  const ImageRecordsCollection := "imageRecords"

  /** `where('userId', '==', uid)` on a collection. */
  datatype Query = OwnedBy(collection: string, uid: string)

  /** No signed-in user, no query. */
  function ImageRecordsQuery(user: Option<User>): (q: Option<Query>)
    ensures q.None? <==> user.None?
    ensures q.Some? ==> q.value.collection == ImageRecordsCollection && q.value.uid == user.value.uid
  {
    match user
    case None => None
    case Some(u) => Some(OwnedBy(ImageRecordsCollection, u.uid))
  }

  /** The records of `stored` whose owner is `uid`, in stored order. */
  function Owned(stored: seq<ImageRecord>, uid: string): (r: seq<ImageRecord>)
    ensures |r| <= |stored|
    ensures forall x :: x in r <==> x in stored && x.userId == uid
    decreases |stored|
  {
    if stored == [] then []
    else (if stored[0].userId == uid then [stored[0]] else []) + Owned(stored[1..], uid)
  }

  /** What the collection hook delivers for a query over the documents of
      the records collection: nothing for a missing query. */
  function Fetch(q: Option<Query>, stored: seq<ImageRecord>): (data: Option<seq<ImageRecord>>)
    ensures q.None? ==> data.None?
    ensures q.Some? ==> data.Some? && forall x :: x in data.value <==> x in stored && x.userId == q.value.uid
  {
    match q
    case None => None
    case Some(query) => Some(Owned(stored, query.uid))
  }

  /** The comparator's key, `timestamp?.toMillis() || 0`, counted in
      nanoseconds: a missing timestamp is 0. */
  function SortKey(r: ImageRecord): (key: int)
  {
    match r.timestamp
    case None => 0
    case Some(t) => t.seconds * 1_000_000_000 + t.nanoseconds
  }

  predicate NewestFirst(s: seq<ImageRecord>)
  {
    forall i, j :: 0 <= i < j < |s| ==> SortKey(s[i]) >= SortKey(s[j])
  }

  /** The records of `s` with key `k`, in their order in `s`. */
  function WithKey(s: seq<ImageRecord>, k: int): (r: seq<ImageRecord>)
    decreases |s|
  {
    if s == [] then []
    else WithKey(s[..|s| - 1], k) + (if SortKey(s[|s| - 1]) == k then [s[|s| - 1]] else [])
  }

  /** One step of a stable insertion sort under the comparator
      `(a, b) => key(b) - key(a)`: `x` moves left past every record with a
      smaller key and stops behind the first with a key at least its own. */
  function Insert(x: ImageRecord, s: seq<ImageRecord>): (r: seq<ImageRecord>)
    decreases |s|
  {
    if s == [] || SortKey(s[|s| - 1]) >= SortKey(x) then s + [x]
    else Insert(x, s[..|s| - 1]) + [s[|s| - 1]]
  }

  /** The order `[...records].sort(comparator)` produces. */
  function ByRecency(s: seq<ImageRecord>): (r: seq<ImageRecord>)
    decreases |s|
  {
    if s == [] then [] else Insert(s[|s| - 1], ByRecency(s[..|s| - 1]))
  }

  lemma {:induction false} InsertPermutes(x: ImageRecord, s: seq<ImageRecord>)
    ensures multiset(Insert(x, s)) == multiset(s) + multiset{x}
    decreases |s|
  {
    if s != [] && SortKey(s[|s| - 1]) < SortKey(x) {
      var init, last := s[..|s| - 1], s[|s| - 1];
      InsertPermutes(x, init);
      assert s == init + [last];
    }
  }

  lemma AppendOldest(a: seq<ImageRecord>, y: ImageRecord)
    requires NewestFirst(a)
    requires forall e :: e in a ==> SortKey(e) >= SortKey(y)
    ensures NewestFirst(a + [y])
  {
    forall i, j | 0 <= i < j < |a| + 1
      ensures SortKey((a + [y])[i]) >= SortKey((a + [y])[j])
    {
      if j == |a| {
        assert (a + [y])[i] == a[i] && a[i] in a;
      }
    }
  }

  lemma {:induction false} InsertKeepsOrder(x: ImageRecord, s: seq<ImageRecord>)
    requires NewestFirst(s)
    ensures NewestFirst(Insert(x, s))
    decreases |s|
  {
    if s == [] {
    } else {
      var init, last := s[..|s| - 1], s[|s| - 1];
      if SortKey(last) >= SortKey(x) {
        forall e | e in s ensures SortKey(e) >= SortKey(x) {
          var i :| 0 <= i < |s| && s[i] == e;
        }
        AppendOldest(s, x);
      } else {
        assert NewestFirst(init);
        InsertKeepsOrder(x, init);
        InsertPermutes(x, init);
        forall e | e in Insert(x, init) ensures SortKey(e) >= SortKey(last) {
          assert e in multiset(Insert(x, init));
          if e != x {
            assert e in multiset(init);
            var i :| 0 <= i < |init| && init[i] == e;
          }
        }
        AppendOldest(Insert(x, init), last);
      }
    }
  }

  lemma WithKeyAppend(s: seq<ImageRecord>, y: ImageRecord, k: int)
    ensures WithKey(s + [y], k) == WithKey(s, k) + (if SortKey(y) == k then [y] else [])
  {
    assert (s + [y])[..|s|] == s;
  }

  lemma {:induction false} InsertIsStable(x: ImageRecord, s: seq<ImageRecord>, k: int)
    ensures WithKey(Insert(x, s), k) == WithKey(s, k) + (if SortKey(x) == k then [x] else [])
    decreases |s|
  {
    if s == [] || SortKey(s[|s| - 1]) >= SortKey(x) {
      WithKeyAppend(s, x, k);
    } else {
      var init, last := s[..|s| - 1], s[|s| - 1];
      assert Insert(x, s) == Insert(x, init) + [last];
      InsertIsStable(x, init, k);
      WithKeyAppend(Insert(x, init), last, k);
      assert s == init + [last];
      WithKeyAppend(init, last, k);
      assert SortKey(x) == k ==> SortKey(last) != k;
    }
  }

  /** A non-empty list is its front followed by its last record. */
  lemma LastSplits(s: seq<ImageRecord>)
    requires s != []
    ensures multiset(s) == multiset(s[..|s| - 1]) + multiset{s[|s| - 1]}
  {
    assert s == s[..|s| - 1] + [s[|s| - 1]];
  }

  /** The sorted list is a permutation of the fetched one. */
  lemma {:induction false} ByRecencyPermutes(s: seq<ImageRecord>)
    ensures multiset(ByRecency(s)) == multiset(s)
    decreases |s|
  {
    if s != [] {
      var init, last := s[..|s| - 1], s[|s| - 1];
      ByRecencyPermutes(init);
      InsertPermutes(last, ByRecency(init));
      LastSplits(s);
    }
  }

  /** The sorted list is non-increasing by timestamp. */
  lemma {:induction false} ByRecencyIsNewestFirst(s: seq<ImageRecord>)
    ensures NewestFirst(ByRecency(s))
    decreases |s|
  {
    if s != [] {
      ByRecencyIsNewestFirst(s[..|s| - 1]);
      InsertKeepsOrder(s[|s| - 1], ByRecency(s[..|s| - 1]));
    }
  }

  /** Records with equal keys keep their fetched order. */
  lemma {:induction false} ByRecencyIsStable(s: seq<ImageRecord>, k: int)
    ensures WithKey(ByRecency(s), k) == WithKey(s, k)
    decreases |s|
  {
    if s != [] {
      var init, last := s[..|s| - 1], s[|s| - 1];
      ByRecencyIsStable(init, k);
      InsertIsStable(last, ByRecency(init), k);
    }
  }

  /** A record without a timestamp comes after every record with a positive
      one. */
  lemma MissingTimestampSortsAfterPositive(s: seq<ImageRecord>, i: nat, j: nat)
    requires i < |ByRecency(s)| && j < |ByRecency(s)|
    requires ByRecency(s)[i].timestamp.None? && SortKey(ByRecency(s)[j]) > 0
    ensures j < i
  {
    ByRecencyIsNewestFirst(s);
  }

  /** `[...imageRecords].sort(...)`: the records are copied into a fresh
      array, which is sorted in place by insertion; the input is untouched. */
  method SortNewestFirst(records: seq<ImageRecord>) returns (sorted: seq<ImageRecord>)
    ensures sorted == ByRecency(records)
  {
    var a := new ImageRecord[|records|](k requires 0 <= k < |records| => records[k]);
    var i := 0;
    while i < a.Length
      invariant 0 <= i <= a.Length
      invariant a[..i] == ByRecency(records[..i])
      invariant forall k :: i <= k < a.Length ==> a[k] == records[k]
    {
      InsertNext(a, i);
      SortedOneMore(records, i);
      i := i + 1;
    }
    assert records[..a.Length] == records;
    sorted := a[..];
  }

  lemma SortedOneMore(records: seq<ImageRecord>, i: nat)
    requires i < |records|
    ensures ByRecency(records[..i + 1]) == Insert(records[i], ByRecency(records[..i]))
  {
    assert records[..i + 1][..i] == records[..i];
  }

  /** One pass of the insertion sort: `a[i]` is shifted left into the sorted
      prefix `a[..i]`. */
  method InsertNext(a: array<ImageRecord>, i: nat)
    requires i < a.Length
    modifies a
    ensures a[..i + 1] == Insert(old(a[i]), old(a[..i]))
    ensures forall k :: i < k < a.Length ==> a[k] == old(a[k])
  {
    var x := a[i];
    ghost var prefix := a[..i];
    var j := i;
    while j > 0 && SortKey(a[j - 1]) < SortKey(x)
      invariant 0 <= j <= i
      invariant forall k :: 0 <= k < j ==> a[k] == prefix[k]
      invariant forall k :: j < k <= i ==> a[k] == prefix[k - 1]
      invariant forall k :: i < k < a.Length ==> a[k] == old(a[k])
      invariant forall k :: j <= k < i ==> SortKey(prefix[k]) < SortKey(x)
    {
      a[j] := a[j - 1];
      j := j - 1;
    }
    a[j] := x;
    ShiftedIsInserted(a[..i + 1], prefix, x, j);
    InsertLandsAt(x, prefix, j);
  }

  /** The array after shifting, read as a sequence. */
  lemma ShiftedIsInserted(s: seq<ImageRecord>, prefix: seq<ImageRecord>, x: ImageRecord, j: nat)
    requires j <= |prefix| && |s| == |prefix| + 1
    requires forall k :: 0 <= k < j ==> s[k] == prefix[k]
    requires s[j] == x
    requires forall k :: j < k < |s| ==> s[k] == prefix[k - 1]
    ensures s == prefix[..j] + [x] + prefix[j..]
  {
  }

  /** `x` lands behind the last record whose key is at least its own, and
      ahead of the records after it, whose keys are all smaller. */
  lemma {:induction false} InsertLandsAt(x: ImageRecord, prefix: seq<ImageRecord>, j: nat)
    requires j <= |prefix|
    requires j == 0 || SortKey(prefix[j - 1]) >= SortKey(x)
    requires forall k :: j <= k < |prefix| ==> SortKey(prefix[k]) < SortKey(x)
    ensures Insert(x, prefix) == prefix[..j] + [x] + prefix[j..]
    decreases |prefix|
  {
    if j == |prefix| {
      assert prefix[..j] == prefix && prefix[j..] == [];
    } else {
      var init := prefix[..|prefix| - 1];
      assert init[..j] == prefix[..j];
      InsertLandsAt(x, init, j);
      assert prefix[j..] == init[j..] + [prefix[|prefix| - 1]];
    }
  }

  /** What the gallery body shows. */
  datatype GalleryContent = Spinner | EmptyState | Cards(records: seq<ImageRecord>)

  /** `renderContent`: a spinner while loading; the empty state for no data
      or no records; otherwise one card per record, newest first. */
  function RenderContent(isLoading: bool, imageRecords: Option<seq<ImageRecord>>): (c: GalleryContent)
    ensures isLoading <==> c == Spinner
    ensures c == EmptyState <==> !isLoading && (imageRecords.None? || imageRecords.value == [])
    ensures c.Cards? ==>
      && imageRecords.Some?
      && multiset(c.records) == multiset(imageRecords.value)
      && NewestFirst(c.records)
      && forall k :: WithKey(c.records, k) == WithKey(imageRecords.value, k)
  {
    if isLoading then Spinner
    else if imageRecords.None? || imageRecords.value == [] then EmptyState
    else
      var records := imageRecords.value;
      ByRecencyPermutes(records);
      ByRecencyIsNewestFirst(records);
      assert forall k :: WithKey(ByRecency(records), k) == WithKey(records, k) by {
        forall k ensures WithKey(ByRecency(records), k) == WithKey(records, k) {
          ByRecencyIsStable(records, k);
        }
      }
      Cards(ByRecency(records))
  }

  /** The whole gallery once loaded: a signed-out visitor sees the empty
      state; a signed-in user sees exactly their own records, newest first. */
  lemma GalleryShowsOwnRecordsNewestFirst(user: Option<User>, stored: seq<ImageRecord>)
    ensures user.None? ==> RenderContent(false, Fetch(ImageRecordsQuery(user), stored)) == EmptyState
    ensures var c := RenderContent(false, Fetch(ImageRecordsQuery(user), stored));
      c.Cards? ==>
        && user.Some?
        && (forall x :: x in c.records <==> x in stored && x.userId == user.value.uid)
        && NewestFirst(c.records)
  {
    var c := RenderContent(false, Fetch(ImageRecordsQuery(user), stored));
    if c.Cards? {
      var data := Fetch(ImageRecordsQuery(user), stored).value;
      forall x ensures x in c.records <==> x in data {
        assert x in c.records <==> x in multiset(c.records);
        assert x in data <==> x in multiset(data);
      }
    }
  }
}
