/** ironmlx-app/Sources/IronMLXAppCore/BackendIncidentStore.swift: the bounded incident history. */
module IncidentStore {
  import opened Basics

  /** A record: its identity, its time, and everything else. */
  datatype Record = Record(id: int, occurredAt: int, details: string)

  type Data = string

  datatype Query = Query(limit: Option<int>, matches: Record -> bool)

  datatype ExportPayload = ExportPayload(generatedAt: int, truncated: bool, retentionLimit: nat, maximumBytes: nat,
                                         incidents: seq<Record>)

  // ---- Lists ---------------------------------------------------------------------

  /** `suffix(k)`: the last k elements, or all of them. */
  function Suffix(s: seq<Record>, k: nat): (r: seq<Record>)
    ensures |r| == Min(k, |s|)
  {
    if k < |s| then s[|s| - k..] else s
  }

  function Reversed(s: seq<Record>): (r: seq<Record>)
    ensures |r| == |s| && forall i :: 0 <= i < |s| ==> r[i] == s[|s| - 1 - i]
  {
    seq(|s|, i requires 0 <= i < |s| => s[|s| - 1 - i])
  }

  function Filter(s: seq<Record>, p: Record -> bool): seq<Record> {
    if |s| == 0 then [] else (if p(s[0]) then [s[0]] else []) + Filter(s[1..], p)
  }

  predicate TimeSorted(s: seq<Record>) {
    forall i, j :: 0 <= i < j < |s| ==> s[i].occurredAt <= s[j].occurredAt
  }

  predicate NewestFirst(s: seq<Record>) {
    forall i, j :: 0 <= i < j < |s| ==> s[i].occurredAt >= s[j].occurredAt
  }

  predicate UniqueIds(s: seq<Record>) {
    forall i, j :: 0 <= i < j < |s| ==> s[i].id != s[j].id
  }

  ghost predicate SamePieces(s: seq<Record>, t: seq<Record>) {
    |s| == |t| && multiset(s) == multiset(t)
  }

  function Ids(s: seq<Record>): set<int> {
    set r | r in s :: r.id
  }

  /** Ids together with the free text. */
  function Contents(s: seq<Record>): set<(int, string)> {
    set r | r in s :: (r.id, r.details)
  }

  /** The sort is by time and permutes; the order of equal times is open. */
  ghost predicate IsTimeSort(sort: seq<Record> -> seq<Record>) {
    forall s :: SamePieces(s, sort(s)) && TimeSorted(sort(s))
  }

  /** Records of equal time keep their order. */
  ghost predicate IsStable(sort: seq<Record> -> seq<Record>) {
    forall s, t :: Filter(sort(s), At(t)) == Filter(s, At(t))
  }

  function NewerThan(t: int): Record -> bool {
    (r: Record) => r.occurredAt > t
  }

  function NotOlderThan(t: int): Record -> bool {
    (r: Record) => r.occurredAt >= t
  }

  function At(t: int): Record -> bool {
    (r: Record) => r.occurredAt == t
  }

  lemma {:induction false} TwicePresent(s: seq<Record>, x: Record)
    requires multiset(s)[x] >= 2
    ensures exists i, j :: 0 <= i < j < |s| && s[i] == x && s[j] == x
  {
    assert s == [s[0]] + s[1..];
    if s[0] == x {
      assert multiset(s[1..])[x] >= 1;
      var j :| 0 <= j < |s[1..]| && s[1..][j] == x;
      assert s[0] == x && s[j + 1] == x;
    } else {
      TwicePresent(s[1..], x);
      var i, j :| 0 <= i < j < |s[1..]| && s[1..][i] == x && s[1..][j] == x;
      assert s[i + 1] == x && s[j + 1] == x;
    }
  }

  lemma PermutedIdsUnique(s: seq<Record>, t: seq<Record>)
    requires SamePieces(s, t) && UniqueIds(s)
    ensures UniqueIds(t)
  {
    forall i, j | 0 <= i < j < |t| ensures t[i].id != t[j].id {
      if t[i] == t[j] {
        assert t == t[..j] + [t[j]] + t[j + 1..];
        assert t[..j][i] == t[j];
        assert multiset(t)[t[j]] >= 2;
        TwicePresent(s, t[j]);
      } else {
        assert t[i] in multiset(s) && t[j] in multiset(s);
        assert t[i] in s && t[j] in s;
      }
    }
  }

  lemma SameMembers(s: seq<Record>, t: seq<Record>)
    requires SamePieces(s, t)
    ensures forall r :: r in s <==> r in t
  {
    forall r ensures r in s <==> r in t {
      assert r in multiset(s) <==> r in multiset(t);
    }
  }

  lemma PermutedIds(s: seq<Record>, t: seq<Record>)
    requires SamePieces(s, t)
    ensures Ids(s) == Ids(t) && Contents(s) == Contents(t)
  {
    SameMembers(s, t);
  }

  lemma SameIdsSameSet(s: seq<Record>, t: seq<Record>)
    requires |s| == |t| && forall i :: 0 <= i < |s| ==> s[i].id == t[i].id
    ensures Ids(s) == Ids(t)
    ensures UniqueIds(s) ==> UniqueIds(t)
    ensures (forall i :: 0 <= i < |s| ==> s[i].details == t[i].details) ==> Contents(s) == Contents(t)
  {
    if forall i :: 0 <= i < |s| ==> s[i].details == t[i].details { ContentsCovered(s, t); ContentsCovered(t, s); }
    forall id ensures id in Ids(s) <==> id in Ids(t) {
      if id in Ids(s) {
        var i :| 0 <= i < |s| && s[i].id == id;
        assert t[i] in t;
      }
      if id in Ids(t) {
        var i :| 0 <= i < |t| && t[i].id == id;
        assert s[i] in s;
      }
    }
  }

  lemma ContentsCovered(s: seq<Record>, t: seq<Record>)
    requires |s| == |t| && forall i :: 0 <= i < |s| ==> s[i].id == t[i].id && s[i].details == t[i].details
    ensures Contents(s) <= Contents(t)
  {
    forall c | c in Contents(s) ensures c in Contents(t) {
      var i :| 0 <= i < |s| && (s[i].id, s[i].details) == c;
      assert t[i] in t;
    }
  }

  // ---- Counting ------------------------------------------------------------------

  /** How many entries satisfy p. */
  function Count(s: seq<Record>, p: Record -> bool): nat {
    if |s| == 0 then 0 else (if p(s[0]) then 1 else 0) + Count(s[1..], p)
  }

  lemma {:induction false} FilterCount(s: seq<Record>, p: Record -> bool)
    ensures |Filter(s, p)| == Count(s, p)
  {
    if |s| > 0 { FilterCount(s[1..], p); }
  }

  lemma CountStep(s: seq<Record>, p: Record -> bool)
    ensures Count([], p) == 0
    ensures |s| > 0 ==> Count(s, p) == (if p(s[0]) then 1 else 0) + Count(s[1..], p)
  {
  }

  lemma {:induction false} CountAppend(a: seq<Record>, b: seq<Record>, p: Record -> bool)
    ensures Count(a + b, p) == Count(a, p) + Count(b, p)
  {
    hide Count;
    CountStep(a, p);
    if |a| == 0 {
      assert a + b == b;
    } else {
      CountStep(a + b, p);
      assert (a + b)[1..] == a[1..] + b;
      CountAppend(a[1..], b, p);
    }
  }

  lemma Around<T>(s: seq<T>, i: nat)
    requires i < |s|
    ensures s == s[..i] + ([s[i]] + s[i + 1..])
  {
  }

  /** A count is the count before a position, at it, and behind it. */
  lemma CountAround(s: seq<Record>, i: nat, p: Record -> bool)
    requires i < |s|
    ensures Count(s, p) == Count(s[..i], p) + (if p(s[i]) then 1 else 0) + Count(s[i + 1..], p)
  {
    hide Count;
    Around(s, i);
    CountAppend(s[..i], [s[i]] + s[i + 1..], p);
    CountAppend([s[i]], s[i + 1..], p);
    CountOne(s[i], p);
  }

  lemma CountOne(r: Record, p: Record -> bool)
    ensures Count([r], p) == if p(r) then 1 else 0
  {
    assert [r][1..] == [];
  }

  lemma {:induction false} CountBounds(s: seq<Record>, p: Record -> bool)
    ensures Count(s, p) <= |s|
    ensures (forall i :: 0 <= i < |s| ==> p(s[i])) ==> Count(s, p) == |s|
    ensures (forall i :: 0 <= i < |s| ==> !p(s[i])) ==> Count(s, p) == 0
  {
    if |s| > 0 {
      assert forall i :: 0 <= i < |s[1..]| ==> s[1..][i] == s[i + 1];
      CountBounds(s[1..], p);
    }
  }

  /** Rearranging a list changes no count. */
  lemma {:induction false} PermutedCount(s: seq<Record>, t: seq<Record>, p: Record -> bool)
    requires multiset(s) == multiset(t)
    ensures Count(s, p) == Count(t, p)
  {
    hide Count;
    CountStep(s, p);
    if |s| == 0 {
      assert |multiset(t)| == 0;
    } else {
      var j := Taken(s, t);
      CountAround(t, j, p);
      CountAppend(t[..j], t[j + 1..], p);
      PermutedCount(s[1..], t[..j] + t[j + 1..], p);
    }
  }

  /** Without the first entry of one, two rearrangements of each other still are. */
  lemma Taken<T>(s: seq<T>, t: seq<T>) returns (j: nat)
    requires multiset(s) == multiset(t) && |s| > 0
    ensures j < |t| && t[j] == s[0] && multiset(s[1..]) == multiset(t[..j] + t[j + 1..])
  {
    assert s[0] in multiset(t);
    j :| 0 <= j < |t| && t[j] == s[0];
    Around(s, 0);
    Around(t, j);
    assert multiset(s) == multiset{s[0]} + multiset(s[1..]);
    assert multiset(t) == multiset(t[..j]) + (multiset{t[j]} + multiset(t[j + 1..]));
    assert multiset(s[1..]) == multiset(s) - multiset{s[0]} == multiset(t[..j]) + multiset(t[j + 1..]);
  }

  lemma SortedAround(all: seq<Record>, p: nat, front: seq<Record>, behind: seq<Record>)
    requires TimeSorted(all) && p < |all| && front == all[..p] && behind == all[p + 1..]
    ensures forall i :: 0 <= i < |front| ==> front[i].occurredAt <= all[p].occurredAt
    ensures forall i :: 0 <= i < |behind| ==> behind[i].occurredAt >= all[p].occurredAt
  {
  }

  /** Around position p of a list in time order: nothing before it is newer, nothing behind it is older. */
  lemma CountsAround(all: seq<Record>, p: nat)
    requires TimeSorted(all) && p < |all|
    ensures var t, behind := all[p].occurredAt, all[p + 1..];
            && Count(all, NewerThan(t)) == Count(behind, NewerThan(t))
            && Count(all, NotOlderThan(t)) >= |all| - p
            && Count(behind, NewerThan(t)) + Count(behind, At(t)) == |behind|
  {
    hide Count, TimeSorted;
    var t, front, behind := all[p].occurredAt, all[..p], all[p + 1..];
    SortedAround(all, p, front, behind);
    CountAround(all, p, NewerThan(t));
    CountAround(all, p, NotOlderThan(t));
    CountBounds(front, NewerThan(t));
    CountBounds(behind, NotOlderThan(t));
    NewerOrEqual(behind, t);
  }

  lemma {:induction false} NewerOrEqual(s: seq<Record>, t: int)
    requires forall i :: 0 <= i < |s| ==> s[i].occurredAt >= t
    ensures Count(s, NewerThan(t)) + Count(s, At(t)) == |s|
  {
    if |s| > 0 {
      assert forall i :: 0 <= i < |s[1..]| ==> s[1..][i] == s[i + 1];
      NewerOrEqual(s[1..], t);
    }
  }

  /** When r occurs once, what satisfies p behind it can be read off from the filtered list. */
  lemma CountBehind(a: seq<Record>, i: nat, b: seq<Record>, j: nat, p: Record -> bool)
    requires i < |a| && j < |b| && a[i] == b[j] && p(a[i]) && UniqueIds(a) && UniqueIds(b)
    requires Filter(a, p) == Filter(b, p)
    ensures Count(a[i + 1..], p) == Count(b[j + 1..], p)
  {
    FilterAround(a, i, p);
    FilterAround(b, j, p);
    var u, v := Filter(a[..i], p), Filter(b[..j], p);
    assert Filter(a, p)[|u|] == a[i] && Filter(b, p)[|v|] == b[j];
    FilterUnique(a, p);
    assert |u| == |v|;
    FilterCount(a[i + 1..], p);
    FilterCount(b[j + 1..], p);
  }

  lemma FilterAround(s: seq<Record>, i: nat, p: Record -> bool)
    requires i < |s| && p(s[i])
    ensures Filter(s, p) == Filter(s[..i], p) + [s[i]] + Filter(s[i + 1..], p)
  {
    hide Filter;
    Around(s, i);
    FilterAppend(s[..i], [s[i]] + s[i + 1..], p);
    FilterAppend([s[i]], s[i + 1..], p);
    FilterStep([s[i]], p);
    assert [s[i]][1..] == [];
  }

  lemma FilterStep(s: seq<Record>, p: Record -> bool)
    ensures Filter([], p) == []
    ensures |s| > 0 ==> Filter(s, p) == (if p(s[0]) then [s[0]] else []) + Filter(s[1..], p)
  {
  }

  lemma {:induction false} FilterAppend(a: seq<Record>, b: seq<Record>, p: Record -> bool)
    ensures Filter(a + b, p) == Filter(a, p) + Filter(b, p)
  {
    hide Filter;
    FilterStep(a, p);
    if |a| == 0 {
      assert a + b == b;
    } else {
      FilterStep(a + b, p);
      assert (a + b)[1..] == a[1..] + b;
      FilterAppend(a[1..], b, p);
      var first := if p(a[0]) then [a[0]] else [];
      assert first + (Filter(a[1..], p) + Filter(b, p)) == (first + Filter(a[1..], p)) + Filter(b, p);
    }
  }

  lemma {:induction false} FilterUnique(s: seq<Record>, p: Record -> bool)
    requires UniqueIds(s)
    ensures UniqueIds(Filter(s, p)) && forall r :: r in Filter(s, p) ==> r in s
  {
    if |s| > 0 {
      assert forall i :: 0 <= i < |s[1..]| ==> s[1..][i] == s[i + 1];
      FilterUnique(s[1..], p);
      assert forall r :: r in s[1..] ==> r in s && r.id != s[0].id;
    }
  }

  // ---- The store -----------------------------------------------------------------

  /** `normalized` rewrites the free-text fields only. */
  function Normalized(r: Record, sanitize: string -> string): Record {
    r.(details := sanitize(r.details))
  }

  function NormalizedAll(s: seq<Record>, sanitize: string -> string): (r: seq<Record>)
    ensures |r| == |s| && forall i :: 0 <= i < |s| ==> r[i] == Normalized(s[i], sanitize)
  {
    seq(|s|, i requires 0 <= i < |s| => Normalized(s[i], sanitize))
  }

  /** Position of the first record with this id, or the length. */
  function FirstWithId(s: seq<Record>, id: int): (i: nat)
    ensures i <= |s| && (i < |s| ==> s[i].id == id) && forall j :: 0 <= j < i ==> s[j].id != id
  {
    if |s| == 0 || s[0].id == id then 0
    else
      var k := FirstWithId(s[1..], id);
      assert forall j :: 0 < j < 1 + k ==> s[j] == s[1..][j - 1];
      1 + k
  }

  /** Replace the record with the same id, or append. */
  function Merged(s: seq<Record>, record: Record): (r: seq<Record>)
    ensures |r| > 0
  {
    var i := FirstWithId(s, record.id);
    if i < |s| then s[i := record] else s + [record]
  }

  lemma MergedIdsUnique(s: seq<Record>, record: Record)
    requires UniqueIds(s)
    ensures UniqueIds(Merged(s, record))
  {
  }

  /** Merging puts the record in, drops nothing but an older version of it, and adds nothing else. */
  lemma MergedContents(s: seq<Record>, record: Record)
    requires UniqueIds(s)
    ensures forall r :: r in Merged(s, record) <==> r == record || (r in s && r.id != record.id)
  {
    var i, m := FirstWithId(s, record.id), Merged(s, record);
    if i < |s| {
      assert m[i] == record;
      forall r | r in s && r.id != record.id ensures r in m {
        var j :| 0 <= j < |s| && s[j] == r;
        assert m[j] == r;
      }
    } else {
      assert m[|s|] == record;
    }
  }

  lemma SuffixIdsUnique(s: seq<Record>, k: nat)
    requires UniqueIds(s)
    ensures UniqueIds(Suffix(s, k))
  {
  }

  predicate SameIds(s: seq<Record>, d: Option<seq<Record>>) {
    d.Some? && |d.value| == |s| && forall i :: 0 <= i < |s| ==> d.value[i].id == s[i].id
  }

  /** Reading back what was encoded keeps number, order and ids (times may lose precision). */
  ghost predicate FaithfulCodec(encode: seq<Record> -> Data, decode: Data -> Option<seq<Record>>) {
    forall s :: SameIds(s, decode(encode(s)))
  }

  predicate SameText(s: seq<Record>, d: Option<seq<Record>>) {
    SameIds(s, d) && forall i :: 0 <= i < |s| ==> d.value[i].details == s[i].details
  }

  /** Reading back keeps the free text too. */
  ghost predicate KeepsText(encode: seq<Record> -> Data, decode: Data -> Option<seq<Record>>) {
    forall s :: SameText(s, decode(encode(s)))
  }

  /** Sanitising what is sanitised changes nothing. */
  ghost predicate Idempotent(sanitize: string -> string) {
    forall text :: sanitize(sanitize(text)) == sanitize(text)
  }

  predicate Sanitized(s: seq<Record>, sanitize: string -> string) {
    forall r :: r in s ==> sanitize(r.details) == r.details
  }

  datatype Change = Insert(record: Record) | Erase

  class BackendIncidentStore {
    const retainedIncidents: nat
    const maximumStoreBytes: nat
    const maximumExportBytes: nat
    const sort: seq<Record> -> seq<Record>
    const sanitize: string -> string
    const encode: seq<Record> -> Data
    const decode: Data -> Option<seq<Record>>
    const encodeExport: ExportPayload -> Data
    /** The file at `url`, if it exists. */
    var file: Option<Data>

    constructor (retained: int, storeBytes: int, exportBytes: int, sort: seq<Record> -> seq<Record>,
                 sanitize: string -> string, encode: seq<Record> -> Data, decode: Data -> Option<seq<Record>>,
                 encodeExport: ExportPayload -> Data, file: Option<Data>)
      ensures retainedIncidents == (if retained >= 1 then retained else 1)
      ensures maximumStoreBytes == (if storeBytes >= 1024 then storeBytes else 1024)
      ensures maximumExportBytes == (if exportBytes >= 1024 then exportBytes else 1024)
      ensures this.sort == sort && this.sanitize == sanitize && this.encode == encode && this.decode == decode
      ensures this.encodeExport == encodeExport && this.file == file
    {
      retainedIncidents := Max(1, retained);
      maximumStoreBytes := Max(1024, storeBytes);
      maximumExportBytes := Max(1024, exportBytes);
      this.sort, this.sanitize, this.encode, this.decode := sort, sanitize, encode, decode;
      this.encodeExport, this.file := encodeExport, file;
    }

    /** `records()`. */
    function Records(): (r: seq<Record>)
      reads this
      ensures |r| <= retainedIncidents
    {
      if file.None? || |file.value| > maximumStoreBytes || decode(file.value).None? then []
      else Suffix(sort(NormalizedAll(decode(file.value).value, sanitize)), retainedIncidents)
    }

    /** Does the encoding of the last k records fit into the store? */
    predicate Fits(s: seq<Record>, k: nat) {
      |encode(Suffix(s, k))| <= maximumStoreBytes
    }

    /** How many of the merged records may be kept at most. */
    function Room(s: seq<Record>): nat {
      Min(retainedIncidents, |s|)
    }

    /** k is the largest number of newest records that respects both limits. */
    ghost predicate LongestFit(s: seq<Record>, k: nat) {
      1 <= k <= Room(s) && Fits(s, k) && forall j :: k < j <= Room(s) ==> !Fits(s, j)
    }

    /** What `upsert` has to choose from: the merged records in time order. */
    function Candidates(record: Record): seq<Record>
      reads this
    {
      sort(Merged(Records(), Normalized(record, sanitize)))
    }

    /** `upsert`: the file becomes the encoding of the longest suffix, by time, that respects both limits; it is
        left alone exactly when no non-empty suffix fits. With a faithful codec the store then returns exactly the
        records kept, by their ids, and by their text if codec and sanitising leave it alone; ids that were unique
        stay so. */
    method Upsert(record: Record) returns (ok: bool)
      requires retainedIncidents >= 1 && IsTimeSort(sort)
      modifies this
      ensures ok ==> exists k :: LongestFit(old(Candidates(record)), k)
                              && file == Some(encode(Suffix(old(Candidates(record)), k)))
                              && (FaithfulCodec(encode, decode) ==>
                                    |Records()| == k && Ids(Records()) == Ids(Suffix(old(Candidates(record)), k)))
                              && (KeepsText(encode, decode) && Idempotent(sanitize) ==>
                                    Contents(Records()) == Contents(Suffix(old(Candidates(record)), k)))
      ensures !ok ==> file == old(file)
      ensures !ok <==> forall j :: 1 <= j <= Room(old(Candidates(record))) ==> !Fits(old(Candidates(record)), j)
      ensures FaithfulCodec(encode, decode) && UniqueIds(old(Records())) ==> UniqueIds(Records())
    {
      hide Merged, FirstWithId, TimeSorted, Records, Ids, Contents, FaithfulCodec, KeepsText, Idempotent, Sanitized;
      var current := MergeInto(Records(), Normalized(record, sanitize));
      assert SamePieces(current, sort(current));
      current := sort(current);
      ghost var sorted := current;
      assert sorted == Candidates(record);
      var data;
      current, data := TrimToFit(current);
      if |data| > maximumStoreBytes { return false; }
      if UniqueIds(Records()) { KeptIdsUnique(record, |current|); }
      if Idempotent(sanitize) { KeptSanitized(record, |current|); }
      file := Some(data);
      ReadBack(current);
      assert LongestFit(sorted, |current|);
      ok := true;
    }

    method MergeInto(current: seq<Record>, record: Record) returns (merged: seq<Record>)
      ensures merged == Merged(current, record)
    {
      var index := FirstWithId(current, record.id);
      if index < |current| {
        merged := current[index := record];
      } else {
        merged := current + [record];
      }
    }

    /** The trimming loop: drop the oldest record until the encoding fits or one record is left. */
    method TrimToFit(sorted: seq<Record>) returns (current: seq<Record>, data: Data)
      requires retainedIncidents >= 1 && |sorted| >= 1
      ensures 1 <= |current| <= Room(sorted) && current == Suffix(sorted, |current|) && data == encode(current)
      ensures forall j :: |current| < j <= Room(sorted) ==> !Fits(sorted, j)
      ensures |data| > maximumStoreBytes ==> |current| == 1 && !Fits(sorted, 1)
    {
      current := Suffix(sorted, retainedIncidents);
      data := encode(current);
      while |data| > maximumStoreBytes && |current| > 1
        invariant 1 <= |current| <= Room(sorted) && current == Suffix(sorted, |current|) && data == encode(current)
        invariant forall j :: |current| < j <= Room(sorted) ==> !Fits(sorted, j)
        decreases |current|
      {
        assert !Fits(sorted, |current|);
        current := current[1..];
        data := encode(current);
      }
    }

    /** Merging, sorting and cutting keep ids unique. */
    lemma KeptIdsUnique(record: Record, k: nat)
      requires IsTimeSort(sort) && UniqueIds(Records())
      ensures UniqueIds(Suffix(Candidates(record), k))
    {
      var merged := Merged(Records(), Normalized(record, sanitize));
      MergedIdsUnique(Records(), Normalized(record, sanitize));
      assert SamePieces(merged, sort(merged));
      PermutedIdsUnique(merged, sort(merged));
      SuffixIdsUnique(sort(merged), k);
    }

    /** Everything the store returns or takes in is sanitised. */
    lemma KeptSanitized(record: Record, k: nat)
      requires IsTimeSort(sort) && Idempotent(sanitize)
      ensures Sanitized(Suffix(Candidates(record), k), sanitize)
    {
      var new', all := Normalized(record, sanitize), Candidates(record);
      var merged := Merged(Records(), new');
      StoredSanitized();
      assert forall r :: r in merged ==> r in Records() || r == new';
      assert SamePieces(merged, all);
      SameMembers(merged, all);
      assert forall r :: r in Suffix(all, k) ==> r in all;
    }

    lemma StoredSanitized()
      requires IsTimeSort(sort) && Idempotent(sanitize)
      ensures Sanitized(Records(), sanitize)
    {
      if file.Some? && decode(file.value).Some? {
        var n := NormalizedAll(decode(file.value).value, sanitize);
        assert SamePieces(n, sort(n));
        SameMembers(n, sort(n));
        assert Sanitized(n, sanitize);
        assert forall r :: r in Suffix(sort(n), retainedIncidents) ==> r in sort(n);
      }
    }

    /** What was encoded is read back, up to the order of records and the precision of times. */
    lemma ReadBack(s: seq<Record>)
      requires IsTimeSort(sort)
      requires 1 <= |s| <= retainedIncidents && |encode(s)| <= maximumStoreBytes
      requires file == Some(encode(s))
      ensures FaithfulCodec(encode, decode) ==> |Records()| == |s| && Ids(Records()) == Ids(s)
      ensures FaithfulCodec(encode, decode) && UniqueIds(s) ==> UniqueIds(Records())
      ensures KeepsText(encode, decode) && Sanitized(s, sanitize) ==> Contents(Records()) == Contents(s)
    {
      hide Ids, Contents, TimeSorted, UniqueIds;
      assert KeepsText(encode, decode) ==> SameText(s, decode(encode(s)));
      if SameIds(s, decode(encode(s))) {
        var n := NormalizedAll(decode(encode(s)).value, sanitize);
        assert SamePieces(n, sort(n));
        assert Records() == sort(n);
        SameIdsSameSet(s, n);
        PermutedIds(n, sort(n));
        if UniqueIds(n) { PermutedIdsUnique(n, sort(n)); }
      }
    }

    /** With unique ids the record has one place p among the candidates, and it is kept exactly when fewer than k
        candidates stand behind that place. */
    lemma PlaceDecides(record: Record, k: nat) returns (p: nat)
      requires IsTimeSort(sort) && UniqueIds(Records())
      ensures p < |Candidates(record)| && Candidates(record)[p] == Normalized(record, sanitize)
      ensures record.id in Ids(Suffix(Candidates(record), k)) <==> |Candidates(record)| - 1 - p < k
      ensures TimeSorted(Candidates(record)) && UniqueIds(Candidates(record))
      ensures SamePieces(Merged(Records(), Normalized(record, sanitize)), Candidates(record))
    {
      hide Merged, Records;
      var new', all := Normalized(record, sanitize), Candidates(record);
      var merged, kept := Merged(Records(), new'), Suffix(all, k);
      MergedContents(Records(), new');
      MergedIdsUnique(Records(), new');
      assert SamePieces(merged, all);
      PermutedIdsUnique(merged, all);
      SameMembers(merged, all);
      p :| 0 <= p < |all| && all[p] == new';
      KeptByPlace(all, p, k);
    }

    /** An upsert may succeed and not keep its record. What decides is how many records are newer. With k the number
        of records that fit: the record is dropped if at least k are newer, and kept if at most k, itself included,
        are not older. When no other record has its time, that settles it. */
    lemma DroppedIff(record: Record, k: nat)
      requires IsTimeSort(sort) && UniqueIds(Records()) && LongestFit(Candidates(record), k)
      ensures var merged := Merged(Records(), Normalized(record, sanitize));
              var dropped := record.id !in Ids(Suffix(Candidates(record), k));
              var newer := Count(merged, NewerThan(record.occurredAt));
              var notOlder := Count(merged, NotOlderThan(record.occurredAt));
              && (newer >= k ==> dropped)
              && (notOlder <= k ==> !dropped)
              && (Count(merged, At(record.occurredAt)) == 1 ==> (dropped <==> newer >= k))
    {
      hide Merged, Records, Ids, TimeSorted, LongestFit;
      var merged, all, t := Merged(Records(), Normalized(record, sanitize)), Candidates(record), record.occurredAt;
      var p := PlaceDecides(record, k);
      PermutedCount(merged, all, NewerThan(t));
      PermutedCount(merged, all, NotOlderThan(t));
      PermutedCount(merged, all, At(t));
      CountsAround(all, p);
      CountAround(all, p, At(t));
    }

    /** With a stable sort the order among records of one time is that of the merged list, and the condition is exact
        for every store: the newer records, and those of the same time behind the record, fill the room. */
    lemma DroppedIffStable(record: Record, k: nat)
      requires IsTimeSort(sort) && IsStable(sort) && UniqueIds(Records()) && LongestFit(Candidates(record), k)
      ensures var merged := Merged(Records(), Normalized(record, sanitize));
              var i := FirstWithId(merged, record.id);
              && i < |merged|
              && (record.id !in Ids(Suffix(Candidates(record), k))
                  <==> Count(merged, NewerThan(record.occurredAt)) + Count(merged[i + 1..], At(record.occurredAt)) >= k)
    {
      hide Merged, Records, Ids, TimeSorted, LongestFit, IsTimeSort;
      var new', t := Normalized(record, sanitize), record.occurredAt;
      var merged, all := Merged(Records(), new'), Candidates(record);
      var p := PlaceDecides(record, k);
      MergedPlace(Records(), new');
      MergedIdsUnique(Records(), new');
      PermutedCount(merged, all, NewerThan(t));
      CountsAround(all, p);
      assert Filter(sort(merged), At(t)) == Filter(merged, At(t));
      CountBehind(all, p, merged, FirstWithId(merged, record.id), At(t));
    }

    lemma FirstCandidate(record: Record)
      requires IsTimeSort(sort) && Records() == []
      ensures Candidates(record) == [Normalized(record, sanitize)]
    {
      var all := Candidates(record);
      assert Merged([], Normalized(record, sanitize)) == [Normalized(record, sanitize)];
      assert SamePieces([Normalized(record, sanitize)], all);
      assert all[0] in multiset(all);
    }

    lemma SingleRecord(r: Record)
      requires IsTimeSort(sort) && retainedIncidents >= 1 && sanitize(r.details) == r.details
      requires file == Some(encode([r])) && decode(encode([r])) == Some([r]) && |encode([r])| <= maximumStoreBytes
      ensures Records() == [r]
    {
      assert NormalizedAll([r], sanitize) == [r];
      assert SamePieces([r], sort([r]));
      assert sort([r])[0] in multiset(sort([r]));
    }

    /** In a full store of one record, an older record is dropped. */
    lemma OlderRecordIsDropped(stored: Record, record: Record)
      requires IsTimeSort(sort) && retainedIncidents == 1 && Records() == [stored]
      requires record.id != stored.id && record.occurredAt < stored.occurredAt
      requires |encode([stored])| <= maximumStoreBytes
      ensures LongestFit(Candidates(record), 1) && Suffix(Candidates(record), 1) == [stored]
    {
      var new', all := Normalized(record, sanitize), Candidates(record);
      assert Merged([stored], new') == [stored, new'];
      assert SamePieces([stored, new'], all);
      assert all[0] in multiset(all) && all[1] in multiset(all);
      assert stored in multiset(all) && new' in multiset(all);
      assert all == [new', stored];
    }

    /** The limit of a query, at least one and at most what is retained. */
    function Limit(query: Query): (limit: nat)
      ensures limit <= retainedIncidents
      ensures retainedIncidents >= 1 ==> limit >= 1
    {
      Min(Max(1, if query.limit.Some? then query.limit.value else retainedIncidents), retainedIncidents)
    }

    /** `records(matching:)`. */
    function Matching(query: Query): seq<Record>
      reads this
    {
      var all := Filter(Reversed(Records()), query.matches);
      all[..Min(Limit(query), |all|)]
    }

    /** The export of the first n matches. */
    function Payload(query: Query, now: int, n: nat): ExportPayload
      requires n <= |Matching(query)|
      reads this
    {
      ExportPayload(now, n < |Matching(query)|, retainedIncidents, maximumExportBytes, Matching(query)[..n])
    }

    predicate ExportFits(query: Query, now: int, n: nat)
      requires n <= |Matching(query)|
      reads this
    {
      |encodeExport(Payload(query, now, n))| <= maximumExportBytes
    }

    /** n is the largest number of newest matches whose export fits. */
    ghost predicate LongestExport(query: Query, now: int, n: nat)
      reads this
    {
      && n <= |Matching(query)| && ExportFits(query, now, n)
      && forall j :: n < j <= |Matching(query)| ==> !ExportFits(query, now, j)
    }

    /** `exportData`: the longest newest-first prefix that fits, marked truncated iff it is not everything. */
    method ExportData(query: Query, now: int) returns (data: Option<Data>)
      ensures data.Some? ==>
                exists n: nat :: LongestExport(query, now, n)
                         && data == Some(encodeExport(ExportPayload(now, n != |Matching(query)|, retainedIncidents,
                                                                    maximumExportBytes, Matching(query)[..n])))
      ensures data.None? <==> forall j :: 0 <= j <= |Matching(query)| ==> !ExportFits(query, now, j)
    {
      var incidents := Matching(query);
      ghost var all := incidents;
      var originalCount := |incidents|;
      var payload := ExportPayload(now, false, retainedIncidents, maximumExportBytes, incidents);
      assert incidents == all[..|all|];
      var encoded := encodeExport(payload);
      while |encoded| > maximumExportBytes && |incidents| > 0
        invariant |incidents| <= |all| && incidents == all[..|incidents|]
        invariant payload == Payload(query, now, |incidents|) && encoded == encodeExport(payload)
        invariant forall j :: |incidents| < j <= |all| ==> !ExportFits(query, now, j)
        decreases |incidents|
      {
        assert !ExportFits(query, now, |incidents|);
        incidents := incidents[..|incidents| - 1];
        payload := payload.(incidents := incidents, truncated := |incidents| < originalCount);
        encoded := encodeExport(payload);
      }
      if |encoded| > maximumExportBytes {
        assert !ExportFits(query, now, 0);
        return None;
      }
      assert LongestExport(query, now, |incidents|);
      data := Some(encoded);
    }

    /** `clear`. */
    method Clear()
      modifies this
      ensures file == Some("[]")
      ensures IsTimeSort(sort) && decode("[]") == Some([]) ==> Records() == []
    {
      file := Some("[]");
      if IsTimeSort(sort) && decode("[]") == Some([]) {
        assert SamePieces([], sort([]));
        assert NormalizedAll([], sanitize) == [];
      }
    }

    /** Any history of upserts and clears on a store whose ids are unique leaves them unique. */
    method Replay(history: seq<Change>)
      requires retainedIncidents >= 1 && IsTimeSort(sort) && FaithfulCodec(encode, decode) && decode("[]") == Some([])
      requires UniqueIds(Records())
      modifies this
      ensures UniqueIds(Records())
    {
      for i := 0 to |history|
        invariant UniqueIds(Records())
      {
        match history[i]
        case Insert(record) => var _ := Upsert(record);
        case Erase => Clear();
      }
    }

    /** If fewer records never encode to more bytes, `upsert` fails exactly when the newest record alone is too big. */
    lemma {:induction false} OnlyTheNewestMatters(s: seq<Record>, k: nat)
      requires 1 <= k <= Room(s)
      requires forall j :: 1 <= j < Room(s) && Fits(s, j + 1) ==> Fits(s, j)
      ensures Fits(s, k) ==> Fits(s, 1)
    {
      if k > 1 { OnlyTheNewestMatters(s, k - 1); }
    }

    /** Queries answer with the newest matching records, newest first, as many as there are up to the limit. */
    lemma MatchingIsNewestFirst(query: Query)
      requires IsTimeSort(sort)
      ensures NewestFirst(Matching(query))
      ensures forall r :: r in Matching(query) ==> query.matches(r) && r in Records()
      ensures retainedIncidents >= 1 ==>
                var matches, found := |Matching(query)|, Count(Records(), query.matches);
                match query.limit
                case None => matches == found
                case Some(l) =>
                  if l < 1 then matches == (if found == 0 then 0 else 1)
                  else if l < retainedIncidents && l < found then matches == l
                  else matches == found
      ensures forall r, m :: r in Records() && query.matches(r) && r !in Matching(query) && m in Matching(query) ==>
                r.occurredAt <= m.occurredAt
    {
      hide Records, Filter, Count;
      var r, all := Records(), Filter(Reversed(Records()), query.matches);
      RecordsSorted();
      FilterOrdered(Reversed(r), query.matches);
      ReversedMembers(r);
      ReversedCount(r, query.matches);
      FilterCount(Reversed(r), query.matches);
      CountBounds(r, query.matches);
      var n := |Matching(query)|;
      assert forall u :: 0 <= u < n ==> Matching(query)[u] == all[u];
      forall x, m | x in r && query.matches(x) && x !in Matching(query) && m in Matching(query)
        ensures x.occurredAt <= m.occurredAt
      {
        assert x in all;
        var i :| 0 <= i < |all| && all[i] == x;
        var j :| 0 <= j < n && Matching(query)[j] == m;
        assert n <= i;
      }
    }

    lemma RecordsSorted()
      requires IsTimeSort(sort)
      ensures TimeSorted(Records())
    {
    }

    /** A file that is missing, too large or unreadable holds no records. From any other, the newest records come
        back in time order, sanitised, as many as may be retained, and none left out is newer. */
    lemma RecordsAreNewest(stored: seq<Record>)
      requires IsTimeSort(sort)
      ensures file.None? || |file.value| > maximumStoreBytes || decode(file.value).None? ==> Records() == []
      ensures file.Some? && |file.value| <= maximumStoreBytes && decode(file.value) == Some(stored) ==>
                && |Records()| == (if |stored| < retainedIncidents then |stored| else retainedIncidents)
                && TimeSorted(Records())
                && (forall r :: r in Records() ==> r in NormalizedAll(stored, sanitize))
                && (forall r, k :: r in NormalizedAll(stored, sanitize) && r !in Records() && k in Records() ==>
                      r.occurredAt <= k.occurredAt)
    {
      if file.Some? && |file.value| <= maximumStoreBytes && decode(file.value) == Some(stored) {
        var n := NormalizedAll(stored, sanitize);
        var all := sort(n);
        assert SamePieces(n, all) && TimeSorted(all);
        SameMembers(n, all);
        SuffixIsNewest(all, retainedIncidents);
      }
    }
  }

  lemma SuffixIsNewest(all: seq<Record>, k: nat)
    requires TimeSorted(all)
    ensures TimeSorted(Suffix(all, k)) && forall r :: r in Suffix(all, k) ==> r in all
    ensures forall r, m :: r in all && r !in Suffix(all, k) && m in Suffix(all, k) ==> r.occurredAt <= m.occurredAt
  {
    var kept := Suffix(all, k);
    var cut := |all| - |kept|;
    CutOff(all, kept, cut);
    hide Suffix;
    forall r, m | r in all && r !in kept && m in kept ensures r.occurredAt <= m.occurredAt {
      assert r in all[..cut];
      var i :| 0 <= i < cut && all[i] == r;
      var j :| 0 <= j < |kept| && kept[j] == m;
      assert all[cut + j] == m;
    }
  }

  lemma CutOff<T>(all: seq<T>, kept: seq<T>, cut: nat)
    requires cut <= |all| && kept == all[cut..]
    ensures forall r :: r in kept ==> r in all
    ensures forall r :: r in all && r !in kept ==> r in all[..cut]
    ensures forall i :: 0 <= i < |kept| ==> kept[i] == all[cut + i]
  {
    assert all == all[..cut] + kept;
  }

  /** Upserting into an empty store that retains one record, first a record of time 20, then one of time 10: both
      calls report success, and the second record is not there. */
  method OlderUpsertIsLost(sort: seq<Record> -> seq<Record>, sanitize: string -> string, encode: seq<Record> -> Data,
                           decode: Data -> Option<seq<Record>>, encodeExport: ExportPayload -> Data)
    returns (store: BackendIncidentStore, first: bool, second: bool)
    requires IsTimeSort(sort) && sanitize(sanitize("first")) == sanitize("first")
    requires var kept := [Record(1, 20, sanitize("first"))];
             |encode(kept)| <= 1024 && decode(encode(kept)) == Some(kept)
    ensures first && second && Ids(store.Records()) == {1}
  {
    store := new BackendIncidentStore(1, 1024, 1024, sort, sanitize, encode, decode, encodeExport, None);
    var a, b := Record(1, 20, "first"), Record(2, 10, "second");
    var a' := Normalized(a, sanitize);
    assert store.Records() == [];
    store.FirstCandidate(a);
    assert store.LongestFit([a'], 1);
    first := store.Upsert(a);
    store.SingleRecord(a');
    store.OlderRecordIsDropped(a', b);
    second := store.Upsert(b);
    store.SingleRecord(a');
  }

  lemma KeptByPlace(all: seq<Record>, p: nat, k: nat)
    requires UniqueIds(all) && p < |all|
    ensures all[p].id in Ids(Suffix(all, k)) <==> |all| - 1 - p < k
  {
    var kept := Suffix(all, k);
    if |all| - 1 - p < k {
      assert kept[|kept| - (|all| - p)] == all[p];
    } else {
      forall j | 0 <= j < |kept| ensures kept[j].id != all[p].id {
        assert kept[j] == all[|all| - k + j];
      }
    }
  }

  /** Where the merged record stands. */
  lemma MergedPlace(s: seq<Record>, record: Record)
    ensures var m, i := Merged(s, record), FirstWithId(Merged(s, record), record.id);
            i < |m| && m[i] == record
  {
    var m, i := Merged(s, record), FirstWithId(s, record.id);
    assert m[i] == record;
    forall j | 0 <= j < i ensures m[j].id != record.id { assert m[j] == s[j]; }
    assert FirstWithId(m, record.id) <= i;
  }

  lemma ReversedMembers(s: seq<Record>)
    ensures forall r :: r in Reversed(s) <==> r in s
  {
    forall r | r in s ensures r in Reversed(s) {
      var i :| 0 <= i < |s| && s[i] == r;
      assert Reversed(s)[|s| - 1 - i] == r;
    }
  }

  lemma {:induction false} ReversedCount(s: seq<Record>, p: Record -> bool)
    ensures Count(Reversed(s), p) == Count(s, p)
  {
    if |s| > 0 {
      ReversedCount(s[1..], p);
      CountAppend(Reversed(s[1..]), [s[0]], p);
      CountOne(s[0], p);
      assert Reversed(s) == Reversed(s[1..]) + [s[0]];
    }
  }

  lemma {:induction false} FilterOrdered(s: seq<Record>, p: Record -> bool)
    requires NewestFirst(s)
    ensures NewestFirst(Filter(s, p))
    ensures forall r :: r in Filter(s, p) <==> r in s && p(r)
  {
    if |s| > 0 {
      FilterOrdered(s[1..], p);
      assert forall r :: r in s <==> r == s[0] || r in s[1..];
      var rest := Filter(s[1..], p);
      forall i | 0 <= i < |rest| ensures rest[i].occurredAt <= s[0].occurredAt {
        assert rest[i] in s[1..];
      }
    }
  }
}
