/** Finding the recent TCR races, as in `index.js`: `searchForRecentSubsessions`
    gathers the ids of the race entries found in the chunk files of one
    series' search, and `findTcrSeriesSubsessions` merges the two TCR
    series, drops duplicate ids and sorts the rest largest first.  The HTTP
    requests are parameters: the search answer of a series and the
    downloaded contents of a chunk URL. */
module Discovery {
  import opened Text

  /** The TCR series ids, in the order they are searched. */
  const TcrSeriesIds: seq<int> := [430, 503]

  /** The event type whose entries are kept. */
  const RaceType: Str := Ascii("Race")

  /** One element of a chunk file: its `event_type_name` (absent when the
      field is missing) and its `subsession_id`. */
  datatype SessionEntry = SessionEntry(eventTypeName: Option<Str>, subsessionId: int)

  /** The downloaded body of a chunk file: a falsy value, a value that is not
      an array, or an array of entries. */
  datatype ChunkData = Missing | NotArray | Sessions(entries: seq<SessionEntry>)

  /** `body.data.chunk_info` of a search answer: the download base and the
      optional `chunk_file_names`. */
  datatype ChunkInfo = ChunkInfo(baseDownloadUrl: Str, chunkFileNames: Option<seq<Str>>)

  predicate IsRace(e: SessionEntry) {
    e.eventTypeName == Some(RaceType)
  }

  // ---------------------------------------------------------------------
  // Specification of the collected ids

  /** The ids of the race entries of `es`, in order. */
  function RaceIds(es: seq<SessionEntry>): (r: seq<int>)
    ensures |r| <= |es|
  {
    if es == [] then []
    else
      var last := es[|es| - 1];
      RaceIds(es[..|es| - 1]) + (if IsRace(last) then [last.subsessionId] else [])
  }

  /** The ids a chunk contributes: none unless it is an array. */
  function ChunkIds(d: ChunkData): seq<int> {
    if d.Sessions? then RaceIds(d.entries) else []
  }

  /** The ids of the chunk file `name`, fetched from `base + name`. */
  function FileIds(base: Str, name: Str, fetchChunk: Str -> ChunkData): seq<int> {
    ChunkIds(fetchChunk(base + name))
  }

  /** The ids of the chunk files `files`, in file order. */
  function FilesIds(base: Str, files: seq<Str>, fetchChunk: Str -> ChunkData): seq<int> {
    if files == [] then []
    else FilesIds(base, files[..|files| - 1], fetchChunk) + FileIds(base, files[|files| - 1], fetchChunk)
  }

  /** What `searchForRecentSubsessions` returns for a search answer. */
  function SearchResult(info: Option<ChunkInfo>, fetchChunk: Str -> ChunkData): seq<int> {
    match info
    case None => []
    case Some(ci) => FilesIds(ci.baseDownloadUrl, ci.chunkFileNames.GetOr([]), fetchChunk)
  }

  /** `e` is a race entry with id `x`. */
  predicate RaceWithId(e: SessionEntry, x: int) {
    IsRace(e) && e.subsessionId == x
  }

  /** An id is collected from `es` exactly when some race entry of `es` carries it. */
  lemma {:induction false} RaceIdsMember(es: seq<SessionEntry>, x: int)
    ensures x in RaceIds(es) <==> exists j :: 0 <= j < |es| && RaceWithId(es[j], x)
  {
    if es != [] {
      var init, last := es[..|es| - 1], es[|es| - 1];
      RaceIdsMember(init, x);
      assert x in RaceIds(es) <==> x in RaceIds(init) || RaceWithId(last, x);
      ExistsInSnoc(es, init, e => RaceWithId(e, x));
    }
  }

  /** An id is collected from the files exactly when one of the chunks holds it. */
  lemma {:induction false} FilesIdsMember(base: Str, files: seq<Str>, fetchChunk: Str -> ChunkData, x: int)
    ensures x in FilesIds(base, files, fetchChunk) <==>
      exists i :: 0 <= i < |files| && x in FileIds(base, files[i], fetchChunk)
  {
    if files != [] {
      var init := files[..|files| - 1];
      FilesIdsMember(base, init, fetchChunk, x);
      ExistsInSnoc(files, init, name => x in FileIds(base, name, fetchChunk));
    }
  }

  /** Some element of `xs` satisfies `p` exactly when some element before
      the last one does, or the last one does. */
  lemma ExistsInSnoc<T>(xs: seq<T>, init: seq<T>, p: T -> bool)
    requires xs != [] && init == xs[..|xs| - 1]
    ensures (exists j :: 0 <= j < |xs| && p(xs[j])) <==>
      (exists j :: 0 <= j < |init| && p(init[j])) || p(xs[|xs| - 1])
  {
    if exists j :: 0 <= j < |init| && p(init[j]) {
      var j :| 0 <= j < |init| && p(init[j]);
      assert xs[j] == init[j];
    }
    if exists j :: 0 <= j < |xs| && p(xs[j]) {
      var j :| 0 <= j < |xs| && p(xs[j]);
      if j < |init| {
        assert init[j] == xs[j];
      }
    }
  }

  /** Without `chunk_info`, or without chunk files, nothing is found. */
  lemma NoChunksNoIds(info: Option<ChunkInfo>, fetchChunk: Str -> ChunkData)
    requires info.None? || info.value.chunkFileNames.GetOr([]) == []
    ensures SearchResult(info, fetchChunk) == []
  {
  }

  // ---------------------------------------------------------------------
  // searchForRecentSubsessions

  /** `searchForRecentSubsessions(seriesId, ...)` once the search answer
      `info` has been received: every chunk file is fetched in turn, chunks
      that are falsy or not arrays are skipped, and the ids of the race
      entries are pushed in order. */
  method SearchForRecentSubsessions(info: Option<ChunkInfo>, fetchChunk: Str -> ChunkData)
    returns (subIds: seq<int>)
    ensures subIds == SearchResult(info, fetchChunk)
  {
    if info.None? {
      return [];
    }
    var chunkInfo := info.value;
    var baseDownloadUrl := chunkInfo.baseDownloadUrl;
    var chunkFiles := chunkInfo.chunkFileNames.GetOr([]);
    if |chunkFiles| == 0 {
      return [];
    }
    subIds := [];
    for f := 0 to |chunkFiles|
      invariant subIds == FilesIds(baseDownloadUrl, chunkFiles[..f], fetchChunk)
    {
      var chunkData := fetchChunk(baseDownloadUrl + chunkFiles[f]);
      assert chunkFiles[..f + 1][..f] == chunkFiles[..f];
      if chunkData.Sessions? {
        subIds := CollectRaceIds(subIds, chunkData.entries);
      }
    }
    assert chunkFiles[..|chunkFiles|] == chunkFiles;
  }

  /** The inner loop: pushes the id of every race entry of `sessions` onto `subIds`. */
  method CollectRaceIds(subIds0: seq<int>, sessions: seq<SessionEntry>) returns (subIds: seq<int>)
    ensures subIds == subIds0 + RaceIds(sessions)
  {
    subIds := subIds0;
    for j := 0 to |sessions|
      invariant subIds == subIds0 + RaceIds(sessions[..j])
    {
      assert sessions[..j + 1][..j] == sessions[..j];
      if sessions[j].eventTypeName == Some(RaceType) {
        subIds := subIds + [sessions[j].subsessionId];
      }
    }
    assert sessions[..|sessions|] == sessions;
  }

  // ---------------------------------------------------------------------
  // findTcrSeriesSubsessions

  /** The ids of the series `ids`, one search after the other. */
  function Combined(ids: seq<int>, searchInfo: int -> Option<ChunkInfo>, fetchChunk: Str -> ChunkData): seq<int> {
    if ids == [] then []
    else Combined(ids[..|ids| - 1], searchInfo, fetchChunk) + SearchResult(searchInfo(ids[|ids| - 1]), fetchChunk)
  }

  /** An id is among the merged ids exactly when the search of one of the series finds it. */
  lemma {:induction false} CombinedMember(ids: seq<int>, searchInfo: int -> Option<ChunkInfo>, fetchChunk: Str -> ChunkData, x: int)
    ensures x in Combined(ids, searchInfo, fetchChunk) <==>
      exists k :: 0 <= k < |ids| && x in SearchResult(searchInfo(ids[k]), fetchChunk)
  {
    if ids != [] {
      var init := ids[..|ids| - 1];
      CombinedMember(init, searchInfo, fetchChunk, x);
      ExistsInSnoc(ids, init, sid => x in SearchResult(searchInfo(sid), fetchChunk));
    }
  }

  predicate Distinct(s: seq<int>) {
    forall i, j :: 0 <= i < j < |s| ==> s[i] != s[j]
  }

  /** `[...new Set(s)]`: the first occurrence of every value, in order. */
  function Dedup(s: seq<int>): (r: seq<int>)
    ensures Distinct(r)
    ensures forall x :: x in r <==> x in s
    ensures |r| <= |s|
  {
    if s == [] then []
    else
      var d := Dedup(s[..|s| - 1]);
      assert s == s[..|s| - 1] + [s[|s| - 1]];
      if s[|s| - 1] in d then d else d + [s[|s| - 1]]
  }

  predicate Descending(s: seq<int>) {
    forall i, j :: 0 <= i < j < |s| ==> s[i] >= s[j]
  }

  predicate StrictlyDescending(s: seq<int>) {
    forall i, j :: 0 <= i < j < |s| ==> s[i] > s[j]
  }

  /** `findTcrSeriesSubsessions()`: the ids of both TCR series, merged,
      without duplicates and largest first.  `searchInfo` gives the search
      answer of a series for the current time window. */
  method FindTcrSeriesSubsessions(searchInfo: int -> Option<ChunkInfo>, fetchChunk: Str -> ChunkData)
    returns (unique: seq<int>)
    ensures StrictlyDescending(unique)
    ensures forall x :: x in unique <==> x in Combined(TcrSeriesIds, searchInfo, fetchChunk)
  {
    var combined: seq<int> := [];
    for k := 0 to |TcrSeriesIds|
      invariant combined == Combined(TcrSeriesIds[..k], searchInfo, fetchChunk)
    {
      var subs := SearchForRecentSubsessions(searchInfo(TcrSeriesIds[k]), fetchChunk);
      assert TcrSeriesIds[..k + 1][..k] == TcrSeriesIds[..k];
      combined := combined + subs;
    }
    assert TcrSeriesIds[..|TcrSeriesIds|] == TcrSeriesIds;
    var distinct := Dedup(combined);
    var a := new int[|distinct|](i requires 0 <= i < |distinct| => distinct[i]);
    assert a[..] == distinct;
    SortDescending(a);
    unique := a[..];
    DescendingDistinct(distinct, unique);
  }

  /** A descending permutation of distinct values is strictly descending and
      has the same values. */
  lemma DescendingDistinct(s: seq<int>, t: seq<int>)
    requires Distinct(s) && Descending(t) && multiset(t) == multiset(s)
    ensures StrictlyDescending(t)
    ensures forall x :: x in t <==> x in s
  {
    forall x ensures x in t <==> x in s {
      assert x in t <==> x in multiset(t);
      assert x in s <==> x in multiset(s);
    }
    forall i, j | 0 <= i < j < |t| ensures t[i] > t[j] {
      DistinctCount(s, t[i]);
      TwoIndices(t, i, j);
    }
  }

  /** A value found at two indices occurs at least twice. */
  lemma TwoIndices(t: seq<int>, i: nat, j: nat)
    requires i < j < |t|
    ensures t[i] == t[j] ==> multiset(t)[t[i]] >= 2
  {
    assert t == t[..i] + [t[i]] + t[i + 1..j] + [t[j]] + t[j + 1..];
  }

  /** Each value occurs at most once in a sequence of distinct values. */
  lemma {:induction false} DistinctCount(s: seq<int>, x: int)
    requires Distinct(s)
    ensures multiset(s)[x] <= 1
  {
    if s != [] {
      var init := s[..|s| - 1];
      assert s == init + [s[|s| - 1]];
      DistinctCount(init, x);
      forall i | 0 <= i < |init| ensures init[i] != s[|s| - 1] {
        assert init[i] == s[i];
      }
    }
  }

  /** Two strictly descending sequences with the same values are equal: the
      result of `findTcrSeriesSubsessions` is determined by the set of ids. */
  lemma {:induction false} StrictlyDescendingUnique(s: seq<int>, t: seq<int>)
    requires StrictlyDescending(s) && StrictlyDescending(t)
    requires forall x :: x in s <==> x in t
    ensures s == t
    decreases |s| + |t|
  {
    if s != [] {
      assert s[0] in s;
    }
    if t != [] {
      assert t[0] in t;
    }
    if s != [] && t != [] {
      SameFirst(s, t);
      SameFirst(t, s);
      SameRest(s, t);
      StrictlyDescendingUnique(s[1..], t[1..]);
      assert s == [s[0]] + s[1..] && t == [t[0]] + t[1..];
    }
  }

  /** The first value of a strictly descending sequence is at least every value of another one it contains. */
  lemma SameFirst(s: seq<int>, t: seq<int>)
    requires s != [] && t != [] && StrictlyDescending(s)
    requires forall x :: x in t ==> x in s
    ensures s[0] >= t[0]
  {
    assert t[0] in t;
    var j :| 0 <= j < |s| && s[j] == t[0];
  }

  /** With equal first values, the rests of two strictly descending
      sequences with the same values have the same values. */
  lemma SameRest(s: seq<int>, t: seq<int>)
    requires s != [] && t != [] && s[0] == t[0] && StrictlyDescending(s) && StrictlyDescending(t)
    requires forall x :: x in s <==> x in t
    ensures forall x :: x in s[1..] <==> x in t[1..]
  {
    forall x ensures x in s[1..] ==> x in t[1..] {
      if x in s[1..] {
        var i :| 0 <= i < |s[1..]| && s[1..][i] == x;
        assert x < s[0] && x in s;
        var j :| 0 <= j < |t| && t[j] == x;
        assert t[1..][j - 1] == x;
      }
    }
    forall x ensures x in t[1..] ==> x in s[1..] {
      if x in t[1..] {
        var i :| 0 <= i < |t[1..]| && t[1..][i] == x;
        assert x < t[0] && x in t;
        var j :| 0 <= j < |s| && s[j] == x;
        assert s[1..][j - 1] == x;
      }
    }
  }

  // ---------------------------------------------------------------------
  // The in-place sort

  /** `unique.sort((a, b) => b - a)`: sorts `a` in place, largest first. */
  method SortDescending(a: array<int>)
    modifies a
    ensures Descending(a[..])
    ensures multiset(a[..]) == multiset(old(a[..]))
  {
    for i := 0 to a.Length
      invariant Descending(a[..i])
      invariant multiset(a[..]) == multiset(old(a[..]))
    {
      InsertAt(a, i);
    }
    assert a[..a.Length] == a[..];
  }

  /** Moves `a[i]` left past the smaller values before it. */
  method InsertAt(a: array<int>, i: nat)
    requires i < a.Length && Descending(a[..i])
    modifies a
    ensures Descending(a[..i + 1])
    ensures multiset(a[..]) == multiset(old(a[..]))
  {
    var j := i;
    PlacingStart(a[..], i);
    while j > 0 && a[j - 1] < a[j]
      invariant 0 <= j <= i
      invariant multiset(a[..]) == multiset(old(a[..]))
      invariant Placing(a[..], i, j)
      decreases j
    {
      SwapDown(a, i, j);
      j := j - 1;
    }
    PlacingDone(a[..], i, j);
  }

  /** Swaps the moving value at `j` with its smaller left neighbour. */
  method SwapDown(a: array<int>, i: nat, j: nat)
    requires Placing(a[..], i, j) && 0 < j && a[j - 1] < a[j]
    modifies a
    ensures Placing(a[..], i, j - 1)
    ensures multiset(a[..]) == multiset(old(a[..]))
  {
    ghost var s := a[..];
    a[j - 1], a[j] := a[j], a[j - 1];
    assert a[..] == s[j - 1 := s[j]][j := s[j - 1]];
    PlacingSwap(s, i, j);
    SwapKeepsMultiset(s, j - 1, j);
  }

  /** `s[..i + 1]` is descending but for the value at `j`, which is larger
      than everything after it up to `i`. */
  predicate Placing(s: seq<int>, i: nat, j: nat) {
    j <= i < |s| &&
    (forall p, q :: 0 <= p < q <= i && p != j && q != j ==> s[p] >= s[q]) &&
    (forall q :: j < q <= i ==> s[j] > s[q])
  }

  lemma PlacingStart(s: seq<int>, i: nat)
    requires i < |s| && Descending(s[..i])
    ensures Placing(s, i, i)
  {
    forall p, q | 0 <= p < q <= i && p != i && q != i ensures s[p] >= s[q] {
      assert s[p] == s[..i][p] && s[q] == s[..i][q];
    }
  }

  /** Swapping the moving value with a smaller left neighbour moves it one place left. */
  lemma PlacingSwap(s: seq<int>, i: nat, j: nat)
    requires Placing(s, i, j) && 0 < j && s[j - 1] < s[j]
    ensures Placing(s[j - 1 := s[j]][j := s[j - 1]], i, j - 1)
  {
    var t := s[j - 1 := s[j]][j := s[j - 1]];
    forall p, q | 0 <= p < q <= i && p != j - 1 && q != j - 1 ensures t[p] >= t[q] {
      if q == j {
        assert t[p] == s[p] && t[q] == s[j - 1];
      } else if p == j {
        assert t[p] == s[j - 1] && t[q] == s[q];
      } else {
        assert t[p] == s[p] && t[q] == s[q];
      }
    }
    forall q | j - 1 < q <= i ensures t[j - 1] > t[q] {
      if q > j {
        assert t[q] == s[q];
      }
    }
  }

  /** Once the moving value is not larger than its left neighbour, the prefix is descending. */
  lemma PlacingDone(s: seq<int>, i: nat, j: nat)
    requires Placing(s, i, j) && (j == 0 || s[j - 1] >= s[j])
    ensures Descending(s[..i + 1])
  {
    forall p, q | 0 <= p < q <= i ensures s[p] >= s[q] {
      if q == j && p < j - 1 {
        assert s[p] >= s[j - 1];
      }
    }
  }

  /** Swapping two elements keeps the multiset of values. */
  lemma SwapKeepsMultiset(s: seq<int>, i: nat, j: nat)
    requires i < j < |s|
    ensures multiset(s[i := s[j]][j := s[i]]) == multiset(s)
  {
    var t := s[i := s[j]][j := s[i]];
    assert s == s[..i] + [s[i]] + s[i + 1..j] + [s[j]] + s[j + 1..];
    assert t == s[..i] + [s[j]] + s[i + 1..j] + [s[i]] + s[j + 1..];
  }
}
