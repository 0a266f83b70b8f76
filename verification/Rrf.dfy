/**
 Reciprocal rank fusion of two ranked lists (internal/rag/rrf.go), over exact reals.
 */
module Rrf {
  import opened Collections

  datatype ChunkId = ChunkId(text: string)

  datatype RetrievalResult =
    RetrievalResult(chunkId: ChunkId, content: string, score: real, source: string, domain: string)

  type Results = seq<RetrievalResult>

  // ---------- what the scores are ----------

  // The share of a document at 0-based position i.
  function Share(i: nat): (r: real)
    ensures 0.0 < r <= Share(0)
  {
    1.0 / (60.0 + (i + 1) as real)
  }

  // Sum of the shares of all positions at which a list holds the document.
  function ListScore(list: Results, id: ChunkId): (r: real)
    ensures 0.0 <= r
  {
    if list == [] then 0.0
    else
      var n := |list| - 1;
      ListScore(list[..n], id) + if list[n].chunkId == id then Share(n) else 0.0
  }

  ghost function Fused(ann: Results, fts: Results, id: ChunkId): real {
    ListScore(ann, id) + ListScore(fts, id)
  }

  predicate Holds(list: Results, id: ChunkId) {
    exists i :: 0 <= i < |list| && list[i].chunkId == id
  }

  // The first result with this id.
  function FirstWith(list: Results, id: ChunkId): (r: RetrievalResult)
    requires Holds(list, id)
    ensures r.chunkId == id && r in list
  {
    if list[0].chunkId == id then list[0] else FirstWith(list[1..], id)
  }

  // The ids of a list, as a set.
  function IdSet(list: Results): set<ChunkId> {
    set r | r in list :: r.chunkId
  }

  lemma {:induction false} IdSetIsSmall(list: Results)
    ensures |IdSet(list)| <= |list|
  {
    if list != [] {
      var init, last := list[..|list| - 1], list[|list| - 1];
      assert list == init + [last];
      IdSetIsSmall(init);
      assert IdSet(list) == IdSet(init) + {last.chunkId};
    }
  }

  function Ids(list: Results): (ids: set<ChunkId>)
    ensures forall id :: id in ids <==> Holds(list, id)
    ensures |ids| <= |list|
  {
    IdSetIsSmall(list);
    IdSet(list)
  }

  // ---------- the specification of the merge ----------

  predicate DistinctIds(list: Results) {
    forall i, j :: 0 <= i < j < |list| ==> list[i].chunkId != list[j].chunkId
  }

  predicate Descending(list: Results) {
    forall i, j :: 0 <= i < j < |list| ==> list[i].score >= list[j].score
  }

  ghost predicate IsEntry(ann: Results, fts: Results, r: RetrievalResult) {
    && Holds(ann + fts, r.chunkId)
    && r == FirstWith(ann + fts, r.chunkId).(score := Fused(ann, fts, r.chunkId))
  }

  ghost predicate AreEntries(ann: Results, fts: Results, list: Results) {
    && DistinctIds(list)
    && (forall r :: r in list ==> IsEntry(ann, fts, r))
    && Ids(list) == Ids(ann + fts)
  }

  // Everything the code guarantees about the list before it is cut: ties may fall either way.
  ghost predicate IsRanking(ann: Results, fts: Results, full: Results) {
    AreEntries(ann, fts, full) && Descending(full)
  }

  function Cut(full: Results, topK: int): Results {
    if topK > 0 && |full| > topK then full[..topK] else full
  }

  /** What RRFMerge may return. */
  ghost predicate IsTop(ann: Results, fts: Results, topK: int, top: Results) {
    exists full: Results :: IsRanking(ann, fts, full) && top == Cut(full, topK)
  }

  // ---------- small facts ----------

  lemma DistinctSnoc(list: Results, r: RetrievalResult)
    ensures DistinctIds(list + [r]) <==> DistinctIds(list) && !Holds(list, r.chunkId)
  {
    var longer := list + [r];
    if DistinctIds(longer) {
      forall i, j | 0 <= i < j < |list|
        ensures list[i].chunkId != list[j].chunkId
      {
        assert longer[i] == list[i] && longer[j] == list[j];
      }
      forall i | 0 <= i < |list|
        ensures list[i].chunkId != r.chunkId
      {
        assert longer[i] == list[i] && longer[|list|] == r;
      }
    }
  }

  lemma IdsSnoc(list: Results, r: RetrievalResult)
    ensures Ids(list + [r]) == Ids(list) + {r.chunkId}
  {
  }

  lemma {:induction false} DistinctIffCounted(list: Results)
    ensures DistinctIds(list) <==> |Ids(list)| == |list|
  {
    if list != [] {
      var init, last := list[..|list| - 1], list[|list| - 1];
      assert list == init + [last];
      DistinctIffCounted(init);
      DistinctSnoc(init, last);
      IdsSnoc(init, last);
      hide DistinctIds;
      hide Holds;
    }
  }

  lemma SameMembers(list: Results, permuted: Results)
    requires multiset(permuted) == multiset(list)
    ensures |permuted| == |list|
    ensures forall r :: r in permuted ==> r in list
  {
    assert |permuted| == |multiset(permuted)| == |multiset(list)| == |list|;
    forall r | r in permuted
      ensures r in list
    {
      assert r in multiset(permuted);
    }
  }

  lemma MembersGiveIds(list: Results, id: ChunkId)
    ensures id in Ids(list) <==> exists r :: r in list && r.chunkId == id
  {
    if id in Ids(list) {
      var i :| 0 <= i < |list| && list[i].chunkId == id;
      assert list[i] in list;
    }
    if r :| r in list && r.chunkId == id {
      var i :| 0 <= i < |list| && list[i] == r;
      assert Holds(list, id);
    }
  }

  lemma PermutedIds(list: Results, permuted: Results)
    requires forall r :: r in permuted ==> r in list
    ensures Ids(permuted) <= Ids(list)
  {
    hide Ids, Holds;
    forall id | id in Ids(permuted)
      ensures id in Ids(list)
    {
      MembersGiveIds(list, id);
      MembersGiveIds(permuted, id);
    }
  }

  lemma PermutedEntries(ann: Results, fts: Results, list: Results, permuted: Results)
    requires AreEntries(ann, fts, list) && multiset(permuted) == multiset(list)
    ensures AreEntries(ann, fts, permuted)
  {
    hide IsEntry, Ids, DistinctIds;
    SameMembers(list, permuted);
    SameMembers(permuted, list);
    PermutedIds(list, permuted);
    PermutedIds(permuted, list);
    assert Ids(permuted) == Ids(list);
    DistinctIffCounted(list);
    DistinctIffCounted(permuted);
  }

  lemma HeldInBoth(list: Results, more: Results, id: ChunkId)
    ensures Holds(list + more, id) <==> Holds(list, id) || Holds(more, id)
  {
    var both := list + more;
    if Holds(list, id) {
      var i :| 0 <= i < |list| && list[i].chunkId == id;
      assert both[i].chunkId == id;
    }
    if Holds(more, id) {
      var i :| 0 <= i < |more| && more[i].chunkId == id;
      assert both[|list| + i].chunkId == id;
    }
  }

  lemma {:induction false} FirstOfBoth(list: Results, more: Results, id: ChunkId)
    ensures Holds(list + more, id) <==> Holds(list, id) || Holds(more, id)
    ensures Holds(list, id) ==> FirstWith(list + more, id) == FirstWith(list, id)
    ensures !Holds(list, id) && Holds(more, id) ==> FirstWith(list + more, id) == FirstWith(more, id)
  {
    var both := list + more;
    HeldInBoth(list, more, id);
    if list == [] {
      assert both == more;
      assert !Holds(list, id);
    } else {
      assert both[1..] == list[1..] + more && both[0] == list[0];
      FirstOfBoth(list[1..], more, id);
      HeldInBoth([list[0]], list[1..], id);
      assert list == [list[0]] + list[1..];
      assert list[0].chunkId == id ==> [list[0]][0].chunkId == id;
    }
  }

  lemma IdsOfBoth(list: Results, more: Results)
    ensures Ids(list + more) == Ids(list) + Ids(more)
  {
    forall id: ChunkId
      ensures id in Ids(list + more) <==> id in Ids(list) + Ids(more)
    {
      FirstOfBoth(list, more, id);
    }
  }

  // ---------- the program ----------

  function ScoreIn(scores: map<ChunkId, real>, id: ChunkId): real {
    if id in scores then scores[id] else 0.0
  }

  // What adding a list to the maps does to the entry of one document.
  ghost predicate AddedAt(list: Results, scores0: map<ChunkId, real>, byId0: map<ChunkId, RetrievalResult>,
      scores: map<ChunkId, real>, byId: map<ChunkId, RetrievalResult>, id: ChunkId)
  {
    && (id in scores <==> id in scores0 || Holds(list, id))
    && (id in byId <==> id in byId0 || Holds(list, id))
    && (id in scores ==> scores[id] == ScoreIn(scores0, id) + ListScore(list, id))
    && (id in byId ==> byId[id] == if id in byId0 then byId0[id] else FirstWith(list, id))
  }

  ghost predicate Added(list: Results, scores0: map<ChunkId, real>, byId0: map<ChunkId, RetrievalResult>,
      scores: map<ChunkId, real>, byId: map<ChunkId, RetrievalResult>)
  {
    forall id :: AddedAt(list, scores0, byId0, scores, byId, id)
  }

  lemma ScoreSnoc(list: Results, r: RetrievalResult, id: ChunkId)
    ensures ListScore(list + [r], id) == ListScore(list, id) + if r.chunkId == id then Share(|list|) else 0.0
  {
    assert (list + [r])[..|list|] == list;
  }

  lemma HoldsSnoc(list: Results, r: RetrievalResult, id: ChunkId)
    ensures Holds(list + [r], id) <==> Holds(list, id) || r.chunkId == id
  {
    FirstOfBoth(list, [r], id);
    assert r.chunkId == id ==> [r][0].chunkId == id;
  }

  lemma FirstSnoc(list: Results, r: RetrievalResult, id: ChunkId)
    requires Holds(list + [r], id)
    ensures Holds(list, id) ==> FirstWith(list + [r], id) == FirstWith(list, id)
    ensures !Holds(list, id) ==> FirstWith(list + [r], id) == r
  {
    FirstOfBoth(list, [r], id);
  }

  lemma AddNone(scores: map<ChunkId, real>, byId: map<ChunkId, RetrievalResult>)
    ensures Added([], scores, byId, scores, byId)
  {
  }

  lemma AddOne(list: Results, r: RetrievalResult, scores0: map<ChunkId, real>, byId0: map<ChunkId, RetrievalResult>,
      scores: map<ChunkId, real>, byId: map<ChunkId, RetrievalResult>,
      scores1: map<ChunkId, real>, byId1: map<ChunkId, RetrievalResult>)
    requires Added(list, scores0, byId0, scores, byId)
    requires scores1 == scores[r.chunkId := ScoreIn(scores, r.chunkId) + Share(|list|)]
    requires byId1 == if r.chunkId in byId then byId else byId[r.chunkId := r]
    ensures Added(list + [r], scores0, byId0, scores1, byId1)
  {
    hide Share, ListScore, FirstWith, Holds;
    forall id: ChunkId
      ensures AddedAt(list + [r], scores0, byId0, scores1, byId1, id)
    {
      assert AddedAt(list, scores0, byId0, scores, byId, id);
      HoldsSnoc(list, r, id);
      ScoreSnoc(list, r, id);
      if Holds(list + [r], id) {
        FirstSnoc(list, r, id);
      }
      AbsentScoresNothing(list, id);
    }
  }

  // One of the two accumulating loops.
  method AddLeg(list: Results, scores0: map<ChunkId, real>, byId0: map<ChunkId, RetrievalResult>)
    returns (scores: map<ChunkId, real>, byId: map<ChunkId, RetrievalResult>)
    ensures Added(list, scores0, byId0, scores, byId)
  {
    hide *;
    AddNone(scores0, byId0);
    scores, byId := scores0, byId0;
    for i := 0 to |list|
      invariant Added(list[..i], scores0, byId0, scores, byId)
    {
      var r := list[i];
      ghost var before, before1 := scores, byId;
      scores := scores[r.chunkId := ScoreIn(scores, r.chunkId) + Share(i)];
      if r.chunkId !in byId {
        byId := byId[r.chunkId := r];
      }
      AddOne(list[..i], r, scores0, byId0, before, before1, scores, byId);
      assert list[..i + 1] == list[..i] + [r];
    }
    assert list[..|list|] == list;
  }

  lemma {:induction false} AbsentScoresNothing(list: Results, id: ChunkId)
    ensures !Holds(list, id) ==> ListScore(list, id) == 0.0
  {
    if list != [] {
      var n := |list| - 1;
      AbsentScoresNothing(list[..n], id);
      assert list[n].chunkId == id ==> Holds(list, id);
      assert Holds(list[..n], id) ==> Holds(list, id) by {
        if Holds(list[..n], id) {
          var i :| 0 <= i < n && list[..n][i].chunkId == id;
          assert list[i].chunkId == id;
        }
      }
    }
  }

  // The entry that the maps give for a document.
  lemma MapsGiveEntries(ann: Results, fts: Results,
      scores1: map<ChunkId, real>, byId1: map<ChunkId, RetrievalResult>,
      scores: map<ChunkId, real>, byId: map<ChunkId, RetrievalResult>, id: ChunkId)
    requires Added(ann, map[], map[], scores1, byId1) && Added(fts, scores1, byId1, scores, byId)
    ensures id in scores <==> id in byId
    ensures id in scores <==> id in Ids(ann + fts)
    ensures id in scores ==> IsEntry(ann, fts, byId[id].(score := scores[id])) && byId[id].chunkId == id
  {
    hide ListScore, FirstWith, Holds;
    assert AddedAt(ann, map[], map[], scores1, byId1, id);
    assert AddedAt(fts, scores1, byId1, scores, byId, id);
    FirstOfBoth(ann, fts, id);
    AbsentScoresNothing(ann, id);
  }

  ghost predicate DescendingUpTo(a: array<RetrievalResult>, n: int)
    reads a
  {
    forall p, q :: 0 <= p < q < n && q < a.Length ==> a[p].score >= a[q].score
  }

  // sort.Slice: some descending permutation; nothing is promised about ties.
  method SortByScore(a: array<RetrievalResult>)
    modifies a
    ensures multiset(a[..]) == multiset(old(a[..]))
    ensures Descending(a[..])
  {
    var i := 1;
    while i < a.Length
      invariant 1 <= i
      invariant i <= a.Length || a.Length == 0
      invariant DescendingUpTo(a, i)
      invariant multiset(a[..]) == multiset(old(a[..]))
    {
      SinkLast(a, i);
      i := i + 1;
    }
  }

  method SwapWithPrevious(a: array<RetrievalResult>, j: nat)
    requires 0 < j < a.Length
    modifies a
    ensures a[..] == old(a[..][j := a[j - 1]][j - 1 := a[j]])
    ensures multiset(a[..]) == multiset(old(a[..]))
  {
    a[j], a[j - 1] := a[j - 1], a[j];
  }

  method SinkLast(a: array<RetrievalResult>, i: nat)
    requires i < a.Length && DescendingUpTo(a, i)
    modifies a
    ensures DescendingUpTo(a, i + 1)
    ensures multiset(a[..]) == multiset(old(a[..]))
  {
    var j := i;
    while j > 0 && a[j].score > a[j - 1].score
      invariant 0 <= j <= i
      invariant forall p, q :: 0 <= p < q <= i && q != j ==> a[p].score >= a[q].score
      invariant multiset(a[..]) == multiset(old(a[..]))
    {
      label before:
      SwapWithPrevious(a, j);
      assert forall k :: 0 <= k <= i ==> a[k] == a[..][k];
      assert forall k :: 0 <= k <= i ==> old@before(a[k]) == old@before(a[..])[k];
      j := j - 1;
    }
  }

  lemma IdsOfNone()
    ensures Ids([]) == {} && DistinctIds([])
  {
  }

  // The entry that the maps give for an id.
  function EntryFor(scores: map<ChunkId, real>, byId: map<ChunkId, RetrievalResult>, id: ChunkId): RetrievalResult
    requires id in scores && id in byId
  {
    byId[id].(score := scores[id])
  }

  // The documents of the maps whose ids are no longer left, each once.
  ghost predicate Collected(merged: Results, scores: map<ChunkId, real>, byId: map<ChunkId, RetrievalResult>,
      left: set<ChunkId>)
  {
    && DistinctIds(merged) && Ids(merged) == scores.Keys - left
    && forall r :: r in merged ==>
         r.chunkId in scores && r.chunkId in byId && r == EntryFor(scores, byId, r.chunkId)
  }

  lemma CollectOne(merged: Results, scores: map<ChunkId, real>, byId: map<ChunkId, RetrievalResult>,
      left: set<ChunkId>, id: ChunkId)
    requires Collected(merged, scores, byId, left)
    requires id in left && id in scores && id in byId && byId[id].chunkId == id
    ensures Collected(merged + [EntryFor(scores, byId, id)], scores, byId, left - {id})
  {
    var r := EntryFor(scores, byId, id);
    DistinctSnoc(merged, r);
    IdsSnoc(merged, r);
    assert !Holds(merged, id) by {
      assert id !in Ids(merged);
    }
    hide DistinctIds, Ids, Holds, EntryFor;
    assert Ids(merged + [r]) == scores.Keys - (left - {id});
  }

  lemma CollectNone(scores: map<ChunkId, real>, byId: map<ChunkId, RetrievalResult>)
    ensures Collected([], scores, byId, scores.Keys)
  {
    IdsOfNone();
  }

  // The loop that turns the maps into a list.
  method Collect(scores: map<ChunkId, real>, byId: map<ChunkId, RetrievalResult>)
    returns (merged: Results)
    requires scores.Keys == byId.Keys
    requires forall id :: id in byId ==> byId[id].chunkId == id
    ensures Collected(merged, scores, byId, {})
  {
    hide *;
    merged := [];
    CollectNone(scores, byId);
    var left := scores.Keys;
    while left != {}
      invariant left <= scores.Keys && Collected(merged, scores, byId, left)
    {
      var id := TakeOne(left);
      CollectOne(merged, scores, byId, left, id);
      merged := merged + [EntryFor(scores, byId, id)];
      left := left - {id};
    }
  }

  // The maps hold every document of the two lists under its own id, and nothing else.
  lemma MapsAreComplete(ann: Results, fts: Results,
      scores1: map<ChunkId, real>, byId1: map<ChunkId, RetrievalResult>,
      scores: map<ChunkId, real>, byId: map<ChunkId, RetrievalResult>)
    requires Added(ann, map[], map[], scores1, byId1) && Added(fts, scores1, byId1, scores, byId)
    ensures scores.Keys == byId.Keys == Ids(ann + fts)
    ensures forall id :: id in byId ==> byId[id].chunkId == id && IsEntry(ann, fts, EntryFor(scores, byId, id))
  {
    hide Ids, IsEntry, Added;
    forall id: ChunkId
      ensures id in scores <==> id in byId
      ensures id in scores <==> id in Ids(ann + fts)
      ensures id in scores ==> byId[id].chunkId == id && IsEntry(ann, fts, EntryFor(scores, byId, id))
    {
      MapsGiveEntries(ann, fts, scores1, byId1, scores, byId, id);
    }
  }

  lemma CollectedAreEntries(ann: Results, fts: Results, scores: map<ChunkId, real>, byId: map<ChunkId, RetrievalResult>,
      merged: Results)
    requires scores.Keys == byId.Keys == Ids(ann + fts)
    requires forall id :: id in byId ==> IsEntry(ann, fts, EntryFor(scores, byId, id))
    requires Collected(merged, scores, byId, {})
    ensures AreEntries(ann, fts, merged)
  {
    hide Ids, IsEntry, DistinctIds, EntryFor;
  }

  lemma SortedIsTop(ann: Results, fts: Results, topK: int, full: Results)
    requires AreEntries(ann, fts, full) && Descending(full)
    ensures IsTop(ann, fts, topK, Cut(full, topK))
  {
    hide AreEntries, Descending;
    assert IsRanking(ann, fts, full);
  }

  /** A ranking of the fused lists, cut to topK. */
  method RRFMerge(ann: Results, fts: Results, topK: int) returns (top: Results)
    ensures IsTop(ann, fts, topK, top)
  {
    hide Added, Ids, IsEntry, EntryFor, Collected, AreEntries, Descending, IsTop;
    var scores1, byId1 := AddLeg(ann, map[], map[]);
    var scores, byId := AddLeg(fts, scores1, byId1);
    MapsAreComplete(ann, fts, scores1, byId1, scores, byId);
    var merged := Collect(scores, byId);
    CollectedAreEntries(ann, fts, scores, byId, merged);
    var a := new RetrievalResult[|merged|](i requires 0 <= i < |merged| => merged[i]);
    assert a[..] == merged;
    SortByScore(a);
    PermutedEntries(ann, fts, merged, a[..]);
    SortedIsTop(ann, fts, topK, a[..]);
    top := a[..];
    if topK > 0 && |top| > topK {
      top := top[..topK];
    }
  }

  // ---------- the result does not depend on map order or ties ----------

  // Positions scoring above x hold documents that any other ranking must also put above x.
  lemma NoLowerAt(ann: Results, fts: Results, f: Results, g: Results, i: nat)
    requires IsRanking(ann, fts, f) && IsRanking(ann, fts, g)
    requires i < |f| && i < |g|
    ensures f[i].score <= g[i].score
  {
    if f[i].score > g[i].score {
      hide IsEntry, Ids;
      forall id | id in Ids(f[..i + 1])
        ensures id in Ids(g[..i])
      {
        HighIsBefore(ann, fts, f, g, i, id);
      }
      PrefixIsDistinct(f, i + 1);
      DistinctIffCounted(f[..i + 1]);
      assert |Ids(g[..i])| <= i < |Ids(f[..i + 1])|;
      SubsetIsSmaller(Ids(f[..i + 1]), Ids(g[..i]));
    }
  }

  lemma PrefixIsDistinct(f: Results, n: nat)
    requires DistinctIds(f) && n <= |f|
    ensures DistinctIds(f[..n])
  {
  }

  lemma HighIsBefore(ann: Results, fts: Results, f: Results, g: Results, i: nat, id: ChunkId)
    requires IsRanking(ann, fts, f) && IsRanking(ann, fts, g)
    requires i < |f| && i < |g| && f[i].score > g[i].score
    requires id in Ids(f[..i + 1])
    ensures id in Ids(g[..i])
  {
    hide IsEntry, Ids, DistinctIds, Share, ListScore;
    var k := Position(f[..i + 1], id);
    assert f[k].score >= f[i].score;
    assert f[..i + 1][k] == f[k] && f[k] in f;
    var l := RankOf(ann, fts, g, f[k]);
    assert l < i;
    assert g[..i][l].chunkId == id;
  }

  lemma Position(list: Results, id: ChunkId) returns (i: nat)
    requires id in Ids(list)
    ensures i < |list| && list[i].chunkId == id
  {
    i :| 0 <= i < |list| && list[i].chunkId == id;
  }

  // Every ranking holds every entry.
  lemma RankOf(ann: Results, fts: Results, g: Results, r: RetrievalResult) returns (l: nat)
    requires IsRanking(ann, fts, g) && IsEntry(ann, fts, r)
    ensures l < |g| && g[l] == r
  {
    assert r.chunkId in Ids(ann + fts);
    l := Position(g, r.chunkId);
    assert g[l] in g;
  }

  // Two rankings of the same lists have the same length and the same scores, place by place.
  lemma RankingsScoreAlike(ann: Results, fts: Results, f: Results, g: Results)
    requires IsRanking(ann, fts, f) && IsRanking(ann, fts, g)
    ensures |f| == |g| && forall i :: 0 <= i < |f| ==> f[i].score == g[i].score
  {
    hide Ids, IsEntry, DistinctIds;
    DistinctIffCounted(f);
    DistinctIffCounted(g);
    forall i: nat | i < |f|
      ensures f[i].score == g[i].score
    {
      NoLowerAt(ann, fts, f, g, i);
      NoLowerAt(ann, fts, g, f, i);
    }
  }

  /** Whatever the map order and the ties, the results have the same scores, place by place. */
  lemma ScoreSequenceIsUnique(ann: Results, fts: Results, topK: int, top: Results, other: Results)
    requires IsTop(ann, fts, topK, top) && IsTop(ann, fts, topK, other)
    ensures |top| == |other|
    ensures forall i :: 0 <= i < |top| ==> top[i].score == other[i].score
  {
    hide IsRanking;
    var f: Results :| IsRanking(ann, fts, f) && top == Cut(f, topK);
    var g: Results :| IsRanking(ann, fts, g) && other == Cut(g, topK);
    RankingsScoreAlike(ann, fts, f, g);
  }

  lemma KeptWhenEarly(full: Results, topK: int, l: nat)
    requires l < |full| && l < |Cut(full, topK)|
    ensures full[l].chunkId in Ids(Cut(full, topK))
  {
    assert Cut(full, topK)[l].chunkId == full[l].chunkId;
  }

  // The place of a document, kept exactly when it is before the cut.
  lemma Placed(ann: Results, fts: Results, full: Results, topK: int, id: ChunkId) returns (l: nat)
    requires IsRanking(ann, fts, full) && id in Ids(ann + fts)
    ensures l < |full| && full[l].chunkId == id && full[l].score == Fused(ann, fts, id)
    ensures id in Ids(Cut(full, topK)) <==> l < |Cut(full, topK)|
  {
    l := Position(full, id);
    assert full[l] in full;
    var top := Cut(full, topK);
    if l < |top| {
      KeptWhenEarly(full, topK, l);
    }
    if id in Ids(top) {
      var k := Position(top, id);
      assert full[k].chunkId == full[l].chunkId;
    }
  }

  lemma CutIsDescending(full: Results, topK: int)
    requires Descending(full)
    ensures Descending(Cut(full, topK))
    ensures forall l, r :: |Cut(full, topK)| <= l < |full| && r in Cut(full, topK) ==> r.score >= full[l].score
  {
  }

  /** The result is sorted; a document left out was cut by topK, and everything kept scores at
      least as much. */
  lemma NothingDroppedOutscores(ann: Results, fts: Results, topK: int, top: Results, id: ChunkId)
    requires IsTop(ann, fts, topK, top) && id in Ids(ann + fts)
    ensures Descending(top)
    ensures id !in Ids(top) ==>
      0 < topK == |top| && forall r: RetrievalResult :: r in top ==> r.score >= Fused(ann, fts, id)
  {
    var full: Results :| IsRanking(ann, fts, full) && top == Cut(full, topK);
    CutIsDescending(full, topK);
    hide Ids, AreEntries, Descending, Fused;
    var l := Placed(ann, fts, full, topK, id);
  }

  /** With no topK every document is kept, otherwise as many of them as topK allows. */
  lemma TopSize(ann: Results, fts: Results, topK: int, top: Results)
    requires IsTop(ann, fts, topK, top)
    ensures var all := |Ids(ann + fts)|; |top| == if 0 < topK < all then topK else all
  {
    var full: Results :| IsRanking(ann, fts, full) && top == Cut(full, topK);
    hide Ids, IsEntry, DistinctIds;
    DistinctIffCounted(full);
  }

  /** The result kept for a document is its first one, the vector search's before the text search's. */
  lemma {:induction false} FirstWithIsFirst(list: Results, id: ChunkId)
    requires Holds(list, id)
    ensures exists i :: IsFirst(list, id, i) && list[i] == FirstWith(list, id)
  {
    if list[0].chunkId == id {
      assert IsFirst(list, id, 0);
    } else {
      HoldsLater(list, id);
      FirstWithIsFirst(list[1..], id);
      var i :| IsFirst(list[1..], id, i) && list[1..][i] == FirstWith(list[1..], id);
      assert forall j :: 0 < j < i + 1 ==> list[j] == list[1..][j - 1];
      assert IsFirst(list, id, i + 1) && list[i + 1] == FirstWith(list, id);
    }
  }

  ghost predicate IsFirst(list: Results, id: ChunkId, i: int) {
    0 <= i < |list| && list[i].chunkId == id && forall j :: 0 <= j < i ==> list[j].chunkId != id
  }

  lemma HoldsLater(list: Results, id: ChunkId)
    requires Holds(list, id) && list[0].chunkId != id
    ensures Holds(list[1..], id)
  {
    var i :| 0 <= i < |list| && list[i].chunkId == id;
    assert list[1..][i - 1] == list[i];
  }

  // ---------- dominance ----------

  /** The share of the i-th place, counted from 0, is the inverse of 60 plus its rank, counted from 1. */
  lemma ShareIsInverse(i: nat)
    ensures Share(i) * (61 + i) as real == 1.0
  {
    var x := 60.0 + (i + 1) as real;
    assert x == (61 + i) as real;
  }

  /** A document that one search puts first and the other does not find scores 1/61. */
  lemma FirstInOne(ann: Results, fts: Results, id: ChunkId)
    requires DistinctIds(ann) && ann != [] && ann[0].chunkId == id && !Holds(fts, id)
    ensures Fused(ann, fts, id) == 1.0 / 61.0 && Fused(fts, ann, id) == 1.0 / 61.0
  {
    ScoreAtRank(ann, 0);
    AbsentScoresNothing(fts, id);
    assert Share(0) == 1.0 / 61.0;
  }

  lemma ShareFalls(i: nat, j: nat)
    requires i <= j
    ensures Share(j) <= Share(i)
  {
    var x, y := 60.0 + (i + 1) as real, 60.0 + (j + 1) as real;
    var u, v := 1.0 / x, 1.0 / y;
    assert x * u == 1.0 && y * v == 1.0;
    assert (y - x) * u >= 0.0;
    if v > u {
      assert y * (v - u) > 0.0;
    }
  }

  /** A document held once scores the share of its rank. */
  lemma {:induction false} ScoreAtRank(list: Results, i: nat)
    requires DistinctIds(list) && i < |list|
    ensures ListScore(list, list[i].chunkId) == Share(i)
  {
    var init, last := list[..|list| - 1], list[|list| - 1];
    assert list == init + [last];
    DistinctSnoc(init, last);
    if i == |list| - 1 {
      AbsentScoresNothing(init, last.chunkId);
    } else {
      ScoreAtRank(init, i);
    }
  }

  ghost predicate InBoth(ann: Results, fts: Results, id: ChunkId) {
    Holds(ann, id) && Holds(fts, id)
  }

  /** Lists so short, taken together, that the two worst ranks outweigh the best one. For lists of
      one length this is 61; see DominanceAtEqualLengths. */
  predicate Dominant(m: nat, k: nat) {
    m * k < 3720 + m + k
  }

  // 1/a + 1/b > 1/61 exactly when 61*(a + b) > a*b.
  lemma SumOfInverses(a: real, b: real)
    requires a > 0.0 && b > 0.0
    ensures 1.0 / a + 1.0 / b > 1.0 / 61.0 <==> 61.0 * (a + b) > a * b
  {
    var u, v, w := 1.0 / a, 1.0 / b, a * b;
    assert w > 0.0;
    assert w * u == b by {
      assert w * u == b * (a * u);
    }
    assert w * v == a by {
      assert w * v == a * (b * v);
    }
    var gap := u + v - 1.0 / 61.0;
    assert w * gap == b + a - w / 61.0;
    SignOfGap(w, gap);
  }

  lemma SignOfGap(w: real, gap: real)
    requires w > 0.0
    ensures w * gap > 0.0 <==> gap > 0.0
  {
  }

  lemma WorstRanks(m: nat, k: nat)
    requires m >= 1 && k >= 1
    ensures Share(m - 1) + Share(k - 1) > Share(0) <==> Dominant(m, k)
  {
    var a, b := 60 + m, 60 + k;
    SumOfInverses(a as real, b as real);
    assert (a as real) * (b as real) == (a * b) as real;
    assert a * b == 3600 + 60 * m + 60 * k + m * k;
  }

  // A document in both lists beats one in only one.
  lemma BothBeatOne(ann: Results, fts: Results, d: ChunkId, e: ChunkId)
    requires DistinctIds(ann) && DistinctIds(fts) && Dominant(|ann|, |fts|)
    requires InBoth(ann, fts, d) && !InBoth(ann, fts, e)
    ensures Fused(ann, fts, d) > Fused(ann, fts, e)
  {
    var i := Position(ann, d);
    var j := Position(fts, d);
    ScoreAtRank(ann, i);
    ScoreAtRank(fts, j);
    ShareFalls(i, |ann| - 1);
    ShareFalls(j, |fts| - 1);
    AtMostBest(ann, e);
    AtMostBest(fts, e);
    AbsentScoresNothing(ann, e);
    AbsentScoresNothing(fts, e);
    WorstRanks(|ann|, |fts|);
  }

  lemma AtMostBest(list: Results, id: ChunkId)
    requires DistinctIds(list)
    ensures ListScore(list, id) <= Share(0)
  {
    if id in Ids(list) {
      var i := Position(list, id);
      ScoreAtRank(list, i);
    } else {
      AbsentScoresNothing(list, id);
    }
  }

  ghost predicate Dominates(m: nat, k: nat) {
    forall ann: Results, fts: Results, d: ChunkId, e: ChunkId ::
      DistinctIds(ann) && DistinctIds(fts) && |ann| <= m && |fts| <= k
      && InBoth(ann, fts, d) && !InBoth(ann, fts, e)
      ==> Fused(ann, fts, d) > Fused(ann, fts, e)
  }

  function Named(n: nat): RetrievalResult {
    RetrievalResult(ChunkId(seq(n, _ => 'a')), "", 0.0, "", "")
  }

  lemma NamesDiffer(m: nat, n: nat)
    requires m != n
    ensures Named(m).chunkId != Named(n).chunkId
  {
    assert |Named(m).chunkId.text| == m && |Named(n).chunkId.text| == n;
  }

  // The first of one list against a document that is last in both.
  lemma FirstAgainstLast(m: nat, k: nat) returns (ann: Results, fts: Results, d: ChunkId, e: ChunkId)
    requires m >= 2 && k >= 2
    ensures DistinctIds(ann) && DistinctIds(fts) && |ann| == m && |fts| == k
    ensures InBoth(ann, fts, d) && !InBoth(ann, fts, e)
    ensures Fused(ann, fts, d) == Share(m - 1) + Share(k - 1) && Fused(ann, fts, e) == Share(0)
  {
    ann := seq(m, i requires 0 <= i < m => Named(i));
    fts := seq(k, i requires 0 <= i < k => Named(if i == k - 1 then m - 1 else m + i));
    forall i: nat, j: nat | i < j < m
      ensures ann[i].chunkId != ann[j].chunkId
    {
      NamesDiffer(i, j);
    }
    forall i: nat, j: nat | i < j < k
      ensures fts[i].chunkId != fts[j].chunkId
    {
      NamesDiffer(m + i, if j == k - 1 then m - 1 else m + j);
    }
    d, e := Named(m - 1).chunkId, Named(0).chunkId;
    assert ann[m - 1].chunkId == fts[k - 1].chunkId == d && ann[0].chunkId == e;
    forall i: nat | i < k
      ensures fts[i].chunkId != e
    {
      NamesDiffer(if i == k - 1 then m - 1 else m + i, 0);
    }
    ScoreAtRank(ann, m - 1);
    ScoreAtRank(fts, k - 1);
    ScoreAtRank(ann, 0);
    AbsentScoresNothing(fts, e);
  }

  lemma DominantByProduct(m: nat, k: nat)
    ensures Dominant(m, k) <==> m == 0 || k == 0 || (m - 1) * (k - 1) < 61 * 61
  {
    if m > 0 && k > 0 {
      assert (m - 1) * (k - 1) == m * k - m - k + 1;
    } else {
      assert m * k == 0;
    }
  }

  lemma ProductGrows(a: int, b: int, c: int, d: int)
    requires 0 <= a <= c && 0 <= b <= d
    ensures a * b <= c * d
  {
    assert a * b <= c * b;
    assert c * b <= c * d;
  }

  lemma ShorterIsDominant(m: nat, k: nat, i: nat, j: nat)
    requires Dominant(m, k) && i <= m && j <= k
    ensures Dominant(i, j)
  {
    DominantByProduct(m, k);
    DominantByProduct(i, j);
    hide Dominant;
    if i > 0 && j > 0 {
      ProductGrows(i - 1, j - 1, m - 1, k - 1);
    }
  }

  lemma NotDominantIsLong(m: nat, k: nat)
    requires !Dominant(m, k)
    ensures m >= 2 && k >= 2
  {
  }

  /** With distinct ids per list, for lists of lengths up to m and k, a document in both always
      outscores one in only one exactly when m*k < 3720 + m + k. */
  lemma DominanceIsSharp(m: nat, k: nat)
    ensures Dominates(m, k) <==> m * k < 3720 + m + k
  {
    if Dominant(m, k) {
      forall ann: Results, fts: Results, d: ChunkId, e: ChunkId |
        DistinctIds(ann) && DistinctIds(fts) && |ann| <= m && |fts| <= k
        && InBoth(ann, fts, d) && !InBoth(ann, fts, e)
        ensures Fused(ann, fts, d) > Fused(ann, fts, e)
      {
        ShorterIsDominant(m, k, |ann|, |fts|);
        BothBeatOne(ann, fts, d, e);
      }
    } else {
      NotDominantIsLong(m, k);
      var ann, fts, d, e := FirstAgainstLast(m, k);
      WorstRanks(m, k);
      assert !(Fused(ann, fts, d) > Fused(ann, fts, e));
    }
  }

  /** For lists of one length the bound is 61: at 62 there is a tie. */
  lemma DominanceAtEqualLengths(n: nat)
    ensures Dominates(n, n) <==> n <= 61
    ensures Share(61) + Share(61) == Share(0)
  {
    DominanceIsSharp(n, n);
    hide Dominates;
    DominantByProduct(n, n);
    hide Dominant;
    if 1 <= n <= 61 {
      ProductGrows(n - 1, n - 1, 60, 60);
    } else if n > 61 {
      ProductGrows(61, 61, n - 1, n - 1);
    }
  }

  // In a ranking, a document in both lists is never behind one in only one.
  lemma BothIsAhead(ann: Results, fts: Results, full: Results, i: nat, j: nat)
    requires DistinctIds(ann) && DistinctIds(fts) && Dominant(|ann|, |fts|)
    requires IsRanking(ann, fts, full) && i <= j < |full|
    requires InBoth(ann, fts, full[j].chunkId)
    ensures InBoth(ann, fts, full[i].chunkId)
  {
    hide InBoth, Ids, ListScore, Dominant;
    assert full[i] in full && full[j] in full;
    if !InBoth(ann, fts, full[i].chunkId) {
      BothBeatOne(ann, fts, full[j].chunkId, full[i].chunkId);
    }
  }

  lemma BothUpTo(ann: Results, fts: Results, full: Results, i: nat)
    requires DistinctIds(ann) && DistinctIds(fts) && Dominant(|ann|, |fts|)
    requires IsRanking(ann, fts, full) && i < |full|
    requires InBoth(ann, fts, full[i].chunkId)
    ensures i < |Ids(ann) * Ids(fts)|
  {
    hide IsRanking, Ids, Dominant;
    var both := Ids(ann) * Ids(fts);
    forall id | id in Ids(full[..i + 1])
      ensures id in both
    {
      var k := Position(full[..i + 1], id);
      BothIsAhead(ann, fts, full, k, i);
    }
    RankingIsDistinct(ann, fts, full);
    PrefixIsDistinct(full, i + 1);
    DistinctIffCounted(full[..i + 1]);
    SubsetIsSmaller(Ids(full[..i + 1]), both);
  }

  lemma RankingIsDistinct(ann: Results, fts: Results, full: Results)
    requires IsRanking(ann, fts, full)
    ensures DistinctIds(full) && Ids(full) == Ids(ann) + Ids(fts)
  {
    IdsOfBoth(ann, fts);
  }

  lemma OneAfterBoth(ann: Results, fts: Results, full: Results, i: nat)
    requires DistinctIds(ann) && DistinctIds(fts) && Dominant(|ann|, |fts|)
    requires IsRanking(ann, fts, full) && i < |full|
    requires !InBoth(ann, fts, full[i].chunkId)
    ensures |Ids(ann) * Ids(fts)| <= i
  {
    hide IsRanking, Ids, Dominant;
    var both := Ids(ann) * Ids(fts);
    RankingIsDistinct(ann, fts, full);
    forall id | id in both
      ensures id in Ids(full[..i])
    {
      var k := Position(full, id);
      if k >= i {
        BothIsAhead(ann, fts, full, i, k);
      }
      assert full[..i][k].chunkId == id;
    }
    assert |Ids(full[..i])| <= i;
    SubsetIsSmaller(both, Ids(full[..i]));
  }

  /** In dominant lists, the documents found by both searches fill the first places of every
      ranking; retriever.go asks each search for at most 10. */
  lemma BothComeFirst(ann: Results, fts: Results, full: Results, i: nat)
    requires DistinctIds(ann) && DistinctIds(fts) && Dominant(|ann|, |fts|)
    requires IsRanking(ann, fts, full) && i < |full|
    ensures InBoth(ann, fts, full[i].chunkId) <==> i < |Ids(ann) * Ids(fts)|
  {
    if InBoth(ann, fts, full[i].chunkId) {
      BothUpTo(ann, fts, full, i);
    } else {
      OneAfterBoth(ann, fts, full, i);
    }
  }

  /** The result keeps every document found by both searches whenever they fit, and holds
      nothing else when they do not. */
  lemma CutKeepsAgreement(ann: Results, fts: Results, topK: int, top: Results, id: ChunkId)
    requires DistinctIds(ann) && DistinctIds(fts) && Dominant(|ann|, |fts|)
    requires IsTop(ann, fts, topK, top) && id in Ids(ann + fts)
    ensures var both := |Ids(ann) * Ids(fts)|;
      && ((topK <= 0 || both <= topK) && InBoth(ann, fts, id) ==> id in Ids(top))
      && (0 < topK <= both && id in Ids(top) ==> InBoth(ann, fts, id))
  {
    hide IsRanking, Ids, InBoth, Fused;
    var full: Results :| IsRanking(ann, fts, full) && top == Cut(full, topK);
    var l := Placed(ann, fts, full, topK, id);
    BothComeFirst(ann, fts, full, l);
  }
}
