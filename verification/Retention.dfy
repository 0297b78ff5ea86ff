/** `MemoryRetainStage1`: pick the stalest jobs, then delete both halves of their output. The picking and
    the deleting take the lock one after the other, so the store may have moved in between. */
module Retention {
  import opened Types
  import opened Text
  import opened Selection
  import opened History
  import opened Requests

  predicate Stale(cx: Codec, s: State, cutoff: int, id: string) {
    Eligible(s, id) && CandidateOf(cx, s, id).lastRelevantAt < cutoff
  }

  function StaleIds(cx: Codec, s: State, cutoff: int): set<string> {
    set id | id in s.nativeJobs && Stale(cx, s, cutoff, id)
  }

  predicate Older(a: Candidate, b: Candidate) {
    if a.lastRelevantAt != b.lastRelevantAt then a.lastRelevantAt < b.lastRelevantAt else Less(a.id, b.id)
  }

  /** `prune` is what retention picks: stale jobs, at most `limit`, and no one left out is older. */
  ghost predicate IsPick(cx: Codec, s: State, cutoff: int, limit: nat, prune: set<string>) {
    && prune <= StaleIds(cx, s, cutoff)
    && |prune| == Min(limit, |StaleIds(cx, s, cutoff)|)
    && forall a, b :: a in prune && b in StaleIds(cx, s, cutoff) - prune ==>
        Older(CandidateOf(cx, s, a), CandidateOf(cx, s, b))
  }

  lemma OlderOrders(cs: seq<Candidate>)
    requires DistinctIds(cs)
    ensures Orders(cs, Older)
  {
    forall x | x in cs
      ensures !Older(x, x)
    {
      LessIsStrict(x.id, x.id);
    }
    forall x, y | x in cs && y in cs && x != y
      ensures Older(x, y) || Older(y, x)
    {
      LessIsTotal(x.id, y.id);
    }
    forall x, y, z | x in cs && y in cs && z in cs && Older(x, y) && Older(y, z)
      ensures Older(x, z)
    {
      if Less(x.id, y.id) && Less(y.id, z.id) {
        LessIsTransitive(x.id, y.id, z.id);
      }
    }
  }

  lemma AscendingIds(cx: Codec, s: State, cs: seq<Candidate>)
    requires Ascending(cs, Older)
    requires forall i :: 0 <= i < |cs| ==> cs[i].id in s.nativeJobs && cs[i] == CandidateOf(cx, s, cs[i].id)
    ensures DistinctIds(cs)
  {
    hide CandidateOf;
    forall i, j | 0 <= i < j < |cs|
      ensures cs[i].id != cs[j].id
    {
      assert Older(cs[i], cs[j]);
      LessIsStrict(cs[i].id, cs[j].id);
    }
  }

  lemma SortedStale(cx: Codec, s: State, cs: seq<Candidate>, ids: set<string>)
    requires Lists(cx, s, cs, ids)
    ensures Lists(cx, s, Sort(cs, Older), ids) && Ascending(Sort(cs, Older), Older)
  {
    hide Sort, Older, Ascending, CandidateOf;
    var sorted := Sort(cs, Older);
    OlderOrders(cs);
    SortAscending(cs, Older);
    SortPermutes(cs, Older);
    forall i | 0 <= i < |sorted|
      ensures sorted[i].id in ids && sorted[i] == CandidateOf(cx, s, sorted[i].id)
    {
      assert sorted[i] in cs;
    }
    AscendingIds(cx, s, sorted);
    assert forall c :: c in sorted <==> c in cs;
    assert Ids(sorted) == Ids(cs);
  }

  /** The loop over the jobs, in any order. */
  method CollectStale(cx: Codec, s: State, cutoff: int) returns (candidates: seq<Candidate>)
    ensures Lists(cx, s, candidates, StaleIds(cx, s, cutoff))
  {
    hide Lists, Stale;
    NoneListed(cx, s, cutoff);
    candidates := [];
    var rest := s.nativeJobs.Keys;
    while rest != {}
      invariant rest <= s.nativeJobs.Keys
      invariant Lists(cx, s, candidates, StaleIds(cx, s, cutoff) - rest)
      decreases |rest|
    {
      var id :| id in rest;
      StaleNext(cx, s, cutoff, rest, id);
      if Stale(cx, s, cutoff, id) {
        ListsSnoc(cx, s, candidates, StaleIds(cx, s, cutoff) - rest, id);
        candidates := candidates + [CandidateOf(cx, s, id)];
      }
      rest := rest - {id};
    }
    assert StaleIds(cx, s, cutoff) - rest == StaleIds(cx, s, cutoff);
  }

  lemma NoneListed(cx: Codec, s: State, cutoff: int)
    ensures Lists(cx, s, [], StaleIds(cx, s, cutoff) - s.nativeJobs.Keys)
  {
    hide Stale;
    assert StaleIds(cx, s, cutoff) - s.nativeJobs.Keys == {};
  }

  lemma StaleNext(cx: Codec, s: State, cutoff: int, rest: set<string>, id: string)
    requires rest <= s.nativeJobs.Keys && id in rest
    ensures StaleIds(cx, s, cutoff) - (rest - {id}) ==
            if Stale(cx, s, cutoff, id) then StaleIds(cx, s, cutoff) - rest + {id} else StaleIds(cx, s, cutoff) - rest
  {
  }

  method PickRetained(cx: Codec, s: State, cutoff: int, limit: nat) returns (prune: set<string>)
    ensures IsPick(cx, s, cutoff, limit, prune)
  {
    var candidates := CollectStale(cx, s, cutoff);
    SortedStale(cx, s, candidates, StaleIds(cx, s, cutoff));
    candidates := Sort(candidates, Older);
    ghost var all := candidates;
    if |candidates| > limit {
      candidates := candidates[..limit];
    }
    PrefixIsPick(cx, s, cutoff, limit, all);
    prune := Ids(candidates);
  }

  lemma PrefixIsPick(cx: Codec, s: State, cutoff: int, limit: nat, cs: seq<Candidate>)
    requires Lists(cx, s, cs, StaleIds(cx, s, cutoff)) && Ascending(cs, Older)
    ensures IsPick(cx, s, cutoff, limit, Ids(if |cs| > limit then cs[..limit] else cs))
  {
    hide Older, Stale;
    var kept := if |cs| > limit then cs[..limit] else cs;
    IdsCount(kept);
    IdsCount(cs);
    forall a, b | a in Ids(kept) && b in StaleIds(cx, s, cutoff) - Ids(kept)
      ensures Older(CandidateOf(cx, s, a), CandidateOf(cx, s, b))
    {
      var i := PositionOf(kept, a);
      var j := PositionOf(cs, b);
      forall k | 0 <= k < |kept|
        ensures kept[k].id in Ids(kept)
      {
        IdListed(kept, k);
      }
      assert j >= |kept|;
      assert cs[i] == kept[i];
    }
    assert forall c :: c in kept ==> c in cs;
  }

  // ----- what is retired, read off the stored jobs and resources -----

  /** Job `id` is done and was last relevant before the cutoff. */
  ghost predicate Unused(cx: Codec, s: State, cutoff: int, id: string) {
    HasOutput(s, id) && exists u, at :: Standing(cx, s, id, u, at) && at < cutoff
  }

  /** Job `a` was last relevant before job `b`, or at the same second and has the smaller id. */
  ghost predicate LongerUnused(cx: Codec, s: State, a: string, b: string) {
    forall u, v, at, bt :: Standing(cx, s, a, u, at) && Standing(cx, s, b, v, bt) ==>
      at < bt || (at == bt && Less(a, b))
  }

  /** `prune` are unused jobs, at most `limit`; an unused job is left out only if there are `limit` others
      and all of them were unused longer. */
  ghost predicate LongestUnused(cx: Codec, s: State, cutoff: int, limit: nat, prune: set<string>) {
    && |prune| <= limit
    && (forall id :: id in prune ==> Unused(cx, s, cutoff, id))
    && (forall id :: Unused(cx, s, cutoff, id) && id !in prune ==>
          |prune| == limit && forall a :: a in prune ==> LongerUnused(cx, s, a, id))
  }

  /** Apart from its receipt the request deletes what is still there of the output of the jobs `prune`, at
      the revisions it has, and nothing else. */
  ghost predicate DeletesOutput(t: State, prune: set<string>, q: NativeRequest) {
    && (forall c :: c in q.changes && !c.key.domain.Maintenance? ==>
          && (exists id :: id in prune && c.key in {RawKey(id), SummaryKey(id)})
          && c.key in t.native && c == Change(c.key, t.native[c.key].revision, "", None, true))
    && (forall id, k :: id in prune && k in {RawKey(id), SummaryKey(id)} && Live(t.native, k) ==>
          exists c :: c in q.changes && c.key == k)
  }

  lemma UnusedIff(cx: Codec, s: State, cutoff: int, id: string)
    ensures Unused(cx, s, cutoff, id) <==> id in StaleIds(cx, s, cutoff)
  {
    hide Standing, HasOutput, CandidateOf, Eligible;
    EligibleIff(s, id);
    EligibleMember(s, id);
    if HasOutput(s, id) {
      HasJob(s, id);
      var u, at := StandingExists(cx, s, id);
      StandingHas(cx, s, id, u, at);
    }
  }

  lemma EligibleMember(s: State, id: string)
    ensures id in EligibleIds(s) <==> Eligible(s, id)
  {
  }

  lemma HasJob(s: State, id: string)
    requires HasOutput(s, id)
    ensures id in s.nativeJobs
  {
  }

  lemma PickIsLongestUnused(cx: Codec, s: State, cutoff: int, limit: nat, prune: set<string>)
    requires IsPick(cx, s, cutoff, limit, prune)
    ensures LongestUnused(cx, s, cutoff, limit, prune)
  {
    hide Standing, HasOutput, CandidateOf, Unused, StaleIds;
    var stale := StaleIds(cx, s, cutoff);
    forall id
      ensures Unused(cx, s, cutoff, id) <==> id in stale
    {
      UnusedIff(cx, s, cutoff, id);
    }
    forall id | id in stale && id !in prune
      ensures |prune| == limit && forall a :: a in prune ==> LongerUnused(cx, s, a, id)
    {
      if |stale| <= limit {
        SubsetOfSameSize(prune, stale);
      }
      forall a | a in prune
        ensures LongerUnused(cx, s, a, id)
      {
        OlderIsLongerUnused(cx, s, a, id, cutoff);
      }
    }
  }

  lemma OlderIsLongerUnused(cx: Codec, s: State, a: string, b: string, cutoff: int)
    requires a in StaleIds(cx, s, cutoff) && b in StaleIds(cx, s, cutoff)
    requires Older(CandidateOf(cx, s, a), CandidateOf(cx, s, b))
    ensures LongerUnused(cx, s, a, b)
  {
    hide Standing, CandidateOf;
    forall u, v, at, bt | Standing(cx, s, a, u, at) && Standing(cx, s, b, v, bt)
      ensures at < bt || (at == bt && Less(a, b))
    {
      StandingHas(cx, s, a, u, at);
      StandingHas(cx, s, b, v, bt);
    }
  }

  lemma TransactionDeletes(cx: Codec, t: State, requestId: string, intent: string, prune: set<string>,
                           q: NativeRequest)
    requires ResourcesOk(t.native) && IsTransaction(cx, t, requestId, RETENTION, intent, Pruned(prune), Ok(q))
    ensures DeletesOutput(t, prune, q)
  {
    hide ResourcesOk;
    var changes :| IsDeletion(t, Pruned(prune), changes) &&
        Ok(q) == MaintenanceRequest(cx, requestId, RETENTION, intent, changes);
    assert forall c :: c in changes ==> c in q.changes;
    forall id, k | id in prune && k in {RawKey(id), SummaryKey(id)} && Live(t.native, k)
      ensures exists c :: c in q.changes && c.key == k
    {
      assert k in t.native && Pruned(prune)(k);
      assert exists c: Change :: c in changes && c.key == k;
    }
  }

  /** No job that was relevant at or after the cutoff, in the state in which the jobs were picked, loses a
      half of its output. */
  lemma UsedOutputStays(cx: Codec, s: State, t: State, cutoff: int, limit: nat, prune: set<string>,
                        q: NativeRequest, id: string, u: Usage, at: int)
    requires LongestUnused(cx, s, cutoff, limit, prune) && DeletesOutput(t, prune, q)
    requires Standing(cx, s, id, u, at) && at >= cutoff
    ensures forall c :: c in q.changes ==> c.key != RawKey(id) && c.key != SummaryKey(id)
  {
    hide HasOutput, RawKey, SummaryKey, Standing;
    UsedIsNotPruned(cx, s, cutoff, id, u, at);
    forall c | c in q.changes
      ensures c.key != RawKey(id) && c.key != SummaryKey(id)
    {
      if !c.key.domain.Maintenance? {
        var other :| other in prune && c.key in {RawKey(other), SummaryKey(other)};
        ArtifactKeysDistinct(id, other);
        ArtifactKeysDistinct(other, id);
      }
      HalvesAreStage1(id);
    }
  }

  lemma HalvesAreStage1(id: string)
    ensures RawKey(id).domain.Stage1? && SummaryKey(id).domain.Stage1?
  {
  }

  lemma UsedIsNotPruned(cx: Codec, s: State, cutoff: int, id: string, u: Usage, at: int)
    requires Standing(cx, s, id, u, at) && at >= cutoff
    ensures !Unused(cx, s, cutoff, id)
  {
    hide HasOutput;
    assert id in s.nativeJobs;
    var v, t := StandingExists(cx, s, id);
  }

  /** The whole operation: `s` is the store when the jobs are picked, `t` when their output is read for
      deletion. The cutoff is the caller's clock less the days asked for. */
  method MemoryRetainStage1(cx: Codec, s: State, t: State, requestId: string, maxUnusedDays: int, limit: nat,
                            cutoff: int)
      returns (r: Result<NativeRequest>, ghost prune: set<string>)
    requires ResourcesOk(t.native)
    ensures maxUnusedDays < 0 || limit == 0 ==> r == Err(Malformed)
    ensures maxUnusedDays >= 0 && limit > 0 ==>
              && LongestUnused(cx, s, cutoff, limit, prune)
              && IsTransaction(cx, t, requestId, RETENTION, Intent(cx, cx.policyJson(maxUnusedDays, limit)),
                  Pruned(prune), r)
              && (r.Ok? ==> DeletesOutput(t, prune, r.value) && IsPublicRequest(cx, t, r.value))
  {
    hide IsTransaction, DeletesOutput, LongestUnused, IsPick, ResourcesOk;
    prune := {};
    if maxUnusedDays < 0 || limit == 0 {
      return Err(Malformed), prune;
    }
    var picked := PickRetained(cx, s, cutoff, limit);
    prune := picked;
    PickIsLongestUnused(cx, s, cutoff, limit, picked);
    r := RetainStage1(cx, t, requestId, Intent(cx, cx.policyJson(maxUnusedDays, limit)), picked);
    if r.Ok? {
      TransactionDeletes(cx, t, requestId, Intent(cx, cx.policyJson(maxUnusedDays, limit)), picked, r.value);
    }
  }
}
