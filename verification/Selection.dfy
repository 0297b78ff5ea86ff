/** `stage1Selection`: the inputs of a consolidation are the best `limit` stage 1 jobs under a
    four-key order. The specification ranks a job by counting the jobs that beat it; the method
    sorts and truncates as the source does. */
module Selection {
  import opened Types
  import opened Text

  function Current(native: map<Key, Resource>, k: Key): Resource {
    if k in native then native[k] else Resource(k, 0, "", "", None, false)
  }

  predicate Live(native: map<Key, Resource>, k: Key) {
    Current(native, k).revision != 0 && !Current(native, k).deleted
  }

  function MemoryUsage(cx: Codec, native: map<Key, Resource>, id: string): Usage {
    if Live(native, UsageKey(id)) then cx.readUsage(native[UsageKey(id)].content) else Usage(0, 0)
  }

  /** Division of Go integers, which truncates toward zero. */
  function Truncated(x: int, d: int): int
    requires d > 0
  {
    if x >= 0 then x / d else -((-x) / d)
  }

  datatype Candidate = Candidate(id: string, usageCount: nat, lastRelevantAt: int, inputWatermark: int)

  predicate Eligible(s: State, id: string) {
    && id in s.nativeJobs && s.nativeJobs[id].kind.Stage1Kind? && s.nativeJobs[id].status.Succeeded?
    && Live(s.native, RawKey(id)) && Live(s.native, SummaryKey(id))
  }

  function CandidateOf(cx: Codec, s: State, id: string): Candidate
    requires id in s.nativeJobs
  {
    var usage := MemoryUsage(cx, s.native, id);
    var watermark := s.nativeJobs[id].inputWatermark;
    Candidate(id, usage.count, if usage.lastUsageAt == 0 then Truncated(watermark, 1000)
        else usage.lastUsageAt, watermark)
  }

  predicate Better(a: Candidate, b: Candidate) {
    if a.usageCount != b.usageCount then a.usageCount > b.usageCount
    else if a.lastRelevantAt != b.lastRelevantAt then a.lastRelevantAt > b.lastRelevantAt
    else if a.inputWatermark != b.inputWatermark then a.inputWatermark > b.inputWatermark
    else Less(b.id, a.id)
  }

  function EligibleIds(s: State): set<string> {
    set id | id in s.nativeJobs && Eligible(s, id)
  }

  /** The jobs that rank above `id`. */
  function Above(cx: Codec, s: State, id: string): set<string>
    requires id in s.nativeJobs
  {
    set d | d in EligibleIds(s) && Better(CandidateOf(cx, s, d), CandidateOf(cx, s, id))
  }

  function Selected(cx: Codec, s: State, limit: nat): set<string> {
    set id | id in EligibleIds(s) && (limit == 0 || |Above(cx, s, id)| < limit)
  }

  function ArtifactKeys(ids: set<string>): set<Key> {
    (set id | id in ids :: RawKey(id)) + (set id | id in ids :: SummaryKey(id))
  }

  function RevisionsOf(s: State, ids: set<string>): map<Key, nat> {
    map k | k in ArtifactKeys(ids) :: Current(s.native, k).revision
  }

  /** The revisions of both halves of every selected job. */
  function Stage1Selection(cx: Codec, s: State, limit: nat): map<Key, nat> {
    RevisionsOf(s, Selected(cx, s, limit))
  }

  // ----- the order -----

  ghost predicate DistinctIds(cs: seq<Candidate>) {
    forall i, j :: 0 <= i < j < |cs| ==> cs[i].id != cs[j].id
  }

  lemma BetterOrders(cs: seq<Candidate>)
    requires DistinctIds(cs)
    ensures Orders(cs, Better)
  {
    forall x | x in cs
      ensures !Better(x, x)
    {
      LessIsStrict(x.id, x.id);
    }
    forall x, y | x in cs && y in cs && x != y
      ensures Better(x, y) || Better(y, x)
    {
      LessIsTotal(x.id, y.id);
    }
    forall x, y, z | x in cs && y in cs && z in cs && Better(x, y) && Better(y, z)
      ensures Better(x, z)
    {
      if Less(z.id, y.id) && Less(y.id, x.id) {
        LessIsTransitive(z.id, y.id, x.id);
      }
    }
  }

  function Ids(cs: seq<Candidate>): set<string> {
    set c | c in cs :: c.id
  }

  lemma IdListed(cs: seq<Candidate>, i: nat)
    requires i < |cs|
    ensures cs[i].id in Ids(cs)
  {
    assert cs[i] in cs;
  }

  lemma PositionOf(cs: seq<Candidate>, id: string) returns (i: nat)
    requires id in Ids(cs)
    ensures i < |cs| && cs[i].id == id
  {
    var c :| c in cs && c.id == id;
    i :| 0 <= i < |cs| && cs[i] == c;
  }

  lemma IdsSnoc(cs: seq<Candidate>, c: Candidate)
    ensures Ids(cs + [c]) == Ids(cs) + {c.id}
  {
    assert c in cs + [c];
    assert forall d :: d in cs ==> d in cs + [c];
  }

  /** `cs` lists exactly the jobs `ids`. */
  ghost predicate Lists(cx: Codec, s: State, cs: seq<Candidate>, ids: set<string>) {
    && DistinctIds(cs)
    && Ids(cs) == ids <= s.nativeJobs.Keys
    && forall i :: 0 <= i < |cs| ==> cs[i].id in ids && cs[i] == CandidateOf(cx, s, cs[i].id)
  }

  ghost predicate ListsEligible(cx: Codec, s: State, cs: seq<Candidate>) {
    Lists(cx, s, cs, EligibleIds(s))
  }

  lemma ListsSnoc(cx: Codec, s: State, cs: seq<Candidate>, ids: set<string>, id: string)
    requires Lists(cx, s, cs, ids) && id !in ids && id in s.nativeJobs
    ensures Lists(cx, s, cs + [CandidateOf(cx, s, id)], ids + {id})
  {
    IdsSnoc(cs, CandidateOf(cx, s, id));
  }

  lemma {:induction false} IdsCount(cs: seq<Candidate>)
    requires DistinctIds(cs)
    ensures |Ids(cs)| == |cs|
  {
    if cs != [] {
      var front, c := cs[..|cs| - 1], cs[|cs| - 1];
      assert cs == front + [c];
      IdsCount(front);
      assert Ids(cs) == Ids(front) + {c.id};
      assert c.id !in Ids(front);
    }
  }

  /** In a list sorted best first, the position of a job is the number of jobs above it. */
  lemma RankIsPosition(cx: Codec, s: State, cs: seq<Candidate>, i: nat)
    requires ListsEligible(cx, s, cs) && Ascending(cs, Better) && i < |cs|
    ensures |Above(cx, s, cs[i].id)| == i
  {
    var above := Above(cx, s, cs[i].id);
    forall d | d in above
      ensures d in Ids(cs[..i])
    {
      var j := PositionOf(cs, d);
      if i <= j {
        LessIsStrict(cs[i].id, cs[j].id);
      } else {
        assert cs[j] in cs[..i];
      }
    }
    forall d | d in Ids(cs[..i])
      ensures d in above
    {
      var j := PositionOf(cs[..i], d);
      assert cs[j] in cs;
      assert Better(cs[j], cs[i]);
    }
    assert above == Ids(cs[..i]);
    IdsCount(cs[..i]);
  }

  /** Truncating the sorted list selects exactly the jobs with fewer than `limit` jobs above them. */
  lemma PrefixIsSelected(cx: Codec, s: State, cs: seq<Candidate>, limit: nat)
    requires ListsEligible(cx, s, cs) && Ascending(cs, Better)
    ensures Ids(if limit > 0 && |cs| > limit then cs[..limit] else cs) == Selected(cx, s, limit)
  {
    var kept := if limit > 0 && |cs| > limit then cs[..limit] else cs;
    forall id | id in Ids(kept)
      ensures id in Selected(cx, s, limit)
    {
      var i := PositionOf(kept, id);
      RankIsPosition(cx, s, cs, i);
    }
    forall id | id in Selected(cx, s, limit)
      ensures id in Ids(kept)
    {
      var i := PositionOf(cs, id);
      RankIsPosition(cx, s, cs, i);
      assert kept[i] in kept;
    }
  }

  lemma SortedEligible(cx: Codec, s: State, cs: seq<Candidate>)
    requires ListsEligible(cx, s, cs)
    ensures ListsEligible(cx, s, Sort(cs, Better)) && Ascending(Sort(cs, Better), Better)
  {
    var sorted := Sort(cs, Better);
    BetterOrders(cs);
    SortAscending(cs, Better);
    SortPermutes(cs, Better);
    forall i | 0 <= i < |sorted|
      ensures sorted[i] in cs
    {
    }
    forall i, j | 0 <= i < j < |sorted|
      ensures sorted[i].id != sorted[j].id
    {
      assert Better(sorted[i], sorted[j]);
      assert sorted[i] in cs && sorted[j] in cs;
      LessIsStrict(sorted[i].id, sorted[j].id);
    }
    assert forall c :: c in sorted <==> c in cs;
    assert Ids(sorted) == Ids(cs);
  }

  /** The first loop of the source. The jobs are visited in any order. */
  method CollectCandidates(cx: Codec, s: State) returns (candidates: seq<Candidate>)
    ensures ListsEligible(cx, s, candidates)
  {
    candidates := [];
    var rest := s.nativeJobs.Keys;
    while rest != {}
      invariant rest <= s.nativeJobs.Keys
      invariant Lists(cx, s, candidates, EligibleIds(s) - rest)
      decreases |rest|
    {
      var id :| id in rest;
      if Eligible(s, id) {
        ListsSnoc(cx, s, candidates, EligibleIds(s) - rest, id);
        assert EligibleIds(s) - rest + {id} == EligibleIds(s) - (rest - {id});
        candidates := candidates + [CandidateOf(cx, s, id)];
      } else {
        assert EligibleIds(s) - rest == EligibleIds(s) - (rest - {id});
      }
      rest := rest - {id};
    }
  }

  lemma EmptyRevisions(s: State)
    ensures RevisionsOf(s, Ids([])) == map[]
  {
  }

  lemma RevisionsSnoc(s: State, ids: set<string>, id: string)
    requires id in EligibleIds(s)
    ensures Live(s.native, RawKey(id)) && Live(s.native, SummaryKey(id)) && RawKey(id) in s.native &&
        SummaryKey(id) in s.native
    ensures RevisionsOf(s, ids + {id}) ==
            var half := RevisionsOf(s, ids)[RawKey(id) := s.native[RawKey(id)].revision];
            half[SummaryKey(id) := s.native[SummaryKey(id)].revision]
  {
    assert ArtifactKeys(ids + {id}) == ArtifactKeys(ids) + {RawKey(id), SummaryKey(id)};
  }

  /** The last loop of the source: both halves of every kept candidate. */
  method CollectRevisions(s: State, candidates: seq<Candidate>) returns (out: map<Key, nat>)
    requires Ids(candidates) <= EligibleIds(s)
    ensures out == RevisionsOf(s, Ids(candidates))
  {
    hide RevisionsOf, RawKey, SummaryKey, Ids;
    EmptyRevisions(s);
    out := map[];
    for i := 0 to |candidates|
      invariant out == RevisionsOf(s, Ids(candidates[..i]))
    {
      var id := candidates[i].id;
      IdListed(candidates, i);
      assert candidates[..i + 1] == candidates[..i] + [candidates[i]];
      IdsSnoc(candidates[..i], candidates[i]);
      RevisionsSnoc(s, Ids(candidates[..i]), id);
      if Live(s.native, RawKey(id)) {
        out := out[RawKey(id) := s.native[RawKey(id)].revision];
      }
      if Live(s.native, SummaryKey(id)) {
        out := out[SummaryKey(id) := s.native[SummaryKey(id)].revision];
      }
    }
    assert candidates[..|candidates|] == candidates;
  }

  method SelectStage1(cx: Codec, s: State, limit: nat) returns (out: map<Key, nat>)
    ensures out == Stage1Selection(cx, s, limit)
  {
    var candidates := CollectCandidates(cx, s);
    SortedEligible(cx, s, candidates);
    candidates := Sort(candidates, Better);
    PrefixIsSelected(cx, s, candidates, limit);
    if limit > 0 && |candidates| > limit {
      candidates := candidates[..limit];
    }
    out := CollectRevisions(s, candidates);
  }

  // ----- what the selection means -----

  /** Exactly min(limit, n) jobs are selected, all of them when the limit is 0; whoever is left out
      ranks below everyone selected. */
  lemma SelectionIsTopK(cx: Codec, s: State, limit: nat)
    ensures Selected(cx, s, limit) <= EligibleIds(s)
    ensures |Selected(cx, s, limit)| == if limit == 0 || |EligibleIds(s)| <= limit then |EligibleIds(s)| else limit
    ensures forall a, b :: a in Selected(cx, s, limit) && b in EligibleIds(s) - Selected(cx, s, limit) ==>
              Better(CandidateOf(cx, s, a), CandidateOf(cx, s, b))
  {
    var cs := EligibleList(cx, s);
    PrefixIsSelected(cx, s, cs, limit);
    var kept := if limit > 0 && |cs| > limit then cs[..limit] else cs;
    IdsCount(kept);
    IdsCount(cs);
    forall a, b | a in Selected(cx, s, limit) && b in EligibleIds(s) - Selected(cx, s, limit)
      ensures Better(CandidateOf(cx, s, a), CandidateOf(cx, s, b))
    {
      var i := PositionOf(cs, a);
      var j := PositionOf(cs, b);
      RankIsPosition(cx, s, cs, i);
      RankIsPosition(cx, s, cs, j);
    }
  }

  /** A best-first list of the eligible jobs. */
  lemma EligibleList(cx: Codec, s: State) returns (cs: seq<Candidate>)
    ensures ListsEligible(cx, s, cs) && Ascending(cs, Better)
  {
    cs := ListOf(cx, s, EligibleIds(s));
    SortedEligible(cx, s, cs);
    cs := Sort(cs, Better);
  }

  lemma {:induction false} ListOf(cx: Codec, s: State, ids: set<string>) returns (cs: seq<Candidate>)
    requires ids <= EligibleIds(s)
    ensures Lists(cx, s, cs, ids)
  {
    if ids == {} {
      cs := [];
    } else {
      var id :| id in ids;
      var rest := ListOf(cx, s, ids - {id});
      ListsSnoc(cx, s, rest, ids - {id}, id);
      assert ids - {id} + {id} == ids;
      cs := rest + [CandidateOf(cx, s, id)];
    }
  }

  /** The selection is empty exactly when no job is eligible, whatever the limit. */
  lemma SelectionEmpty(cx: Codec, s: State, limit: nat)
    ensures Stage1Selection(cx, s, limit) == map[] <==> EligibleIds(s) == {}
  {
    SelectionIsTopK(cx, s, limit);
    if EligibleIds(s) != {} {
      var id :| id in Selected(cx, s, limit);
      assert RawKey(id) in Stage1Selection(cx, s, limit);
    }
  }

  lemma SelectionKeys(cx: Codec, s: State, limit: nat)
    ensures forall k :: k in Stage1Selection(cx, s, limit) ==> k.domain.Stage1?
  {
  }

  // ----- the selection, read off the stored jobs and resources -----

  /** `u` is the stored usage of job `id`: what its usage resource says, or nothing without a live one. */
  ghost predicate IsUsage(cx: Codec, native: map<Key, Resource>, id: string, u: Usage) {
    var k := Key(Maintenance, "memory-usage/" + id + ".json");
    if k in native && native[k].revision > 0 && !native[k].deleted then u == cx.readUsage(native[k].content)
    else u.count == 0 && u.lastUsageAt == 0
  }

  /** Job `id` has the usage `u` and was last relevant at second `at`: at its last use, or, if it was never
      used, at its watermark, which counts milliseconds. */
  ghost predicate Standing(cx: Codec, s: State, id: string, u: Usage, at: int) {
    && id in s.nativeJobs && IsUsage(cx, s.native, id, u)
    && (u.lastUsageAt != 0 ==> at == u.lastUsageAt)
    && (u.lastUsageAt == 0 ==>
          var watermark := s.nativeJobs[id].inputWatermark;
          && (watermark >= 0 ==> 1000 * at <= watermark < 1000 * (at + 1))
          && (watermark <= 0 ==> 1000 * (at - 1) < watermark <= 1000 * at))
  }

  lemma StandingIs(cx: Codec, s: State, id: string, u: Usage, at: int)
    requires id in s.nativeJobs
    ensures Standing(cx, s, id, u, at) <==>
        u == MemoryUsage(cx, s.native, id) && at == CandidateOf(cx, s, id).lastRelevantAt
  {
    var watermark := s.nativeJobs[id].inputWatermark;
    assert Truncated(watermark, 1000) == at <==>
        (watermark >= 0 ==> 1000 * at <= watermark < 1000 * (at + 1)) &&
        (watermark <= 0 ==> 1000 * (at - 1) < watermark <= 1000 * at);
  }

  /** A finished stage 1 job whose output is still there. */
  ghost predicate HasOutput(s: State, id: string) {
    && id in s.nativeJobs && s.nativeJobs[id].kind == Stage1Kind && s.nativeJobs[id].status == Succeeded
    && forall k :: k in {RawKey(id), SummaryKey(id)} ==>
        k in s.native && s.native[k].revision > 0 && !s.native[k].deleted
  }

  lemma EligibleIff(s: State, id: string)
    ensures id in EligibleIds(s) <==> HasOutput(s, id)
  {
    assert {RawKey(id), SummaryKey(id)} == {SummaryKey(id)} + {RawKey(id)};
  }

  lemma HalvesSelected(ids: set<string>, id: string)
    ensures RawKey(id) in ArtifactKeys(ids) <==> id in ids
    ensures SummaryKey(id) in ArtifactKeys(ids) <==> id in ids
  {
    forall other | other in ids
      ensures RawKey(id) == RawKey(other) || SummaryKey(id) == SummaryKey(other) ==> id == other
      ensures RawKey(id) != SummaryKey(other) && SummaryKey(id) != RawKey(other)
    {
      ArtifactKeysDistinct(id, other);
      ArtifactKeysDistinct(other, id);
    }
  }

  lemma TwoMoreKeys(ids: set<string>, id: string)
    requires id in ids
    ensures |ArtifactKeys(ids)| == |ArtifactKeys(ids - {id})| + 2
  {
    hide RawKey, SummaryKey;
    var rest, pair := ArtifactKeys(ids - {id}), {RawKey(id), SummaryKey(id)};
    HalvesSelected(ids - {id}, id);
    ArtifactKeysDistinct(id, id);
    assert ArtifactKeys(ids) == rest + pair;
    assert |rest + pair| == |rest| + |pair|;
  }

  lemma {:induction false} KeysCount(ids: set<string>)
    ensures |ArtifactKeys(ids)| == 2 * |ids|
  {
    hide ArtifactKeys;
    if ids == {} {
      assert ArtifactKeys(ids) == {} by { NoKeys(); }
    } else {
      var id :| id in ids;
      KeysCount(ids - {id});
      TwoMoreKeys(ids, id);
    }
  }

  lemma NoKeys()
    ensures ArtifactKeys({}) == {}
  {
  }

  /** The selection holds both halves of the output of finished jobs, each with its stored revision, and
      at most `limit` jobs unless the limit is 0. */
  lemma SelectionHolds(cx: Codec, s: State, limit: nat, id: string)
    ensures var selection := Stage1Selection(cx, s, limit);
            && (RawKey(id) in selection <==> SummaryKey(id) in selection)
            && (RawKey(id) in selection ==> HasOutput(s, id))
            && (limit > 0 ==> |selection| <= 2 * limit)
            && forall k :: k in selection ==>
                k in s.native && selection[k] == s.native[k].revision &&
                    exists d :: HasOutput(s, d) && k in {RawKey(d), SummaryKey(d)}
  {
    hide HasOutput, Selected;
    var ids := Selected(cx, s, limit);
    SelectionIsTopK(cx, s, limit);
    HalvesSelected(ids, id);
    EligibleIff(s, id);
    KeysCount(ids);
    assert Stage1Selection(cx, s, limit).Keys == ArtifactKeys(ids);
    forall k | k in ArtifactKeys(ids)
      ensures k in s.native && exists d :: HasOutput(s, d) && k in {RawKey(d), SummaryKey(d)}
    {
      var d :| d in ids && k in {RawKey(d), SummaryKey(d)};
      EligibleIff(s, d);
    }
  }

  /** A finished job `b` is left out only if the selection is full, and of the jobs in it everyone was used
      more often, or as often and relevant later, or has the later watermark, or the larger id. */
  lemma SelectionIsBest(cx: Codec, s: State, limit: nat, a: string, ua: Usage, at: int, b: string, ub: Usage, bt: int)
    requires RawKey(a) in Stage1Selection(cx, s, limit) && Standing(cx, s, a, ua, at)
    requires HasOutput(s, b) && RawKey(b) !in Stage1Selection(cx, s, limit) && Standing(cx, s, b, ub, bt)
    ensures limit > 0 && |Stage1Selection(cx, s, limit)| == 2 * limit
    ensures ua.count >= ub.count
    ensures ua.count == ub.count ==> at >= bt
    ensures ua.count == ub.count && at == bt ==> s.nativeJobs[a].inputWatermark >= s.nativeJobs[b].inputWatermark
    ensures ua.count == ub.count && at == bt && s.nativeJobs[a].inputWatermark == s.nativeJobs[b].inputWatermark ==>
        Less(b, a)
  {
    hide Standing, HasOutput, Selected, Eligible, EligibleIds;
    var ids := Selected(cx, s, limit);
    assert Stage1Selection(cx, s, limit).Keys == ArtifactKeys(ids);
    HalvesSelected(ids, a);
    HalvesSelected(ids, b);
    EligibleIff(s, b);
    SelectionIsTopK(cx, s, limit);
    KeysCount(ids);
    LeftOutIsFull(cx, s, limit, b);
    StandingHas(cx, s, a, ua, at);
    StandingHas(cx, s, b, ub, bt);
    assert Better(CandidateOf(cx, s, a), CandidateOf(cx, s, b));
  }

  lemma LeftOutIsFull(cx: Codec, s: State, limit: nat, b: string)
    requires b in EligibleIds(s) && b !in Selected(cx, s, limit)
    ensures limit > 0 && |Selected(cx, s, limit)| == limit
  {
    SelectionIsTopK(cx, s, limit);
    if |EligibleIds(s)| <= limit {
      SubsetOfSameSize(Selected(cx, s, limit), EligibleIds(s));
    }
  }

  lemma SubsetOfSameSize(a: set<string>, b: set<string>)
    requires a <= b && |a| == |b|
    ensures a == b
  {
    assert b == a + (b - a) && |a + (b - a)| == |a| + |b - a|;
    assert b - a == {};
  }

  lemma StandingHas(cx: Codec, s: State, id: string, u: Usage, at: int)
    requires Standing(cx, s, id, u, at)
    ensures id in s.nativeJobs && CandidateOf(cx, s, id) == Candidate(id, u.count, at, s.nativeJobs[id].inputWatermark)
  {
    StandingIs(cx, s, id, u, at);
  }

  /** Every job has exactly one standing. */
  lemma StandingExists(cx: Codec, s: State, id: string) returns (u: Usage, at: int)
    requires id in s.nativeJobs
    ensures Standing(cx, s, id, u, at)
    ensures forall v, t :: Standing(cx, s, id, v, t) ==> v == u && t == at
  {
    u, at := MemoryUsage(cx, s.native, id), CandidateOf(cx, s, id).lastRelevantAt;
    forall v, t
      ensures Standing(cx, s, id, v, t) <==> v == u && t == at
    {
      StandingIs(cx, s, id, v, t);
    }
  }
}
