/** The query over assemblies: filters, newest-first order, limit. */
module AssemblyFilter {
  import opened Wrappers
  import opened Sequences
  import opened LegacyMergeSort

  datatype AssemblyInformation = AssemblyInformation(
    id: int, projectId: int, version: string, state: string, startTimeStamp: int)

  /** Absent lists are empty lists: every use of them is behind `isNullOrEmpty`. */
  datatype Criteria = Criteria(
    projectIds: seq<int>, states: seq<string>, versions: seq<string>, sorted: bool, count: Option<int>)

  datatype FilterError = NegativeLimit(count: int)

  /** The stored assemblies in the order of a full selection. */
  type Table = t: seq<AssemblyInformation> | Distinct(t)

  // ----- the query

  function ByProjects(t: seq<AssemblyInformation>, projectIds: seq<int>): seq<AssemblyInformation> {
    if |projectIds| == 0 then []
    else Select(t, (a: AssemblyInformation) => a.projectId == projectIds[0]) + ByProjects(t, projectIds[1..])
  }

  function FilterByProjects(s: seq<AssemblyInformation>, c: Criteria): seq<AssemblyInformation> {
    if c.projectIds != [] then Select(s, (a: AssemblyInformation) => a.projectId in c.projectIds) else s
  }

  function FilterByStates(s: seq<AssemblyInformation>, c: Criteria): seq<AssemblyInformation> {
    if c.states != [] then Select(s, (a: AssemblyInformation) => a.state in c.states) else s
  }

  function FilterByVersions(s: seq<AssemblyInformation>, c: Criteria): seq<AssemblyInformation> {
    if c.versions != [] then Select(s, (a: AssemblyInformation) => a.version in c.versions) else s
  }

  function CompareByDescendingStart(a: AssemblyInformation, b: AssemblyInformation): int {
    if b.startTimeStamp < a.startTimeStamp then -1 else if b.startTimeStamp == a.startTimeStamp then 0 else 1
  }

  function SortAssemblies(s: seq<AssemblyInformation>, c: Criteria): seq<AssemblyInformation> {
    if c.sorted then Sort(s, CompareByDescendingStart) else s
  }

  function Limit(s: seq<AssemblyInformation>, c: Criteria): Result<seq<AssemblyInformation>, FilterError> {
    match c.count
    case None => Success(s)
    case Some(count) =>
      if count < 0 then Failure(NegativeLimit(count))
      else Success(if count < |s| then s[..count] else s)
  }

  function Filter(t: Table, c: Criteria): Result<seq<AssemblyInformation>, FilterError> {
    if c.projectIds != [] then
      Limit(SortAssemblies(FilterByVersions(FilterByStates(FilterByProjects(ByProjects(t, c.projectIds), c), c), c), c), c)
    else if c.states != [] then
      Limit(SortAssemblies(FilterByVersions(FilterByStates(FilterByProjects(t, c), c), c), c), c)
    else if c.versions != [] then
      Limit(SortAssemblies(FilterByVersions(FilterByStates(FilterByProjects(t, c), c), c), c), c)
    else
      Limit(SortAssemblies(t, c), c)
  }

  // ----- what the query means

  predicate Matches(c: Criteria, a: AssemblyInformation) {
    && (c.projectIds != [] ==> a.projectId in c.projectIds)
    && (c.states != [] ==> a.state in c.states)
    && (c.versions != [] ==> a.version in c.versions)
  }

  function Matching(c: Criteria): AssemblyInformation -> bool {
    a => Matches(c, a)
  }

  /** The matches of a query, as often as its branch reads them, in stored order. */
  function Candidates(t: Table, c: Criteria): seq<AssemblyInformation> {
    Select(if c.projectIds != [] then ByProjects(t, c.projectIds) else t, Matching(c))
  }

  lemma StepsAreConjunction(s: seq<AssemblyInformation>, c: Criteria)
    ensures FilterByVersions(FilterByStates(FilterByProjects(s, c), c), c) == Select(s, Matching(c))
  {
    var inProjects := (a: AssemblyInformation) => c.projectIds != [] ==> a.projectId in c.projectIds;
    var inStates := (a: AssemblyInformation) => c.states != [] ==> a.state in c.states;
    var inVersions := (a: AssemblyInformation) => c.versions != [] ==> a.version in c.versions;
    var inBoth := (a: AssemblyInformation) => inProjects(a) && inStates(a);
    StepIsSelect(s, c, inProjects, inStates, inVersions);
    StepIsSelect(FilterByProjects(s, c), c, inProjects, inStates, inVersions);
    StepIsSelect(FilterByStates(FilterByProjects(s, c), c), c, inProjects, inStates, inVersions);
    SelectTwice(s, inProjects, inStates, inBoth);
    SelectTwice(s, inBoth, inVersions, Matching(c));
  }

  lemma StepIsSelect(s: seq<AssemblyInformation>, c: Criteria,
      inProjects: AssemblyInformation -> bool, inStates: AssemblyInformation -> bool, inVersions: AssemblyInformation -> bool)
    requires forall a :: inProjects(a) == (c.projectIds != [] ==> a.projectId in c.projectIds)
    requires forall a :: inStates(a) == (c.states != [] ==> a.state in c.states)
    requires forall a :: inVersions(a) == (c.versions != [] ==> a.version in c.versions)
    ensures FilterByProjects(s, c) == Select(s, inProjects)
    ensures FilterByStates(s, c) == Select(s, inStates)
    ensures FilterByVersions(s, c) == Select(s, inVersions)
  {
    if c.projectIds == [] {
      SelectAll(s, inProjects);
    } else {
      SelectSame(s, (a: AssemblyInformation) => a.projectId in c.projectIds, inProjects);
    }
    if c.states == [] {
      SelectAll(s, inStates);
    } else {
      SelectSame(s, (a: AssemblyInformation) => a.state in c.states, inStates);
    }
    if c.versions == [] {
      SelectAll(s, inVersions);
    } else {
      SelectSame(s, (a: AssemblyInformation) => a.version in c.versions, inVersions);
    }
  }

  /** All four branches sort and limit the candidates. */
  lemma FilterIsLimitedSort(t: Table, c: Criteria)
    ensures Filter(t, c) == Limit(SortAssemblies(Candidates(t, c), c), c)
  {
    StepsAreConjunction(if c.projectIds != [] then ByProjects(t, c.projectIds) else t, c);
    if c.projectIds == [] && c.states == [] && c.versions == [] {
      SelectAll(t, Matching(c));
    }
  }

  /** The projects are read one after the other, each in stored order. */
  lemma {:induction false} ProjectsInOrder(t: Table, first: seq<int>, second: seq<int>, projectId: int)
    ensures ByProjects(t, first + second) == ByProjects(t, first) + ByProjects(t, second)
    ensures ByProjects(t, [projectId]) == Select(t, (a: AssemblyInformation) => a.projectId == projectId)
  {
    assert [projectId][1..] == [];
    if |first| == 0 {
      assert first + second == second;
    } else {
      assert (first + second)[1..] == first[1..] + second;
      ProjectsInOrder(t, first[1..], second, projectId);
    }
  }

  lemma {:induction false} ByProjectsReads(t: Table, projectIds: seq<int>, a: AssemblyInformation)
    ensures multiset(ByProjects(t, projectIds))[a] == if a in t then multiset(projectIds)[a.projectId] else 0
  {
    if |projectIds| != 0 {
      SelectMultiplicity(t, (b: AssemblyInformation) => b.projectId == projectIds[0], a);
      DistinctMultiplicity(t, a);
      ByProjectsReads(t, projectIds[1..], a);
      assert projectIds == [projectIds[0]] + projectIds[1..];
    }
  }

  /** The candidates are the stored matches; each once when the project ids are distinct. */
  lemma CandidatesAreMatches(t: Table, c: Criteria, a: AssemblyInformation)
    ensures multiset(Candidates(t, c))[a] ==
              if !(a in t && Matches(c, a)) then 0
              else if c.projectIds != [] then multiset(c.projectIds)[a.projectId] else 1
    ensures a in Candidates(t, c) <==> a in t && Matches(c, a)
    ensures Distinct(c.projectIds) ==> multiset(Candidates(t, c))[a] <= 1
  {
    SelectMultiplicity(if c.projectIds != [] then ByProjects(t, c.projectIds) else t, Matching(c), a);
    ByProjectsReads(t, c.projectIds, a);
    DistinctMultiplicity(t, a);
    if Distinct(c.projectIds) {
      DistinctMultiplicity(c.projectIds, a.projectId);
    }
    assert a in Candidates(t, c) <==> multiset(Candidates(t, c))[a] > 0;
    assert a.projectId in c.projectIds <==> multiset(c.projectIds)[a.projectId] > 0;
  }

  ghost predicate NewestFirst(s: seq<AssemblyInformation>) {
    forall i, j :: 0 <= i < j < |s| ==> s[i].startTimeStamp >= s[j].startTimeStamp
  }

  lemma SortNewestFirst(s: seq<AssemblyInformation>)
    ensures multiset(Sort(s, CompareByDescendingStart)) == multiset(s)
    ensures NewestFirst(Sort(s, CompareByDescendingStart))
  {
    var newer := (a: AssemblyInformation, b: AssemblyInformation) => a.startTimeStamp >= b.startTimeStamp;
    SortOrders(s, CompareByDescendingStart, newer);
    SortPermutes(s, CompareByDescendingStart);
  }

  /** No match that is left out started later than one that is returned. */
  ghost predicate OmitsNoNewer(matches: multiset<AssemblyInformation>, returned: seq<AssemblyInformation>) {
    forall m: AssemblyInformation, r: AssemblyInformation | m in matches - multiset(returned) && r in returned ::
      m.startTimeStamp <= r.startTimeStamp
  }

  /** Assemblies of one start time keep their stored order. */
  lemma TiesKeepOrder(s: seq<AssemblyInformation>, time: int)
    ensures var tied := (a: AssemblyInformation) => a.startTimeStamp == time;
            Select(Sort(s, CompareByDescendingStart), tied) == Select(s, tied)
  {
    var tied := (a: AssemblyInformation) => a.startTimeStamp == time;
    var newer := (a: AssemblyInformation, b: AssemblyInformation) => a.startTimeStamp >= b.startTimeStamp;
    SortIsStable(s, CompareByDescendingStart, newer, tied);
  }

  lemma OmittedIsAfterCut(ordered: seq<AssemblyInformation>, cut: nat, omitted: AssemblyInformation) returns (j: nat)
    requires cut <= |ordered| && omitted in multiset(ordered) - multiset(ordered[..cut])
    ensures cut <= j < |ordered| && ordered[j] == omitted
  {
    assert ordered == ordered[..cut] + ordered[cut..];
    assert omitted in multiset(ordered[cut..]);
    var k :| 0 <= k < |ordered[cut..]| && ordered[cut..][k] == omitted;
    j := cut + k;
  }

  /** Of a list ordered newest first, nothing after a cut is newer than anything before it. */
  lemma CutKeepsNewest(ordered: seq<AssemblyInformation>, cut: nat)
    requires NewestFirst(ordered) && cut <= |ordered|
    ensures NewestFirst(ordered[..cut])
    ensures multiset(ordered) == multiset(ordered[..cut]) + multiset(ordered[cut..])
    ensures OmitsNoNewer(multiset(ordered), ordered[..cut])
  {
    forall omitted: AssemblyInformation, returned: AssemblyInformation
      | omitted in multiset(ordered) - multiset(ordered[..cut]) && returned in ordered[..cut]
      ensures omitted.startTimeStamp <= returned.startTimeStamp
    {
      var j := OmittedIsAfterCut(ordered, cut, omitted);
      var i :| 0 <= i < cut && ordered[i] == returned;
    }
    assert ordered == ordered[..cut] + ordered[cut..];
  }

  lemma CutReturnsNewest(matches: seq<AssemblyInformation>, ordered: seq<AssemblyInformation>, cut: nat)
    requires multiset(ordered) == multiset(matches) && NewestFirst(ordered) && cut <= |ordered|
    ensures |ordered| == |matches|
    ensures NewestFirst(ordered[..cut]) && multiset(ordered[..cut]) <= multiset(matches)
    ensures OmitsNoNewer(multiset(matches), ordered[..cut])
  {
    SameMultiplicities(ordered, matches);
    CutKeepsNewest(ordered, cut);
  }

  /** As many matches as the limit allows, newest first, and none left out that is newer than one of them. */
  ghost predicate AreNewest(r: seq<AssemblyInformation>, matches: seq<AssemblyInformation>, count: Option<int>) {
    && |r| == (if count.Some? && count.value < |matches| then count.value else |matches|)
    && NewestFirst(r)
    && multiset(r) <= multiset(matches)
    && OmitsNoNewer(multiset(matches), r)
  }

  lemma LimitReturnsNewest(matches: seq<AssemblyInformation>, c: Criteria)
    ensures var limited := Limit(Sort(matches, CompareByDescendingStart), c);
            && (limited.Failure? <==> c.count.Some? && c.count.value < 0)
            && (limited.Success? ==> AreNewest(limited.value, matches, c.count))
  {
    var ordered := Sort(matches, CompareByDescendingStart);
    SortNewestFirst(matches);
    var cut := if c.count.Some? && 0 <= c.count.value < |ordered| then c.count.value else |ordered|;
    assert ordered[..|ordered|] == ordered;
    CutReturnsNewest(matches, ordered, cut);
  }

  /**
   A sorted query returns the newest matches: as many as the limit allows, newest first, and no
   match it leaves out started later than one it returns. Only a negative limit fails.
   */
  lemma SortedQueryReturnsNewest(t: Table, c: Criteria)
    requires c.sorted
    ensures Filter(t, c).Failure? <==> c.count.Some? && c.count.value < 0
    ensures Filter(t, c).Success? ==> AreNewest(Filter(t, c).value, Candidates(t, c), c.count)
  {
    FilterIsLimitedSort(t, c);
    LimitReturnsNewest(Candidates(t, c), c);
  }

  /** An unsorted query returns the first matches in stored order. */
  lemma UnsortedQueryReturnsPrefix(t: Table, c: Criteria)
    requires !c.sorted
    ensures Filter(t, c).Failure? <==> c.count.Some? && c.count.value < 0
    ensures Filter(t, c).Success? ==> Filter(t, c).value <= Candidates(t, c)
    ensures Filter(t, c).Success? && |Filter(t, c).value| < |Candidates(t, c)| ==>
              c.count == Some(|Filter(t, c).value|)
  {
    FilterIsLimitedSort(t, c);
  }
}
