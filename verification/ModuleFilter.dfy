/** The query over modules: branch dispatch, state normalisation and the module comparator. */
module ModuleFilter {
  import opened Wrappers
  import opened Sequences
  import opened ModuleStates
  import opened LegacyMergeSort

  datatype ModuleInformation = ModuleInformation(
    id: int, projectId: int, name: string, version: string, state: ModuleState, updateTimeStamp: int)

  /** Absent lists are empty lists: every use of them is behind `isNullOrEmpty`. */
  datatype Criteria = Criteria(
    ids: seq<int>, projectIds: seq<int>, states: seq<ModuleState>, versions: seq<string>, sorted: bool)

  datatype FilterError = ModuleDoesNotExist(id: int)

  /** The stored modules in the order of a full selection. */
  type Table = t: seq<ModuleInformation> | UniqueIds(t)

  ghost predicate UniqueIds(t: seq<ModuleInformation>) {
    forall i, j :: 0 <= i < j < |t| ==> t[i].id != t[j].id
  }

  // ----- the query

  function ByIds(t: seq<ModuleInformation>, ids: seq<int>): Result<seq<ModuleInformation>, FilterError> {
    if |ids| == 0 then Success([])
    else
      var found := Select(t, (m: ModuleInformation) => m.id == ids[0]);
      if |found| == 0 then Failure(ModuleDoesNotExist(ids[0]))
      else
        match ByIds(t, ids[1..])
        case Success(rest) => Success([found[0]] + rest)
        case Failure(error) => Failure(error)
  }

  function ByProjects(t: seq<ModuleInformation>, projectIds: seq<int>): seq<ModuleInformation> {
    if |projectIds| == 0 then []
    else Select(t, (m: ModuleInformation) => m.projectId == projectIds[0]) + ByProjects(t, projectIds[1..])
  }

  predicate StateRequested(states: seq<ModuleState>, state: ModuleState) {
    match state
    case Started(Install) => InProgress(Install) in states
    case Started(Update) => InProgress(Update) in states
    case Started(Stop) => InProgress(Stop) in states
    case Started(Restart) => InProgress(Restart) in states
    case Started(Uninstall) => InProgress(Uninstall) in states
    case Unknown(_) => false
    case _ => state in states
  }

  function FilterByProjects(s: seq<ModuleInformation>, c: Criteria): seq<ModuleInformation> {
    if c.projectIds != [] then Select(s, (m: ModuleInformation) => m.projectId in c.projectIds) else s
  }

  function FilterByStates(s: seq<ModuleInformation>, c: Criteria): seq<ModuleInformation> {
    if c.states != [] then Select(s, (m: ModuleInformation) => StateRequested(c.states, m.state)) else s
  }

  function FilterByVersion(s: seq<ModuleInformation>, c: Criteria): seq<ModuleInformation> {
    if c.versions != [] then Select(s, (m: ModuleInformation) => m.version in c.versions) else s
  }

  function SortModules(s: seq<ModuleInformation>, c: Criteria): seq<ModuleInformation> {
    if c.sorted then Sort(s, Compare) else s
  }

  function Filter(t: Table, c: Criteria): Result<seq<ModuleInformation>, FilterError> {
    if c.ids != [] then
      match ByIds(t, c.ids)
      case Success(s) => Success(SortModules(FilterByVersion(FilterByStates(FilterByProjects(s, c), c), c), c))
      case Failure(error) => Failure(error)
    else if c.projectIds != [] then
      Success(SortModules(FilterByVersion(FilterByStates(ByProjects(t, c.projectIds), c), c), c))
    else if c.states != [] then
      Success(SortModules(FilterByVersion(FilterByStates(t, c), c), c))
    else if c.versions != [] then
      Success(SortModules(FilterByVersion(t, c), c))
    else
      Success(SortModules(t, c))
  }

  // ----- what the query means

  /** A module between two states counts as being in the progress it is about to make. */
  ghost predicate Matches(c: Criteria, m: ModuleInformation) {
    && (c.ids != [] ==> m.id in c.ids)
    && (c.projectIds != [] ==> m.projectId in c.projectIds)
    && (c.states != [] ==>
          && !m.state.Unknown?
          && (if m.state.Started? then InProgress(m.state.started) else m.state) in c.states)
    && (c.versions != [] ==> m.version in c.versions)
  }

  /** How often the chosen branch reads a matching module. */
  ghost function Reads(c: Criteria, m: ModuleInformation): nat {
    if c.ids != [] then multiset(c.ids)[m.id]
    else if c.projectIds != [] then multiset(c.projectIds)[m.projectId]
    else 1
  }

  lemma UniqueMultiplicity(t: Table, m: ModuleInformation)
    ensures multiset(t)[m] == if m in t then 1 else 0
  {
    DistinctMultiplicity(t, m);
  }

  ghost predicate IsStored(t: seq<ModuleInformation>, id: int) {
    exists m | m in t :: m.id == id
  }

  lemma {:induction false} ByIdsReads(t: Table, ids: seq<int>, m: ModuleInformation)
    ensures ByIds(t, ids).Success? <==> forall id | id in ids :: IsStored(t, id)
    ensures ByIds(t, ids).Success? ==>
              multiset(ByIds(t, ids).value)[m] == if m in t then multiset(ids)[m.id] else 0
  {
    if |ids| != 0 {
      var p := (n: ModuleInformation) => n.id == ids[0];
      var found := Select(t, p);
      SelectMembers(t, p);
      ByIdsReads(t, ids[1..], m);
      assert ids == [ids[0]] + ids[1..];
      if |found| != 0 {
        assert found[0] in found;
        assert IsStored(t, ids[0]);
        assert forall k | 0 <= k < |t| && t[k].id == ids[0] :: t[k] == found[0];
      } else {
        assert forall n | n in t :: n !in found;
        assert ids[0] in ids && !IsStored(t, ids[0]);
      }
    }
  }

  lemma {:induction false} ByProjectsReads(t: Table, projectIds: seq<int>, m: ModuleInformation)
    ensures multiset(ByProjects(t, projectIds))[m] == if m in t then multiset(projectIds)[m.projectId] else 0
  {
    if |projectIds| != 0 {
      SelectMultiplicity(t, (n: ModuleInformation) => n.projectId == projectIds[0], m);
      UniqueMultiplicity(t, m);
      ByProjectsReads(t, projectIds[1..], m);
      assert projectIds == [projectIds[0]] + projectIds[1..];
    }
  }

  lemma FilterByProjectsReads(s: seq<ModuleInformation>, c: Criteria, m: ModuleInformation)
    ensures multiset(FilterByProjects(s, c))[m] ==
              if c.projectIds == [] || m.projectId in c.projectIds then multiset(s)[m] else 0
  {
    SelectMultiplicity(s, (n: ModuleInformation) => n.projectId in c.projectIds, m);
  }

  /** The part all branches share: states, versions, order. */
  function Finish(s: seq<ModuleInformation>, c: Criteria): seq<ModuleInformation> {
    SortModules(FilterByVersion(FilterByStates(s, c), c), c)
  }

  lemma FinishReads(s: seq<ModuleInformation>, c: Criteria, m: ModuleInformation)
    ensures multiset(Finish(s, c))[m] ==
              if InStatesAndVersions(c, m) then multiset(s)[m] else 0
  {
    var inStates := FilterByStates(s, c);
    SelectMultiplicity(s, (n: ModuleInformation) => StateRequested(c.states, n.state), m);
    SelectMultiplicity(inStates, (n: ModuleInformation) => n.version in c.versions, m);
    SortPermutes(FilterByVersion(inStates, c), Compare);
  }

  /** What the chosen branch reads before states, versions and order; nothing when an id is missing. */
  function Source(t: Table, c: Criteria): seq<ModuleInformation> {
    if c.ids != [] then
      match ByIds(t, c.ids)
      case Success(s) => FilterByProjects(s, c)
      case Failure(_) => []
    else if c.projectIds != [] then ByProjects(t, c.projectIds)
    else t
  }

  lemma FilterFinishesSource(t: Table, c: Criteria)
    ensures Filter(t, c).Success? ==> Filter(t, c).value == Finish(Source(t, c), c)
  {
  }

  lemma SourceReads(t: Table, c: Criteria, m: ModuleInformation)
    ensures Filter(t, c).Success? <==> forall id | id in c.ids :: IsStored(t, id)
    ensures Filter(t, c).Success? ==>
              multiset(Source(t, c))[m] ==
              if m in t && InProjects(c, m) then Reads(c, m) else 0
  {
    ByIdsReads(t, c.ids, m);
    if c.ids != [] {
      if ByIds(t, c.ids).Success? {
        FilterByProjectsReads(ByIds(t, c.ids).value, c, m);
      }
    } else if c.projectIds != [] {
      ByProjectsReads(t, c.projectIds, m);
    } else {
      UniqueMultiplicity(t, m);
    }
  }

  ghost predicate InProjects(c: Criteria, m: ModuleInformation) {
    c.projectIds == [] || m.projectId in c.projectIds
  }

  ghost predicate InStatesAndVersions(c: Criteria, m: ModuleInformation) {
    (c.states == [] || StateRequested(c.states, m.state)) && (c.versions == [] || m.version in c.versions)
  }

  lemma PartsOfMatch(c: Criteria, m: ModuleInformation)
    ensures InProjects(c, m) && InStatesAndVersions(c, m) && Reads(c, m) > 0 <==> Matches(c, m)
  {
    if c.states != [] {
      assert StateRequested(c.states, m.state) <==>
        !m.state.Unknown? && (if m.state.Started? then InProgress(m.state.started) else m.state) in c.states;
    }
  }

  /**
   The five branches are one conjunction of all non-empty criteria. The query fails exactly when a
   requested id is missing; otherwise every stored module occurs as often as its branch reads it.
   */
  lemma FilterIsConjunction(t: Table, c: Criteria, m: ModuleInformation)
    ensures Filter(t, c).Success? <==> forall id | id in c.ids :: IsStored(t, id)
    ensures Filter(t, c).Success? ==>
              multiset(Filter(t, c).value)[m] == if m in t && Matches(c, m) then Reads(c, m) else 0
  {
    SourceReads(t, c, m);
    FilterFinishesSource(t, c);
    FinishReads(Source(t, c), c, m);
    PartsOfMatch(c, m);
  }

  /** For distinct ids and distinct projects the result holds every matching module exactly once. */
  lemma FilterSelectsMatches(t: Table, c: Criteria)
    requires Filter(t, c).Success?
    requires Distinct(c.ids) && Distinct(c.projectIds)
    ensures multiset(Filter(t, c).value) == multiset(Select(t, (m: ModuleInformation) => Matches(c, m)))
  {
    var p := (m: ModuleInformation) => Matches(c, m);
    forall m: ModuleInformation
      ensures multiset(Filter(t, c).value)[m] == multiset(Select(t, p))[m]
    {
      FilterIsConjunction(t, c, m);
      SelectMultiplicity(t, p, m);
      UniqueMultiplicity(t, m);
      DistinctMultiplicity(c.ids, m.id);
      DistinctMultiplicity(c.projectIds, m.projectId);
    }
  }

  // ----- the order of the result

  /** What the branch reads: by ids, by projects, or all. */
  function Read(t: Table, c: Criteria): seq<ModuleInformation> {
    if c.ids != [] then
      match ByIds(t, c.ids)
      case Success(s) => s
      case Failure(_) => []
    else if c.projectIds != [] then ByProjects(t, c.projectIds)
    else t
  }

  /** Ids are answered one by one. */
  lemma {:induction false} IdsInOrder(t: Table, ids: seq<int>)
    requires ByIds(t, ids).Success?
    ensures |ByIds(t, ids).value| == |ids|
    ensures forall i :: 0 <= i < |ids| ==> ByIds(t, ids).value[i] in t && ByIds(t, ids).value[i].id == ids[i]
  {
    if |ids| != 0 {
      var p := (m: ModuleInformation) => m.id == ids[0];
      SelectMembers(t, p);
      assert Select(t, p)[0] in Select(t, p);
      IdsInOrder(t, ids[1..]);
    }
  }

  /** Projects are read one after the other, each in stored order. */
  lemma {:induction false} ProjectsInOrder(t: Table, first: seq<int>, second: seq<int>, projectId: int)
    ensures ByProjects(t, first + second) == ByProjects(t, first) + ByProjects(t, second)
    ensures ByProjects(t, [projectId]) == Select(t, (m: ModuleInformation) => m.projectId == projectId)
  {
    assert [projectId][1..] == [];
    if |first| == 0 {
      assert first + second == second;
    } else {
      assert (first + second)[1..] == first[1..] + second;
      ProjectsInOrder(t, first[1..], second, projectId);
    }
  }

  lemma StepsSelect(s: seq<ModuleInformation>, c: Criteria, inProjects: ModuleInformation -> bool,
      inStates: ModuleInformation -> bool, inVersions: ModuleInformation -> bool)
    requires forall m :: inProjects(m) == (c.projectIds == [] || m.projectId in c.projectIds)
    requires forall m :: inStates(m) == (c.states == [] || StateRequested(c.states, m.state))
    requires forall m :: inVersions(m) == (c.versions == [] || m.version in c.versions)
    ensures FilterByProjects(s, c) == Select(s, inProjects)
    ensures FilterByStates(s, c) == Select(s, inStates)
    ensures FilterByVersion(s, c) == Select(s, inVersions)
  {
    if c.projectIds == [] {
      SelectAll(s, inProjects);
    } else {
      SelectSame(s, (m: ModuleInformation) => m.projectId in c.projectIds, inProjects);
    }
    if c.states == [] {
      SelectAll(s, inStates);
    } else {
      SelectSame(s, (m: ModuleInformation) => StateRequested(c.states, m.state), inStates);
    }
    if c.versions == [] {
      SelectAll(s, inVersions);
    } else {
      SelectSame(s, (m: ModuleInformation) => m.version in c.versions, inVersions);
    }
  }

  lemma AllStepsSelect(s: seq<ModuleInformation>, c: Criteria, all: ModuleInformation -> bool)
    requires forall m | m in s :: all(m) == (InProjects(c, m) && InStatesAndVersions(c, m))
    ensures FilterByVersion(FilterByStates(FilterByProjects(s, c), c), c) == Select(s, all)
  {
    var inProjects := (m: ModuleInformation) => c.projectIds == [] || m.projectId in c.projectIds;
    var inStates := (m: ModuleInformation) => c.states == [] || StateRequested(c.states, m.state);
    var inVersions := (m: ModuleInformation) => c.versions == [] || m.version in c.versions;
    var inBoth := (m: ModuleInformation) => inProjects(m) && inStates(m);
    StepsSelect(s, c, inProjects, inStates, inVersions);
    StepsSelect(Select(s, inProjects), c, inProjects, inStates, inVersions);
    SelectTwice(s, inProjects, inStates, inBoth);
    StepsSelect(Select(s, inBoth), c, inProjects, inStates, inVersions);
    SelectTwice(s, inBoth, inVersions, all);
  }

  lemma ReadIsRequested(t: Table, c: Criteria, m: ModuleInformation)
    requires m in Read(t, c)
    ensures c.ids != [] ==> m.id in c.ids
    ensures c.ids == [] && c.projectIds != [] ==> m.projectId in c.projectIds
  {
    if c.ids != [] {
      IdsInOrder(t, c.ids);
      var i :| 0 <= i < |Read(t, c)| && Read(t, c)[i] == m;
    } else if c.projectIds != [] {
      ByProjectsReads(t, c.projectIds, m);
      assert m in multiset(ByProjects(t, c.projectIds));
    }
  }

  /** An unsorted result is what the branch reads, in that order, without what does not match. */
  lemma UnsortedQueryKeepsOrder(t: Table, c: Criteria)
    requires !c.sorted && Filter(t, c).Success?
    ensures Filter(t, c).value == Select(Read(t, c), (m: ModuleInformation) => Matches(c, m))
  {
    var all := (m: ModuleInformation) => Matches(c, m);
    forall m | m in Read(t, c) ensures all(m) == (InProjects(c, m) && InStatesAndVersions(c, m)) {
      ReadIsRequested(t, c, m);
      PartsOfMatch(c, m);
      assert Reads(c, m) > 0;
    }
    AllStepsSelect(Read(t, c), c, all);
    if c.ids == [] && c.projectIds != [] {
      SelectAll(Read(t, c), (m: ModuleInformation) => m.projectId in c.projectIds) by {
        forall m | m in Read(t, c) ensures m.projectId in c.projectIds {
          ReadIsRequested(t, c, m);
        }
      }
    }
  }

  /** A sorted result is the sort of the unsorted one. */
  lemma SortedQuerySorts(t: Table, c: Criteria)
    requires c.sorted
    ensures Filter(t, c).Success? <==> Filter(t, c.(sorted := false)).Success?
    ensures Filter(t, c).Success? ==> Filter(t, c).value == Sort(Filter(t, c.(sorted := false)).value, Compare)
  {
  }

  // ----- the comparator

  function Compare(current: ModuleInformation, next: ModuleInformation): int {
    if current.state == next.state then
      if next.updateTimeStamp > current.updateTimeStamp then 1 else -1
    else
      match next.state
      case Invalid => -1
      case NotInstalled => if current.state.Invalid? then 1 else -1
      case Stopped => if current.state.Invalid? || current.state.NotInstalled? then 1 else -1
      case Run =>
        if current.state.Invalid? || current.state.NotInstalled? || current.state.Stopped? then 1 else -1
      case Started(Install) => CompareWithInstalling(current.state)
      case InProgress(Install) => CompareWithInstalling(current.state)
      case Started(_) => CompareWithChanging(current.state)
      case InProgress(_) => CompareWithChanging(current.state)
      case Unknown(_) => 0
  }

  function CompareWithChanging(current: ModuleState): int {
    match current
    case Invalid => 1
    case NotInstalled => 1
    case Run => 1
    case Stopped => 1
    case _ => -1
  }

  function CompareWithInstalling(current: ModuleState): int {
    match current
    case Invalid => 1
    case NotInstalled => 1
    case Stopped => 1
    case Run => 1
    case Started(operation) => if operation.Install? then -1 else 1
    case InProgress(operation) => if operation.Install? then -1 else 1
    case Unknown(_) => -1
  }

  // ----- what the order means

  function Rank(state: ModuleState): nat {
    match state
    case Started(operation) => if operation.Install? then 0 else 1
    case InProgress(operation) => if operation.Install? then 0 else 1
    case Run => 2
    case Stopped => 3
    case NotInstalled => 4
    case Invalid => 5
    case Unknown(_) => 6
  }

  /** By rank, and by descending update time inside each of the last four ranks. */
  ghost predicate Before(a: ModuleInformation, b: ModuleInformation) {
    || Rank(a.state) < Rank(b.state)
    || (Rank(a.state) == Rank(b.state) && (Rank(a.state) < 2 || a.updateTimeStamp >= b.updateTimeStamp))
  }

  ghost predicate Ordered(s: seq<ModuleInformation>) {
    forall i, j :: 0 <= i < j < |s| ==> Before(s[i], s[j])
  }

  /** The comparator is no order: two modules of one rank can each be "less" than the other. */
  lemma CompareIsNotAntisymmetric(a: ModuleInformation, b: ModuleInformation)
    requires !a.state.Unknown? && !b.state.Unknown?
    ensures Compare(a, b) < 0 && Compare(b, a) < 0 <==>
              Rank(a.state) == Rank(b.state) && (a.state == b.state ==> a.updateTimeStamp == b.updateTimeStamp)
  {
  }

  /** Yet the legacy merge sort orders every list of known states by rank and time. */
  lemma SortOrdersModules(s: seq<ModuleInformation>)
    requires forall m | m in s :: !m.state.Unknown?
    ensures multiset(Sort(s, Compare)) == multiset(s)
    ensures Ordered(Sort(s, Compare))
  {
    var before := (a: ModuleInformation, b: ModuleInformation) => Before(a, b);
    assert Decides(Compare, before, s);
    SortOrders(s, Compare, before);
    SortPermutes(s, Compare);
  }

  lemma TiesAreClass(s: seq<ModuleInformation>, before: (ModuleInformation, ModuleInformation) -> bool,
      tied: ModuleInformation -> bool, state: ModuleState, time: int)
    requires forall m | m in s :: !m.state.Unknown?
    requires state in {Run, Stopped, NotInstalled, Invalid}
    requires forall a, b :: before(a, b) == Before(a, b)
    requires forall m :: tied(m) == (m.state == state && m.updateTimeStamp == time)
    ensures Decides(Compare, before, s) && IsClass(tied, Compare, before, s)
  {
  }

  /** Modules of one of the last four ranks and one update time keep their stored order. */
  lemma TiesKeepOrder(s: seq<ModuleInformation>, state: ModuleState, time: int)
    requires forall m | m in s :: !m.state.Unknown?
    requires state in {Run, Stopped, NotInstalled, Invalid}
    ensures var tied := (m: ModuleInformation) => m.state == state && m.updateTimeStamp == time;
            Select(Sort(s, Compare), tied) == Select(s, tied)
  {
    var before := (a: ModuleInformation, b: ModuleInformation) => Before(a, b);
    var tied := (m: ModuleInformation) => m.state == state && m.updateTimeStamp == time;
    TiesAreClass(s, before, tied, state, time);
    SortIsStable(s, Compare, before, tied);
  }

  /** A sorted query is ordered, whichever branch answers it. */
  lemma FilterOrders(t: Table, c: Criteria)
    requires c.sorted && Filter(t, c).Success?
    requires forall m | m in t :: !m.state.Unknown?
    ensures Ordered(Filter(t, c).value)
  {
    var r := Filter(t, c).value;
    var unsorted := Filter(t, c.(sorted := false)).value;
    forall m | m in unsorted ensures !m.state.Unknown? {
      assert m in multiset(unsorted);
      FilterIsConjunction(t, c.(sorted := false), m);
    }
    assert r == Sort(unsorted, Compare);
    SortOrdersModules(unsorted);
  }

  /** One module in a state the comparator does not know already breaks the order of the others. */
  lemma UnknownStateBreaksOrder(known: ModuleInformation, other: ModuleInformation, last: ModuleInformation)
    requires known.state == Invalid && other.state.Unknown? && last.state == Run
    ensures Sort([known, other, last], Compare) == [known, other, last]
    ensures Rank(last.state) < Rank(known.state)
  {
    var one, two, three := [known], [known, other], [known, other, last];
    assert InsertionSort(one, Compare) == one by {
      assert one[..0] == [];
    }
    assert InsertionSort(two, Compare) == two by {
      assert two[..1] == one && Insert(other, one, Compare) == two;
    }
    assert InsertionSort(three, Compare) == three by {
      assert three[..2] == two && Insert(last, two, Compare) == three;
    }
  }
}
