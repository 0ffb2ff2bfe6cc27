/**
 Providing the additional files of a module. Cloning, updating and installing a module all allocate a
 file id for every new file, then start the module, then transfer the contents, then process the module;
 each stage is entered when a counter reaches the number of responses it waits for.

 `System` is the client, its requests under way and the file store of the server. Requests are served
 and responses arrive in any order.
 */
module Provisioning {
  import opened Wrappers
  import opened Upload = FileUpload

  datatype Flavour = Cloning | Updating | Installing

  datatype Draft = Draft(name: string, bytes: seq<byte>)

  /** The files of the base module and those of the configuration draft. */
  datatype Setup = Setup(flavour: Flavour, base: seq<FileId>, drafts: seq<Draft>)

  datatype Server = Server(names: map<int, string>, data: map<int, seq<byte>>, nextId: int)

  // ----- what the client asks for

  function DraftBytes(drafts: seq<Draft>, name: string): Option<seq<byte>> {
    if |drafts| == 0 then None
    else if drafts[0].name == name then Some(drafts[0].bytes)
    else DraftBytes(drafts[1..], name)
  }

  function FindByName(base: seq<FileId>, name: string): Option<FileId> {
    if |base| == 0 then None
    else if base[0].name == name then Some(base[0])
    else FindByName(base[1..], name)
  }

  /** An update keeps the ids of the base files that are still drafted. */
  function Reused(base: seq<FileId>, drafts: seq<Draft>): (r: seq<FileId>)
    ensures |r| <= |base|
  {
    if |base| == 0 then []
    else (if DraftBytes(drafts, base[0].name).Some? then [base[0]] else []) + Reused(base[1..], drafts)
  }

  /** An update allocates for the non-empty drafts that no base file has the name of. */
  function NewNames(base: seq<FileId>, drafts: seq<Draft>): seq<string> {
    if |drafts| == 0 then []
    else
      (if drafts[0].bytes != [] && FindByName(base, drafts[0].name).None? then [drafts[0].name] else [])
      + NewNames(base, drafts[1..])
  }

  function Names(drafts: seq<Draft>): (r: seq<string>)
    ensures |r| == |drafts|
    ensures forall i :: 0 <= i < |drafts| ==> r[i] == drafts[i].name
  {
    if |drafts| == 0 then [] else [drafts[0].name] + Names(drafts[1..])
  }

  function Kept(setup: Setup): seq<FileId> {
    if setup.flavour.Updating? then Reused(setup.base, setup.drafts) else []
  }

  function Requested(setup: Setup): seq<string> {
    if setup.flavour.Updating? then NewNames(setup.base, setup.drafts) else Names(setup.drafts)
  }

  datatype Transfer = Send(target: FileId, bytes: seq<byte>) | Clone(source: Option<FileId>, target: FileId)

  /** The transfer for file `k` of the started module, if it needs one. The installer pairs by position. */
  function TransferOf(setup: Setup, files: seq<FileId>, k: nat): Option<Transfer>
    requires k < |files|
  {
    match setup.flavour
    case Installing => if k < |setup.drafts| then Some(Send(files[k], setup.drafts[k].bytes)) else None
    case Cloning =>
      (match DraftBytes(setup.drafts, files[k].name)
       case None => None
       case Some(bytes) =>
         Some(if |bytes| <= 0 then Clone(FindByName(setup.base, files[k].name), files[k]) else Send(files[k], bytes)))
    case Updating =>
      (match DraftBytes(setup.drafts, files[k].name)
       case None => None
       case Some(bytes) => if |bytes| > 0 then Some(Send(files[k], bytes)) else None)
  }

  function Transfers(setup: Setup, files: seq<FileId>): set<nat> {
    set k: nat | k < |files| && TransferOf(setup, files, k).Some?
  }

  // ----- the client

  datatype Phase = Allocating | AwaitingModule | Transferring

  datatype Client = Client(
    phase: Phase, additionalFiles: seq<FileId>, allocations: nat, expected: nat, transferred: nat, processed: nat)

  function Opened(setup: Setup): Client {
    Client(if Requested(setup) == [] then AwaitingModule else Allocating, Kept(setup), 0, 0, 0, 0)
  }

  function Allocated(client: Client, setup: Setup, file: FileId): Client {
    client.(additionalFiles := client.additionalFiles + [file],
            allocations := client.allocations + 1,
            phase := if client.allocations + 1 == |Requested(setup)| then AwaitingModule else client.phase)
  }

  function ModuleStarted(client: Client, setup: Setup): Client {
    var expected := |Transfers(setup, client.additionalFiles)|;
    client.(phase := Transferring, expected := expected, processed := client.processed + (if expected == 0 then 1 else 0))
  }

  function Transferred(client: Client): Client {
    client.(transferred := client.transferred + 1,
            processed := client.processed + (if client.transferred + 1 == client.expected then 1 else 0))
  }

  /** The counters that the callbacks of one provisioning share. */
  class ProvisioningSession {
    const setup: Setup
    var phase: Phase
    var additionalFiles: seq<FileId>
    var allocatedFilesCount: nat
    var expectedFilesCount: nat
    var uploadedFilesCount: nat
    var processed: nat

    ghost function View(): Client
      reads this
    {
      Client(phase, additionalFiles, allocatedFilesCount, expectedFilesCount, uploadedFilesCount, processed)
    }

    constructor (setup: Setup)
      ensures this.setup == setup && View() == Opened(setup)
    {
      this.setup := setup;
      phase := if Requested(setup) == [] then AwaitingModule else Allocating;
      additionalFiles := Kept(setup);
      allocatedFilesCount, expectedFilesCount, uploadedFilesCount, processed := 0, 0, 0, 0;
    }

    method OnAllocated(file: FileId)
      modifies this
      ensures View() == Allocated(old(View()), setup, file)
    {
      additionalFiles := additionalFiles + [file];
      allocatedFilesCount := allocatedFilesCount + 1;
      if allocatedFilesCount == |Requested(setup)| {
        phase := AwaitingModule;
      }
    }

    method OnModuleStarted()
      modifies this
      ensures View() == ModuleStarted(old(View()), setup)
    {
      expectedFilesCount := 0;
      var k := 0;
      ghost var transfers := Transfers(setup, additionalFiles);
      ghost var counted: set<nat> := {};
      while k < |additionalFiles|
        invariant 0 <= k <= |additionalFiles|
        invariant counted == set i: nat | i < k && i in transfers
        invariant expectedFilesCount == |counted|
        invariant View() == old(View()).(expected := expectedFilesCount)
      {
        if TransferOf(setup, additionalFiles, k).Some? {
          expectedFilesCount := expectedFilesCount + 1;
          counted := counted + {k};
        }
        k := k + 1;
      }
      assert counted == transfers;
      phase := Transferring;
      if expectedFilesCount == 0 {
        processed := processed + 1;
      }
    }

    method OnTransferred()
      modifies this
      ensures View() == Transferred(old(View()))
    {
      uploadedFilesCount := uploadedFilesCount + 1;
      if uploadedFilesCount == expectedFilesCount {
        processed := processed + 1;
      }
    }
  }

  // ----- the server

  /** Only a non-empty upload is stored; only a file that is stored can be cloned. */
  predicate Succeeds(server: Server, transfer: Transfer) {
    match transfer
    case Send(_, bytes) => bytes != []
    case Clone(source, _) => source.Some? && source.value.id in server.names && source.value.id in server.data
  }

  function Content(server: Server, transfer: Transfer): seq<byte>
    requires Succeeds(server, transfer)
  {
    match transfer
    case Send(_, bytes) => bytes
    case Clone(source, _) => server.data[source.value.id]
  }

  /** `getFile`: the name from one space, the bytes from the other. */
  predicate CanGet(server: Server, file: FileId) {
    file.id in server.names && file.id in server.data
  }

  // ----- the system

  datatype System = System(
    client: Client,
    server: Server,
    ids: map<nat, FileId>,   // allocation requests that are served
    answered: seq<nat>,      // allocation requests whose responses have arrived, in order of arrival
    waiting: set<nat>,       // transfers not served yet
    replying: set<nat>,      // transfers served, response under way
    replied: set<nat>)       // transfers whose response has arrived; all others have failed

  datatype Step =
    | ServeAllocation(i: nat)
    | AnswerAllocation(i: nat)
    | StartModule
    | ServeTransfer(k: nat)
    | AnswerTransfer(k: nat)

  function Start(setup: Setup, server: Server): System {
    System(Opened(setup), server, map[], [], {}, {}, {})
  }

  predicate Enabled(s: System, setup: Setup, step: Step) {
    match step
    case ServeAllocation(i) => i < |Requested(setup)| && i !in s.ids
    case AnswerAllocation(i) => i in s.ids && i !in s.answered
    case StartModule => s.client.phase.AwaitingModule?
    case ServeTransfer(k) =>
      k in s.waiting && k < |s.client.additionalFiles| && TransferOf(setup, s.client.additionalFiles, k).Some?
    case AnswerTransfer(k) => k in s.replying
  }

  function Next(s: System, setup: Setup, step: Step): System
    requires Enabled(s, setup, step)
  {
    match step
    case ServeAllocation(i) =>
      var file := FileId(s.server.nextId, Requested(setup)[i]);
      s.(server := s.server.(names := s.server.names[file.id := file.name], nextId := s.server.nextId + 1),
         ids := s.ids[i := file])
    case AnswerAllocation(i) =>
      s.(client := Allocated(s.client, setup, s.ids[i]), answered := s.answered + [i])
    case StartModule =>
      s.(client := ModuleStarted(s.client, setup), waiting := Transfers(setup, s.client.additionalFiles))
    case ServeTransfer(k) =>
      var transfer := TransferOf(setup, s.client.additionalFiles, k).value;
      if Succeeds(s.server, transfer) then
        s.(server := s.server.(data := s.server.data[transfer.target.id := Content(s.server, transfer)]),
           waiting := s.waiting - {k}, replying := s.replying + {k})
      else s.(waiting := s.waiting - {k})
    case AnswerTransfer(k) =>
      s.(client := Transferred(s.client), replying := s.replying - {k}, replied := s.replied + {k})
  }

  predicate Runs(s: System, setup: Setup, steps: seq<Step>)
    decreases |steps|
  {
    |steps| == 0 || (Enabled(s, setup, steps[0]) && Runs(Next(s, setup, steps[0]), setup, steps[1..]))
  }

  function After(s: System, setup: Setup, steps: seq<Step>): System
    requires Runs(s, setup, steps)
    decreases |steps|
  {
    if |steps| == 0 then s else After(Next(s, setup, steps[0]), setup, steps[1..])
  }

  // ----- the invariant

  ghost predicate DistinctIds(files: seq<FileId>) {
    forall a, b :: 0 <= a < b < |files| ==> files[a].id != files[b].id
  }

  /** The base files were issued by this server, each id once. */
  ghost predicate IsValid(setup: Setup, server: Server) {
    && DistinctIds(setup.base)
    && forall a :: 0 <= a < |setup.base| ==> setup.base[a].id < server.nextId
  }

  ghost predicate DistinctItems(s: seq<nat>) {
    forall a, b :: 0 <= a < b < |s| ==> s[a] != s[b]
  }

  /** Served requests have fresh, distinct ids under the requested names, and old names are kept. */
  ghost predicate IdsAccounted(s: System, setup: Setup, from: Server) {
    && (forall i :: i in s.ids ==>
          && i < |Requested(setup)| && s.ids[i].name == Requested(setup)[i]
          && from.nextId <= s.ids[i].id < s.server.nextId
          && s.ids[i].id in s.server.names && s.server.names[s.ids[i].id] == s.ids[i].name)
    && (forall i, j :: i in s.ids && j in s.ids && i != j ==> s.ids[i].id != s.ids[j].id)
    && (forall x :: x < from.nextId ==>
          (x in s.server.names <==> x in from.names) && (x in from.names ==> s.server.names[x] == from.names[x]))
    && from.nextId <= s.server.nextId
  }

  /** The client holds the kept files and the answered ids, in order of arrival. */
  ghost predicate AnswersAccounted(s: System, setup: Setup) {
    && DistinctItems(s.answered)
    && (forall a :: 0 <= a < |s.answered| ==> s.answered[a] in s.ids)
    && |s.answered| <= |Requested(setup)|
    && s.client.allocations == |s.answered|
    && (s.client.phase.Allocating? <==> |s.answered| < |Requested(setup)|)
    && |s.client.additionalFiles| == |Kept(setup)| + |s.answered|
    && s.client.additionalFiles[..|Kept(setup)|] == Kept(setup)
    && (forall a :: 0 <= a < |s.answered| ==> s.client.additionalFiles[|Kept(setup)| + a] == s.ids[s.answered[a]])
  }

  ghost predicate AllocationsAccounted(s: System, setup: Setup, from: Server) {
    IdsAccounted(s, setup, from) && AnswersAccounted(s, setup)
  }

  function Served(s: System): set<nat> {
    s.replying + s.replied
  }

  /** Every transfer is waiting, served or failed, and the counters say how many have been answered. */
  ghost predicate CountsAccounted(s: System, setup: Setup, from: Server) {
    var all := Transfers(setup, s.client.additionalFiles);
    && s.client.transferred == |s.replied|
    && s.waiting <= all && Served(s) <= all && s.waiting !! Served(s) && s.replying !! s.replied
    && (if s.client.phase.Transferring? then
          && s.client.expected == |all|
          && s.client.processed == (if |s.replied| == |all| then 1 else 0)
        else s.waiting == {} && Served(s) == {} && s.client.processed == 0)
  }

  /** The transfer of file `k`. */
  function TransferAt(setup: Setup, files: seq<FileId>, k: nat): Transfer
    requires k in Transfers(setup, files)
  {
    TransferOf(setup, files, k).value
  }

  /** Of the transfers that no longer wait, those succeeded that could against the store at the start. */
  ghost predicate OutcomesAccounted(setup: Setup, from: Server, files: seq<FileId>, waiting: set<nat>, served: set<nat>) {
    forall k :: k in Transfers(setup, files) && k !in waiting ==>
      (k in served <==> Succeeds(from, TransferAt(setup, files, k)))
  }

  /** Exactly the files of the served transfers are written, each with its content. */
  ghost predicate DataAccounted(setup: Setup, from: Server, files: seq<FileId>, served: set<nat>, data: map<int, seq<byte>>) {
    && (forall k :: k in served ==>
          && k in Transfers(setup, files) && Succeeds(from, TransferAt(setup, files, k))
          && files[k].id in data && data[files[k].id] == Content(from, TransferAt(setup, files, k)))
    && (forall x :: (forall k :: k in served && k < |files| ==> files[k].id != x) ==>
          (x in data <==> x in from.data) && (x in from.data ==> data[x] == from.data[x]))
  }

  ghost predicate TransfersAccounted(s: System, setup: Setup, from: Server) {
    && CountsAccounted(s, setup, from)
    && (s.client.phase.Transferring? ==>
          OutcomesAccounted(setup, from, s.client.additionalFiles, s.waiting, Served(s)))
    && DataAccounted(setup, from, s.client.additionalFiles, Served(s), s.server.data)
  }

  ghost predicate Accounted(s: System, setup: Setup, from: Server) {
    IsValid(setup, from) && AllocationsAccounted(s, setup, from) && TransfersAccounted(s, setup, from)
  }

  lemma {:induction false} ReusedIsPart(base: seq<FileId>, drafts: seq<Draft>, bound: int)
    requires DistinctIds(base) && forall a :: 0 <= a < |base| ==> base[a].id < bound
    ensures DistinctIds(Reused(base, drafts))
    ensures forall file :: file in Reused(base, drafts) ==> file in base && file.id < bound
    ensures forall file :: file in Reused(base, drafts) <==> file in base && DraftBytes(drafts, file.name).Some?
  {
    if |base| != 0 {
      ReusedIsPart(base[1..], drafts, bound);
    }
  }

  lemma KeptIdsAreOld(setup: Setup, from: Server)
    requires IsValid(setup, from)
    ensures DistinctIds(Kept(setup)) && forall k :: 0 <= k < |Kept(setup)| ==> Kept(setup)[k].id < from.nextId
  {
    ReusedIsPart(setup.base, setup.drafts, from.nextId);
    forall k | 0 <= k < |Kept(setup)| ensures Kept(setup)[k].id < from.nextId {
      assert Kept(setup)[k] in Kept(setup);
    }
  }

  lemma FilesAreDistinct(s: System, setup: Setup, from: Server)
    requires IsValid(setup, from) && AllocationsAccounted(s, setup, from)
    ensures DistinctIds(s.client.additionalFiles)
    ensures forall k :: 0 <= k < |Kept(setup)| ==> s.client.additionalFiles[k].id < from.nextId
    ensures forall k :: |Kept(setup)| <= k < |s.client.additionalFiles| ==> s.client.additionalFiles[k].id >= from.nextId
  {
    var files, m := s.client.additionalFiles, |Kept(setup)|;
    KeptIdsAreOld(setup, from);
    forall k | 0 <= k < m ensures files[k] == Kept(setup)[k] {
      assert files[..m][k] == Kept(setup)[k];
    }
    forall k | m <= k < |files| ensures files[k].id >= from.nextId {
      NewFileName(s, setup, from, k);
    }
    forall a, b | m <= a < b < |files| ensures files[a].id != files[b].id {
      NewFileName(s, setup, from, a);
      NewFileName(s, setup, from, b);
      assert s.answered[a - m] != s.answered[b - m];
    }
  }

  lemma {:induction false} FindIsInBase(base: seq<FileId>, name: string)
    ensures FindByName(base, name).Some? ==> FindByName(base, name).value in base && FindByName(base, name).value.name == name
    ensures FindByName(base, name).None? ==> forall file :: file in base ==> file.name != name
  {
    if |base| != 0 {
      FindIsInBase(base[1..], name);
    }
  }

  /** A clone reads a base file, and every file of a cloned module is new. */
  lemma SourceIsNoTarget(s: System, setup: Setup, from: Server, name: string)
    requires IsValid(setup, from) && AllocationsAccounted(s, setup, from) && setup.flavour.Cloning?
    requires FindByName(setup.base, name).Some?
    ensures FindByName(setup.base, name).value.id < from.nextId
    ensures forall k :: 0 <= k < |s.client.additionalFiles| ==>
              s.client.additionalFiles[k].id != FindByName(setup.base, name).value.id
  {
    FilesAreDistinct(s, setup, from);
    FindIsInBase(setup.base, name);
  }

  /** Serving writes nothing another transfer reads. */
  lemma TransferIsStable(s: System, setup: Setup, from: Server, k: nat)
    requires Accounted(s, setup, from)
    requires k in Transfers(setup, s.client.additionalFiles)
    ensures var transfer := TransferAt(setup, s.client.additionalFiles, k);
            && transfer.target == s.client.additionalFiles[k]
            && (Succeeds(s.server, transfer) <==> Succeeds(from, transfer))
            && (Succeeds(from, transfer) ==> Content(s.server, transfer) == Content(from, transfer))
  {
    var transfer := TransferAt(setup, s.client.additionalFiles, k);
    if transfer.Clone? && transfer.source.Some? {
      assert setup.flavour.Cloning?;
      SourceIsNoTarget(s, setup, from, s.client.additionalFiles[k].name);
      SourceIsKept(s, setup, from, transfer.source.value.id);
    }
  }

  lemma SourceIsKept(s: System, setup: Setup, from: Server, x: int)
    requires IdsAccounted(s, setup, from) && TransfersAccounted(s, setup, from) && x < from.nextId
    requires forall k :: 0 <= k < |s.client.additionalFiles| ==> s.client.additionalFiles[k].id != x
    ensures x in s.server.names <==> x in from.names
    ensures x in s.server.data <==> x in from.data
    ensures x in from.data ==> s.server.data[x] == from.data[x]
  {
  }

  lemma ServeAllocationKeeps(s: System, setup: Setup, from: Server, i: nat)
    requires AllocationsAccounted(s, setup, from) && Enabled(s, setup, ServeAllocation(i))
    ensures AllocationsAccounted(Next(s, setup, ServeAllocation(i)), setup, from)
  {
    var t := Next(s, setup, ServeAllocation(i));
    assert IdsAccounted(t, setup, from);
    assert AnswersAccounted(t, setup);
  }

  lemma AnswerAllocationKeeps(s: System, setup: Setup, from: Server, i: nat)
    requires AllocationsAccounted(s, setup, from) && Enabled(s, setup, AnswerAllocation(i))
    ensures s.client.phase.Allocating? && AllocationsAccounted(Next(s, setup, AnswerAllocation(i)), setup, from)
  {
    if !s.client.phase.Allocating? {
      AllAnswered(s, setup, from);
    }
    var t := Next(s, setup, AnswerAllocation(i));
    assert IdsAccounted(t, setup, from);
    assert t.client.additionalFiles[..|Kept(setup)|] == s.client.additionalFiles[..|Kept(setup)|];
  }

  function Below(n: nat): (r: set<nat>)
    ensures |r| == n
    ensures forall i: nat :: i in r <==> i < n
  {
    if n == 0 then {} else Below(n - 1) + {n - 1}
  }

  function Items(s: seq<nat>): (r: set<nat>)
    ensures forall x :: x in r <==> x in s
  {
    if |s| == 0 then {} else {s[0]} + Items(s[1..])
  }

  lemma {:induction false} ItemsSize(s: seq<nat>)
    requires DistinctItems(s)
    ensures |Items(s)| == |s|
  {
    if |s| != 0 {
      ItemsSize(s[1..]);
      assert s[0] !in s[1..];
    }
  }

  lemma SubsetOfSameSize<T>(a: set<T>, b: set<T>)
    requires a <= b && |a| == |b|
    ensures a == b
  {
    if exists x :: x in b && x !in a {
      var x :| x in b && x !in a;
      assert a <= b - {x};
      SubsetSize(a, b - {x});
    }
  }

  lemma {:induction false} SubsetSize<T>(a: set<T>, b: set<T>)
    requires a <= b
    ensures |a| <= |b|
    decreases |a|
  {
    if exists x :: x in a {
      var x :| x in a;
      SubsetSize(a - {x}, b - {x});
    } else {
      assert a == {};
    }
  }

  lemma AnsweredIsBelow(s: System, setup: Setup, from: Server)
    requires AllocationsAccounted(s, setup, from) && !s.client.phase.Allocating?
    ensures Items(s.answered) == Below(|Requested(setup)|)
  {
    ItemsSize(s.answered);
    forall i | i in Items(s.answered) ensures i in Below(|Requested(setup)|) {
      AnsweredHasId(s, setup, i);
    }
    SubsetOfSameSize(Items(s.answered), Below(|Requested(setup)|));
  }

  /** When the counter of allocations is full, every request has been answered. */
  lemma AllAnswered(s: System, setup: Setup, from: Server)
    requires AllocationsAccounted(s, setup, from) && !s.client.phase.Allocating?
    ensures forall i: nat :: i < |Requested(setup)| ==> i in s.answered && i in s.ids
  {
    AnsweredIsBelow(s, setup, from);
    forall i: nat | i < |Requested(setup)| ensures i in s.answered && i in s.ids {
      BelowIsListed(s.answered, |Requested(setup)|, i);
      AnsweredHasId(s, setup, i);
    }
  }

  lemma BelowIsListed(s: seq<nat>, n: nat, i: nat)
    requires Items(s) == Below(n) && i < n
    ensures i in s
  {
    assert i in Items(s);
  }

  lemma AnsweredHasId(s: System, setup: Setup, i: nat)
    requires AnswersAccounted(s, setup) && i in s.answered
    ensures i in s.ids
  {
    var a :| 0 <= a < |s.answered| && s.answered[a] == i;
  }

  /** The later stages leave what the allocations established alone. */
  lemma AllocationsStay(s: System, t: System, setup: Setup, from: Server)
    requires AllocationsAccounted(s, setup, from)
    requires t.ids == s.ids && t.answered == s.answered
    requires t.server.names == s.server.names && t.server.nextId == s.server.nextId
    requires t.client.additionalFiles == s.client.additionalFiles && t.client.allocations == s.client.allocations
    requires !s.client.phase.Allocating? && !t.client.phase.Allocating?
    ensures AllocationsAccounted(t, setup, from)
  {
  }

  lemma StartModuleKeeps(s: System, setup: Setup, from: Server)
    requires Accounted(s, setup, from) && Enabled(s, setup, StartModule)
    ensures Accounted(Next(s, setup, StartModule), setup, from)
  {
    var t := Next(s, setup, StartModule);
    AllocationsStay(s, t, setup, from);
    assert s.replied == {} && s.replying == {};
    assert |Transfers(setup, t.client.additionalFiles)| == 0 <==> |t.replied| == |Transfers(setup, t.client.additionalFiles)|;
  }

  lemma ServeDataKeeps(setup: Setup, from: Server, files: seq<FileId>, served: set<nat>, data: map<int, seq<byte>>, k: nat)
    requires DataAccounted(setup, from, files, served, data) && DistinctIds(files)
    requires k in Transfers(setup, files) && k !in served && Succeeds(from, TransferAt(setup, files, k))
    ensures DataAccounted(setup, from, files, served + {k}, data[files[k].id := Content(from, TransferAt(setup, files, k))])
  {
    var more := served + {k};
    var data' := data[files[k].id := Content(from, TransferAt(setup, files, k))];
    forall j | j in more && j != k ensures j in served && files[j].id != files[k].id {
    }
    forall x | forall j :: j in more && j < |files| ==> files[j].id != x
      ensures (x in data' <==> x in from.data) && (x in from.data ==> data'[x] == from.data[x])
    {
      assert k in more;
      assert forall j :: j in served ==> j in more;
    }
  }

  lemma ServeCounts(s: System, t: System, setup: Setup, from: Server, k: nat, succeeds: bool)
    requires CountsAccounted(s, setup, from) && k in s.waiting
    requires t.client == s.client && t.replied == s.replied && t.waiting == s.waiting - {k}
    requires t.replying == if succeeds then s.replying + {k} else s.replying
    ensures CountsAccounted(t, setup, from)
    ensures Served(t) == if succeeds then Served(s) + {k} else Served(s)
  {
  }

  lemma ServeTransferKeeps(s: System, setup: Setup, from: Server, k: nat)
    requires Accounted(s, setup, from) && Enabled(s, setup, ServeTransfer(k))
    ensures Accounted(Next(s, setup, ServeTransfer(k)), setup, from)
  {
    var files := s.client.additionalFiles;
    var t := Next(s, setup, ServeTransfer(k));
    var transfer := TransferAt(setup, files, k);
    TransferIsStable(s, setup, from, k);
    AllocationsStay(s, t, setup, from);
    ServeCounts(s, t, setup, from, k, Succeeds(from, transfer));
    assert OutcomesAccounted(setup, from, files, t.waiting, Served(t));
    if Succeeds(from, transfer) {
      FilesAreDistinct(s, setup, from);
      ServeDataKeeps(setup, from, files, Served(s), s.server.data, k);
    }
  }

  lemma AnswerCounts(s: System, t: System, setup: Setup, from: Server, k: nat)
    requires CountsAccounted(s, setup, from) && k in s.replying
    requires t.client == Transferred(s.client) && t.waiting == s.waiting
    requires t.replying == s.replying - {k} && t.replied == s.replied + {k}
    ensures CountsAccounted(t, setup, from)
    ensures Served(t) == Served(s)
  {
    assert k in Served(s) && k !in s.replied;
    assert s.client.phase.Transferring?;
    SubsetSize(t.replied, Transfers(setup, s.client.additionalFiles));
  }

  lemma AnswerTransferKeeps(s: System, setup: Setup, from: Server, k: nat)
    requires Accounted(s, setup, from) && Enabled(s, setup, AnswerTransfer(k))
    ensures Accounted(Next(s, setup, AnswerTransfer(k)), setup, from)
  {
    var t := Next(s, setup, AnswerTransfer(k));
    assert k in Served(s);
    AnswerCounts(s, t, setup, from, k);
    AllocationsStay(s, t, setup, from);
  }

  lemma NextKeepsAccounted(s: System, setup: Setup, from: Server, step: Step)
    requires Accounted(s, setup, from) && Enabled(s, setup, step)
    ensures Accounted(Next(s, setup, step), setup, from)
  {
    match step
    case ServeAllocation(i) =>
      ServeAllocationKeeps(s, setup, from, i);
    case AnswerAllocation(i) =>
      AnswerAllocationKeeps(s, setup, from, i);
      assert !s.client.phase.Transferring?;
    case StartModule => StartModuleKeeps(s, setup, from);
    case ServeTransfer(k) => ServeTransferKeeps(s, setup, from, k);
    case AnswerTransfer(k) => AnswerTransferKeeps(s, setup, from, k);
  }

  lemma StartIsAccounted(setup: Setup, from: Server)
    requires IsValid(setup, from)
    ensures Accounted(Start(setup, from), setup, from)
  {
    var s := Start(setup, from);
    assert Kept(setup)[..|Kept(setup)|] == Kept(setup);
    assert Served(s) == {};
  }

  // ----- progress

  /** Every step lowers this measure. */
  function Work(s: System, setup: Setup): int {
    2 * |Requested(setup)| - |s.ids.Keys| - |s.answered|
    + (if s.client.phase.Transferring? then 2 * |s.waiting| + |s.replying|
       else 2 * (|Kept(setup)| + |Requested(setup)|) + 1)
  }

  lemma WorkIsNatural(s: System, setup: Setup, from: Server)
    requires Accounted(s, setup, from)
    ensures Work(s, setup) >= 0
  {
    SubsetSize(s.ids.Keys, Below(|Requested(setup)|));
  }

  lemma TransfersSize(setup: Setup, files: seq<FileId>)
    ensures |Transfers(setup, files)| <= |files|
  {
    SubsetSize(Transfers(setup, files), Below(|files|));
  }

  lemma AllocationWorks(s: System, setup: Setup, step: Step)
    requires Enabled(s, setup, step)
    requires step.ServeAllocation? || (step.AnswerAllocation? && s.client.phase.Allocating?)
    ensures Work(Next(s, setup, step), setup) < Work(s, setup)
  {
    var t := Next(s, setup, step);
    match step
    case ServeAllocation(i) => assert t.ids.Keys == s.ids.Keys + {i};
    case AnswerAllocation(i) =>
  }

  lemma StartWorks(s: System, setup: Setup)
    requires Enabled(s, setup, StartModule) && s.replying == {}
    requires |s.client.additionalFiles| <= |Kept(setup)| + |Requested(setup)|
    ensures Work(Next(s, setup, StartModule), setup) < Work(s, setup)
  {
    TransfersSize(setup, s.client.additionalFiles);
  }

  lemma TransferWorks(s: System, setup: Setup, step: Step)
    requires Enabled(s, setup, step) && s.client.phase.Transferring?
    requires step.ServeTransfer? || step.AnswerTransfer?
    ensures Work(Next(s, setup, step), setup) < Work(s, setup)
  {
    var t := Next(s, setup, step);
    match step
    case ServeTransfer(k) =>
      assert |t.waiting| == |s.waiting| - 1;
      assert |t.replying| <= |s.replying| + 1;
    case AnswerTransfer(k) => assert |t.replying| == |s.replying| - 1;
  }

  lemma StepWorks(s: System, setup: Setup, from: Server, step: Step)
    requires Accounted(s, setup, from) && Enabled(s, setup, step)
    ensures Work(Next(s, setup, step), setup) < Work(s, setup)
  {
    match step
    case ServeAllocation(i) => AllocationWorks(s, setup, step);
    case AnswerAllocation(i) =>
      AnswerAllocationKeeps(s, setup, from, i);
      AllocationWorks(s, setup, step);
    case StartModule => StartWorks(s, setup);
    case ServeTransfer(k) => TransferWorks(s, setup, step);
    case AnswerTransfer(k) =>
      assert k in Served(s);
      TransferWorks(s, setup, step);
  }

  lemma {:induction false} RunsKeepAccounted(s: System, setup: Setup, from: Server, steps: seq<Step>)
    requires Accounted(s, setup, from) && Runs(s, setup, steps)
    ensures Accounted(After(s, setup, steps), setup, from)
    ensures |steps| + Work(After(s, setup, steps), setup) <= Work(s, setup)
    decreases |steps|
  {
    if |steps| != 0 {
      NextKeepsAccounted(s, setup, from, steps[0]);
      StepWorks(s, setup, from, steps[0]);
      RunsKeepAccounted(Next(s, setup, steps[0]), setup, from, steps[1..]);
    }
  }

  ghost predicate Stuck(s: System, setup: Setup) {
    forall step :: !Enabled(s, setup, step)
  }

  /** When nothing can happen any more, every transfer has been served and answered, or has failed. */
  lemma StuckIsDone(s: System, setup: Setup, from: Server)
    requires Accounted(s, setup, from) && Stuck(s, setup)
    ensures s.client.phase.Transferring? && s.waiting == {} && s.replying == {}
  {
    if s.client.phase.Allocating? {
      SomeAllocationIsOpen(s, setup);
    }
    assert !Enabled(s, setup, StartModule);
    forall k | k in s.waiting ensures false {
      assert k in Transfers(setup, s.client.additionalFiles);
      assert Enabled(s, setup, ServeTransfer(k));
    }
    forall k | k in s.replying ensures false {
      assert Enabled(s, setup, AnswerTransfer(k));
    }
  }

  lemma SomeAllocationIsOpen(s: System, setup: Setup)
    requires AnswersAccounted(s, setup) && s.client.phase.Allocating?
    ensures exists step :: Enabled(s, setup, step)
  {
    var n := |Requested(setup)|;
    if i: nat :| i < n && i !in s.answered {
      assert Enabled(s, setup, if i in s.ids then AnswerAllocation(i) else ServeAllocation(i));
    } else {
      ItemsSize(s.answered);
      SubsetSize(Below(n), Items(s.answered));
    }
  }

  // ----- the main results

  /** Every transfer has been stored, with the bytes it had to carry. */
  ghost predicate AllTransferred(s: System, setup: Setup, from: Server) {
    var files := s.client.additionalFiles;
    && s.client.phase.Transferring?
    && s.replied == Transfers(setup, files)
    && forall k :: k in Transfers(setup, files) ==>
         && Succeeds(from, TransferAt(setup, files, k))
         && files[k].id in s.server.data
         && s.server.data[files[k].id] == Content(from, TransferAt(setup, files, k))
  }

  ghost predicate AllSucceed(setup: Setup, from: Server, files: seq<FileId>) {
    forall k :: k in Transfers(setup, files) ==> Succeeds(from, TransferAt(setup, files, k))
  }

  lemma RunIsAccounted(setup: Setup, from: Server, steps: seq<Step>)
    requires IsValid(setup, from) && Runs(Start(setup, from), setup, steps)
    ensures Accounted(After(Start(setup, from), setup, steps), setup, from)
    ensures |steps| <= Work(Start(setup, from), setup)
  {
    StartIsAccounted(setup, from);
    RunsKeepAccounted(Start(setup, from), setup, from, steps);
    WorkIsNatural(After(Start(setup, from), setup, steps), setup, from);
  }

  /** What `getFile` needs of the kept base files: they are still stored. */
  ghost predicate BaseIsStored(setup: Setup, from: Server) {
    forall a :: 0 <= a < |setup.base| ==> CanGet(from, setup.base[a])
  }

  /** A cloned module gets the file `name` from its draft, or when that is empty from the base module. */
  ghost predicate CanProvide(setup: Setup, from: Server, name: string) {
    || DraftBytes(setup.drafts, name) != Some([])
    || (var source := FindByName(setup.base, name); source.Some? && CanGet(from, source.value))
  }

  /** What the user can see before starting: nothing to clone is missing, nothing to install is empty. */
  ghost predicate CanProvision(setup: Setup, from: Server) {
    match setup.flavour
    case Updating => true
    case Installing => forall i :: 0 <= i < |setup.drafts| ==> setup.drafts[i].bytes != []
    case Cloning =>
      forall i :: 0 <= i < |setup.drafts| ==> CanProvide(setup, from, setup.drafts[i].name)
  }

  lemma {:induction false} DraftIsFound(drafts: seq<Draft>, i: nat)
    requires i < |drafts|
    ensures DraftBytes(drafts, drafts[i].name).Some?
    ensures (forall a, b :: 0 <= a < b < |drafts| ==> drafts[a].name != drafts[b].name) ==>
              DraftBytes(drafts, drafts[i].name) == Some(drafts[i].bytes)
  {
    if i != 0 {
      DraftIsFound(drafts[1..], i - 1);
    }
  }

  /** The new file at position `a` of the arrivals carries the name of the request it answers. */
  lemma NewFileName(s: System, setup: Setup, from: Server, k: nat)
    requires AllocationsAccounted(s, setup, from) && |Kept(setup)| <= k < |s.client.additionalFiles|
    ensures var i := s.answered[k - |Kept(setup)|];
            i < |Requested(setup)| && s.client.additionalFiles[k] == s.ids[i]
            && s.client.additionalFiles[k].name == Requested(setup)[i]
  {
    assert s.client.additionalFiles[|Kept(setup)| + (k - |Kept(setup)|)] == s.ids[s.answered[k - |Kept(setup)|]];
  }

  lemma PositionOf(s: seq<nat>, i: nat) returns (a: nat)
    requires i in s
    ensures a < |s| && s[a] == i
  {
    a :| a < |s| && s[a] == i;
  }

  /** Every request has its file in the list. */
  lemma RequestIsListed(s: System, setup: Setup, from: Server, i: nat) returns (k: nat)
    requires AllocationsAccounted(s, setup, from) && !s.client.phase.Allocating?
    requires i < |Requested(setup)|
    ensures k < |s.client.additionalFiles| && s.client.additionalFiles[k].name == Requested(setup)[i]
  {
    AllAnswered(s, setup, from);
    var a := PositionOf(s.answered, i);
    k := |Kept(setup)| + a;
    NewFileName(s, setup, from, k);
  }

  lemma SuccessIsForeseeable(s: System, setup: Setup, from: Server)
    requires IsValid(setup, from) && AllocationsAccounted(s, setup, from) && !s.client.phase.Allocating?
    ensures AllSucceed(setup, from, s.client.additionalFiles) <==> CanProvision(setup, from)
  {
    match setup.flavour
    case Updating =>
    case Installing => InstallSuccess(s, setup, from);
    case Cloning => CloneSuccess(s, setup, from);
  }

  lemma InstallSuccess(s: System, setup: Setup, from: Server)
    requires AllocationsAccounted(s, setup, from) && !s.client.phase.Allocating? && setup.flavour.Installing?
    ensures AllSucceed(setup, from, s.client.additionalFiles) <==> CanProvision(setup, from)
  {
    var files := s.client.additionalFiles;
    assert |files| == |setup.drafts|;
    forall i | 0 <= i < |setup.drafts|
      ensures i in Transfers(setup, files) && (Succeeds(from, TransferAt(setup, files, i)) <==> setup.drafts[i].bytes != [])
    {
    }
  }

  lemma CloneTransfer(setup: Setup, from: Server, files: seq<FileId>, k: nat, d: nat)
    requires setup.flavour.Cloning? && k < |files| && d < |setup.drafts| && setup.drafts[d].name == files[k].name
    ensures k in Transfers(setup, files)
    ensures Succeeds(from, TransferAt(setup, files, k)) <==> CanProvide(setup, from, files[k].name)
  {
    DraftIsFound(setup.drafts, d);
  }

  lemma CloneSuccess(s: System, setup: Setup, from: Server)
    requires AllocationsAccounted(s, setup, from) && !s.client.phase.Allocating? && setup.flavour.Cloning?
    ensures AllSucceed(setup, from, s.client.additionalFiles) <==> CanProvision(setup, from)
  {
    var files := s.client.additionalFiles;
    if CanProvision(setup, from) {
      forall k | k in Transfers(setup, files) ensures Succeeds(from, TransferAt(setup, files, k)) {
        NewFileName(s, setup, from, k);
        CloneTransfer(setup, from, files, k, s.answered[k]);
      }
    }
    if AllSucceed(setup, from, files) {
      forall i: nat | i < |setup.drafts| ensures CanProvide(setup, from, setup.drafts[i].name) {
        var k := RequestIsListed(s, setup, from, i);
        CloneTransfer(setup, from, files, k, i);
      }
    }
  }

  /**
   For every draft and every order of serving and answering: the run is bounded; the module is
   processed at most once, and only after every transfer is stored; and when nothing more can happen,
   it has been processed exactly if no file to install is empty and no file to clone is missing.
   */
  lemma ProcessedOnceAfterTransfers(setup: Setup, from: Server, steps: seq<Step>)
    requires IsValid(setup, from) && Runs(Start(setup, from), setup, steps)
    ensures var s := After(Start(setup, from), setup, steps);
            && |steps| <= Work(Start(setup, from), setup)
            && s.client.processed <= 1
            && (s.client.processed == 1 ==> AllTransferred(s, setup, from))
            && (Stuck(s, setup) ==> (s.client.processed == 1 <==> CanProvision(setup, from)))
  {
    RunIsAccounted(setup, from, steps);
    var s := After(Start(setup, from), setup, steps);
    var all := Transfers(setup, s.client.additionalFiles);
    if s.client.processed == 1 {
      SubsetOfSameSize(s.replied, all);
    }
    if Stuck(s, setup) {
      StuckIsDone(s, setup, from);
      SuccessIsForeseeable(s, setup, from);
      assert Served(s) == s.replied;
      if AllSucceed(setup, from, s.client.additionalFiles) {
        assert s.replied == all;
      }
    }
  }

  ghost predicate DistinctNames(drafts: seq<Draft>) {
    forall a, b :: 0 <= a < b < |drafts| ==> drafts[a].name != drafts[b].name
  }

  lemma {:induction false} NewNameIsDraft(base: seq<FileId>, drafts: seq<Draft>, i: nat) returns (d: nat)
    requires i < |NewNames(base, drafts)|
    ensures d < |drafts| && drafts[d].name == NewNames(base, drafts)[i] && drafts[d].bytes != []
  {
    var first := if drafts[0].bytes != [] && FindByName(base, drafts[0].name).None? then 1 else 0;
    if i < first {
      d := 0;
    } else {
      assert NewNames(base, drafts)[i] == NewNames(base, drafts[1..])[i - first];
      var rest := NewNameIsDraft(base, drafts[1..], i - first);
      d := rest + 1;
    }
  }

  ghost predicate BaseHolds(setup: Setup, from: Server, file: FileId, bytes: seq<byte>, b: nat) {
    && b < |setup.base| && setup.base[b].name == file.name
    && setup.base[b].id in from.data && bytes == from.data[setup.base[b].id]
  }

  ghost predicate DraftHolds(setup: Setup, from: Server, file: FileId, bytes: seq<byte>, d: nat) {
    && d < |setup.drafts| && setup.drafts[d].name == file.name
    && if setup.drafts[d].bytes != [] then bytes == setup.drafts[d].bytes
       else exists b: nat :: BaseHolds(setup, from, file, bytes, b)
  }

  /** The bytes a listed file must hold: those of its draft, or when that is empty those of the base file. */
  ghost predicate HoldsDraft(setup: Setup, from: Server, file: FileId, bytes: seq<byte>) {
    exists d: nat :: DraftHolds(setup, from, file, bytes, d)
  }

  lemma TransferredData(s: System, setup: Setup, from: Server, k: nat)
    requires AllTransferred(s, setup, from) && k in Transfers(setup, s.client.additionalFiles)
    ensures var files := s.client.additionalFiles;
            && Succeeds(from, TransferAt(setup, files, k))
            && files[k].id in s.server.data
            && s.server.data[files[k].id] == Content(from, TransferAt(setup, files, k))
  {
  }

  /** The transfer of a cloned file whose draft is `d`. */
  lemma CloneTransferOf(setup: Setup, files: seq<FileId>, k: nat, d: nat)
    requires setup.flavour.Cloning? && k < |files|
    requires DistinctNames(setup.drafts) && d < |setup.drafts| && setup.drafts[d].name == files[k].name
    ensures k in Transfers(setup, files)
    ensures TransferAt(setup, files, k) ==
              if setup.drafts[d].bytes != [] then Send(files[k], setup.drafts[d].bytes)
              else Clone(FindByName(setup.base, files[k].name), files[k])
  {
    DraftIsFound(setup.drafts, d);
  }

  lemma ClonedFileHoldsDraft(s: System, setup: Setup, from: Server, k: nat)
    requires Accounted(s, setup, from) && AllTransferred(s, setup, from) && setup.flavour.Cloning?
    requires DistinctNames(setup.drafts) && k < |s.client.additionalFiles|
    ensures CanGet(s.server, s.client.additionalFiles[k])
    ensures HoldsDraft(setup, from, s.client.additionalFiles[k], s.server.data[s.client.additionalFiles[k].id])
  {
    var files, file := s.client.additionalFiles, s.client.additionalFiles[k];
    NewFileName(s, setup, from, k);
    var d := s.answered[k];
    CloneTransferOf(setup, files, k, d);
    TransferredData(s, setup, from, k);
    var bytes := s.server.data[file.id];
    if setup.drafts[d].bytes == [] {
      FindIsInBase(setup.base, file.name);
      var b: nat :| b < |setup.base| && setup.base[b] == FindByName(setup.base, file.name).value;
      assert BaseHolds(setup, from, file, bytes, b);
    }
    assert DraftHolds(setup, from, file, bytes, d);
  }

  /** The transfer of an updated file whose draft is `d`. */
  lemma UpdateTransferOf(setup: Setup, files: seq<FileId>, k: nat, d: nat)
    requires setup.flavour.Updating? && k < |files|
    requires DistinctNames(setup.drafts) && d < |setup.drafts| && setup.drafts[d].name == files[k].name
    ensures k in Transfers(setup, files) <==> setup.drafts[d].bytes != []
    ensures k in Transfers(setup, files) ==> TransferAt(setup, files, k) == Send(files[k], setup.drafts[d].bytes)
  {
    DraftIsFound(setup.drafts, d);
  }

  lemma AllocatedFileHoldsDraft(s: System, setup: Setup, from: Server, k: nat)
    requires Accounted(s, setup, from) && AllTransferred(s, setup, from) && setup.flavour.Updating?
    requires DistinctNames(setup.drafts) && |Kept(setup)| <= k < |s.client.additionalFiles|
    ensures CanGet(s.server, s.client.additionalFiles[k])
    ensures HoldsDraft(setup, from, s.client.additionalFiles[k], s.server.data[s.client.additionalFiles[k].id])
  {
    var files := s.client.additionalFiles;
    NewFileName(s, setup, from, k);
    var d := NewNameIsDraft(setup.base, setup.drafts, s.answered[k - |Kept(setup)|]);
    UpdateTransferOf(setup, files, k, d);
    TransferredData(s, setup, from, k);
    assert DraftHolds(setup, from, files[k], s.server.data[files[k].id], d);
  }

  /** A file without a transfer keeps its bytes. */
  lemma UntransferredData(s: System, setup: Setup, from: Server, k: nat)
    requires IsValid(setup, from) && AllocationsAccounted(s, setup, from)
    requires DataAccounted(setup, from, s.client.additionalFiles, Served(s), s.server.data)
    requires k < |s.client.additionalFiles| && k !in Transfers(setup, s.client.additionalFiles)
    ensures var id := s.client.additionalFiles[k].id;
            id in from.data ==> id in s.server.data && s.server.data[id] == from.data[id]
  {
    var files := s.client.additionalFiles;
    FilesAreDistinct(s, setup, from);
    forall j | j in Served(s) && j < |files| ensures files[j].id != files[k].id {
      assert j != k;
    }
  }

  /** A kept file is written by its own transfer only. */
  lemma KeptFileData(s: System, setup: Setup, from: Server, k: nat)
    requires Accounted(s, setup, from) && AllTransferred(s, setup, from)
    requires BaseIsStored(setup, from) && k < |Kept(setup)|
    ensures CanGet(s.server, s.client.additionalFiles[k]) && s.client.additionalFiles[k] in setup.base
    ensures s.client.additionalFiles[k] in Kept(setup)
    ensures k !in Transfers(setup, s.client.additionalFiles) ==>
              s.server.data[s.client.additionalFiles[k].id] == from.data[s.client.additionalFiles[k].id]
  {
    var files := s.client.additionalFiles;
    assert files[k] == Kept(setup)[k] by {
      assert files[..|Kept(setup)|][k] == Kept(setup)[k];
    }
    ReusedIsPart(setup.base, setup.drafts, from.nextId);
    assert files[k] in Kept(setup);
    var b :| 0 <= b < |setup.base| && setup.base[b] == files[k];
    assert CanGet(from, setup.base[b]);
    assert files[k].id < from.nextId;
    if k !in Transfers(setup, files) {
      UntransferredData(s, setup, from, k);
    }
  }

  lemma KeptFileHoldsDraft(s: System, setup: Setup, from: Server, k: nat)
    requires Accounted(s, setup, from) && AllTransferred(s, setup, from) && setup.flavour.Updating?
    requires DistinctNames(setup.drafts) && BaseIsStored(setup, from) && k < |Kept(setup)|
    ensures CanGet(s.server, s.client.additionalFiles[k])
    ensures HoldsDraft(setup, from, s.client.additionalFiles[k], s.server.data[s.client.additionalFiles[k].id])
  {
    var files, file := s.client.additionalFiles, s.client.additionalFiles[k];
    KeptFileData(s, setup, from, k);
    KeptFileIsDrafted(setup, from, file);
    var d := DraftOf(setup.drafts, file.name);
    UpdateTransferOf(setup, files, k, d);
    var bytes := s.server.data[file.id];
    if setup.drafts[d].bytes != [] {
      TransferredData(s, setup, from, k);
    } else {
      var b: nat :| b < |setup.base| && setup.base[b] == file;
      assert CanGet(from, setup.base[b]);
      assert BaseHolds(setup, from, file, bytes, b);
    }
    assert DraftHolds(setup, from, file, bytes, d);
  }

  lemma KeptFileIsDrafted(setup: Setup, from: Server, file: FileId)
    requires IsValid(setup, from) && setup.flavour.Updating? && file in Kept(setup)
    ensures DraftBytes(setup.drafts, file.name).Some?
  {
    ReusedIsPart(setup.base, setup.drafts, from.nextId);
  }

  lemma {:induction false} DraftOf(drafts: seq<Draft>, name: string) returns (d: nat)
    requires DraftBytes(drafts, name).Some?
    ensures d < |drafts| && drafts[d].name == name
  {
    if drafts[0].name == name {
      d := 0;
    } else {
      var rest := DraftOf(drafts[1..], name);
      d := rest + 1;
    }
  }

  /**
   Cloning and updating, with distinct draft names: when the module is processed, `getFile` succeeds
   for every listed id and gives the bytes of the draft or the base file of that name.
   */
  lemma ProcessedFilesHoldDrafts(setup: Setup, from: Server, steps: seq<Step>, k: nat)
    requires IsValid(setup, from) && Runs(Start(setup, from), setup, steps)
    requires !setup.flavour.Installing? && DistinctNames(setup.drafts)
    requires setup.flavour.Updating? ==> BaseIsStored(setup, from)
    requires After(Start(setup, from), setup, steps).client.processed == 1
    requires k < |After(Start(setup, from), setup, steps).client.additionalFiles|
    ensures var s := After(Start(setup, from), setup, steps);
            var file := s.client.additionalFiles[k];
            CanGet(s.server, file) && HoldsDraft(setup, from, file, s.server.data[file.id])
  {
    RunIsAccounted(setup, from, steps);
    ProcessedOnceAfterTransfers(setup, from, steps);
    var s := After(Start(setup, from), setup, steps);
    if setup.flavour.Cloning? {
      ClonedFileHoldsDraft(s, setup, from, k);
    } else {
      if k < |Kept(setup)| {
        KeptFileHoldsDraft(s, setup, from, k);
      } else {
        AllocatedFileHoldsDraft(s, setup, from, k);
      }
    }
  }

  lemma InstalledFileHoldsDraft(s: System, setup: Setup, from: Server, k: nat)
    requires AllocationsAccounted(s, setup, from) && AllTransferred(s, setup, from) && setup.flavour.Installing?
    requires k < |s.client.additionalFiles|
    ensures |s.client.additionalFiles| == |setup.drafts|
    ensures CanGet(s.server, s.client.additionalFiles[k])
    ensures s.server.data[s.client.additionalFiles[k].id] == setup.drafts[k].bytes
  {
    NewFileName(s, setup, from, k);
    assert k in Transfers(setup, s.client.additionalFiles);
  }

  /** Installing: the listed ids hold the drafts position by position, whatever names they were allocated for. */
  lemma InstalledFilesHoldDrafts(setup: Setup, from: Server, steps: seq<Step>, k: nat)
    requires IsValid(setup, from) && Runs(Start(setup, from), setup, steps) && setup.flavour.Installing?
    requires After(Start(setup, from), setup, steps).client.processed == 1
    requires k < |After(Start(setup, from), setup, steps).client.additionalFiles|
    ensures var s := After(Start(setup, from), setup, steps);
            && |s.client.additionalFiles| == |setup.drafts|
            && CanGet(s.server, s.client.additionalFiles[k])
            && s.server.data[s.client.additionalFiles[k].id] == setup.drafts[k].bytes
  {
    RunIsAccounted(setup, from, steps);
    ProcessedOnceAfterTransfers(setup, from, steps);
    InstalledFileHoldsDraft(After(Start(setup, from), setup, steps), setup, from, k);
  }

  /**
   So with distinct names every draft lands under an id of its own name exactly when the allocation
   responses arrived in the order of the requests.
   */
  lemma InstallerPairsByArrival(setup: Setup, from: Server, steps: seq<Step>)
    requires IsValid(setup, from) && Runs(Start(setup, from), setup, steps)
    requires setup.flavour.Installing? && DistinctNames(setup.drafts)
    ensures var s := After(Start(setup, from), setup, steps);
            var files := s.client.additionalFiles;
            && |files| == |s.answered| <= |setup.drafts|
            && ((forall k :: 0 <= k < |s.answered| ==> s.answered[k] == k)
                  <==> forall k :: 0 <= k < |files| ==> files[k].name == setup.drafts[k].name)
  {
    RunIsAccounted(setup, from, steps);
    var s := After(Start(setup, from), setup, steps);
    ArrivalPairs(s, setup, from);
  }

  lemma ArrivalPairs(s: System, setup: Setup, from: Server)
    requires AllocationsAccounted(s, setup, from) && setup.flavour.Installing? && DistinctNames(setup.drafts)
    ensures |s.client.additionalFiles| == |s.answered| <= |setup.drafts|
    ensures forall k :: 0 <= k < |s.answered| ==>
              (s.client.additionalFiles[k].name == setup.drafts[k].name <==> s.answered[k] == k)
  {
    forall k | 0 <= k < |s.answered|
      ensures s.client.additionalFiles[k].name == setup.drafts[k].name <==> s.answered[k] == k
    {
      NewFileName(s, setup, from, k);
    }
  }

  lemma {:induction false} NewDraftIsRequested(base: seq<FileId>, drafts: seq<Draft>, d: nat) returns (i: nat)
    requires d < |drafts| && drafts[d].bytes != [] && FindByName(base, drafts[d].name).None?
    ensures i < |NewNames(base, drafts)| && NewNames(base, drafts)[i] == drafts[d].name
  {
    var first := if drafts[0].bytes != [] && FindByName(base, drafts[0].name).None? then 1 else 0;
    if d == 0 {
      i := 0;
    } else {
      var rest := NewDraftIsRequested(base, drafts[1..], d - 1);
      i := rest + first;
    }
  }

  ghost predicate IsListed(files: seq<FileId>, name: string) {
    exists k :: 0 <= k < |files| && files[k].name == name
  }

  lemma UpdateListsDraft(s: System, setup: Setup, from: Server, d: nat)
    requires IsValid(setup, from) && AllocationsAccounted(s, setup, from) && !s.client.phase.Allocating?
    requires setup.flavour.Updating? && d < |setup.drafts|
    requires setup.drafts[d].bytes != [] || FindByName(setup.base, setup.drafts[d].name).Some?
    ensures IsListed(s.client.additionalFiles, setup.drafts[d].name)
  {
    var name := setup.drafts[d].name;
    FindIsInBase(setup.base, name);
    if FindByName(setup.base, name).Some? {
      var file := FindByName(setup.base, name).value;
      DraftIsFound(setup.drafts, d);
      ReusedIsPart(setup.base, setup.drafts, from.nextId);
      assert file in Kept(setup);
      var k :| 0 <= k < |Kept(setup)| && Kept(setup)[k] == file;
      assert s.client.additionalFiles[..|Kept(setup)|][k] == file;
      assert s.client.additionalFiles[k].name == name;
    } else {
      var i := NewDraftIsRequested(setup.base, setup.drafts, d);
      var k := RequestIsListed(s, setup, from, i);
    }
  }

  lemma UpdateListsOnly(s: System, setup: Setup, from: Server, d: nat, k: nat)
    requires IsValid(setup, from) && AllocationsAccounted(s, setup, from)
    requires setup.flavour.Updating? && DistinctNames(setup.drafts) && d < |setup.drafts|
    requires k < |s.client.additionalFiles| && s.client.additionalFiles[k].name == setup.drafts[d].name
    ensures setup.drafts[d].bytes != [] || FindByName(setup.base, setup.drafts[d].name).Some?
  {
    var name := setup.drafts[d].name;
    if k < |Kept(setup)| {
      assert s.client.additionalFiles[..|Kept(setup)|][k] == Kept(setup)[k];
      ReusedIsPart(setup.base, setup.drafts, from.nextId);
      assert s.client.additionalFiles[k] in Kept(setup);
      FindIsInBase(setup.base, name);
    } else {
      NewFileName(s, setup, from, k);
      var e := NewNameIsDraft(setup.base, setup.drafts, s.answered[k - |Kept(setup)|]);
      assert e == d;
    }
  }

  /**
   When the module is processed every draft is listed, except that an update drops the empty drafts
   that name no base file.
   */
  lemma ProcessedModuleListsDrafts(setup: Setup, from: Server, steps: seq<Step>, d: nat)
    requires IsValid(setup, from) && Runs(Start(setup, from), setup, steps)
    requires DistinctNames(setup.drafts) && d < |setup.drafts|
    requires After(Start(setup, from), setup, steps).client.processed == 1
    ensures IsListed(After(Start(setup, from), setup, steps).client.additionalFiles, setup.drafts[d].name) <==>
              || !setup.flavour.Updating?
              || setup.drafts[d].bytes != []
              || FindByName(setup.base, setup.drafts[d].name).Some?
  {
    RunIsAccounted(setup, from, steps);
    ProcessedOnceAfterTransfers(setup, from, steps);
    var s := After(Start(setup, from), setup, steps);
    if !setup.flavour.Updating? {
      var k := RequestIsListed(s, setup, from, d);
    } else if setup.drafts[d].bytes != [] || FindByName(setup.base, setup.drafts[d].name).Some? {
      UpdateListsDraft(s, setup, from, d);
    } else if IsListed(s.client.additionalFiles, setup.drafts[d].name) {
      var k :| 0 <= k < |s.client.additionalFiles| && s.client.additionalFiles[k].name == setup.drafts[d].name;
      UpdateListsOnly(s, setup, from, d, k);
    }
  }

  // ----- surplus responses

  function TransferredTimes(client: Client, k: nat): Client {
    if k == 0 then client else Transferred(TransferredTimes(client, k - 1))
  }

  /** However many responses arrive, the module is processed at the expected one and at no other. */
  lemma {:induction false} SurplusResponsesDoNothing(client: Client, k: nat)
    ensures var after := TransferredTimes(client, k);
            after == client.(transferred := client.transferred + k,
                             processed := client.processed
                               + (if client.transferred < client.expected <= client.transferred + k then 1 else 0))
  {
    if k != 0 {
      SurplusResponsesDoNothing(client, k - 1);
    }
  }

  // ----- under which ids the drafts are listed

  ghost predicate DistinctFileNames(files: seq<FileId>) {
    forall a, b :: 0 <= a < b < |files| ==> files[a].name != files[b].name
  }

  ghost predicate HasFile(files: seq<FileId>, name: string) {
    exists b :: 0 <= b < |files| && files[b].name == name
  }

  lemma {:induction false} ReusedNamesAreDistinct(base: seq<FileId>, drafts: seq<Draft>)
    requires DistinctFileNames(base)
    ensures DistinctFileNames(Reused(base, drafts))
    ensures forall file :: file in Reused(base, drafts) ==> file in base
  {
    if |base| != 0 {
      ReusedNamesAreDistinct(base[1..], drafts);
      var rest := Reused(base[1..], drafts);
      forall b | 0 <= b < |rest| ensures rest[b].name != base[0].name {
        assert rest[b] in rest;
      }
    }
  }

  /** Some draft of this name is not empty. */
  ghost predicate HasContent(drafts: seq<Draft>, name: string) {
    exists d :: 0 <= d < |drafts| && drafts[d].name == name && drafts[d].bytes != []
  }

  /** What an update allocates for: distinct names, of non-empty drafts that no base file has. */
  lemma {:induction false} NewNamesAreNew(base: seq<FileId>, drafts: seq<Draft>)
    ensures forall i :: 0 <= i < |NewNames(base, drafts)| ==> !HasFile(base, NewNames(base, drafts)[i])
    ensures forall i :: 0 <= i < |NewNames(base, drafts)| ==> HasContent(drafts, NewNames(base, drafts)[i])
  {
    if |drafts| != 0 {
      NewNamesAreNew(base, drafts[1..]);
      var names, rest := NewNames(base, drafts), NewNames(base, drafts[1..]);
      var first := |names| - |rest|;
      forall i | 0 <= i < |names|
        ensures !HasFile(base, names[i])
        ensures HasContent(drafts, names[i])
      {
        if i < first {
          FindsFile(base, names[i]);
          assert drafts[0].name == names[i] && drafts[0].bytes != [];
        } else {
          assert names[i] == rest[i - first];
          assert HasContent(drafts[1..], rest[i - first]);
          var d :| 0 <= d < |drafts[1..]| && drafts[1..][d].name == rest[i - first] && drafts[1..][d].bytes != [];
          assert drafts[d + 1].name == names[i];
        }
      }
    }
  }

  lemma {:induction false} FindsFile(base: seq<FileId>, name: string)
    ensures FindByName(base, name).Some? <==> HasFile(base, name)
  {
    if |base| != 0 {
      FindsFile(base[1..], name);
      assert base[0].name == name || (HasFile(base, name) <==> HasFile(base[1..], name)) by {
        if base[0].name != name && HasFile(base, name) {
          var b :| 0 <= b < |base| && base[b].name == name;
          assert base[1..][b - 1].name == name;
        }
      }
    }
  }

  lemma {:induction false} NewNamesAreDistinct(base: seq<FileId>, drafts: seq<Draft>)
    requires DistinctNames(drafts)
    ensures forall i, j :: 0 <= i < j < |NewNames(base, drafts)| ==> NewNames(base, drafts)[i] != NewNames(base, drafts)[j]
  {
    if |drafts| != 0 {
      NewNamesAreDistinct(base, drafts[1..]);
      NewNamesAreNew(base, drafts[1..]);
      var names, rest := NewNames(base, drafts), NewNames(base, drafts[1..]);
      var first := |names| - |rest|;
      forall j | 0 <= j < |rest| ensures rest[j] != drafts[0].name {
        assert HasContent(drafts[1..], rest[j]);
        var d :| 0 <= d < |drafts[1..]| && drafts[1..][d].name == rest[j] && drafts[1..][d].bytes != [];
        assert drafts[d + 1].name == rest[j];
      }
      assert first == 1 ==> names[0] == drafts[0].name;
      forall i, j | 0 <= i < j < |names| ensures names[i] != names[j] {
        assert names[j] == rest[j - first];
        assert i >= first ==> names[i] == rest[i - first];
      }
    }
  }

  /** The requests are for distinct names. */
  lemma RequestsAreDistinct(setup: Setup)
    requires DistinctNames(setup.drafts)
    ensures forall i, j :: 0 <= i < j < |Requested(setup)| ==> Requested(setup)[i] != Requested(setup)[j]
  {
    if setup.flavour.Updating? {
      NewNamesAreDistinct(setup.base, setup.drafts);
    }
  }

  /** Listed files have distinct names. */
  lemma ListedOnce(s: System, setup: Setup, from: Server)
    requires AllocationsAccounted(s, setup, from) && DistinctNames(setup.drafts)
    requires setup.flavour.Updating? ==> DistinctFileNames(setup.base)
    ensures DistinctFileNames(s.client.additionalFiles)
  {
    var files, m := s.client.additionalFiles, |Kept(setup)|;
    RequestsAreDistinct(setup);
    if setup.flavour.Updating? {
      ReusedNamesAreDistinct(setup.base, setup.drafts);
      NewNamesAreNew(setup.base, setup.drafts);
    }
    forall a, b | 0 <= a < b < |files| ensures files[a].name != files[b].name {
      if b < m {
        assert files[..m][a] == Kept(setup)[a] && files[..m][b] == Kept(setup)[b];
      } else {
        NewFileName(s, setup, from, b);
        if a >= m {
          NewFileName(s, setup, from, a);
          assert s.answered[a - m] != s.answered[b - m];
        } else {
          KeptIsBase(s, setup, a);
        }
      }
    }
  }

  lemma KeptIsBase(s: System, setup: Setup, k: nat)
    requires AnswersAccounted(s, setup) && setup.flavour.Updating? && DistinctFileNames(setup.base) && k < |Kept(setup)|
    ensures s.client.additionalFiles[k] in setup.base && HasFile(setup.base, s.client.additionalFiles[k].name)
  {
    assert s.client.additionalFiles[..|Kept(setup)|][k] == Kept(setup)[k];
    ReusedNamesAreDistinct(setup.base, setup.drafts);
    assert Kept(setup)[k] in Kept(setup);
    var b :| 0 <= b < |setup.base| && setup.base[b] == Kept(setup)[k];
  }

  /** A listed file is a base file with its own id, or it is new: then its draft is not empty and no base file has its name. */
  lemma UpdateListsBaseOrNew(s: System, setup: Setup, from: Server, k: nat)
    requires IsValid(setup, from) && AllocationsAccounted(s, setup, from) && setup.flavour.Updating?
    requires DistinctFileNames(setup.base) && k < |s.client.additionalFiles|
    ensures var file := s.client.additionalFiles[k];
            if HasFile(setup.base, file.name) then file in setup.base && file.id < from.nextId
            else file.id >= from.nextId
                 && HasContent(setup.drafts, file.name)
  {
    FilesAreDistinct(s, setup, from);
    if k < |Kept(setup)| {
      KeptIsBase(s, setup, k);
    } else {
      NewFileName(s, setup, from, k);
      NewNamesAreNew(setup.base, setup.drafts);
    }
  }

  /**
   When an update is processed, with distinct names among the drafts and among the base files: no two
   listed files share a name; a drafted name of a base file is listed under that base file's own id; and
   a fresh id is listed for exactly those non-empty drafts whose name no base file has.
   */
  lemma UpdateListsExactly(setup: Setup, from: Server, steps: seq<Step>)
    requires IsValid(setup, from) && Runs(Start(setup, from), setup, steps) && setup.flavour.Updating?
    requires DistinctNames(setup.drafts) && DistinctFileNames(setup.base)
    requires After(Start(setup, from), setup, steps).client.processed == 1
    ensures var files := After(Start(setup, from), setup, steps).client.additionalFiles;
            && DistinctFileNames(files)
            && (forall k :: 0 <= k < |files| ==> IsDrafted(setup, files[k].name))
            && (forall b :: 0 <= b < |setup.base| ==>
                  (setup.base[b] in files <==> IsDrafted(setup, setup.base[b].name))
                  && forall k :: 0 <= k < |files| && files[k].name == setup.base[b].name ==> files[k] == setup.base[b])
            && (forall d :: 0 <= d < |setup.drafts| ==>
                  (HasFreshFile(files, setup.drafts[d].name, from.nextId) <==>
                     setup.drafts[d].bytes != [] && !HasFile(setup.base, setup.drafts[d].name)))
  {
    RunIsAccounted(setup, from, steps);
    ProcessedOnceAfterTransfers(setup, from, steps);
    var s := After(Start(setup, from), setup, steps);
    var files := s.client.additionalFiles;
    ListedOnce(s, setup, from);
    forall k | 0 <= k < |files| ensures IsDrafted(setup, files[k].name) {
      ListedIsDrafted(s, setup, from, k);
    }
    forall b | 0 <= b < |setup.base|
      ensures setup.base[b] in files <==> IsDrafted(setup, setup.base[b].name)
      ensures forall k :: 0 <= k < |files| && files[k].name == setup.base[b].name ==> files[k] == setup.base[b]
    {
      BaseFileIsListed(s, setup, from, b);
    }
    forall d | 0 <= d < |setup.drafts|
      ensures HasFreshFile(files, setup.drafts[d].name, from.nextId) <==>
                setup.drafts[d].bytes != [] && !HasFile(setup.base, setup.drafts[d].name)
    {
      FreshFileIsListed(s, setup, from, d);
    }
  }

  ghost predicate IsDrafted(setup: Setup, name: string) {
    exists d :: 0 <= d < |setup.drafts| && setup.drafts[d].name == name
  }

  ghost predicate HasFreshFile(files: seq<FileId>, name: string, nextId: int) {
    exists k :: 0 <= k < |files| && files[k].name == name && files[k].id >= nextId
  }

  lemma ListedIsDrafted(s: System, setup: Setup, from: Server, k: nat)
    requires IsValid(setup, from) && AllocationsAccounted(s, setup, from) && setup.flavour.Updating?
    requires k < |s.client.additionalFiles|
    ensures IsDrafted(setup, s.client.additionalFiles[k].name)
  {
    if k < |Kept(setup)| {
      assert s.client.additionalFiles[..|Kept(setup)|][k] == Kept(setup)[k];
      assert Kept(setup)[k] in Kept(setup);
      KeptFileIsDrafted(setup, from, Kept(setup)[k]);
      var d := DraftOf(setup.drafts, Kept(setup)[k].name);
    } else {
      NewFileName(s, setup, from, k);
      var d := NewNameIsDraft(setup.base, setup.drafts, s.answered[k - |Kept(setup)|]);
    }
  }

  lemma BaseFileIsListed(s: System, setup: Setup, from: Server, b: nat)
    requires IsValid(setup, from) && AllocationsAccounted(s, setup, from) && setup.flavour.Updating?
    requires DistinctFileNames(setup.base) && b < |setup.base|
    ensures setup.base[b] in s.client.additionalFiles <==> IsDrafted(setup, setup.base[b].name)
    ensures forall k :: 0 <= k < |s.client.additionalFiles| && s.client.additionalFiles[k].name == setup.base[b].name ==>
              s.client.additionalFiles[k] == setup.base[b]
  {
    var files, file := s.client.additionalFiles, setup.base[b];
    if IsDrafted(setup, file.name) {
      DraftedBaseFileIsListed(s, setup, from, b);
    }
    if file in files {
      var k :| 0 <= k < |files| && files[k] == file;
      ListedIsDrafted(s, setup, from, k);
    }
    forall k | 0 <= k < |files| && files[k].name == file.name ensures files[k] == file {
      UpdateListsBaseOrNew(s, setup, from, k);
      assert HasFile(setup.base, files[k].name);
      var c :| 0 <= c < |setup.base| && setup.base[c] == files[k];
    }
  }

  lemma DraftedBaseFileIsListed(s: System, setup: Setup, from: Server, b: nat)
    requires IsValid(setup, from) && AllocationsAccounted(s, setup, from) && setup.flavour.Updating?
    requires b < |setup.base| && IsDrafted(setup, setup.base[b].name)
    ensures setup.base[b] in s.client.additionalFiles
  {
    var d :| 0 <= d < |setup.drafts| && setup.drafts[d].name == setup.base[b].name;
    DraftIsFound(setup.drafts, d);
    ReusedIsPart(setup.base, setup.drafts, from.nextId);
    assert setup.base[b] in Kept(setup);
    var k :| 0 <= k < |Kept(setup)| && Kept(setup)[k] == setup.base[b];
    assert s.client.additionalFiles[..|Kept(setup)|][k] == setup.base[b];
  }

  lemma FreshFileIsListed(s: System, setup: Setup, from: Server, d: nat)
    requires IsValid(setup, from) && AllocationsAccounted(s, setup, from) && setup.flavour.Updating?
    requires !s.client.phase.Allocating?
    requires DistinctNames(setup.drafts) && DistinctFileNames(setup.base) && d < |setup.drafts|
    ensures HasFreshFile(s.client.additionalFiles, setup.drafts[d].name, from.nextId) <==>
              setup.drafts[d].bytes != [] && !HasFile(setup.base, setup.drafts[d].name)
  {
    var files, name := s.client.additionalFiles, setup.drafts[d].name;
    if setup.drafts[d].bytes != [] && !HasFile(setup.base, name) {
      FindsFile(setup.base, name);
      var i := NewDraftIsRequested(setup.base, setup.drafts, d);
      var k := RequestIsListed(s, setup, from, i);
      UpdateListsBaseOrNew(s, setup, from, k);
    }
    if k :| 0 <= k < |files| && files[k].name == name && files[k].id >= from.nextId {
      UpdateListsBaseOrNew(s, setup, from, k);
    }
  }

  /** A processed clone or installation lists one fresh id for every draft, and nothing else. */
  lemma NewModuleListsExactly(setup: Setup, from: Server, steps: seq<Step>)
    requires IsValid(setup, from) && Runs(Start(setup, from), setup, steps) && !setup.flavour.Updating?
    requires DistinctNames(setup.drafts)
    requires After(Start(setup, from), setup, steps).client.processed == 1
    ensures var files := After(Start(setup, from), setup, steps).client.additionalFiles;
            && |files| == |setup.drafts| && DistinctFileNames(files)
            && (forall k :: 0 <= k < |files| ==> files[k].id >= from.nextId && IsDrafted(setup, files[k].name))
            && (forall d :: 0 <= d < |setup.drafts| ==> HasFreshFile(files, setup.drafts[d].name, from.nextId))
  {
    RunIsAccounted(setup, from, steps);
    ProcessedOnceAfterTransfers(setup, from, steps);
    var s := After(Start(setup, from), setup, steps);
    var files := s.client.additionalFiles;
    ListedOnce(s, setup, from);
    FilesAreDistinct(s, setup, from);
    forall k | 0 <= k < |files| ensures IsDrafted(setup, files[k].name) {
      NewFileName(s, setup, from, k);
      assert setup.drafts[s.answered[k]].name == files[k].name;
    }
    forall d: nat | d < |setup.drafts| ensures HasFreshFile(files, setup.drafts[d].name, from.nextId) {
      var k := RequestIsListed(s, setup, from, d);
    }
  }
}
