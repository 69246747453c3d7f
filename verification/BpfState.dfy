/**
 The BPF object manager as a value: its tables, pins, attachments, routes, counters and the
 published hook snapshot, and what each public operation does to them (kernel/src/bpf/mod.rs).

 Answers that come from outside the manager are parameters: allocation success, the
 bytecode verifier's verdict, program authentication and parsing.
 */
module BpfState {
  import opened Common
  import opened Handles
  import opened Authorization
  import opened Admission
  import opened GpioRoutes

  const PINNED_MAP_OWNER: nat := U64_MAX
  const RESERVED_MAP_COUNT: nat := 1
  const HOOK_FANOUT_LIMIT: nat := 16
  const GPIO_IRQ_FANOUT_LIMIT: nat := 8
  const GPIO_PIN_COUNT: nat := 28
  const GPIO_EDGE_SLOTS: nat := 3
  const GPIO_ROUTE_SLOTS: nat := 84
  const GENERIC_HOOK_SLOTS: nat := 8
  const PIN_PATH_MAX: nat := 256
  const INSN_BYTES: nat := 8

  const ATTACH_TIMER: nat := 1
  const ATTACH_GPIO: nat := 2
  const ATTACH_IIO: nat := 4
  const ATTACH_SYS_ENTER: nat := 5
  const ATTACH_SYS_EXIT: nat := 6
  const ATTACH_SCHED_SWITCH: nat := 7

  const MAP_TYPE_HASH: nat := 1
  const MAP_TYPE_ARRAY: nat := 2
  const MAP_TYPE_RINGBUF: nat := 27
  const MAP_TYPE_TIMESERIES: nat := 100

  datatype Error =
    | ResourceLimit | NotLoaded | PermissionDenied | ObjectBusy | OutOfMemory | InvalidInstruction
    | VerificationFailed | AdmissionRejected | GpioFanoutExceeded | SignatureRejected | ReadOnlyMap

  datatype Perm = ReadWrite | ReadOnly | WriteOnly | Unavailable

  /** A program's private reference to a map: the slot's generation, the permission and the shared runtime. */
  datatype Capture = Capture(generation: nat, perm: Perm, runtime: nat)

  /** A loaded program; `id` is the identity of its reference-counted allocation. */
  datatype ProgramRuntime = ProgramRuntime(id: nat, maps: seq<Option<Capture>>)

  datatype ProgramEntry = ProgramEntry(program: ProgramRuntime, wcet: nat, charge: nat, owner: nat,
                                       authorization: Access)

  /** A map; `runtime` is the identity of its reference-counted allocation. */
  datatype MapEntry = MapEntry(runtime: nat, perm: Perm, charge: nat, owner: nat, grants: seq<Grant>)

  datatype Pin = Pin(path: string, mapId: nat, owner: nat, offered: Access)

  /** Runtime ids per generic hook and per (pin, edge). */
  datatype Snapshot = Snapshot(generic: seq<seq<nat>>, gpio: seq<seq<nat>>)

  datatype Limits = Limits(
    maxLivePrograms: nat, maxProgramSlots: nat, maxProgramBytes: nat, maxSingleProgramBytes: nat,
    maxOwnerPrograms: nat, maxOwnerProgramBytes: nat, maxElfBytes: nat,
    maxLiveMaps: nat, maxMapSlots: nat, maxMapBytes: nat, maxSingleMapBytes: nat,
    maxOwnerMaps: nat, maxOwnerMapBytes: nat, maxPinnedMaps: nat,
    maxKeySize: nat, maxValueSize: nat, maxEntries: nat)

  datatype Config = Config(limits: Limits, hookFrequency: nat, allowUnsigned: bool)

  datatype State = State(
    config: Config,
    programs: Table<ProgramEntry>,
    maps: Table<MapEntry>,
    attachments: Attachments,
    pins: seq<Pin>,
    ledger: Ledger,
    routes: Routes,
    livePrograms: nat, programBytes: nat, liveMaps: nat, mapBytes: nat,
    published: Snapshot,
    clones: multiset<nat>,
    nextId: nat)

  datatype Reply = Handle(id: nat) | Done | Reclaimed(complete: bool) | Failed(error: Error)

  datatype Outcome = Outcome(state: State, reply: Reply)

  /** What the bytecode verifier reports for an accepted program. */
  datatype Stats = Stats(wcet: nat, referenced: seq<nat>)

  predicate Supported(hook: nat) {
    hook in {ATTACH_TIMER, ATTACH_GPIO, ATTACH_IIO, ATTACH_SYS_ENTER, ATTACH_SYS_EXIT, ATTACH_SCHED_SWITCH}
  }

  // ------------------------------------------------------------------------- profiles

  const CLOUD_LIMITS := Limits(128, 1024, 16777216, 1048576, 32, 4194304, 1048576,
                               64, 512, 67108864, 16777216, 16, 16777216, 128, 512, 65536, 1048576)
  const EMBEDDED_LIMITS := Limits(32, 128, 2097152, 819200, 8, 524288, 1048576,
                                  16, 64, 65536, 65536, 4, 32768, 32, 256, 4096, 4096)

  /** The slot limits fit the handle format and leave room for the reserved map; the caps are machine integers. */
  predicate ValidLimits(l: Limits) {
    && l.maxProgramSlots <= SLOT_COUNT
    && RESERVED_MAP_COUNT <= l.maxMapSlots <= SLOT_COUNT
    && l.maxLivePrograms <= USIZE_MAX && l.maxProgramBytes <= USIZE_MAX
    && l.maxLiveMaps <= USIZE_MAX && l.maxMapBytes <= USIZE_MAX
  }

  // ---------------------------------------------------------------- access and capture

  /** `MapEntry::access_for`. */
  function EntryAccess(e: MapEntry, owner: nat): Option<Access> {
    if e.owner == owner then Some(READ_WRITE) else AccessFor(e.grants, owner)
  }

  /** Rights of a caller on a map; a reserved map has no charge and is open to every caller. */
  function Rights(e: MapEntry, owner: nat): Access {
    if e.charge == 0 then READ_WRITE
    else match EntryAccess(e, owner)
         case Some(a) => a
         case None => NO_ACCESS
  }

  function PermWithin(perm: Perm, access: Access): Perm {
    if access.read && access.write then perm
    else if access.read then ReadOnly
    else if access.write && perm == ReadWrite then WriteOnly
    else Unavailable
  }

  /** One entry of `map_metadata_for_owner`. */
  function OwnerPerm(e: MapEntry, owner: nat, authorized: Access): Perm {
    PermWithin(e.perm, Rights(e, owner).Intersect(authorized))
  }

  /** The rights a captured permission gives at run time (`ProgramRuntime::map`). */
  function PermAccess(perm: Perm): Access {
    match perm
    case ReadWrite => READ_WRITE
    case ReadOnly => READ
    case WriteOnly => WRITE
    case Unavailable => NO_ACCESS
  }

  datatype Captures = Captured(maps: seq<Option<Capture>>) | CaptureFailed(error: Error)

  /** `program_maps_for_owner` over the handles the verifier reported. */
  function CaptureMaps(maps: Table<MapEntry>, owner: nat, authorized: Access, referenced: seq<nat>): (r: Captures)
    requires Handles.Valid(maps)
    ensures r.Captured? ==> |r.maps| == |maps.slots|
  {
    if referenced == [] then Captured(seq(|maps.slots|, _ => None))
    else
      var last := |referenced| - 1;
      match CaptureMaps(maps, owner, authorized, referenced[..last])
      case CaptureFailed(e) => CaptureFailed(e)
      case Captured(acc) => CaptureOne(maps, owner, authorized, acc, referenced[last])
  }

  function CaptureOne(maps: Table<MapEntry>, owner: nat, authorized: Access, acc: seq<Option<Capture>>,
                      handle: nat): (r: Captures)
    requires Handles.Valid(maps) && |acc| == |maps.slots|
    ensures r.Captured? ==> |r.maps| == |maps.slots|
  {
    if !Live(maps, handle) then CaptureFailed(NotLoaded)
    else
      var e := Entry(maps, handle);
      var perm := OwnerPerm(e, owner, authorized);
      if perm == Unavailable then CaptureFailed(PermissionDenied)
      else Captured(acc[Slot(handle) := Some(Capture(maps.gens[Slot(handle)], perm, e.runtime))])
  }

  /** `ProgramRuntime::map`: the map a handle names in a program's private view. */
  function ProgramMap(p: ProgramRuntime, handle: nat, required: Access): Option<nat> {
    var slot := Slot(handle);
    if slot < |p.maps| && p.maps[slot].Some?
       && p.maps[slot].value.generation == Generation(handle)
       && PermAccess(p.maps[slot].value.perm).Contains(required)
    then Some(p.maps[slot].value.runtime) else None
  }

  // ---------------------------------------------------------------- reference counts

  function CaptureCount(maps: seq<Option<Capture>>, runtime: nat): nat {
    Sum(seq(|maps|, i requires 0 <= i < |maps| =>
      if maps[i].Some? && maps[i].value.runtime == runtime then 1 else 0))
  }

  function EntryRefs(e: Option<ProgramEntry>, runtime: nat): nat {
    if e.Some? then CaptureCount(e.value.program.maps, runtime) else 0
  }

  function ProgramRefs(programs: seq<Option<ProgramEntry>>, runtime: nat): seq<nat> {
    seq(|programs|, i requires 0 <= i < |programs| => EntryRefs(programs[i], runtime))
  }

  /** `Arc::strong_count` of a map runtime: the table's own reference plus every capture. */
  function MapStrongCount(programs: seq<Option<ProgramEntry>>, runtime: nat): nat {
    1 + Sum(ProgramRefs(programs, runtime))
  }

  function ListRefs(lists: seq<seq<nat>>, id: nat): seq<nat> {
    seq(|lists|, i requires 0 <= i < |lists| => multiset(lists[i])[id])
  }

  /** `Arc::strong_count` of a program runtime: the table, the published snapshot and in-flight clones. */
  function ProgramStrongCount(published: Snapshot, clones: multiset<nat>, id: nat): nat {
    1 + Sum(ListRefs(published.generic, id)) + Sum(ListRefs(published.gpio, id)) + clones[id]
  }

  // -------------------------------------------------------------------- accounting

  datatype Measure = Objects | Bytes | OwnerObjects(owner: nat) | OwnerBytes(owner: nat)

  function Weigh(m: Measure, owner: nat, charge: nat): nat {
    match m
    case Objects => 1
    case Bytes => charge
    case OwnerObjects(o) => if owner == o then 1 else 0
    case OwnerBytes(o) => if owner == o then charge else 0
  }

  function ProgramWeight(e: Option<ProgramEntry>, m: Measure): nat {
    if e.Some? then Weigh(m, e.value.owner, e.value.charge) else 0
  }

  /** Only charged maps count against quotas. */
  function MapWeight(e: Option<MapEntry>, m: Measure): nat {
    if e.Some? && e.value.charge != 0 then Weigh(m, e.value.owner, e.value.charge) else 0
  }

  function ProgramWeights(slots: seq<Option<ProgramEntry>>, m: Measure): seq<nat> {
    seq(|slots|, i requires 0 <= i < |slots| => ProgramWeight(slots[i], m))
  }

  function MapWeights(slots: seq<Option<MapEntry>>, m: Measure): seq<nat> {
    seq(|slots|, i requires 0 <= i < |slots| => MapWeight(slots[i], m))
  }

  function ProgramTotal(slots: seq<Option<ProgramEntry>>, m: Measure): nat {
    Sum(ProgramWeights(slots, m))
  }

  function MapTotal(slots: seq<Option<MapEntry>>, m: Measure): nat {
    Sum(MapWeights(slots, m))
  }

  /** A table's slots with some of them emptied. */
  function Retain<T>(slots: seq<Option<T>>, gone: set<nat>): (r: seq<Option<T>>)
    ensures |r| == |slots|
  {
    seq(|slots|, i requires 0 <= i < |slots| => if i in gone then None else slots[i])
  }

  /** The entries `Retain` drops. */
  function Lost<T>(slots: seq<Option<T>>, gone: set<nat>): (r: seq<Option<T>>)
    ensures |r| == |slots|
  {
    seq(|slots|, i requires 0 <= i < |slots| => if i in gone then slots[i] else None)
  }

  /** The tables are well formed: the only fact the operations need to be defined. */
  ghost predicate WellFormed(s: State) {
    Handles.Valid(s.programs) && Handles.Valid(s.maps)
  }

  /** `ensure_program_quota`. */
  predicate ProgramQuota(s: State, owner: nat, charge: nat) {
    var l := s.config.limits;
    && s.livePrograms < l.maxLivePrograms
    && HasSlot(s.programs, l.maxProgramSlots)
    && charge <= l.maxSingleProgramBytes
    && s.programBytes + charge <= USIZE_MAX
    && s.programBytes + charge <= l.maxProgramBytes
    && ProgramTotal(s.programs.slots, OwnerObjects(owner)) <= USIZE_MAX
    && ProgramTotal(s.programs.slots, OwnerBytes(owner)) <= USIZE_MAX
    && ProgramTotal(s.programs.slots, OwnerObjects(owner)) < l.maxOwnerPrograms
    && ProgramTotal(s.programs.slots, OwnerBytes(owner)) + charge <= USIZE_MAX
    && ProgramTotal(s.programs.slots, OwnerBytes(owner)) + charge <= l.maxOwnerProgramBytes
  }

  predicate MapQuota(s: State, owner: nat, charge: nat) {
    var l := s.config.limits;
    && s.liveMaps < l.maxLiveMaps
    && HasSlot(s.maps, l.maxMapSlots)
    && charge <= l.maxSingleMapBytes
    && s.mapBytes + charge <= USIZE_MAX
    && s.mapBytes + charge <= l.maxMapBytes
    && MapTotal(s.maps.slots, OwnerObjects(owner)) <= USIZE_MAX
    && MapTotal(s.maps.slots, OwnerBytes(owner)) <= USIZE_MAX
    && MapTotal(s.maps.slots, OwnerObjects(owner)) < l.maxOwnerMaps
    && MapTotal(s.maps.slots, OwnerBytes(owner)) + charge <= USIZE_MAX
    && MapTotal(s.maps.slots, OwnerBytes(owner)) + charge <= l.maxOwnerMapBytes
  }

  // ------------------------------------------------------------------------- loading

  function InsertFailure(e: InsertError): Error {
    if e == SlotLimit then ResourceLimit else OutOfMemory
  }

  /** Memory answers of a load: the captured-map vector, the slot vector, the generation vector. */
  datatype LoadMemory = LoadMemory(captures: bool, slot: bool, generation: bool)

  /** `register_program`. */
  function Register(s: State, owner: nat, authorization: Access, stats: Stats, charge: nat, memory: LoadMemory): Outcome
    requires WellFormed(s)
  {
    if !ProgramQuota(s, owner, charge) then Outcome(s, Failed(ResourceLimit))
    else if !memory.captures then Outcome(s, Failed(OutOfMemory))
    else
      match CaptureMaps(s.maps, owner, authorization, stats.referenced)
      case CaptureFailed(e) => Outcome(s, Failed(e))
      case Captured(maps) =>
        var entry := ProgramEntry(ProgramRuntime(s.nextId, maps), stats.wcet, charge, owner, authorization);
        match Insert(s.programs, s.config.limits.maxProgramSlots, entry, memory.slot, memory.generation)
        case Refused(e) => Outcome(s, Failed(InsertFailure(e)))
        case Inserted(t, h) =>
          Outcome(s.(programs := t, livePrograms := s.livePrograms + 1, programBytes := s.programBytes + charge,
                     nextId := s.nextId + 1), Handle(h))
  }

  /** `load_verified_raw_program`. */
  function LoadVerified(s: State, owner: nat, insns: nat, authorization: Access, verdict: Option<Stats>,
                        memory: LoadMemory): Outcome
    requires WellFormed(s)
  {
    var charge := insns * INSN_BYTES;
    if charge > USIZE_MAX || !ProgramQuota(s, owner, charge) then Outcome(s, Failed(ResourceLimit))
    else if verdict.None? then Outcome(s, Failed(VerificationFailed))
    else Register(s, owner, authorization, verdict.value, charge, memory)
  }

  /** `load_raw_program_authorized`. */
  function LoadRaw(s: State, owner: nat, insns: nat, authorization: Access, verdict: Option<Stats>,
                   memory: LoadMemory): Outcome
    requires WellFormed(s)
  {
    if !s.config.allowUnsigned then Outcome(s, Failed(SignatureRejected))
    else LoadVerified(s, owner, insns, authorization, verdict, memory)
  }

  /** `load_program_authorized`; `program` is the instruction count of the first parsed program, if any. */
  function LoadElf(s: State, owner: nat, bytes: nat, authentic: bool, program: Option<nat>, authorization: Access,
                   verdict: Option<Stats>, memory: LoadMemory): Outcome
    requires WellFormed(s)
  {
    if bytes > s.config.limits.maxElfBytes || !ProgramQuota(s, owner, 0) then Outcome(s, Failed(ResourceLimit))
    else if !authentic then Outcome(s, Failed(SignatureRejected))
    else if program.None? then Outcome(s, Failed(NotLoaded))
    else LoadVerified(s, owner, program.value, authorization, verdict, memory)
  }

  // ------------------------------------------------------------------- snapshot projection

  /** Runtimes of the loaded programs among `ids`, in order. */
  function RuntimesOf(programs: Table<ProgramEntry>, ids: seq<nat>): seq<nat> {
    if ids == [] then []
    else
      var last := |ids| - 1;
      var rest := RuntimesOf(programs, ids[..last]);
      if Live(programs, ids[last]) then rest + [Entry(programs, ids[last]).program.id] else rest
  }

  /** `gpio_index`. */
  function GpioIndex(chip: nat, pin: nat, flags: nat): Option<nat> {
    if chip != 0 || pin >= GPIO_PIN_COUNT || !(1 <= flags <= 3) then None
    else Some(pin * GPIO_EDGE_SLOTS + flags - 1)
  }

  /** The snapshot `publish_hook_snapshot` builds. */
  function Project(programs: Table<ProgramEntry>, attachments: Attachments, routes: Routes): Snapshot {
    Snapshot(
      seq(GENERIC_HOOK_SLOTS, h requires 0 <= h < GENERIC_HOOK_SLOTS => RuntimesOf(programs, Attached(attachments, h))),
      seq(GPIO_ROUTE_SLOTS, k requires 0 <= k < GPIO_ROUTE_SLOTS =>
        RuntimesOf(programs, Matching(At(routes, 0, k / GPIO_EDGE_SLOTS), EdgeOf(k % GPIO_EDGE_SLOTS + 1)))))
  }

  function Publish(s: State): State {
    s.(published := Project(s.programs, s.attachments, s.routes))
  }

  // ---------------------------------------------------------------------- attachment

  /** `ensure_program_owner`. */
  function OwnerError(s: State, owner: nat, prog: nat): Option<Error> {
    if !Live(s.programs, prog) then Some(NotLoaded)
    else if Entry(s.programs, prog).owner != owner then Some(PermissionDenied)
    else None
  }

  /** The error, if any, of `validate_attach_for`; `accepted` is the verifier's verdict for the hook. */
  function AttachError(s: State, hook: nat, prog: nat, accepted: bool): Option<Error> {
    if !Supported(hook) then Some(InvalidInstruction)
    else if !Live(s.programs, prog) then Some(NotLoaded)
    else if !accepted then Some(VerificationFailed)
    else if prog !in Attached(s.attachments, hook) && |Attached(s.attachments, hook)| >= HOOK_FANOUT_LIMIT
    then Some(ResourceLimit)
    else None
  }

  /** `commit_attach`. */
  function CommitAttach(s: State, hook: nat, prog: nat, memory: bool): Outcome {
    if !Live(s.programs, prog) then Outcome(s, Failed(NotLoaded))
    else
      match Commit(s.attachments, s.ledger, hook, prog, Entry(s.programs, prog).wcet, s.config.hookFrequency, memory)
      case OverBudget => Outcome(s, Failed(AdmissionRejected))
      case NoReservation => Outcome(s, Failed(OutOfMemory))
      case Committed(a, l) => Outcome(s.(attachments := a, ledger := l), Done)
  }

  /** Memory answers of an attachment: the snapshot and the hook's list. */
  datatype AttachMemory = AttachMemory(snapshot: bool, list: bool)

  /** `attach_for`. */
  function AttachFor(s: State, owner: nat, hook: nat, prog: nat, accepted: bool, memory: AttachMemory): Outcome {
    match OwnerError(s, owner, prog)
    case Some(e) => Outcome(s, Failed(e))
    case None =>
      match AttachError(s, hook, prog, accepted)
      case Some(e) => Outcome(s, Failed(e))
      case None =>
        if prog in Attached(s.attachments, hook) then Outcome(s, Done)
        else if !memory.snapshot then Outcome(s, Failed(OutOfMemory))
        else
          var c := CommitAttach(s, hook, prog, memory.list);
          if c.reply.Failed? then c else Outcome(Publish(c.state), Done)
  }

  /** `attach_gpio_route_for`. */
  function AttachGpio(s: State, owner: nat, chip: nat, pin: nat, edge: Edge, prog: nat, accepted: bool,
                      memory: AttachMemory): Outcome {
    if !CanInsert(s.routes, chip, pin, edge, prog, GPIO_IRQ_FANOUT_LIMIT) then Outcome(s, Failed(GpioFanoutExceeded))
    else
      match OwnerError(s, owner, prog)
      case Some(e) => Outcome(s, Failed(e))
      case None =>
        match AttachError(s, ATTACH_GPIO, prog, accepted)
        case Some(e) => Outcome(s, Failed(e))
        case None =>
          if !memory.snapshot then Outcome(s, Failed(OutOfMemory))
          else
            var c := if prog in Attached(s.attachments, ATTACH_GPIO) then Outcome(s, Done)
                     else CommitAttach(s, ATTACH_GPIO, prog, memory.list);
            if c.reply.Failed? then c
            else Outcome(Publish(c.state.(routes := InsertRoute(c.state.routes, chip, pin, edge, prog))), Done)
  }

  function IndexOf(ids: seq<nat>, id: nat): (k: nat)
    ensures k <= |ids|
    ensures k < |ids| ==> ids[k] == id
    ensures forall j :: 0 <= j < k ==> ids[j] != id
  {
    if ids == [] || ids[0] == id then 0 else 1 + IndexOf(ids[1..], id)
  }

  function RemoveAt<T>(xs: seq<T>, k: nat): seq<T>
    requires k < |xs|
  {
    xs[..k] + xs[k + 1..]
  }

  /** `detach`; all of the program's GPIO routes go, whatever hook is detached. */
  function Detach(s: State, hook: nat, prog: nat, memory: bool): Outcome {
    if !memory then Outcome(s, Failed(OutOfMemory))
    else
      var list := Attached(s.attachments, hook);
      var k := IndexOf(list, prog);
      if k == |list| then Outcome(s, Failed(NotLoaded))
      else
        Outcome(Publish(s.(attachments := s.attachments[hook := RemoveAt(list, k)],
                           ledger := Release(s.ledger, hook, prog),
                           routes := GpioRoutes.Remove(s.routes, {prog}))), Done)
  }

  function DetachFor(s: State, owner: nat, hook: nat, prog: nat, memory: bool): Outcome {
    match OwnerError(s, owner, prog)
    case Some(e) => Outcome(s, Failed(e))
    case None => Detach(s, hook, prog, memory)
  }

  // ---------------------------------------------------------------------- orphan sweep

  predicate Pinned(pins: seq<Pin>, mapId: nat) {
    exists i :: 0 <= i < |pins| && pins[i].mapId == mapId
  }

  predicate Orphan(e: MapEntry) {
    e.owner == PINNED_MAP_OWNER && e.charge != 0
  }

  /** Slots of the orphan maps that nothing pins and no program captured. */
  function Sweepable(s: State): set<nat>
    requires WellFormed(s)
  {
    set i: nat | i < |s.maps.slots| && s.maps.slots[i].Some?
                 && Orphan(s.maps.slots[i].value)
                 && !Pinned(s.pins, HandleOf(s.maps, i))
                 && MapStrongCount(s.programs.slots, s.maps.slots[i].value.runtime) == 1
  }

  /** `reclaim_unpinned_orphan_maps_if_quiescent`. */
  function Sweep(s: State): State
    requires WellFormed(s)
  {
    FreeMaps(s, Sweepable(s))
  }

  function FreeMaps(s: State, gone: set<nat>): State {
    s.(maps := s.maps.(slots := Retain(s.maps.slots, gone)),
       liveMaps := SatSub(s.liveMaps, MapTotal(Lost(s.maps.slots, gone), Objects)),
       mapBytes := SatSub(s.mapBytes, MapTotal(Lost(s.maps.slots, gone), Bytes)))
  }

  // -------------------------------------------------------------------------- unload

  predicate AttachedAnywhere(attachments: Attachments, prog: nat) {
    exists h :: h in attachments && prog in attachments[h]
  }

  /** `unload_program_for`. */
  function Unload(s: State, owner: nat, prog: nat): Outcome
    requires WellFormed(s)
  {
    match OwnerError(s, owner, prog)
    case Some(e) => Outcome(s, Failed(e))
    case None =>
      var e := Entry(s.programs, prog);
      if AttachedAnywhere(s.attachments, prog) then Outcome(s, Failed(ObjectBusy))
      else if ProgramStrongCount(s.published, s.clones, e.program.id) != 1 then Outcome(s, Failed(ObjectBusy))
      else Outcome(Sweep(Unloaded(s, prog)), Done)
  }

  function Unloaded(s: State, prog: nat): State
    requires Live(s.programs, prog)
  {
    s.(programs := Free(s.programs, Slot(prog)),
       livePrograms := SatSub(s.livePrograms, 1),
       programBytes := SatSub(s.programBytes, Entry(s.programs, prog).charge),
       routes := GpioRoutes.Remove(s.routes, {prog}))
  }

  // ---------------------------------------------------------------------------- maps

  predicate PowerOfTwo(n: nat) {
    n == 1 || (n > 0 && n % 2 == 0 && PowerOfTwo(n / 2))
  }

  datatype ChargeResult = Charge(bytes: nat) | ChargeFailed(error: Error)

  /** The allocation size `map_allocation_charge` computes before it looks at quotas. */
  function AllocationCharge(l: Limits, mapType: nat, keySize: nat, valueSize: nat, maxEntries: nat): (r: ChargeResult)
    ensures r.Charge? ==> 0 < r.bytes <= USIZE_MAX
  {
    if maxEntries == 0 || keySize > l.maxKeySize || valueSize > l.maxValueSize || maxEntries > l.maxEntries
    then ChargeFailed(ResourceLimit)
    else if mapType == MAP_TYPE_HASH && keySize != 0 && valueSize != 0 then Product(1 + keySize + valueSize, maxEntries)
    else if mapType == MAP_TYPE_ARRAY && keySize == 4 && valueSize != 0 then Product(valueSize, maxEntries)
    else if mapType == MAP_TYPE_RINGBUF && keySize == 0 && valueSize == 0 && PowerOfTwo(maxEntries)
    then Product(1, maxEntries)
    else if mapType == MAP_TYPE_TIMESERIES && keySize == 8 && valueSize != 0 then Product(8 + valueSize, maxEntries)
    else ChargeFailed(InvalidInstruction)
  }

  /** A checked multiplication; no map has an empty backing store, so a zero product is no size. */
  function Product(unit: nat, count: nat): (r: ChargeResult)
    ensures r.Charge? ==> 0 < r.bytes <= USIZE_MAX
  {
    if 0 < unit * count <= USIZE_MAX then Charge(unit * count) else ChargeFailed(ResourceLimit)
  }

  /** Memory answers of a map creation: the backing store, the slot vector, the generation vector. */
  datatype CreateMemory = CreateMemory(backing: bool, slot: bool, generation: bool)

  /** `create_map_for`. */
  function CreateMap(s: State, owner: nat, mapType: nat, keySize: nat, valueSize: nat, maxEntries: nat,
                     memory: CreateMemory): Outcome
    requires WellFormed(s)
  {
    match AllocationCharge(s.config.limits, mapType, keySize, valueSize, maxEntries)
    case ChargeFailed(e) => Outcome(s, Failed(e))
    case Charge(charge) =>
      if !MapQuota(s, owner, charge) then Outcome(s, Failed(ResourceLimit))
      else if !memory.backing then Outcome(s, Failed(OutOfMemory))
      else
        match Insert(s.maps, s.config.limits.maxMapSlots, MapEntry(s.nextId, ReadWrite, charge, owner, []),
                     memory.slot, memory.generation)
        case Refused(e) => Outcome(s, Failed(InsertFailure(e)))
        case Inserted(t, h) =>
          Outcome(s.(maps := t, liveMaps := s.liveMaps + 1, mapBytes := s.mapBytes + charge, nextId := s.nextId + 1),
                  Handle(h))
  }

  function MapOwnerError(s: State, owner: nat, mapId: nat): Option<Error> {
    if !Live(s.maps, mapId) then Some(NotLoaded)
    else if Entry(s.maps, mapId).owner != owner then Some(PermissionDenied)
    else None
  }

  /** `ensure_map_access`. */
  function MapAccessError(s: State, owner: nat, mapId: nat, required: Access): Option<Error> {
    if !Live(s.maps, mapId) then Some(NotLoaded)
    else
      var e := Entry(s.maps, mapId);
      if e.charge != 0 && EntryAccess(e, owner).None? then Some(PermissionDenied)
      else if Rights(e, owner).Contains(required) then None
      else Some(PermissionDenied)
  }

  /** Index of the pin with this path, or the number of pins. */
  function FindPin(pins: seq<Pin>, path: string): (k: nat)
    ensures k <= |pins|
    ensures k < |pins| ==> pins[k].path == path
    ensures forall j :: 0 <= j < k ==> pins[j].path != path
  {
    if pins == [] || pins[0].path == path then 0 else 1 + FindPin(pins[1..], path)
  }

  /** `pin_map_with_access_for`. */
  function PinMap(s: State, owner: nat, path: string, mapId: nat, offered: Access, memory: bool): Outcome {
    if |path| == 0 || |path| >= PIN_PATH_MAX then Outcome(s, Failed(ResourceLimit))
    else if !offered.Contains(READ) && !offered.Contains(WRITE) then Outcome(s, Failed(PermissionDenied))
    else
      match MapOwnerError(s, owner, mapId)
      case Some(e) => Outcome(s, Failed(e))
      case None =>
        var k := FindPin(s.pins, path);
        if k < |s.pins| then
          Outcome(s, if s.pins[k] == Pin(path, mapId, owner, offered) then Done else Failed(ObjectBusy))
        else if |s.pins| >= s.config.limits.maxPinnedMaps then Outcome(s, Failed(ResourceLimit))
        else if !memory then Outcome(s, Failed(OutOfMemory))
        else Outcome(s.(pins := s.pins + [Pin(path, mapId, owner, offered)]), Done)
  }

  function GrantFailure(e: GrantError): Error {
    if e == GrantLimit then ResourceLimit else OutOfMemory
  }

  /** `get_pinned_map_for`. */
  function GetPinned(s: State, owner: nat, path: string, requested: Access, memory: bool): Outcome {
    var k := FindPin(s.pins, path);
    if k == |s.pins| then Outcome(s, Failed(NotLoaded))
    else
      var pin := s.pins[k];
      if !pin.offered.Contains(requested) then Outcome(s, Failed(PermissionDenied))
      else if !Live(s.maps, pin.mapId) then Outcome(s, Failed(NotLoaded))
      else
        var e := Entry(s.maps, pin.mapId);
        if e.owner == owner then Outcome(s, Handle(pin.mapId))
        else
          match GrantTo(e.grants, owner, requested, memory)
          case GrantRefused(g) => Outcome(s, Failed(GrantFailure(g)))
          case Granted(grants) =>
            Outcome(s.(maps := s.maps.(slots := s.maps.slots[Slot(pin.mapId) := Some(e.(grants := grants))])),
                    Handle(pin.mapId))
  }

  /** `unpin_map_for`. */
  function Unpin(s: State, owner: nat, path: string, allowOrphanCleanup: bool): Outcome
    requires WellFormed(s)
  {
    var k := FindPin(s.pins, path);
    if k == |s.pins| then Outcome(s, Failed(NotLoaded))
    else
      var pin := s.pins[k];
      if pin.owner != owner && (pin.owner != PINNED_MAP_OWNER || !allowOrphanCleanup)
      then Outcome(s, Failed(PermissionDenied))
      else
        var s' := s.(pins := RemoveAt(s.pins, k));
        var lastPin := !Pinned(s'.pins, pin.mapId);
        var orphaned := Live(s.maps, pin.mapId) && Entry(s.maps, pin.mapId).owner == PINNED_MAP_OWNER;
        if lastPin && orphaned then Outcome(Sweep(s'), Done) else Outcome(s', Done)
  }

  /** `destroy_map_for`. */
  function Destroy(s: State, owner: nat, mapId: nat): Outcome {
    if !Live(s.maps, mapId) then Outcome(s, Failed(NotLoaded))
    else if Slot(mapId) < RESERVED_MAP_COUNT then Outcome(s, Failed(ReadOnlyMap))
    else
      match MapOwnerError(s, owner, mapId)
      case Some(e) => Outcome(s, Failed(e))
      case None =>
        var e := Entry(s.maps, mapId);
        if Pinned(s.pins, mapId) || MapStrongCount(s.programs.slots, e.runtime) != 1 then Outcome(s, Failed(ObjectBusy))
        else
          Outcome(s.(maps := Free(s.maps, Slot(mapId)), liveMaps := SatSub(s.liveMaps, 1),
                     mapBytes := SatSub(s.mapBytes, e.charge)), Done)
  }

  // ------------------------------------------------------------------------- owner exit

  predicate OwnedProgram(programs: Table<ProgramEntry>, owner: nat, prog: nat) {
    Live(programs, prog) && Entry(programs, prog).owner == owner
  }

  /** An attachment list without the owner's programs. */
  function Unowned(programs: Table<ProgramEntry>, owner: nat, ids: seq<nat>): (r: seq<nat>)
    ensures forall p :: p in r <==> p in ids && !OwnedProgram(programs, owner, p)
  {
    if ids == [] then []
    else
      var last := |ids| - 1;
      assert forall p :: p in ids <==> p in ids[..last] || p == ids[last];
      var rest := Unowned(programs, owner, ids[..last]);
      if OwnedProgram(programs, owner, ids[last]) then rest else rest + [ids[last]]
  }

  function UnownedAttachments(programs: Table<ProgramEntry>, owner: nat, attachments: Attachments): Attachments {
    map h | h in attachments && Unowned(programs, owner, attachments[h]) != [] ::
      Unowned(programs, owner, attachments[h])
  }

  function OwnedKeys(programs: Table<ProgramEntry>, owner: nat, attachments: Attachments): set<(nat, nat)> {
    set h, p | h in attachments && p in attachments[h] && OwnedProgram(programs, owner, p) :: (h, p)
  }

  /** Handles of the owner's programs. */
  function OwnedHandles(programs: Table<ProgramEntry>, owner: nat): set<nat>
    requires Handles.Valid(programs)
  {
    set i: nat | i < |programs.slots| && programs.slots[i].Some? && programs.slots[i].value.owner == owner ::
      HandleOf(programs, i)
  }

  /** Detach everything the owner attached and publish the shrunken snapshot. */
  ghost function DetachOwner(s: State, owner: nat): State
    requires WellFormed(s)
  {
    Publish(s.(attachments := UnownedAttachments(s.programs, owner, s.attachments),
               ledger := ReleaseAll(s.ledger, OwnedKeys(s.programs, owner, s.attachments)),
               routes := GpioRoutes.Remove(s.routes, OwnedHandles(s.programs, owner))))
  }

  function RevokeSlot(e: Option<MapEntry>, owner: nat): Option<MapEntry> {
    if e.Some? then Some(e.value.(grants := Revoke(e.value.grants, owner))) else None
  }

  function RevokeAll(slots: seq<Option<MapEntry>>, owner: nat): (r: seq<Option<MapEntry>>)
    ensures |r| == |slots|
  {
    seq(|slots|, i requires 0 <= i < |slots| => RevokeSlot(slots[i], owner))
  }

  function OrphanPin(pin: Pin, owner: nat): Pin {
    if pin.owner == owner then pin.(owner := PINNED_MAP_OWNER) else pin
  }

  function OrphanPins(pins: seq<Pin>, owner: nat): (r: seq<Pin>)
    ensures |r| == |pins|
  {
    seq(|pins|, i requires 0 <= i < |pins| => OrphanPin(pins[i], owner))
  }

  /** Drop the owner's grants everywhere and turn its pins into orphan pins. */
  function RevokeOwnerRights(s: State, owner: nat): State {
    s.(maps := s.maps.(slots := RevokeAll(s.maps.slots, owner)), pins := OrphanPins(s.pins, owner))
  }

  /** The owner's programs that only the table refers to. */
  function FreeablePrograms(s: State, owner: nat): set<nat> {
    set i: nat | i < |s.programs.slots| && s.programs.slots[i].Some?
                 && s.programs.slots[i].value.owner == owner
                 && ProgramStrongCount(s.published, s.clones, s.programs.slots[i].value.program.id) == 1
  }

  function FreePrograms(s: State, gone: set<nat>): State {
    s.(programs := s.programs.(slots := Retain(s.programs.slots, gone)),
       livePrograms := SatSub(s.livePrograms, ProgramTotal(Lost(s.programs.slots, gone), Objects)),
       programBytes := SatSub(s.programBytes, ProgramTotal(Lost(s.programs.slots, gone), Bytes)))
  }

  predicate OwnsProgram(programs: Table<ProgramEntry>, owner: nat) {
    exists i :: 0 <= i < |programs.slots| && programs.slots[i].Some? && programs.slots[i].value.owner == owner
  }

  predicate ChargedTo(e: Option<MapEntry>, owner: nat) {
    e.Some? && e.value.owner == owner && e.value.charge != 0
  }

  /** The owner's maps that nothing pins and no program captured. */
  function FreeableMaps(s: State, owner: nat): set<nat>
    requires WellFormed(s)
  {
    set i: nat | i < |s.maps.slots| && ChargedTo(s.maps.slots[i], owner)
                 && !Pinned(s.pins, HandleOf(s.maps, i))
                 && MapStrongCount(s.programs.slots, s.maps.slots[i].value.runtime) == 1
  }

  function OrphanSlot(e: Option<MapEntry>, owner: nat): Option<MapEntry> {
    if ChargedTo(e, owner) then Some(e.value.(owner := PINNED_MAP_OWNER)) else e
  }

  function OrphanMaps(slots: seq<Option<MapEntry>>, owner: nat): (r: seq<Option<MapEntry>>)
    ensures |r| == |slots|
  {
    seq(|slots|, i requires 0 <= i < |slots| => OrphanSlot(slots[i], owner))
  }

  /** Free the owner's unreferenced maps and orphan the rest. */
  function ReleaseMaps(s: State, owner: nat): State
    requires WellFormed(s)
  {
    var s' := FreeMaps(s, FreeableMaps(s, owner));
    s'.(maps := s'.maps.(slots := OrphanMaps(s'.maps.slots, owner)))
  }

  /** `reclaim_owner` up to the point where it may report that clones are still in flight. */
  ghost function ReclaimPrograms(s: State, owner: nat): State
    requires WellFormed(s)
  {
    var s2 := RevokeOwnerRights(DetachOwner(s, owner), owner);
    FreePrograms(s2, FreeablePrograms(s2, owner))
  }

  /** `reclaim_owner`. */
  ghost function Reclaim(s: State, owner: nat, memory: bool): Outcome
    requires WellFormed(s)
  {
    if !memory then Outcome(s, Reclaimed(false))
    else
      var s3 := ReclaimPrograms(s, owner);
      if OwnsProgram(s3.programs, owner) then Outcome(s3, Reclaimed(false))
      else Outcome(Sweep(ReleaseMaps(s3, owner)), Reclaimed(true))
  }

  // ---------------------------------------------------------------- in-flight clones

  /** `get_program_for`: an independent reference to a loaded program. */
  function CloneProgram(s: State, owner: nat, prog: nat): Outcome {
    match OwnerError(s, owner, prog)
    case Some(e) => Outcome(s, Failed(e))
    case None => Outcome(s.(clones := s.clones + multiset{Entry(s.programs, prog).program.id}), Done)
  }

  function DropClone(s: State, id: nat): Outcome {
    Outcome(s.(clones := s.clones - multiset{id}), Done)
  }

  // --------------------------------------------------------------------- start and runs

  function EmptySnapshot(): Snapshot {
    Snapshot(seq(GENERIC_HOOK_SLOTS, _ => []), seq(GPIO_ROUTE_SLOTS, _ => []))
  }

  /** `new_with_limits`: only the reserved envelope map exists. */
  function Init(config: Config, budget: nat, cycleUnit: nat): State {
    State(config, Table([], []), Table([Some(MapEntry(0, ReadOnly, 0, 0, []))], [0]),
          map[], [], Ledger(budget, cycleUnit, 0, map[]), map[], 0, 0, 0, 0, EmptySnapshot(), multiset{}, 1)
  }

  datatype Op =
    | OpLoadRaw(owner: nat, insns: nat, authorization: Access, verdict: Option<Stats>, loadMemory: LoadMemory)
    | OpLoadBuiltin(insns: nat, verdict: Option<Stats>, loadMemory: LoadMemory)
    | OpLoadElf(owner: nat, bytes: nat, authentic: bool, program: Option<nat>, authorization: Access,
                verdict: Option<Stats>, loadMemory: LoadMemory)
    | OpAttach(owner: nat, hook: nat, prog: nat, accepted: bool, attachMemory: AttachMemory)
    | OpAttachGpio(owner: nat, chip: nat, pin: nat, edge: Edge, prog: nat, accepted: bool, attachMemory: AttachMemory)
    | OpDetach(hook: nat, prog: nat, memory: bool)
    | OpDetachFor(owner: nat, hook: nat, prog: nat, memory: bool)
    | OpUnload(owner: nat, prog: nat)
    | OpCreate(owner: nat, mapType: nat, keySize: nat, valueSize: nat, maxEntries: nat, createMemory: CreateMemory)
    | OpPin(owner: nat, path: string, mapId: nat, offered: Access, memory: bool)
    | OpGet(owner: nat, path: string, requested: Access, memory: bool)
    | OpUnpin(owner: nat, path: string, cleanup: bool)
    | OpDestroy(owner: nat, mapId: nat)
    | OpReclaim(owner: nat, memory: bool)
    | OpClone(owner: nat, prog: nat)
    | OpDropClone(id: nat)

  ghost function Apply(s: State, op: Op): Outcome
    requires WellFormed(s)
  {
    match op
    case OpLoadRaw(o, n, a, v, m) => LoadRaw(s, o, n, a, v, m)
    case OpLoadBuiltin(n, v, m) => LoadVerified(s, 0, n, READ_WRITE, v, m)
    case OpLoadElf(o, b, au, p, a, v, m) => LoadElf(s, o, b, au, p, a, v, m)
    case OpAttach(o, h, p, a, m) => AttachFor(s, o, h, p, a, m)
    case OpAttachGpio(o, c, pin, e, p, a, m) => AttachGpio(s, o, c, pin, e, p, a, m)
    case OpDetach(h, p, m) => Detach(s, h, p, m)
    case OpDetachFor(o, h, p, m) => DetachFor(s, o, h, p, m)
    case OpUnload(o, p) => Unload(s, o, p)
    case OpCreate(o, t, k, v, n, m) => CreateMap(s, o, t, k, v, n, m)
    case OpPin(o, path, id, a, m) => PinMap(s, o, path, id, a, m)
    case OpGet(o, path, r, m) => GetPinned(s, o, path, r, m)
    case OpUnpin(o, path, c) => Unpin(s, o, path, c)
    case OpDestroy(o, id) => Destroy(s, o, id)
    case OpReclaim(o, m) => Reclaim(s, o, m)
    case OpClone(o, p) => CloneProgram(s, o, p)
    case OpDropClone(id) => DropClone(s, id)
  }
}
