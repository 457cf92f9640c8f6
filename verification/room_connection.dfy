/** SdkRoomConnection: tracks are published and unpublished outside mutex_, so a track remembers the
    generation of the room it was published in and is unpublished only while that generation lasts.

    `Shared` holds the fields guarded by mutex_; the class is the imperative form of the mutex sections.
    `Vars` adds the threads inside publish and unpublish calls, the track objects with their addresses
    (the generation tables are keyed by address), and which room each track was published in. */
module RoomConnection {
  import opened Wrappers

  type Tid = nat
  type RoomId = nat
  type Addr = nat
  type TrackId = nat

  datatype Kind = Video | Audio

  // ---------------------------------------------------------------------------------------------
  // The mutex sections
  // ---------------------------------------------------------------------------------------------

  datatype Shared = Shared(
    room: Option<RoomId>, generation: nat, connected: bool, video: map<Addr, nat>, audio: map<Addr, nat>)

  function Table(s: Shared, kind: Kind): map<Addr, nat> {
    if kind.Video? then s.video else s.audio
  }

  function WithTable(s: Shared, kind: Kind, table: map<Addr, nat>): Shared {
    if kind.Video? then s.(video := table) else s.(audio := table)
  }

  /** A snapshot of room and generation; `usable` says that a participant came with it. */
  datatype Ref = Ref(room: Option<RoomId>, generation: nat, usable: bool)

  /** `present` says that the room still has its local participant. */
  function Snapshot(s: Shared, present: bool): Ref {
    Ref(s.room, s.generation, s.connected && s.room.Some? && present)
  }

  function Recorded(s: Shared, kind: Kind, addr: Addr, generation: nat): Shared {
    if generation != s.generation then s else WithTable(s, kind, Table(s, kind)[addr := generation])
  }

  function Taken(s: Shared, kind: Kind, addr: Addr): Shared {
    WithTable(s, kind, Table(s, kind) - {addr})
  }

  function Activated(s: Shared, room: RoomId): Shared {
    s.(generation := s.generation + 1, room := Some(room))
  }

  /** Only the video table is cleared. */
  function Detached(s: Shared): Shared {
    s.(room := None, generation := if s.room.Some? then s.generation + 1 else s.generation,
       video := map[], connected := false)
  }

  /** unpublishDataTrack() asks the room of the moment, with no generation check. */
  function DataUnpublishTarget(s: Shared, present: bool): Option<RoomId> {
    if s.connected && present then s.room else None
  }

  class SdkRoomConnection {
    var room: Option<RoomId>
    var roomGeneration: nat
    var connected: bool
    var trackRoomGenerations: map<Addr, nat>
    var audioTrackRoomGenerations: map<Addr, nat>

    ghost function Abs(): Shared
      reads this
    {
      Shared(room, roomGeneration, connected, trackRoomGenerations, audioTrackRoomGenerations)
    }

    constructor ()
      ensures Abs() == Shared(None, 0, false, map[], map[])
    {
      room, roomGeneration, connected := None, 0, false;
      trackRoomGenerations, audioTrackRoomGenerations := map[], map[];
    }

    method ParticipantRef(present: bool) returns (ref: Ref)
      ensures ref == Snapshot(Abs(), present)
      ensures ref.room == room && ref.generation == roomGeneration
      ensures ref.usable <==> connected && room.Some? && present
    {
      ref := Ref(room, roomGeneration, connected && room.Some? && present);
    }

    method UnpublishDataTrack(present: bool) returns (target: Option<RoomId>)
      ensures target == DataUnpublishTarget(Abs(), present)
      ensures target == if connected && present then room else None
    {
      if !connected {
        return None;
      }
      if room.None? || !present {
        return None;
      }
      target := room;
    }

    method RecordTrackIfCurrent(track: Addr, generation: nat)
      modifies this`trackRoomGenerations
      ensures Abs() == Recorded(old(Abs()), Video, track, generation)
      ensures trackRoomGenerations
              == if generation == roomGeneration then old(trackRoomGenerations)[track := generation]
                 else old(trackRoomGenerations)
    {
      if generation != roomGeneration {
        return;
      }
      trackRoomGenerations := trackRoomGenerations[track := generation];
    }

    method RecordAudioTrackIfCurrent(track: Addr, generation: nat)
      modifies this`audioTrackRoomGenerations
      ensures Abs() == Recorded(old(Abs()), Audio, track, generation)
      ensures audioTrackRoomGenerations
              == if generation == roomGeneration then old(audioTrackRoomGenerations)[track := generation]
                 else old(audioTrackRoomGenerations)
    {
      if generation != roomGeneration {
        return;
      }
      audioTrackRoomGenerations := audioTrackRoomGenerations[track := generation];
    }

    /** The first section of unpublishVideoTrackIfCurrent. */
    method TakeGeneration(track: Addr) returns (generation: Option<nat>)
      modifies this`trackRoomGenerations
      ensures generation == if track in old(trackRoomGenerations) then Some(old(trackRoomGenerations)[track]) else None
      ensures Abs() == Taken(old(Abs()), Video, track)
      ensures trackRoomGenerations == old(trackRoomGenerations) - {track}
    {
      if track !in trackRoomGenerations {
        return None;
      }
      generation := Some(trackRoomGenerations[track]);
      trackRoomGenerations := trackRoomGenerations - {track};
    }

    /** The first section of unpublishAudioTrackIfCurrent. */
    method TakeAudioGeneration(track: Addr) returns (generation: Option<nat>)
      modifies this`audioTrackRoomGenerations
      ensures generation
              == if track in old(audioTrackRoomGenerations) then Some(old(audioTrackRoomGenerations)[track]) else None
      ensures Abs() == Taken(old(Abs()), Audio, track)
      ensures audioTrackRoomGenerations == old(audioTrackRoomGenerations) - {track}
    {
      if track !in audioTrackRoomGenerations {
        return None;
      }
      generation := Some(audioTrackRoomGenerations[track]);
      audioTrackRoomGenerations := audioTrackRoomGenerations - {track};
    }

    /** `registers` says for each RPC handler whether the new room takes it. Every handler is tried, and the
        result says whether all were taken. */
    method ActivateRoom(newRoom: RoomId, registers: seq<bool>) returns (registered: bool)
      modifies this`room, this`roomGeneration
      ensures Abs() == Activated(old(Abs()), newRoom)
      ensures room == Some(newRoom) && roomGeneration == old(roomGeneration) + 1
      ensures registered <==> forall i :: 0 <= i < |registers| ==> registers[i]
    {
      roomGeneration := roomGeneration + 1;
      room := Some(newRoom);
      registered := true;
      for i := 0 to |registers|
        invariant registered <==> forall j :: 0 <= j < i ==> registers[j]
      {
        if !registers[i] {
          registered := false;
        }
      }
    }

    method DetachRoom() returns (detached: Option<RoomId>)
      modifies this
      ensures detached == old(room)
      ensures Abs() == Detached(old(Abs()))
      ensures room == None && !connected && trackRoomGenerations == map[]
      ensures roomGeneration == old(roomGeneration) + if old(room).Some? then 1 else 0
      ensures audioTrackRoomGenerations == old(audioTrackRoomGenerations)
    {
      detached := room;
      room := None;
      if detached.Some? {
        roomGeneration := roomGeneration + 1;
      }
      trackRoomGenerations := map[];
      connected := false;
    }
  }

  // ---------------------------------------------------------------------------------------------
  // Threads, tracks, and the atomic steps
  // ---------------------------------------------------------------------------------------------

  /** A track object: where it lies in memory and which room it was published in. */
  datatype Track = Track(kind: Kind, addr: Addr, room: RoomId)

  /** Where a thread is inside a publish (HasRef, HasTrack) or an unpublish (Took, Compared). */
  datatype Pc =
    | Free
    | HasRef(ref: Ref)
    | HasTrack(track: TrackId, generation: nat)
    | Took(track: TrackId, generation: nat, source: TrackId)
    | Compared(track: TrackId, room: RoomId, source: TrackId)

  /** An unpublish call that left. source: the track that the entry it found had been recorded for. */
  datatype Call = Call(track: TrackId, room: RoomId, source: TrackId)

  /** tracks: every track ever published; alive: those whose object still exists. rooms: the room of each
      generation so far. sent: the unpublish calls that left. owner: the track that an address in a
      generation table was recorded for. */
  datatype Log = Log(
    tracks: seq<Track>,
    alive: set<TrackId>,
    rooms: seq<Option<RoomId>>,
    nextRoom: RoomId,
    sent: seq<Call>,
    owner: map<(Kind, Addr), TrackId>)

  /** keepsRecorded: no track object is destroyed while its address is in a generation table. */
  datatype Vars = Vars(keepsRecorded: bool, s: Shared, threads: map<Tid, Pc>, log: Log)

  function At(v: Vars, t: Tid): Pc {
    if t in v.threads then v.threads[t] else Free
  }

  function Moved(v: Vars, t: Tid, pc: Pc): Vars {
    v.(threads := v.threads[t := pc])
  }

  datatype Step =
    | Activate
    | Detach
    | Transition(connected: bool)
    | GetRef(t: Tid, present: bool)
    | Publish(t: Tid, kind: Kind, addr: Addr)
    | Record(t: Tid)
    | Take(t: Tid, track: TrackId)
    | Compare(t: Tid, present: bool)
    | Send(t: Tid)
    | Destroy(track: TrackId)

  /** Whether a thread is in the middle of a call with this track. */
  ghost predicate InUse(v: Vars, track: TrackId) {
    exists t: Tid :: Uses(At(v, t), track)
  }

  predicate Uses(pc: Pc, track: TrackId) {
    (pc.HasTrack? || pc.Took? || pc.Compared?) && pc.track == track
  }

  predicate IsRecorded(v: Vars, track: TrackId)
    requires track < |v.log.tracks|
  {
    var info := v.log.tracks[track];
    info.addr in Table(v.s, info.kind)
  }

  /** The call that publishes the track has not returned, so nobody else has it yet. */
  ghost predicate BeingPublished(v: Vars, track: TrackId) {
    exists t: Tid :: Publishes(At(v, t), track)
  }

  predicate Publishes(pc: Pc, track: TrackId) {
    pc.HasTrack? && pc.track == track
  }

  predicate Unpublishes(pc: Pc, track: TrackId) {
    (pc.Took? || pc.Compared?) && pc.track == track
  }

  /** Two objects that exist at the same time have different addresses. */
  ghost predicate AddrIsFree(v: Vars, kind: Kind, addr: Addr) {
    forall x: TrackId :: x in v.log.alive && x < |v.log.tracks| ==>
      v.log.tracks[x].kind != kind || v.log.tracks[x].addr != addr
  }

  ghost predicate Enabled(v: Vars, s: Step) {
    match s
    case Activate => true
    case Detach => true
    case Transition(_) => true
    case GetRef(t, _) => At(v, t).Free?
    case Publish(t, kind, addr) =>
      At(v, t).HasRef? && At(v, t).ref.usable && At(v, t).ref.room.Some? && AddrIsFree(v, kind, addr)
    case Record(t) => At(v, t).HasTrack? && At(v, t).track < |v.log.tracks|
    case Take(t, track) =>
      At(v, t).Free? && track in v.log.alive && track < |v.log.tracks| && !BeingPublished(v, track)
    case Compare(t, _) => At(v, t).Took?
    case Send(t) => At(v, t).Compared?
    case Destroy(track) =>
      && track in v.log.alive && track < |v.log.tracks| && !InUse(v, track)
      && (v.keepsRecorded ==> !IsRecorded(v, track))
  }

  function T(s: Step): Tid {
    if s.GetRef? || s.Publish? || s.Record? || s.Take? || s.Compare? || s.Send? then s.t else 0
  }

  predicate IsRoomStep(s: Step) {
    s.Activate? || s.Detach? || s.Transition?
  }

  predicate IsPublishStep(s: Step) {
    s.GetRef? || s.Publish? || s.Record?
  }

  ghost function ApplyRoom(v: Vars, s: Step): Vars
    requires IsRoomStep(s) && Enabled(v, s)
  {
    var l := v.log;
    match s
    case Activate =>
      v.(s := Activated(v.s, l.nextRoom), log := l.(nextRoom := l.nextRoom + 1, rooms := l.rooms + [Some(l.nextRoom)]))
    case Detach =>
      v.(s := Detached(v.s), log := if v.s.room.Some? then l.(rooms := l.rooms + [None]) else l)
    case Transition(connected) =>
      v.(s := v.s.(connected := connected))
  }

  ghost function ApplyPublish(v: Vars, s: Step): Vars
    requires IsPublishStep(s) && Enabled(v, s)
  {
    var l := v.log;
    match s
    case GetRef(t, present) =>
      Moved(v, t, HasRef(Snapshot(v.s, present)))
    case Publish(t, kind, addr) =>
      var ref := At(v, t).ref;
      var x := |l.tracks|;
      var log := l.(tracks := l.tracks + [Track(kind, addr, ref.room.value)], alive := l.alive + {x});
      Moved(v.(log := log), t, HasTrack(x, ref.generation))
    case Record(t) =>
      var x := At(v, t).track;
      var info := l.tracks[x];
      var w := Moved(v.(s := Recorded(v.s, info.kind, info.addr, At(v, t).generation)), t, Free);
      if At(v, t).generation != v.s.generation then w
      else w.(log := l.(owner := l.owner[(info.kind, info.addr) := x]))
  }

  /** participantRef() is taken in a second section, after the generation was taken in the first. */
  ghost function ApplyUnpublish(v: Vars, s: Step): Vars
    requires !IsRoomStep(s) && !IsPublishStep(s) && Enabled(v, s)
  {
    var l := v.log;
    match s
    case Take(t, x) =>
      var info := l.tracks[x];
      if info.addr !in Table(v.s, info.kind) then v
      else
        var source := if (info.kind, info.addr) in l.owner then l.owner[(info.kind, info.addr)] else x;
        Moved(v.(s := Taken(v.s, info.kind, info.addr)), t, Took(x, Table(v.s, info.kind)[info.addr], source))
    case Compare(t, present) =>
      var ref := Snapshot(v.s, present);
      if !ref.usable || ref.generation != At(v, t).generation then Moved(v, t, Free)
      else Moved(v, t, Compared(At(v, t).track, ref.room.value, At(v, t).source))
    case Send(t) =>
      var call := Call(At(v, t).track, At(v, t).room, At(v, t).source);
      Moved(v.(log := l.(sent := l.sent + [call])), t, Free)
    case Destroy(x) =>
      v.(log := l.(alive := l.alive - {x}))
  }

  ghost function Apply(v: Vars, s: Step): Vars
    requires Enabled(v, s)
  {
    if IsRoomStep(s) then ApplyRoom(v, s)
    else if IsPublishStep(s) then ApplyPublish(v, s)
    else ApplyUnpublish(v, s)
  }

  ghost function Init(keepsRecorded: bool): Vars {
    Vars(keepsRecorded, Shared(None, 0, false, map[], map[]), map[], Log([], {}, [None], 0, [], map[]))
  }

  ghost predicate Runs(v: Vars, steps: seq<Step>)
    decreases |steps|
  {
    steps == [] || (Enabled(v, steps[0]) && Runs(Apply(v, steps[0]), steps[1..]))
  }

  ghost function Exec(v: Vars, steps: seq<Step>): Vars
    requires Runs(v, steps)
    decreases |steps|
  {
    if steps == [] then v else Exec(Apply(v, steps[0]), steps[1..])
  }

  // ---------------------------------------------------------------------------------------------
  // Generations determine rooms
  // ---------------------------------------------------------------------------------------------

  /** The room of a generation is fixed once and for all, and each room object has one generation. */
  ghost predicate RoomsInv(v: Vars) {
    && |v.log.rooms| == v.s.generation + 1
    && v.log.rooms[v.s.generation] == v.s.room
    && (forall g :: 0 <= g < |v.log.rooms| && v.log.rooms[g].Some? ==> v.log.rooms[g].value < v.log.nextRoom)
    && (forall g, h :: 0 <= g < h < |v.log.rooms| && v.log.rooms[g].Some? ==> v.log.rooms[g] != v.log.rooms[h])
  }

  /** A published track was published in the room of the generation its publisher read. */
  predicate GenerationIs(l: Log, generation: nat, room: RoomId) {
    generation < |l.rooms| && l.rooms[generation] == Some(room)
  }

  ghost predicate ThreadsInv(v: Vars) {
    && (forall t: Tid :: At(v, t).HasRef? ==> RefIsTrue(v.log, At(v, t).ref))
    && (forall t: Tid :: At(v, t).HasTrack? ==>
          At(v, t).track in v.log.alive && PublishedIn(v.log, At(v, t).track, At(v, t).generation))
  }

  predicate RefIsTrue(l: Log, ref: Ref) {
    ref.generation < |l.rooms| && l.rooms[ref.generation] == ref.room
  }

  predicate PublishedIn(l: Log, x: TrackId, generation: nat) {
    x < |l.tracks| && GenerationIs(l, generation, l.tracks[x].room)
  }

  ghost predicate AliveInv(v: Vars) {
    && (forall x: TrackId :: x in v.log.alive ==> x < |v.log.tracks|)
    && (forall x: TrackId, y: TrackId :: x in v.log.alive && y in v.log.alive && x != y ==>
          !SameSlot(v.log.tracks[x], v.log.tracks[y]))
  }

  predicate SameSlot(a: Track, b: Track) {
    a.kind == b.kind && a.addr == b.addr
  }

  /** The entry of `addr` was recorded for a track at that address, with its room's generation. */
  predicate EntryIsTrue(l: Log, kind: Kind, addr: Addr, generation: nat) {
    && (kind, addr) in l.owner
    && var x := l.owner[(kind, addr)];
       PublishedIn(l, x, generation) && l.tracks[x].kind == kind && l.tracks[x].addr == addr
  }

  ghost predicate TablesInv(v: Vars) {
    && (forall addr: Addr :: addr in v.s.video ==> EntryIsTrue(v.log, Video, addr, v.s.video[addr]))
    && (forall addr: Addr :: addr in v.s.audio ==> EntryIsTrue(v.log, Audio, addr, v.s.audio[addr]))
  }

  ghost predicate UnpublishInv(v: Vars) {
    && (forall t: Tid :: At(v, t).Took? ==>
          At(v, t).track < |v.log.tracks| && PublishedIn(v.log, At(v, t).source, At(v, t).generation))
    && (forall t: Tid :: At(v, t).Compared? ==>
          FollowsEntry(v.log, Call(At(v, t).track, At(v, t).room, At(v, t).source)))
    && (forall i :: 0 <= i < |v.log.sent| ==> FollowsEntry(v.log, v.log.sent[i]))
  }

  /** The call goes to the room of the track that its entry was recorded for. */
  predicate FollowsEntry(l: Log, call: Call) {
    call.track < |l.tracks| && call.source < |l.tracks| && l.tracks[call.source].room == call.room
  }

  /** What keepsRecorded adds: an entry is that of a live track, and a track finds its own entry only. */
  ghost predicate OwnInv(v: Vars) {
    && (forall addr: Addr :: addr in v.s.video ==> OwnerIsAlive(v.log, Video, addr))
    && (forall addr: Addr :: addr in v.s.audio ==> OwnerIsAlive(v.log, Audio, addr))
    && (forall t: Tid :: At(v, t).Took? || At(v, t).Compared? ==> At(v, t).source == At(v, t).track)
    && (forall i :: 0 <= i < |v.log.sent| ==> v.log.sent[i].source == v.log.sent[i].track)
  }

  predicate OwnerIsAlive(l: Log, kind: Kind, addr: Addr) {
    (kind, addr) in l.owner && l.owner[(kind, addr)] in l.alive
  }

  // Appending to the log keeps what it says about earlier tracks and generations.

  lemma GrownLog(a: Log, b: Log)
    requires a.tracks <= b.tracks && a.rooms <= b.rooms
    ensures forall ref: Ref :: RefIsTrue(a, ref) ==> RefIsTrue(b, ref)
    ensures forall x: TrackId, g: nat :: PublishedIn(a, x, g) ==> PublishedIn(b, x, g)
    ensures forall call: Call :: FollowsEntry(a, call) ==> FollowsEntry(b, call)
  {
  }

  lemma UnpublishFrame(v: Vars, s: Step)
    requires !IsRoomStep(s) && !IsPublishStep(s) && Enabled(v, s)
    ensures s.Destroy? ==> forall u: Tid :: At(ApplyUnpublish(v, s), u) == At(v, u)
    ensures !s.Destroy? ==> forall u: Tid :: u != s.t ==> At(ApplyUnpublish(v, s), u) == At(v, u)
  {
  }

  /** With keepsRecorded the entry that a live track finds under its own address is its own. */
  lemma OwnEntry(v: Vars, x: TrackId)
    requires AliveInv(v) && TablesInv(v) && OwnInv(v) && x in v.log.alive
    ensures IsRecorded(v, x) ==>
              var info := v.log.tracks[x];
              (info.kind, info.addr) in v.log.owner && v.log.owner[(info.kind, info.addr)] == x
  {
  }

  lemma RoomKeepsRooms(v: Vars, s: Step)
    requires RoomsInv(v) && IsRoomStep(s) && Enabled(v, s)
    ensures RoomsInv(ApplyRoom(v, s))
  {
  }

  lemma RoomKeepsThreads(v: Vars, s: Step)
    requires RoomsInv(v) && ThreadsInv(v) && IsRoomStep(s) && Enabled(v, s)
    ensures ThreadsInv(ApplyRoom(v, s))
  {
    GrownLog(v.log, ApplyRoom(v, s).log);
    assert forall u: Tid :: At(ApplyRoom(v, s), u) == At(v, u);
  }

  lemma RoomKeepsAlive(v: Vars, s: Step)
    requires AliveInv(v) && IsRoomStep(s) && Enabled(v, s)
    ensures AliveInv(ApplyRoom(v, s))
  {
  }

  lemma RoomKeepsTables(v: Vars, s: Step)
    requires RoomsInv(v) && ThreadsInv(v) && TablesInv(v) && IsRoomStep(s) && Enabled(v, s)
    ensures TablesInv(ApplyRoom(v, s))
  {
    GrownLog(v.log, ApplyRoom(v, s).log);
  }

  lemma RoomKeepsUnpublish(v: Vars, s: Step)
    requires RoomsInv(v) && AliveInv(v) && TablesInv(v) && UnpublishInv(v) && IsRoomStep(s) && Enabled(v, s)
    ensures UnpublishInv(ApplyRoom(v, s))
  {
    GrownLog(v.log, ApplyRoom(v, s).log);
    assert forall u: Tid :: At(ApplyRoom(v, s), u) == At(v, u);
  }

  lemma PublishKeepsRooms(v: Vars, s: Step)
    requires RoomsInv(v) && IsPublishStep(s) && Enabled(v, s)
    ensures RoomsInv(ApplyPublish(v, s))
  {
  }

  lemma PublishKeepsThreads(v: Vars, s: Step)
    requires RoomsInv(v) && ThreadsInv(v) && IsPublishStep(s) && Enabled(v, s)
    ensures ThreadsInv(ApplyPublish(v, s))
  {
    GrownLog(v.log, ApplyPublish(v, s).log);
    assert forall u: Tid :: u != T(s) ==> At(ApplyPublish(v, s), u) == At(v, u);
  }

  lemma PublishKeepsAlive(v: Vars, s: Step)
    requires AliveInv(v) && IsPublishStep(s) && Enabled(v, s)
    ensures AliveInv(ApplyPublish(v, s))
  {
  }

  lemma PublishKeepsTables(v: Vars, s: Step)
    requires RoomsInv(v) && ThreadsInv(v) && TablesInv(v) && IsPublishStep(s) && Enabled(v, s)
    ensures TablesInv(ApplyPublish(v, s))
  {
    GrownLog(v.log, ApplyPublish(v, s).log);
    if s.Record? {
      RecordKeepsTables(v, s.t);
    }
  }

  lemma RecordKeepsEntry(v: Vars, t: Tid, kind: Kind, addr: Addr)
    requires ThreadsInv(v) && Enabled(v, Record(t))
    requires addr in Table(v.s, kind) ==> EntryIsTrue(v.log, kind, addr, Table(v.s, kind)[addr])
    ensures var w := ApplyPublish(v, Record(t));
            addr in Table(w.s, kind) ==> EntryIsTrue(w.log, kind, addr, Table(w.s, kind)[addr])
  {
    assert PublishedIn(v.log, At(v, t).track, At(v, t).generation);
  }

  lemma RecordKeepsTables(v: Vars, t: Tid)
    requires ThreadsInv(v) && TablesInv(v) && Enabled(v, Record(t))
    ensures TablesInv(ApplyPublish(v, Record(t)))
  {
    hide ThreadsInv, EntryIsTrue;
    var w := ApplyPublish(v, Record(t));
    forall addr: Addr | addr in w.s.video ensures EntryIsTrue(w.log, Video, addr, w.s.video[addr]) {
      RecordKeepsEntry(v, t, Video, addr);
    }
    forall addr: Addr | addr in w.s.audio ensures EntryIsTrue(w.log, Audio, addr, w.s.audio[addr]) {
      RecordKeepsEntry(v, t, Audio, addr);
    }
  }

  lemma PublishKeepsUnpublish(v: Vars, s: Step)
    requires RoomsInv(v) && AliveInv(v) && TablesInv(v) && UnpublishInv(v) && IsPublishStep(s) && Enabled(v, s)
    ensures UnpublishInv(ApplyPublish(v, s))
  {
    GrownLog(v.log, ApplyPublish(v, s).log);
    assert forall u: Tid :: u != T(s) ==> At(ApplyPublish(v, s), u) == At(v, u);
  }

  lemma UnpublishKeepsRooms(v: Vars, s: Step)
    requires RoomsInv(v) && !IsRoomStep(s) && !IsPublishStep(s) && Enabled(v, s)
    ensures RoomsInv(ApplyUnpublish(v, s))
  {
  }

  lemma UnpublishKeepsThreads(v: Vars, s: Step)
    requires RoomsInv(v) && ThreadsInv(v) && !IsRoomStep(s) && !IsPublishStep(s) && Enabled(v, s)
    ensures ThreadsInv(ApplyUnpublish(v, s))
  {
    GrownLog(v.log, ApplyUnpublish(v, s).log);
    assert forall t: Tid :: At(v, t).HasTrack? ==> Uses(At(v, t), At(v, t).track);
    UnpublishFrame(v, s);
  }

  lemma UnpublishKeepsAlive(v: Vars, s: Step)
    requires AliveInv(v) && !IsRoomStep(s) && !IsPublishStep(s) && Enabled(v, s)
    ensures AliveInv(ApplyUnpublish(v, s))
  {
  }

  lemma UnpublishKeepsTables(v: Vars, s: Step)
    requires RoomsInv(v) && ThreadsInv(v) && TablesInv(v) && !IsRoomStep(s) && !IsPublishStep(s) && Enabled(v, s)
    ensures TablesInv(ApplyUnpublish(v, s))
  {
    GrownLog(v.log, ApplyUnpublish(v, s).log);
  }

  lemma UnpublishKeepsUnpublish(v: Vars, s: Step)
    requires RoomsInv(v) && AliveInv(v) && TablesInv(v) && UnpublishInv(v)
    requires !IsRoomStep(s) && !IsPublishStep(s) && Enabled(v, s)
    ensures UnpublishInv(ApplyUnpublish(v, s))
  {
    GrownLog(v.log, ApplyUnpublish(v, s).log);
    UnpublishFrame(v, s);
  }

  lemma RoomKeepsOwn(v: Vars, s: Step)
    requires OwnInv(v) && IsRoomStep(s) && Enabled(v, s)
    ensures OwnInv(ApplyRoom(v, s))
  {
    assert forall u: Tid :: At(ApplyRoom(v, s), u) == At(v, u);
  }

  lemma PublishKeepsOwn(v: Vars, s: Step)
    requires ThreadsInv(v) && OwnInv(v) && IsPublishStep(s) && Enabled(v, s)
    ensures OwnInv(ApplyPublish(v, s))
  {
    assert forall u: Tid :: u != T(s) ==> At(ApplyPublish(v, s), u) == At(v, u);
  }

  lemma UnpublishKeepsOwn(v: Vars, s: Step)
    requires v.keepsRecorded && AliveInv(v) && TablesInv(v) && OwnInv(v)
    requires !IsRoomStep(s) && !IsPublishStep(s) && Enabled(v, s)
    ensures OwnInv(ApplyUnpublish(v, s))
  {
    UnpublishFrame(v, s);
    if s.Take? {
      OwnEntry(v, s.track);
    }
  }

  // ---------------------------------------------------------------------------------------------
  // Each recorded track is unpublished at most once
  // ---------------------------------------------------------------------------------------------

  ghost predicate WasSent(l: Log, x: TrackId) {
    exists i :: 0 <= i < |l.sent| && l.sent[i].track == x
  }

  /** A track is in one place at most: being published, recorded, in one unpublish call, or sent. This needs
      no assumption on addresses. */
  ghost predicate OnceInv(v: Vars) {
    && (forall t: Tid, u: Tid, x: TrackId :: Uses(At(v, t), x) && Uses(At(v, u), x) ==> t == u)
    && (forall t: Tid, x: TrackId :: Uses(At(v, t), x) ==> !WasSent(v.log, x))
    && (forall x: TrackId :: x in v.log.alive && x < |v.log.tracks| && IsRecorded(v, x) ==>
          !WasSent(v.log, x) && forall t: Tid :: !Unpublishes(At(v, t), x))
    && (forall x: TrackId :: WasSent(v.log, x) || InUse(v, x) ==> x < |v.log.tracks|)
    && (forall i, j :: 0 <= i < j < |v.log.sent| ==> v.log.sent[i].track != v.log.sent[j].track)
  }

  lemma RoomKeepsOnce(v: Vars, s: Step)
    requires OnceInv(v) && IsRoomStep(s) && Enabled(v, s)
    ensures OnceInv(ApplyRoom(v, s))
  {
    var w := ApplyRoom(v, s);
    assert forall u: Tid :: At(w, u) == At(v, u);
    assert forall x: TrackId :: InUse(w, x) ==> InUse(v, x);
    assert forall x: TrackId :: WasSent(w.log, x) <==> WasSent(v.log, x);
  }

  lemma PublishKeepsOnce(v: Vars, s: Step)
    requires AliveInv(v) && OnceInv(v) && s.Publish? && Enabled(v, s)
    ensures OnceInv(ApplyPublish(v, s))
  {
    var w := ApplyPublish(v, s);
    var added := |v.log.tracks|;
    assert !InUse(v, added) && !WasSent(v.log, added);
    assert forall u: Tid :: u != s.t ==> At(w, u) == At(v, u) && !Uses(At(v, u), added);
    assert forall x: TrackId :: WasSent(w.log, x) <==> WasSent(v.log, x);
    assert forall x: TrackId :: InUse(w, x) ==> InUse(v, x) || x == added;
    assert forall x: TrackId :: x in v.log.alive && x < |v.log.tracks| && IsRecorded(w, x) ==> IsRecorded(v, x);
    assert forall u: Tid :: !Unpublishes(At(w, u), added);
  }

  lemma RecordKeepsOnce(v: Vars, s: Step)
    requires ThreadsInv(v) && AliveInv(v) && OnceInv(v) && (s.GetRef? || s.Record?) && Enabled(v, s)
    ensures OnceInv(ApplyPublish(v, s))
  {
    var w := ApplyPublish(v, s);
    assert forall u: Tid :: u != s.t ==> At(w, u) == At(v, u);
    assert forall u: Tid, x: TrackId :: Uses(At(w, u), x) ==> Uses(At(v, u), x);
    assert forall x: TrackId :: WasSent(w.log, x) <==> WasSent(v.log, x);
    if s.Record? {
      var x := At(v, s.t).track;
      assert Uses(At(v, s.t), x);
      assert forall u: Tid :: !Uses(At(w, u), x);
      forall y: TrackId | y in v.log.alive && y != x ensures IsRecorded(w, y) ==> IsRecorded(v, y) {
        assert !SameSlot(v.log.tracks[x], v.log.tracks[y]);
      }
    }
    assert forall x: TrackId :: InUse(w, x) ==> InUse(v, x);
  }

  lemma TakeKeepsOnce(v: Vars, s: Step)
    requires AliveInv(v) && OnceInv(v) && (s.Take? || s.Compare? || s.Destroy?) && Enabled(v, s)
    ensures OnceInv(ApplyUnpublish(v, s))
  {
    var w := ApplyUnpublish(v, s);
    UnpublishFrame(v, s);
    assert forall x: TrackId :: WasSent(w.log, x) <==> WasSent(v.log, x);
    if s.Take? {
      assert IsRecorded(v, s.track) ==> forall u: Tid :: !Publishes(At(v, u), s.track) && !Uses(At(v, u), s.track);
      assert forall u: Tid, x: TrackId :: x != s.track && Uses(At(w, u), x) ==> Uses(At(v, u), x);
      assert forall x: TrackId :: InUse(w, x) ==> InUse(v, x) || x == s.track;
    } else {
      assert forall u: Tid, x: TrackId :: Uses(At(w, u), x) ==> Uses(At(v, u), x);
      assert forall x: TrackId :: InUse(w, x) ==> InUse(v, x);
    }
  }

  lemma SendKeepsOnce(v: Vars, s: Step)
    requires OnceInv(v) && s.Send? && Enabled(v, s)
    ensures OnceInv(ApplyUnpublish(v, s))
  {
    var w := ApplyUnpublish(v, s);
    UnpublishFrame(v, s);
    var x := At(v, s.t).track;
    assert Uses(At(v, s.t), x) && InUse(v, x) && !WasSent(v.log, x);
    assert w.log.sent[|v.log.sent|].track == x;
    assert forall i :: 0 <= i < |v.log.sent| ==> v.log.sent[i].track != x;
    forall y: TrackId ensures WasSent(w.log, y) <==> WasSent(v.log, y) || y == x {
      if WasSent(v.log, y) {
        var i :| 0 <= i < |v.log.sent| && v.log.sent[i].track == y;
        assert w.log.sent[i].track == y;
      }
    }
    assert forall u: Tid, y: TrackId :: Uses(At(w, u), y) ==> Uses(At(v, u), y) && u != s.t;
    assert forall y: TrackId :: InUse(w, y) ==> InUse(v, y) && y != x;
  }

  // ---------------------------------------------------------------------------------------------
  // What holds in every run
  // ---------------------------------------------------------------------------------------------

  /** What is needed to tell rooms apart by their generations. */
  ghost predicate BaseInv(v: Vars) {
    RoomsInv(v) && ThreadsInv(v) && AliveInv(v)
  }

  ghost predicate Inv(v: Vars) {
    BaseInv(v) && TablesInv(v) && UnpublishInv(v) && OnceInv(v) && (v.keepsRecorded ==> OwnInv(v))
  }

  lemma StepKeepsBase(v: Vars, s: Step)
    requires BaseInv(v) && Enabled(v, s)
    ensures BaseInv(Apply(v, s))
    ensures v.log.rooms <= Apply(v, s).log.rooms
  {
    if IsRoomStep(s) {
      RoomKeepsRooms(v, s);
      RoomKeepsThreads(v, s);
      RoomKeepsAlive(v, s);
    } else if IsPublishStep(s) {
      PublishKeepsRooms(v, s);
      PublishKeepsThreads(v, s);
      PublishKeepsAlive(v, s);
    } else {
      UnpublishKeepsRooms(v, s);
      UnpublishKeepsThreads(v, s);
      UnpublishKeepsAlive(v, s);
    }
  }

  lemma StepKeepsInv(v: Vars, s: Step)
    requires Inv(v) && Enabled(v, s)
    ensures Inv(Apply(v, s)) && Apply(v, s).keepsRecorded == v.keepsRecorded
  {
    StepKeepsBase(v, s);
    if IsRoomStep(s) {
      RoomKeepsTables(v, s);
      RoomKeepsUnpublish(v, s);
      RoomKeepsOnce(v, s);
      if v.keepsRecorded {
        RoomKeepsOwn(v, s);
      }
    } else if IsPublishStep(s) {
      PublishKeepsTables(v, s);
      PublishKeepsUnpublish(v, s);
      if v.keepsRecorded {
        PublishKeepsOwn(v, s);
      }
      if s.Publish? {
        PublishKeepsOnce(v, s);
      } else {
        RecordKeepsOnce(v, s);
      }
    } else {
      UnpublishKeepsTables(v, s);
      UnpublishKeepsUnpublish(v, s);
      if v.keepsRecorded {
        UnpublishKeepsOwn(v, s);
      }
      if s.Send? {
        SendKeepsOnce(v, s);
      } else {
        TakeKeepsOnce(v, s);
      }
    }
  }

  lemma {:induction false} RunKeepsBase(v: Vars, steps: seq<Step>)
    requires BaseInv(v) && Runs(v, steps)
    ensures BaseInv(Exec(v, steps)) && v.log.rooms <= Exec(v, steps).log.rooms
    decreases |steps|
  {
    if steps != [] {
      StepKeepsBase(v, steps[0]);
      RunKeepsBase(Apply(v, steps[0]), steps[1..]);
    }
  }

  lemma {:induction false} RunKeepsInv(v: Vars, steps: seq<Step>)
    requires Inv(v) && Runs(v, steps)
    ensures Inv(Exec(v, steps)) && Exec(v, steps).keepsRecorded == v.keepsRecorded
    decreases |steps|
  {
    if steps != [] {
      StepKeepsInv(v, steps[0]);
      RunKeepsInv(Apply(v, steps[0]), steps[1..]);
    }
  }

  /** Whatever happens between two snapshots, even with addresses reused: equal generations mean the
      same room, and two snapshots of one room have the same generation. */
  lemma GenerationDeterminesRoom(keeps: bool, before: seq<Step>, between: seq<Step>, p: bool, q: bool)
    requires Runs(Init(keeps), before) && Runs(Exec(Init(keeps), before), between)
    ensures var a := Snapshot(Exec(Init(keeps), before).s, p);
            var b := Snapshot(Exec(Exec(Init(keeps), before), between).s, q);
            && (a.generation == b.generation ==> a.room == b.room)
            && (a.room.Some? && a.room == b.room ==> a.generation == b.generation)
  {
    RunKeepsBase(Init(keeps), before);
    var v := Exec(Init(keeps), before);
    RunKeepsBase(v, between);
    var w := Exec(v, between);
    assert w.log.rooms[v.s.generation] == v.s.room;
  }

  lemma InitInv(keeps: bool)
    ensures Inv(Init(keeps))
  {
    assert forall t: Tid :: At(Init(keeps), t) == Free;
  }

  /** In every run, addresses reused or not, an unpublish call goes to the room of the track that the entry
      it found had been recorded for; that is the room of its own track exactly if those two tracks were
      published in the same room. No track is unpublished twice. */
  lemma UnpublishFollowsTheEntry(keeps: bool, steps: seq<Step>)
    requires Runs(Init(keeps), steps)
    ensures var l := Exec(Init(keeps), steps).log;
            && (forall i :: 0 <= i < |l.sent| ==>
                  var call := l.sent[i];
                  && call.track < |l.tracks| && call.source < |l.tracks|
                  && call.room == l.tracks[call.source].room)
            && (forall i, j :: 0 <= i < j < |l.sent| ==> l.sent[i].track != l.sent[j].track)
  {
    InitInv(keeps);
    RunKeepsInv(Init(keeps), steps);
    var l := Exec(Init(keeps), steps).log;
    assert forall i :: 0 <= i < |l.sent| ==> FollowsEntry(l, l.sent[i]);
  }

  /** The same, foretold when a track is about to be unpublished: if it finds an entry and the generation is
      still current, the call reaches the track's own room exactly if the entry's track was published there,
      and exactly if the entry's generation is one of the track's own room. */
  lemma EntryForetellsTheRoom(v: Vars, t: Tid, x: TrackId, present: bool)
    requires Inv(v) && Enabled(v, Take(t, x)) && IsRecorded(v, x)
    ensures var info := v.log.tracks[x];
            var generation := Table(v.s, info.kind)[info.addr];
            && (info.kind, info.addr) in v.log.owner
            && var y := v.log.owner[(info.kind, info.addr)];
               && y < |v.log.tracks|
               && var pc := At(Apply(Apply(v, Take(t, x)), Compare(t, present)), t);
                  && (pc.Compared? <==> Snapshot(v.s, present).usable && v.s.generation == generation)
                  && (pc.Compared? ==> (pc.room == info.room <==> v.log.tracks[y].room == info.room))
                  && (pc.Compared? ==> (pc.room == info.room <==> GenerationIs(v.log, generation, info.room)))
  {
    var info := v.log.tracks[x];
    var generation := Table(v.s, info.kind)[info.addr];
    assert EntryIsTrue(v.log, info.kind, info.addr, generation);
    var w := Apply(v, Take(t, x));
    assert At(w, t) == Took(x, generation, v.log.owner[(info.kind, info.addr)]);
  }

  /** If recorded tracks are kept alive, each unpublish call goes to the room that its track was published
      in, and no track is unpublished twice. */
  lemma UnpublishReachesTheRightRoomOnce(steps: seq<Step>)
    requires Runs(Init(true), steps)
    ensures var l := Exec(Init(true), steps).log;
            && (forall i :: 0 <= i < |l.sent| ==>
                  l.sent[i].track < |l.tracks| && l.sent[i].room == l.tracks[l.sent[i].track].room)
            && (forall i, j :: 0 <= i < j < |l.sent| ==> l.sent[i].track != l.sent[j].track)
  {
    InitInv(true);
    RunKeepsInv(Init(true), steps);
    UnpublishFollowsTheEntry(true, steps);
  }

  /** A publish gets a participant, and an unpublish goes on to its call, only while the connection is up and
      has a room; and then exactly if the room still has its participant and, for the unpublish, the
      generation is still that of the entry. */
  lemma CallsNeedAConnection(v: Vars, t: Tid, present: bool)
    ensures Enabled(v, GetRef(t, present)) ==>
              var ref := At(Apply(v, GetRef(t, present)), t).ref;
              && (ref.usable <==> v.s.connected && v.s.room.Some? && present)
              && ref.room == v.s.room && ref.generation == v.s.generation
    ensures Enabled(v, Compare(t, present)) ==>
              var pc := At(Apply(v, Compare(t, present)), t);
              && (pc.Compared? <==>
                    v.s.connected && v.s.room.Some? && present && v.s.generation == At(v, t).generation)
              && (pc.Compared? ==> v.s.room == Some(pc.room) && pc.track == At(v, t).track)
              && (!pc.Compared? ==> pc.Free?)
  {
  }

  /** Nothing is published by a thread whose reference was taken without a connection. */
  lemma PublishNeedsAConnection(v: Vars, s: Step)
    requires s.Publish? && Enabled(v, s)
    ensures At(v, s.t).ref.usable && At(v, s.t).ref.room.Some?
    ensures Apply(v, s).log.tracks == v.log.tracks + [Track(s.kind, s.addr, At(v, s.t).ref.room.value)]
  {
  }

  /** A track that is recorded while its generation is current is found by the next take, video or audio;
      one that is not current is not recorded. */
  lemma RecordedIsTaken(v: Vars, t: Tid, u: Tid)
    requires Inv(v) && Enabled(v, Record(t)) && At(v, u).Free?
    ensures var x := At(v, t).track;
            var info := v.log.tracks[x];
            var w := Apply(v, Record(t));
            && At(w, t).Free?
            && (At(v, t).generation == v.s.generation ==>
                  && Table(w.s, info.kind) == Table(v.s, info.kind)[info.addr := v.s.generation]
                  && Enabled(w, Take(u, x))
                  && At(Apply(w, Take(u, x)), u) == Took(x, v.s.generation, x))
            && (At(v, t).generation != v.s.generation ==> w.s == v.s)
  {
    var x := At(v, t).track;
    var w := Apply(v, Record(t));
    assert Uses(At(v, t), x);
    forall q: Tid ensures !Publishes(At(w, q), x) {
      assert Publishes(At(v, q), x) ==> Uses(At(v, q), x);
    }
  }

  /** Data tracks are unpublished without that check: a track published with snapshot `a` is unpublished
      in its own room exactly if the generation has not changed since. */
  lemma DataUnpublishFollowsTheCurrentRoom(keeps: bool, before: seq<Step>, between: seq<Step>)
    requires Runs(Init(keeps), before) && Runs(Exec(Init(keeps), before), between)
    requires Snapshot(Exec(Init(keeps), before).s, true).usable
    ensures var a := Snapshot(Exec(Init(keeps), before).s, true);
            var s := Exec(Exec(Init(keeps), before), between).s;
            DataUnpublishTarget(s, true).Some? ==>
              (DataUnpublishTarget(s, true) == a.room <==> s.generation == a.generation)
  {
    GenerationDeterminesRoom(keeps, before, between, true, true);
  }

  lemma {:induction false} Extend(init: Vars, steps: seq<Step>, v: Vars, s: Step) returns (more: seq<Step>, w: Vars)
    requires Runs(init, steps) && Exec(init, steps) == v && Enabled(v, s)
    ensures more == steps + [s] && Runs(init, more) && w == Exec(init, more) == Apply(v, s)
    decreases |steps|
  {
    more, w := steps + [s], Apply(v, s);
    if steps == [] {
      assert Exec(w, []) == w;
    } else {
      var rest, _ := Extend(Apply(init, steps[0]), steps[1..], v, s);
      assert more[1..] == rest;
    }
  }

  /** A publish is in flight to room 0 when room 1 replaces it. */
  lemma RoomReplaced() returns (steps: seq<Step>, v: Vars)
    ensures Runs(Init(false), steps) && v == Exec(Init(false), steps)
    ensures v.s == Shared(Some(1), 3, true, map[], map[])
    ensures v.threads == map[1 := HasRef(Ref(Some(0), 1, true))]
    ensures v.log.tracks == [] && v.log.alive == {} && v.log.sent == [] && v.log.owner == map[] && !v.keepsRecorded
  {
    var init := Init(false);
    steps, v := Extend(init, [], init, Activate);
    steps, v := Extend(init, steps, v, Transition(true));
    steps, v := Extend(init, steps, v, GetRef(1, true));
    steps, v := Extend(init, steps, v, Detach);
    steps, v := Extend(init, steps, v, Activate);
    steps, v := Extend(init, steps, v, Transition(true));
  }

  /** A track of room 1 is recorded then. */
  lemma PublishInFlight() returns (steps: seq<Step>, v: Vars)
    ensures Runs(Init(false), steps) && v == Exec(Init(false), steps)
    ensures v.s == Shared(Some(1), 3, true, map[7 := 3], map[])
    ensures v.threads == map[1 := HasRef(Ref(Some(0), 1, true)), 2 := Free]
    ensures v.log.tracks == [Track(Video, 7, 1)] && v.log.alive == {0} && v.log.sent == [] && !v.keepsRecorded
    ensures v.log.owner == map[(Video, 7) := 0]
  {
    var init := Init(false);
    steps, v := RoomReplaced();
    steps, v := Extend(init, steps, v, GetRef(2, true));
    steps, v := Extend(init, steps, v, Publish(2, Video, 7));
    steps, v := Extend(init, steps, v, Record(2));
  }

  lemma AddressReused() returns (steps: seq<Step>, v: Vars)
    ensures Runs(Init(false), steps) && v == Exec(Init(false), steps)
    ensures v.s == Shared(Some(1), 3, true, map[7 := 3], map[])
    ensures v.threads == map[1 := Free, 2 := Free]
    ensures v.log.tracks == [Track(Video, 7, 1), Track(Video, 7, 0)] && v.log.alive == {1} && v.log.sent == []
    ensures v.log.owner == map[(Video, 7) := 0]
  {
    var init := Init(false);
    steps, v := PublishInFlight();
    forall t: Tid ensures !Uses(At(v, t), 0) { }
    steps, v := Extend(init, steps, v, Destroy(0));
    steps, v := Extend(init, steps, v, Publish(1, Video, 7));
    steps, v := Extend(init, steps, v, Record(1));
  }

  /** Without that discipline the address can be reused: the recorded track is destroyed without being
      unpublished, the publish in flight creates its track at the same address and is not recorded, and
      unpublishing it finds the old entry, whose generation is current. The call goes to room 1. */
  lemma ReusedAddressReachesTheWrongRoom()
    ensures exists steps: seq<Step> ::
              && Runs(Init(false), steps)
              && var l := Exec(Init(false), steps).log;
                 l.sent == [Call(1, 1, 0)] && |l.tracks| == 2 && l.tracks[1].room == 0
  {
    var init := Init(false);
    var steps, v := AddressReused();
    assert forall t: Tid :: At(v, t) == Free;
    assert !BeingPublished(v, 1);
    steps, v := Extend(init, steps, v, Take(3, 1));
    steps, v := Extend(init, steps, v, Compare(3, true));
    steps, v := Extend(init, steps, v, Send(3));
  }

  /** A data track published in room 0 is unpublished from room 1, which has replaced it. */
  lemma DataUnpublishReachesTheNextRoom()
    ensures exists before: seq<Step>, between: seq<Step> ::
              && Runs(Init(true), before) && Runs(Exec(Init(true), before), between)
              && var a := Snapshot(Exec(Init(true), before).s, true);
                 a.usable && a.room == Some(0)
                 && DataUnpublishTarget(Exec(Exec(Init(true), before), between).s, true) == Some(1)
  {
    var init := Init(true);
    var before, v := Extend(init, [], init, Activate);
    before, v := Extend(init, before, v, Transition(true));
    assert Snapshot(v.s, true) == Ref(Some(0), 1, true);
    var between, w := Extend(v, [], v, Detach);
    between, w := Extend(v, between, w, Activate);
    between, w := Extend(v, between, w, Transition(true));
    assert DataUnpublishTarget(w.s, true) == Some(1);
  }
}
