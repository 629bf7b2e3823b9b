/**
 * Publishing a compiled module in the persistent cache (Context::cacheModule in model/Context.cc,
 * move() in util/CacheFiles.cc, the builder's side in builder/llvm/LLVMBuilder.cc) as a state machine
 * over single file operations, with any number of writers and readers interleaved and killed
 * anywhere.  Files are inodes: a reader that has opened a file keeps it when its name goes.
 */
module CachePublication {

  datatype Option<+T> = None | Some(value: T)

  /** The metadata and builder files of one module: the canonical names, and those qualified by a
      writer's uniquifier. */
  datatype Path = Meta | Builder | MetaTemp(u: nat) | BuilderTemp(u: nat)

  /** What an inode holds: a complete file of a writer's session, or less. */
  datatype Content = Partial(author: nat) | Whole(author: nat)

  datatype Disk = Disk(dir: map<Path, nat>, files: map<nat, Content>, inodes: nat)

  // ----- File operations -----

  /** Opening for writing: an existing file is truncated in place. */
  function Create(d: Disk, p: Path, author: nat): Disk {
    if p in d.dir then d.(files := d.files[d.dir[p] := Partial(author)])
    else Disk(d.dir[p := d.inodes], d.files[d.inodes := Partial(author)], d.inodes + 1)
  }

  /** Writing the last byte of the file at a temporary name. */
  function Complete(d: Disk, p: Path, author: nat): Disk {
    if p in d.dir then d.(files := d.files[d.dir[p] := Whole(author)]) else d
  }

  function Unlink(d: Disk, p: Path): Disk {
    d.(dir := d.dir - {p})
  }

  /** link() fails if the source is missing or the destination exists. */
  predicate CanLink(d: Disk, src: Path, dst: Path) {
    src in d.dir && dst !in d.dir
  }

  function Link(d: Disk, src: Path, dst: Path): Disk {
    if CanLink(d, src, dst) then d.(dir := d.dir[dst := d.dir[src]]) else d
  }

  // ----- A writer -----

  /** Where a writer stands: after which operation of cacheModule. */
  datatype Pc =
    | Serializing          // the temporary metadata file is open
    | Serialized           // closed
    | Cleaned              // the builder has cleaned up other copies (if it does)
    | Building             // the temporary builder file is open
    | Built                // closed
    | MetaUnlinked         // move(): unlink(dst)
    | MetaLinked(moved: bool)
    | MetaMoved(moved: bool)
    | BuilderUnlinked
    | BuilderLinked
    | Dropping             // not moved: the temporary builder file is gone
    | Rescuing             // after an exception: builder file next
    | Rescued
    | Done

  datatype Writer = Writer(u: nat, session: nat, pc: Pc)

  /** How the next operation goes: as intended, with an exception, or (closing the metadata stream)
      with an error nobody looks at. */
  datatype Turn = Go | Throw | Lose

  /** One operation of Context::cacheModule.  `cleans`: the builder removes the old builder file
      before it writes its own, as builder/Builder.h asks. */
  function WriterStep(w: Writer, turn: Turn, cleans: bool, d: Disk): (Writer, Disk) {
    match w.pc
    case Serializing =>
      if turn.Throw? then (w.(pc := Done), Unlink(d, MetaTemp(w.u)))
      else (w.(pc := Serialized), if turn.Lose? then d else Complete(d, MetaTemp(w.u), w.session))
    case Serialized =>
      if turn.Throw? then (w.(pc := Rescuing), d)
      else (w.(pc := Cleaned), if cleans then Unlink(d, Builder) else d)
    case Cleaned =>
      if turn.Throw? then (w.(pc := Rescuing), d)
      else (w.(pc := Building), Create(d, BuilderTemp(w.u), w.session))
    case Building =>
      if turn.Throw? then (w.(pc := Rescuing), Unlink(d, BuilderTemp(w.u)))
      else (w.(pc := Built), Complete(d, BuilderTemp(w.u), w.session))
    case Built => (w.(pc := MetaUnlinked), Unlink(d, Meta))
    case MetaUnlinked => (w.(pc := MetaLinked(CanLink(d, MetaTemp(w.u), Meta))), Link(d, MetaTemp(w.u), Meta))
    case MetaLinked(moved) => (w.(pc := MetaMoved(moved)), Unlink(d, MetaTemp(w.u)))
    case MetaMoved(true) => (w.(pc := BuilderUnlinked), Unlink(d, Builder))
    case MetaMoved(false) => (w.(pc := Dropping), Unlink(d, BuilderTemp(w.u)))
    case BuilderUnlinked => (w.(pc := BuilderLinked), Link(d, BuilderTemp(w.u), Builder))
    case BuilderLinked => (w.(pc := Done), Unlink(d, BuilderTemp(w.u)))
    case Dropping => (w.(pc := Done), Unlink(d, MetaTemp(w.u)))
    case Rescuing => (w.(pc := Rescued), Unlink(d, BuilderTemp(w.u)))
    case Rescued => (w.(pc := Done), Unlink(d, MetaTemp(w.u)))
    case Done => (w, d)
  }

  // ----- Everyone together -----

  /** The inodes a reader has opened. */
  datatype Reader = Reader(meta: nat, builder: Option<nat>)

  /** `killed` are the uniquifiers of writers that were killed; `clock` numbers sessions. */
  datatype World = World(disk: Disk, writers: map<nat, Writer>, readers: map<nat, Reader>, killed: set<nat>, clock: nat)

  datatype Event = Start(u: nat) | Write(session: nat, turn: Turn) | Kill(session: nat)
                 | OpenMeta(reader: nat) | OpenBuilder(reader: nat) | Discard(reader: nat)

  /** Uniquifiers (host name and process id) differ between writers alive at the same time. */
  predicate NameFree(w: World, u: nat) {
    forall n :: n in w.writers ==> w.writers[n].u != u
  }

  function Apply(w: World, e: Event, cleans: bool): World {
    match e
    case Start(u) =>
      if !NameFree(w, u) then w
      else w.(disk := Create(w.disk, MetaTemp(u), w.clock),
              writers := w.writers[w.clock := Writer(u, w.clock, Serializing)], clock := w.clock + 1)
    case Write(n, turn) =>
      if n !in w.writers then w
      else
        var r := WriterStep(w.writers[n], turn, cleans, w.disk);
        w.(disk := r.1, writers := if r.0.pc.Done? then w.writers - {n} else w.writers[n := r.0])
    case Kill(n) =>
      if n !in w.writers then w else w.(writers := w.writers - {n}, killed := w.killed + {w.writers[n].u})
    case OpenMeta(r) =>
      if Meta !in w.disk.dir then w else w.(readers := w.readers[r := Reader(w.disk.dir[Meta], None)])
    case OpenBuilder(r) =>
      if r !in w.readers || Builder !in w.disk.dir then w
      else w.(readers := w.readers[r := w.readers[r].(builder := Some(w.disk.dir[Builder]))])
    case Discard(r) =>
      // a reader that finds a damaged file removes the name (model/Context.cc:316)
      if r in w.readers && w.readers[r].meta in w.disk.files && w.disk.files[w.readers[r].meta].Partial?
      then w.(disk := Unlink(w.disk, Meta)) else w
  }

  function Run(w: World, es: seq<Event>, cleans: bool): World
    decreases |es|
  {
    if es == [] then w else Run(Apply(w, es[0], cleans), es[1..], cleans)
  }

  const EMPTY := World(Disk(map[], map[], 0), map[], map[], {}, 0)

  // ----- One writer undisturbed, as the code is written -----

  /** A writer's remaining operations with nobody else on the disk. */
  function Alone(w: Writer, turns: Pc -> Turn, cleans: bool, d: Disk): Disk
    decreases Remaining(w.pc)
  {
    if w.pc.Done? then d
    else
      var r := WriterStep(w, turns(w.pc), cleans, d);
      Alone(r.0, turns, cleans, r.1)
  }

  function Remaining(pc: Pc): nat {
    match pc
    case Serializing => 12
    case Serialized => 11
    case Cleaned => 10
    case Building => 9
    case Built => 8
    case MetaUnlinked => 7
    case MetaLinked(_) => 6
    case MetaMoved(_) => 5
    case BuilderUnlinked => 4
    case BuilderLinked => 3
    case Dropping => 1
    case Rescuing => 2
    case Rescued => 1
    case Done => 0
  }

  /** What rename() leaves: the old file under the new name, in place of what had that name. */
  function Renamed(d: Disk, src: Path, dst: Path): Disk
    requires src in d.dir
  {
    d.(dir := (d.dir - {src})[dst := d.dir[src]])
  }

  /** What move() leaves. */
  function Moved(d: Disk, src: Path, dst: Path): Disk {
    if src in d.dir && src != dst then Renamed(d, src, dst) else Unlink(Unlink(d, dst), src)
  }

  /** With nobody in between, unlink, link, unlink is rename(); but if there is no source, the destination
      is lost. */
  lemma MoveIsRename(d: Disk, src: Path, dst: Path)
    ensures var u := Unlink(d, dst); var v := Unlink(Link(u, src, dst), src);
      && (CanLink(u, src, dst) <==> src in d.dir && src != dst)
      && v == Moved(d, src, dst)
  {
    if src in d.dir && src != dst {
      assert (d.dir - {dst})[dst := d.dir[src]] - {src} == (d.dir - {src})[dst := d.dir[src]];
    }
  }

  class Directory {
    var disk: Disk

    constructor (d: Disk)
      ensures disk == d
    {
      disk := d;
    }

    /** util/CacheFiles.cc: move().  Undisturbed, it renames, if there is something to rename. */
    method Move(src: Path, dst: Path) returns (moved: bool)
      modifies this
      ensures moved == (src in old(disk).dir && src != dst)
      ensures disk == if moved then Renamed(old(disk), src, dst) else Unlink(Unlink(old(disk), dst), src)
    {
      MoveIsRename(disk, src, dst);
      disk := Unlink(disk, dst);
      moved := CanLink(disk, src, dst);
      disk := Link(disk, src, dst);
      disk := Unlink(disk, src);
    }

    /** LLVMBuilder::finishCachedModule. */
    method FinishCachedModule(u: nat, retain: bool)
      modifies this
      ensures retain && BuilderTemp(u) in old(disk).dir ==> disk == Renamed(old(disk), BuilderTemp(u), Builder)
      ensures retain && BuilderTemp(u) !in old(disk).dir ==> disk == Unlink(Unlink(old(disk), Builder), BuilderTemp(u))
      ensures !retain ==> disk == Unlink(old(disk), BuilderTemp(u))
    {
      if retain {
        var _ := Move(BuilderTemp(u), Builder);
      } else {
        disk := Unlink(disk, BuilderTemp(u));
      }
    }

    /** The builder's cacheModule; false stands for an exception. */
    method BuilderCacheModule(w: Writer, turns: Pc -> Turn, cleans: bool) returns (ok: bool)
      requires w.pc.Serialized?
      modifies this
      ensures Alone(w, turns, cleans, old(disk)) == Alone(w.(pc := if ok then Built else Rescuing), turns, cleans, disk)
    {
      if turns(Serialized).Throw? {
        return false;
      }
      if cleans {
        disk := Unlink(disk, Builder);
      }
      assert Alone(w, turns, cleans, old(disk)) == Alone(w.(pc := Cleaned), turns, cleans, disk);
      if turns(Cleaned).Throw? {
        return false;
      }
      disk := Create(disk, BuilderTemp(w.u), w.session);
      assert Alone(w, turns, cleans, old(disk)) == Alone(w.(pc := Building), turns, cleans, disk);
      if turns(Building).Throw? {
        disk := Unlink(disk, BuilderTemp(w.u));
        return false;
      }
      disk := Complete(disk, BuilderTemp(w.u), w.session);
      return true;
    }

    /** Context::cacheModule: undisturbed, it does the steps of the state machine. */
    method CacheModule(u: nat, session: nat, turns: Pc -> Turn, cleans: bool)
      modifies this
      ensures disk == Alone(Writer(u, session, Serializing), turns, cleans, Create(old(disk), MetaTemp(u), session))
    {
      disk := Create(disk, MetaTemp(u), session);
      ghost var all := Alone(Writer(u, session, Serializing), turns, cleans, disk);
      if turns(Serializing).Throw? {
        disk := Unlink(disk, MetaTemp(u));
        return;
      }
      if !turns(Serializing).Lose? {
        disk := Complete(disk, MetaTemp(u), session);
      }
      var w := Writer(u, session, Serialized);
      assert all == Alone(w, turns, cleans, disk);
      var built := BuilderCacheModule(w, turns, cleans);
      if built {
        ghost var before := disk;
        var moved := Move(MetaTemp(u), Meta);
        MovedAlone(w.(pc := Built), turns, cleans, before);
        assert all == Alone(w.(pc := MetaMoved(moved)), turns, cleans, disk);
        ghost var middle := disk;
        FinishCachedModule(u, moved);
        if moved {
          FinishedAlone(w.(pc := MetaMoved(true)), turns, cleans, middle);
        } else {
          AbandonedAlone(w.(pc := MetaMoved(false)), turns, cleans, middle);
          disk := Unlink(disk, MetaTemp(u));
        }
      } else {
        AbandonedAlone(w.(pc := Rescuing), turns, cleans, disk);
        FinishCachedModule(u, false);
        disk := Unlink(disk, MetaTemp(u));
      }
    }
  }

  lemma MovedAlone(w: Writer, turns: Pc -> Turn, cleans: bool, d: Disk)
    requires w.pc.Built?
    ensures Alone(w, turns, cleans, d)
         == Alone(w.(pc := MetaMoved(MetaTemp(w.u) in d.dir)), turns, cleans, Moved(d, MetaTemp(w.u), Meta))
  {
    hide Renamed;
    MoveIsRename(d, MetaTemp(w.u), Meta);
    var d1 := Unlink(d, Meta);
    var moved := CanLink(d1, MetaTemp(w.u), Meta);
    assert Alone(w, turns, cleans, d) == Alone(w.(pc := MetaUnlinked), turns, cleans, d1);
    assert Alone(w.(pc := MetaUnlinked), turns, cleans, d1)
        == Alone(w.(pc := MetaLinked(moved)), turns, cleans, Link(d1, MetaTemp(w.u), Meta));
  }

  lemma FinishedAlone(w: Writer, turns: Pc -> Turn, cleans: bool, d: Disk)
    requires w.pc == MetaMoved(true)
    ensures Alone(w, turns, cleans, d) == Moved(d, BuilderTemp(w.u), Builder)
  {
    hide Renamed;
    MoveIsRename(d, BuilderTemp(w.u), Builder);
    var d1 := Unlink(d, Builder);
    var d2 := Link(d1, BuilderTemp(w.u), Builder);
    assert Alone(w, turns, cleans, d) == Alone(w.(pc := BuilderUnlinked), turns, cleans, d1);
    assert Alone(w.(pc := BuilderUnlinked), turns, cleans, d1) == Alone(w.(pc := BuilderLinked), turns, cleans, d2);
    var d3 := Unlink(d2, BuilderTemp(w.u));
    assert Alone(w.(pc := BuilderLinked), turns, cleans, d2) == Alone(w.(pc := Done), turns, cleans, d3);
  }

  lemma AbandonedAlone(w: Writer, turns: Pc -> Turn, cleans: bool, d: Disk)
    requires w.pc == MetaMoved(false) || w.pc == Rescuing
    ensures Alone(w, turns, cleans, d) == Unlink(Unlink(d, BuilderTemp(w.u)), MetaTemp(w.u))
  {
    var d1 := Unlink(d, BuilderTemp(w.u));
    var d2 := Unlink(d1, MetaTemp(w.u));
    var next := if w.pc.Rescuing? then Rescued else Dropping;
    assert Alone(w, turns, cleans, d) == Alone(w.(pc := next), turns, cleans, d1);
    assert Alone(w.(pc := next), turns, cleans, d1) == Alone(w.(pc := Done), turns, cleans, d2);
  }
}
