/** The image file and the map file of a job as the operating system keeps them: bytes known to be durable and
    bytes written since the last sync. A crash keeps the durable bytes, any prefix of the unsynced bytes of
    the map, and any of the unsynced bytes of the image. */
module Media {
  import opened Prelude

  datatype Write = Write(offset: nat, data: bytes) {
    predicate Covers(b: nat) {
      offset <= b < offset + |data|
    }
  }

  type Contents = map<nat, uint8>

  function Written(c: Contents, w: Write): (r: Contents)
    ensures forall b: nat :: b in r <==> b in c || w.Covers(b)
    ensures forall b: nat :: w.Covers(b) ==> r[b] == w.data[b - w.offset]
    ensures forall b: nat :: b in c && !w.Covers(b) ==> r[b] == c[b]
  {
    c + map b: nat | w.offset <= b < w.offset + |w.data| && w.Covers(b) :: w.data[b - w.offset]
  }

  function AllWritten(c: Contents, ws: seq<Write>): Contents {
    if ws == [] then c else Written(AllWritten(c, ws[..|ws|-1]), ws[|ws|-1])
  }

  datatype ImageFile = ImageFile(synced: Contents, unsynced: seq<Write>) {
    /** What a reader of the image sees while the system is up. */
    function Working(): Contents {
      AllWritten(synced, unsynced)
    }

    /** The contents a crash may leave. */
    ghost predicate MayCrashTo(c: Contents) {
      && (forall b :: b in synced ==> b in c)
      && (forall b :: b in c ==>
            (b in synced && c[b] == synced[b]) ||
            exists i :: 0 <= i < |unsynced| && unsynced[i].Covers(b) && c[b] == unsynced[i].data[b - unsynced[i].offset])
    }
  }

  /** The header is rewritten in place, atomically; the body behind it only grows. */
  datatype Header = Header(sectorSize: uint32, sectorCount: uint64, identity: bytes, clean: bool) {
    predicate Valid() {
      sectorSize > 0 && sectorCount > 0
    }

    function Described(): (uint32, uint64, bytes) {
      (sectorSize, sectorCount, identity)
    }
  }

  datatype MapFile = MapFile(header: Header, synced: bytes, unsynced: bytes) {
    function Body(): bytes {
      synced + unsynced
    }

    ghost predicate MayCrashTo(body: bytes) {
      synced <= body <= Body()
    }
  }

  datatype Disk = Disk(image: ImageFile, map_: MapFile)

  /** d is a state of the two files on the way to appending the data to the map. */
  ghost predicate Grows(d: Disk, from: Disk, data: bytes) {
    && d.image == from.image
    && d.map_.header.Described() == from.map_.header.Described()
    && from.map_.synced <= d.map_.synced
    && from.map_.Body() <= d.map_.Body() <= from.map_.Body() + data
  }

  ghost predicate Recorded(before: seq<Disk>, after: seq<Disk>, from: Disk, data: bytes) {
    before <= after && forall i :: |before| <= i < |after| ==> Grows(after[i], from, data)
  }

  lemma GrowsThen(d: Disk, middle: Disk, from: Disk, first: bytes, second: bytes)
    requires Grows(middle, from, first) && middle.map_.Body() == from.map_.Body() + first && Grows(d, middle, second)
    ensures Grows(d, from, first + second)
  {
    assert from.map_.Body() + (first + second) == (from.map_.Body() + first) + second;
  }

  lemma GrowsMore(d: Disk, from: Disk, data: bytes, more: bytes)
    requires Grows(d, from, data)
    ensures Grows(d, from, data + more)
  {
    assert from.map_.Body() + (data + more) == (from.map_.Body() + data) + more;
  }

  lemma RecordedThen(h0: seq<Disk>, h1: seq<Disk>, h2: seq<Disk>, from: Disk, middle: Disk, first: bytes, second: bytes)
    requires Recorded(h0, h1, from, first) && Recorded(h1, h2, middle, second)
    requires Grows(middle, from, first) && middle.map_.Body() == from.map_.Body() + first
    ensures Recorded(h0, h2, from, first + second)
  {
    hide Grows;
    forall i | |h0| <= i < |h2| ensures Grows(h2[i], from, first + second) {
      if i < |h1| {
        assert h2[i] == h1[i];
        GrowsMore(h2[i], from, first, second);
      } else {
        GrowsThen(h2[i], middle, from, first, second);
      }
    }
  }

  lemma RecordedMore(h0: seq<Disk>, h1: seq<Disk>, from: Disk, data: bytes, more: bytes)
    requires Recorded(h0, h1, from, data)
    ensures Recorded(h0, h1, from, data + more)
  {
    hide Grows;
    forall i | |h0| <= i < |h1| ensures Grows(h1[i], from, data + more) {
      GrowsMore(h1[i], from, data, more);
    }
  }

  /** The two open files. Outcomes of system calls are arbitrary; `history` holds every state of the files that a
      crash could have met, up to the first write or sync of the map that failed. */
  class Medium {
    var image: ImageFile
    var mapFile: MapFile
    ghost var failed: bool

    /** Whether a call since the run began has reported a failure. */
    ghost var faulty: bool
    ghost var history: seq<Disk>

    ghost function Now(): Disk
      reads this
    {
      Disk(image, mapFile)
    }

    constructor (image: ImageFile, mapFile: MapFile)
      ensures this.image == image && this.mapFile == mapFile && !failed && history == [Disk(image, mapFile)]
    {
      this.image, this.mapFile := image, mapFile;
      failed, faulty, history := false, false, [Disk(image, mapFile)];
    }

    ghost method Record()
      modifies this`history
      ensures history == if failed then old(history) else old(history) + [Now()]
    {
      if !failed {
        history := history + [Now()];
      }
    }

    /** A session over the files begins: its crash points are recorded from here on. */
    ghost method Begin()
      modifies this`history, this`failed
      ensures history == [Now()] && !failed
    {
      history, failed := [Now()], false;
    }

    /** The crash points before this one are no longer of interest. */
    ghost method Restart()
      modifies this`history, this`faulty
      ensures history == (if failed then [] else [Now()]) && !faulty
    {
      history, faulty := if failed then [] else [Now()], false;
    }

    method WriteImageAt(data: bytes, offset: nat) returns (n: nat, ok: bool)
      modifies this`image, this`history, this`faulty
      ensures faulty == (old(faulty) || !ok)
      ensures n <= |data|
      ensures image == old(image).(unsynced := old(image).unsynced + [Write(offset, data[..n])])
      ensures history == if failed then old(history) else old(history) + [Now()]
    {
      n :| 0 <= n <= |data|;
      ok := *;
      image := image.(unsynced := image.unsynced + [Write(offset, data[..n])]);
      faulty := faulty || !ok;
      Record();
    }

    method SyncImage() returns (ok: bool)
      modifies this`image, this`history, this`faulty
      ensures faulty == (old(faulty) || !ok)
      ensures image == if ok then ImageFile(old(image).Working(), []) else old(image)
      ensures history == if failed then old(history) else old(history) + [Now()]
    {
      ok := *;
      if ok {
        image := ImageFile(image.Working(), []);
      }
      faulty := faulty || !ok;
      Record();
    }

    method SeekEnd() returns (ok: bool)
      modifies this`faulty
      ensures faulty == (old(faulty) || !ok)
    {
      ok := *;
      faulty := faulty || !ok;
    }

    method AppendMap(data: bytes) returns (n: nat, ok: bool)
      modifies this`mapFile, this`history, this`failed, this`faulty
      ensures faulty == (old(faulty) || !ok)
      ensures n <= |data|
      ensures mapFile == old(mapFile).(unsynced := old(mapFile).unsynced + data[..n])
      ensures history == if old(failed) then old(history) else old(history) + [Now()]
      ensures failed == (old(failed) || !ok)
    {
      n :| 0 <= n <= |data|;
      ok := *;
      mapFile := mapFile.(unsynced := mapFile.unsynced + data[..n]);
      Record();
      failed, faulty := failed || !ok, faulty || !ok;
    }

    method SyncMap() returns (ok: bool)
      modifies this`mapFile, this`history, this`failed, this`faulty
      ensures faulty == (old(faulty) || !ok)
      ensures mapFile == if ok then MapFile(old(mapFile).header, old(mapFile).Body(), []) else old(mapFile)
      ensures history == if old(failed) then old(history) else old(history) + [Now()]
      ensures failed == (old(failed) || !ok)
    {
      ok := *;
      if ok {
        mapFile := MapFile(mapFile.header, mapFile.Body(), []);
      }
      Record();
      failed, faulty := failed || !ok, faulty || !ok;
    }

    method WriteHeader(header: Header) returns (ok: bool)
      modifies this`mapFile, this`history, this`faulty
      ensures faulty == (old(faulty) || !ok)
      ensures mapFile == if ok then old(mapFile).(header := header) else old(mapFile)
      ensures history == if failed then old(history) else old(history) + [Now()]
    {
      ok := *;
      if ok {
        mapFile := mapFile.(header := header);
      }
      faulty := faulty || !ok;
      Record();
    }
  }

  /** writeFull (internal/recoverymap/file_io.go:8): repeated writes until nothing is left. */
  method WriteFull(m: Medium, data: bytes) returns (ok: bool)
    modifies m`mapFile, m`history, m`failed, m`faulty
    ensures m.faulty == (old(m.faulty) || !ok)
    ensures ok ==> m.mapFile == old(m.mapFile).(unsynced := old(m.mapFile).unsynced + data) && m.failed == old(m.failed)
    ensures !ok ==> m.failed && m.mapFile.header == old(m.mapFile.header)
    ensures Grows(m.Now(), old(m.Now()), data)
    ensures Recorded(old(m.history), m.history, old(m.Now()), data)
    ensures old(m.failed) ==> m.failed && m.history == old(m.history)
  {
    hide Grows, Recorded;
    var rest := data;
    ghost var done: bytes, unsynced := [], m.mapFile.unsynced;
    NothingRecorded(m.history, m.Now(), data);
    while |rest| > 0
      invariant done + rest == data
      invariant m.mapFile == old(m.mapFile).(unsynced := unsynced + done)
      invariant m.failed == old(m.failed) && m.faulty == old(m.faulty)
      invariant Recorded(old(m.history), m.history, old(m.Now()), data)
      invariant m.failed ==> m.history == old(m.history)
      decreases |rest|
    {
      ghost var before := m.history;
      var written, fine := m.AppendMap(rest);
      Associative(unsynced, done, rest[..written]);
      done := done + rest[..written];
      PartWritten(m.Now(), old(m.Now()), done, rest[written..], data);
      OneRecorded(old(m.history), before, old(m.Now()), data, m.Now());
      if !fine {
        return false;
      }
      if written == 0 {
        m.failed, m.faulty := true, true;
        return false;
      }
      rest := rest[written..];
    }
    assert done == data;
    PartWritten(m.Now(), old(m.Now()), data, [], data);
    return true;
  }

  lemma NothingRecorded(h: seq<Disk>, from: Disk, data: bytes)
    ensures Recorded(h, h, from, data)
  {
  }

  lemma OneRecorded(h0: seq<Disk>, h1: seq<Disk>, from: Disk, data: bytes, d: Disk)
    requires Recorded(h0, h1, from, data) && Grows(d, from, data)
    ensures Recorded(h0, h1 + [d], from, data)
  {
    hide Grows;
  }

  lemma PartWritten(d: Disk, from: Disk, done: bytes, rest: bytes, data: bytes)
    requires done + rest == data
    requires d == from.(map_ := from.map_.(unsynced := from.map_.unsynced + done))
    ensures Grows(d, from, data)
  {
    assert from.map_.synced + (from.map_.unsynced + done) == from.map_.Body() + done;
    assert from.map_.Body() + data == (from.map_.Body() + done) + rest;
  }
}
