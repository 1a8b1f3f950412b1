/**
 The append-and-prune file store.  Records are appended to the last file of
 their type; pruning only forgets the record, and a file is unlinked when its
 last record goes.
 */
module FileStore {
  import opened Primitives
  import opened Bytes32

  datatype Kind = BLOCK | UNDO | MERKLE

  datatype BlockRecord = BlockRecord(file: nat, position: nat, length: nat)

  datatype FileRecord = FileRecord(blocks: nat, used: nat, length: nat)

  type Key = (Kind, Hash)
  type File = (Kind, nat)

  const MAX_FILENO := 99999

  /** Bytes of magic before a record: network magic and length, and the hash
      for the kinds whose data does not contain it. */
  function MagicLength(kind: Kind): nat {
    if kind == UNDO then 40 else 8
  }

  function Magic(network: nat, kind: Kind, hash: Hash, length: nat): (s: Bytes)
    ensures |s| == MagicLength(kind)
  {
    U32(network) + U32(length) + if kind == UNDO then hash else []
  }

  /** Writing `data` at `position` of a file at least that long. */
  function Overwrite(file: Bytes, position: nat, data: Bytes): (s: Bytes)
    requires position <= |file|
    ensures |s| >= |file| && |s| >= position + |data|
    ensures s[..position] == file[..position]
    ensures s[position..position + |data|] == data
  {
    file[..position] + data + if position + |data| < |file| then file[position + |data|..] else []
  }

  predicate Fits(kind: Kind, r: BlockRecord, f: FileRecord, bytes: Bytes) {
    MagicLength(kind) <= r.position && r.position + r.length <= f.used <= |bytes|
  }

  predicate Apart(kind: Kind, a: BlockRecord, b: BlockRecord) {
    a.file == b.file ==>
      || a.position + a.length <= b.position - MagicLength(kind)
      || b.position + b.length <= a.position - MagicLength(kind)
  }

  type Records = map<Key, BlockRecord>
  type Files = map<File, FileRecord>
  type Disk = map<File, Bytes>

  function FileOf(index: Records, k: Key): File
    requires k in index
  {
    (k.0, index[k].file)
  }

  /** The records kept in one file. */
  function LiveIn(index: Records, f: File): set<Key> {
    set k | k in index && FileOf(index, k) == f
  }

  /** Every record lies in the used part of an existing file. */
  ghost predicate Located(index: Records, files: Files, disk: Disk) {
    forall k :: k in index ==>
      && FileOf(index, k) in files && FileOf(index, k) in disk
      && Fits(k.0, index[k], files[FileOf(index, k)], disk[FileOf(index, k)])
  }

  /** No two records of a kind overlap. */
  ghost predicate Disjoint(index: Records) {
    forall j, k :: j in index && k in index && j != k && j.0 == k.0 ==> Apart(j.0, index[j], index[k])
  }

  /** A file is known exactly while it holds records, and counts them. */
  ghost predicate Counted(index: Records, files: Files, last: map<Kind, nat>, disk: Disk) {
    forall f :: f in files ==>
      && f in disk && files[f].used <= |disk[f]|
      && files[f].blocks == |LiveIn(index, f)| && files[f].blocks > 0
      && f.0 in last && f.1 <= last[f.0]
  }

  /** What the store holds. */
  ghost function Holding(index: Records, disk: Disk): map<Key, Bytes>
    requires forall k :: k in index ==>
               FileOf(index, k) in disk && index[k].position + index[k].length <= |disk[FileOf(index, k)]|
  {
    map k | k in index :: Slice(disk[FileOf(index, k)], index[k])
  }

  function Slice(bytes: Bytes, r: BlockRecord): Bytes
    requires r.position + r.length <= |bytes|
  {
    bytes[r.position..r.position + r.length]
  }

  /** What a read gives, from the bytes of the file that begin with a record of n
      bytes: only reads with an offset are checked against the record. */
  function ReadRule(bytes: Bytes, n: nat, offset: Option<nat>, length: Option<nat>): Outcome<Option<Bytes>>
    requires n <= |bytes|
  {
    var count := if length.Some? then length.value else 0;
    if offset.None? then
      if count == 0 then Accept(Some(bytes[..n]))
      else if count <= |bytes| then Accept(Some(bytes[..count]))
      else Throw("Wrong number of bytes read.")
    else
      var from := offset.value;
      if count > 0 then
        if from + count <= n then Accept(Some(bytes[from..from + count])) else Throw("Out-of-bounds read.")
      else if from == 0 then Accept(Some(bytes[..n]))
      else if from < n then Accept(Some(bytes[from..n]))
      else if from == n then Throw("Out-of-bounds read.")
      else Throw("RangeError")
  }

  /** Without an offset a read of `count` bytes gives the start of the record exactly
      when the record is that long; with one it gives the slice exactly when the
      slice lies in the record, and fails otherwise. */
  lemma ReadSlices(bytes: Bytes, data: Bytes, from: nat, count: nat)
    requires data <= bytes && count > 0
    ensures (exists k: nat :: k <= |data| && ReadRule(bytes, |data|, None, Some(count)) == Accept(Some(data[..k])))
            <==> count <= |data|
    ensures count <= |data| ==> ReadRule(bytes, |data|, None, Some(count)) == Accept(Some(data[..count]))
    ensures var o := ReadRule(bytes, |data|, Some(from), Some(count));
            if from + count <= |data| then o == Accept(Some(data[from..from + count]))
            else o == Throw("Out-of-bounds read.")
    ensures 0 < from < |data| ==>
              ReadRule(bytes, |data|, Some(from), None) == Accept(Some(data[from..]))
    ensures 0 < from && from >= |data| ==> ReadRule(bytes, |data|, Some(from), None).Throw?
    ensures ReadRule(bytes, |data|, None, None) == Accept(Some(data))
  {
    var rest := bytes[|data|..];
    assert bytes == data + rest;
    assert bytes[..|data|] == data;
    if count <= |data| {
      assert bytes[..count] == data[..count];
    } else if count <= |bytes| {
      assert |bytes[..count]| > |data|;
    }
    if from + count <= |data| {
      assert bytes[from..from + count] == data[from..from + count];
    }
    if from < |data| {
      assert bytes[from..|data|] == data[from..];
    }
  }

  lemma HoldingAdd(index: Records, disk: Disk, k: Key, data: Bytes, index': Records, disk': Disk)
    requires forall j :: j in index ==>
               FileOf(index, j) in disk && index[j].position + index[j].length <= |disk[FileOf(index, j)]|
    requires index'.Keys == index.Keys + {k}
    requires forall j :: j in index' ==>
               && FileOf(index', j) in disk'
               && index'[j].position + index'[j].length <= |disk'[FileOf(index', j)]|
               && Slice(disk'[FileOf(index', j)], index'[j])
                  == if j == k then data else Slice(disk[FileOf(index, j)], index[j])
    ensures Holding(index', disk') == Holding(index, disk)[k := data]
  {
  }

  lemma HoldingSame(index: Records, disk: Disk, disk': Disk)
    requires forall k :: k in index ==>
               && FileOf(index, k) in disk && index[k].position + index[k].length <= |disk[FileOf(index, k)]|
               && FileOf(index, k) in disk' && disk'[FileOf(index, k)] == disk[FileOf(index, k)]
    ensures Holding(index, disk') == Holding(index, disk)
  {
  }

  // ---------------------------------------------------------------------
  // Appending
  // ---------------------------------------------------------------------

  /** The new record sits beyond everything used in its file. */
  lemma AppendLocated(index: Records, files: Files, disk: Disk, k: Key, r: BlockRecord,
                      file: FileRecord, bytes: Bytes)
    requires Located(index, files, disk) && Disjoint(index) && k !in index
    requires var f := (k.0, r.file);
             && (f in files ==> files[f].used <= file.used && f in disk && |disk[f]| <= |bytes|)
             && (f in files ==> r.position == files[f].used + MagicLength(k.0))
             && (f !in files ==> r.position == MagicLength(k.0))
    requires file.used == r.position + r.length <= |bytes|
    ensures var f := (k.0, r.file);
            && Located(index[k := r], files[f := file], disk[f := bytes])
            && Disjoint(index[k := r])
  {
  }

  lemma LiveAdd(index: Records, k: Key, r: BlockRecord, g: File)
    requires k !in index
    ensures LiveIn(index[k := r], g) == LiveIn(index, g) + if g == (k.0, r.file) then {k} else {}
    ensures k !in LiveIn(index, g)
  {
  }

  lemma AppendCounted(index: Records, files: Files, last: map<Kind, nat>, disk: Disk, k: Key,
                      r: BlockRecord, file: FileRecord, bytes: Bytes)
    requires Located(index, files, disk) && Counted(index, files, last, disk) && k !in index
    requires var f := (k.0, r.file);
             && file.blocks == (if f in files then files[f].blocks else 0) + 1
             && (k.0 in last ==> last[k.0] <= r.file)
    requires file.used <= |bytes|
    ensures var f := (k.0, r.file);
            Counted(index[k := r], files[f := file], last[k.0 := r.file], disk[f := bytes])
  {
    hide LiveIn;
    var f := (k.0, r.file);
    var files' := files[f := file];
    if f !in files {
      assert LiveIn(index, f) == {} by { NoneLive(index, files, disk, f); }
    }
    hide Located;
    forall g | g in files'
      ensures files'[g].blocks == |LiveIn(index[k := r], g)|
    {
      LiveAdd(index, k, r, g);
    }
  }

  lemma NoneLive(index: Records, files: Files, disk: Disk, f: File)
    requires Located(index, files, disk) && f !in files
    ensures LiveIn(index, f) == {}
  {
  }

  /** Appending changes no other record's bytes. */
  lemma AppendHolding(index: Records, files: Files, disk: Disk, k: Key, r: BlockRecord, bytes: Bytes,
                      data: Bytes, index': Records, disk': Disk)
    requires Located(index, files, disk) && k !in index
    requires index' == index[k := r] && disk' == disk[(k.0, r.file) := bytes]
    requires var f := (k.0, r.file);
             && (f in files ==> f in disk && files[f].used <= |disk[f]| && |disk[f]| <= |bytes|
                                && bytes[..files[f].used] == disk[f][..files[f].used])
    requires r.position + r.length <= |bytes| && Slice(bytes, r) == data
    ensures forall j :: j in index' ==>
              && FileOf(index', j) in disk'
              && index'[j].position + index'[j].length <= |disk'[FileOf(index', j)]|
    ensures Holding(index', disk') == Holding(index, disk)[k := data]
  {
    hide Slice, Holding;
    var f := (k.0, r.file);
    forall j | j in index'
      ensures FileOf(index', j) in disk'
      ensures index'[j].position + index'[j].length <= |disk'[FileOf(index', j)]|
      ensures Slice(disk'[FileOf(index', j)], index'[j])
              == if j == k then data else Slice(disk[FileOf(index, j)], index[j])
    {
      if j != k {
        assert FileOf(index', j) == FileOf(index, j);
        if FileOf(index, j) == f {
          SamePrefix(disk[f], bytes, files[f].used, index[j]);
        }
      }
    }
    HoldingAdd(index, disk, k, data, index', disk');
  }

  lemma SamePrefix(a: Bytes, b: Bytes, used: nat, r: BlockRecord)
    requires used <= |a| && used <= |b| && a[..used] == b[..used]
    requires r.position + r.length <= used
    ensures Slice(a, r) == Slice(b, r)
  {
    assert Slice(a, r) == a[..used][r.position..r.position + r.length];
    assert Slice(b, r) == b[..used][r.position..r.position + r.length];
  }

  /** The two writes of a record: its magic, then its data. */
  function Appended(before: Bytes, used: nat, magic: Bytes, data: Bytes): (after: Bytes)
    requires used <= |before|
    ensures |after| >= |before| && |after| >= used + |magic| + |data|
    ensures after[..used] == before[..used]
    ensures after[used + |magic|..used + |magic| + |data|] == data
  {
    var mid := Overwrite(before, used, magic);
    assert mid[..used + |magic|][..used] == mid[..used];
    Overwrite(mid, used + |magic|, data)
  }

  /** Appending behind the used part adds magic and data, in this order. */
  lemma AppendedBytes(before: Bytes, used: nat, magic: Bytes, data: Bytes)
    requires used == |before|
    ensures Appended(before, used, magic, data) == before + magic + data
  {
  }

  // ---------------------------------------------------------------------
  // Pruning
  // ---------------------------------------------------------------------

  lemma LiveRemove(index: Records, k: Key, g: File)
    requires k in index
    ensures LiveIn(index - {k}, g) == LiveIn(index, g) - {k}
    ensures k in LiveIn(index, g) <==> FileOf(index, k) == g
  {
  }

  lemma PruneLocated(index: Records, files: Files, last: map<Kind, nat>, disk: Disk, k: Key)
    requires Located(index, files, disk) && Disjoint(index) && Counted(index, files, last, disk)
    requires k in index
    ensures Disjoint(index - {k})
    ensures var f := FileOf(index, k);
            if files[f].blocks == 1 then Located(index - {k}, files - {f}, disk - {f})
            else Located(index - {k}, files[f := files[f].(blocks := files[f].blocks - 1)], disk)
  {
    var f, index' := FileOf(index, k), index - {k};
    LiveRemove(index, k, f);
    if files[f].blocks == 1 {
      assert |LiveIn(index, f) - {k}| == 0;
      forall j | j in index' ensures FileOf(index', j) == FileOf(index, j) != f { }
    }
  }

  /** The count of a file says whether another record is left in it. */
  lemma LastGoes(index: Records, files: Files, last: map<Kind, nat>, disk: Disk, k: Key)
    requires Located(index, files, disk) && Counted(index, files, last, disk) && k in index
    ensures FileOf(index, k) in files
    ensures files[FileOf(index, k)].blocks == 1 <==> LiveIn(index - {k}, FileOf(index, k)) == {}
  {
    hide LiveIn, Fits;
    var f := FileOf(index, k);
    LiveRemove(index, k, f);
    assert |LiveIn(index - {k}, f)| == |LiveIn(index, f)| - 1;
  }

  lemma PruneCounted(index: Records, files: Files, last: map<Kind, nat>, disk: Disk, k: Key)
    requires Located(index, files, disk) && Counted(index, files, last, disk)
    requires k in index
    ensures var f := FileOf(index, k);
            if files[f].blocks == 1 then Counted(index - {k}, files - {f}, last, disk - {f})
            else Counted(index - {k}, files[f := files[f].(blocks := files[f].blocks - 1)], last, disk)
  {
    hide LiveIn, Fits;
    var f := FileOf(index, k);
    forall g | g in files
      ensures |LiveIn(index - {k}, g)| == if g == f then files[g].blocks - 1 else files[g].blocks
    {
      LiveRemove(index, k, g);
      if g != f {
        assert LiveIn(index, g) - {k} == LiveIn(index, g);
      }
    }
  }

  lemma PruneHolding(index: Records, disk: Disk, k: Key, disk': Disk)
    requires forall j :: j in index ==>
               FileOf(index, j) in disk && index[j].position + index[j].length <= |disk[FileOf(index, j)]|
    requires k in index
    requires forall j :: j in index - {k} ==>
               FileOf(index, j) in disk' && disk'[FileOf(index, j)] == disk[FileOf(index, j)]
    ensures forall j :: j in index - {k} ==>
              && FileOf(index - {k}, j) in disk'
              && (index - {k})[j].position + (index - {k})[j].length <= |disk'[FileOf(index - {k}, j)]|
    ensures Holding(index - {k}, disk') == Holding(index, disk) - {k}
  {
  }

  /** Emptying a file that is about to be written to makes no difference. */
  lemma UseFile(before: Store, now: Store, network: nat, maxFileLength: nat, k: Key, data: Bytes, fileno: nat,
                file: FileRecord)
    requires var f := (k.0, fileno);
             && file == (if f in before.files then before.files[f] else FileRecord(0, 0, maxFileLength))
             && f in now.disk && file.used <= |now.disk[f]|
             && now == before.(disk := if f in before.files then before.disk else before.disk[f := []])
    ensures Put(now, network, k, data, fileno, file, now.disk[(k.0, fileno)])
            == AfterWrite(before, network, maxFileLength, k, data, fileno)
  {
    hide Appended, Magic;
  }

  datatype Store = Store(index: Records, files: Files, last: map<Kind, nat>, disk: Disk)

  /** A record written behind the used part of a file that held `before`. */
  function Put(s: Store, network: nat, k: Key, data: Bytes, fileno: nat, file: FileRecord, before: Bytes): Store
    requires file.used <= |before|
  {
    var f, mlength := (k.0, fileno), MagicLength(k.0);
    Store(s.index[k := BlockRecord(fileno, file.used + mlength, |data|)],
          s.files[f := file.(blocks := file.blocks + 1, used := file.used + mlength + |data|)],
          s.last[k.0 := fileno],
          s.disk[f := Appended(before, file.used, Magic(network, k.0, k.1, |data|), data)])
  }

  /** The same for a file that may have to be created first. */
  function AfterWrite(s: Store, network: nat, maxFileLength: nat, k: Key, data: Bytes, fileno: nat): Store {
    var f := (k.0, fileno);
    if f in s.files && f in s.disk && s.files[f].used <= |s.disk[f]| then
      Put(s, network, k, data, fileno, s.files[f], s.disk[f])
    else
      Put(s, network, k, data, fileno, FileRecord(0, 0, maxFileLength), [])
  }

  lemma NothingStored()
    ensures Located(map[], map[], map[]) && Disjoint(map[]) && Counted(map[], map[], map[], map[])
    ensures Holding(map[], map[]) == map[]
  {
  }

  class FileBlockStore {
    const network: nat
    const maxFileLength: nat
    var index: Records
    var files: Files
    var last: map<Kind, nat>
    var disk: Disk
    var writing: set<Kind>

    ghost predicate Valid()
      reads this
    {
      Located(index, files, disk) && Disjoint(index) && Counted(index, files, last, disk)
    }

    ghost function Contents(): map<Key, Bytes>
      requires Valid()
      reads this
    {
      Holding(index, disk)
    }

    constructor (network: nat, maxFileLength: nat)
      ensures Valid() && Contents() == map[] && writing == {}
      ensures State() == Store(map[], map[], map[], map[])
      ensures this.network == network && this.maxFileLength == maxFileLength
    {
      this.network, this.maxFileLength := network, maxFileLength;
      index, files, last, disk, writing := map[], map[], map[], map[], {};
      hide Located, Disjoint, Counted, Holding;
      NothingStored();
    }

    function State(): Store
      reads this
    {
      Store(index, files, last, disk)
    }

    function LastFile(kind: Kind): nat
      reads this
    {
      if kind in last then last[kind] else 0
    }

    /** The last file cannot take `length` more bytes. */
    predicate Full(kind: Kind, length: nat)
      reads this
    {
      var f := (kind, LastFile(kind));
      f in files && files[f].used + length > files[f].length
    }

    /** The file that an append of `length` bytes goes to. */
    function Target(kind: Kind, length: nat): nat
      reads this
    {
      LastFile(kind) + if Full(kind, length) then 1 else 0
    }

    predicate CanAllocate(kind: Kind, length: nat)
      reads this
    {
      length <= maxFileLength && Target(kind, length) <= MAX_FILENO
    }

    /** `allocate`: the file to append to, created empty when it has no record. */
    method Allocate(kind: Kind, length: nat) returns (o: Outcome<(nat, FileRecord)>)
      requires Valid()
      modifies this`disk
      ensures Valid() && Contents() == old(Contents())
      ensures o.Accept? <==> CanAllocate(kind, length)
      ensures !o.Accept? ==> o.Throw?
      ensures o.Accept? ==>
                var fileno, f := Target(kind, length), (kind, Target(kind, length));
                && o.value == (fileno, if f in files then files[f] else FileRecord(0, 0, maxFileLength))
                && o.value.1.used + length <= (if f in files then files[f].length else maxFileLength)
                && f in disk && o.value.1.used <= |disk[f]|
                && disk == if f in files then old(disk) else old(disk)[f := []]
    {
      hide Located, Disjoint, Counted, Holding;
      if length > maxFileLength {
        return Throw("Block length above max file length.");
      }
      var fileno := LastFile(kind);
      if fileno > MAX_FILENO {
        return Throw("File number too large.");
      }
      var touch, record := false, FileRecord(0, 0, maxFileLength);
      if (kind, fileno) in files {
        record := files[(kind, fileno)];
      } else {
        touch := true;
      }
      if record.used + length > record.length {
        fileno := fileno + 1;
        if fileno > MAX_FILENO {
          return Throw("File number too large.");
        }
        touch, record := true, FileRecord(0, 0, maxFileLength);
        BeyondLast(kind, fileno);
      }
      if touch {
        TouchKeeps(kind, fileno);
        disk := disk[(kind, fileno) := []];
      } else {
        OnDisk(kind, fileno);
      }
      return Accept((fileno, record));
    }

    lemma BeyondLast(kind: Kind, fileno: nat)
      requires Valid() && fileno == LastFile(kind) + 1
      ensures (kind, fileno) !in files
    {
    }

    lemma OnDisk(kind: Kind, fileno: nat)
      requires Valid() && (kind, fileno) in files
      ensures (kind, fileno) in disk && files[(kind, fileno)].used <= |disk[(kind, fileno)]|
    {
    }

    /** Creating or emptying a file without a record loses nothing. */
    lemma TouchKeeps(kind: Kind, fileno: nat)
      requires Valid() && (kind, fileno) !in files
      ensures var disk' := disk[(kind, fileno) := []];
              && Located(index, files, disk') && Counted(index, files, last, disk')
              && Holding(index, disk') == Holding(index, disk)
    {
      hide LiveIn, Holding, Disjoint;
      var disk' := disk[(kind, fileno) := []];
      forall k | k in index
        ensures FileOf(index, k) in disk' && disk'[FileOf(index, k)] == disk[FileOf(index, k)]
      {
        assert FileOf(index, k) in files;
      }
      HoldingSame(index, disk, disk');
    }

    /** `_write`: false when the record exists; otherwise appended under its key.
        A write that cannot be allocated leaves the store unable to write that
        kind again, because the flag is not cleared on that path. */
    method Write(kind: Kind, hash: Hash, data: Bytes) returns (o: Outcome<bool>)
      requires Valid()
      modifies this`index, this`files, this`last, this`disk, this`writing
      ensures Valid()
      ensures var key := (kind, hash);
              if kind in old(writing) then
                o.Throw? && Contents() == old(Contents()) && writing == old(writing)
              else if key in old(index) then
                o == Accept(false) && Contents() == old(Contents()) && writing == old(writing)
              else if !old(CanAllocate(kind, |data| + MagicLength(kind))) then
                o.Throw? && Contents() == old(Contents()) && writing == old(writing) + {kind}
              else
                o == Accept(true) && Contents() == old(Contents())[key := data] && writing == old(writing)
                && State() == AfterWrite(old(State()), network, maxFileLength, key, data,
                                         old(Target(kind, |data| + MagicLength(kind))))
    {
      hide Located, Disjoint, Counted, Holding, Appended, Magic;
      if kind in writing {
        return Throw("Already writing.");
      }
      writing := writing + {kind};
      if (kind, hash) in index {
        writing := writing - {kind};
        return Accept(false);
      }
      var length := |data| + MagicLength(kind);
      var place := Allocate(kind, length);
      if !place.Accept? {
        return place.PropagateFailure();
      }
      UseFile(old(State()), State(), network, maxFileLength, (kind, hash), data, place.value.0, place.value.1);
      Append(kind, hash, data, place.value.0, place.value.1);
      writing := writing - {kind};
      return Accept(true);
    }

    /** The record is written behind the used part of its file and indexed. */
    method Append(kind: Kind, hash: Hash, data: Bytes, fileno: nat, record: FileRecord)
      requires Valid() && (kind, hash) !in index
      requires var f := (kind, fileno);
               && f in disk && record.used <= |disk[f]|
               && (if f in files then record == files[f] else record.used == 0 && record.blocks == 0)
      requires LastFile(kind) <= fileno
      modifies this`index, this`files, this`last, this`disk
      ensures Valid() && Contents() == old(Contents())[(kind, hash) := data]
      ensures State() == Put(old(State()), network, (kind, hash), data, fileno, record, old(disk)[(kind, fileno)])
    {
      hide Located, Disjoint, Counted, Holding, Magic;
      var f, mlength := (kind, fileno), MagicLength(kind);
      var bytes := Appended(disk[f], record.used, Magic(network, kind, hash, |data|), data);
      var block := BlockRecord(fileno, record.used + mlength, |data|);
      var file := record.(blocks := record.blocks + 1, used := record.used + mlength + |data|);
      AppendLocated(index, files, disk, (kind, hash), block, file, bytes);
      AppendCounted(index, files, last, disk, (kind, hash), block, file, bytes);
      AppendHolding(index, files, disk, (kind, hash), block, bytes, data,
                    index[(kind, hash) := block], disk[f := bytes]);
      disk := disk[f := bytes];
      index := index[(kind, hash) := block];
      files := files[f := file];
      last := last[kind := fileno];
    }

    lemma FewerRecords(k: Key)
      requires Valid() && k in index
      ensures FileOf(index, k) in files && files[FileOf(index, k)].blocks > 0
      ensures var f := FileOf(index, k);
              var disk' := if files[f].blocks == 1 then disk - {f} else disk;
              && (forall j :: j in index - {k} ==>
                    && FileOf(index - {k}, j) in disk'
                    && (index - {k})[j].position + (index - {k})[j].length
                       <= |disk'[FileOf(index - {k}, j)]|)
              && Holding(index - {k}, disk') == Holding(index, disk) - {k}
    {
      hide LiveIn, Holding, Counted;
      var f := FileOf(index, k);
      assert f in files && files[f].blocks > 0 by { CountedAt(f); }
      PruneLocated(index, files, last, disk, k);
      var disk' := if files[f].blocks == 1 then disk - {f} else disk;
      forall j | j in index - {k}
        ensures FileOf(index, j) in disk' && disk'[FileOf(index, j)] == disk[FileOf(index, j)]
      {
        assert FileOf(index - {k}, j) == FileOf(index, j);
      }
      PruneHolding(index, disk, k, disk');
    }

    lemma CountedAt(f: File)
      requires Valid() && f in files
      ensures files[f].blocks > 0
    {
    }

    /** `_prune`: forgets the record, and the file with its last record. */
    method Prune(kind: Kind, hash: Hash) returns (pruned: bool)
      requires Valid()
      modifies this`index, this`files, this`disk
      ensures Valid()
      ensures pruned <==> (kind, hash) in old(index)
      ensures pruned ==> Contents() == old(Contents()) - {(kind, hash)}
      ensures pruned ==>
                var f := FileOf(old(index), (kind, hash));
                && index == old(index) - {(kind, hash)}
                && (f in files <==> LiveIn(index, f) != {})
                && disk == if LiveIn(index, f) == {} then old(disk) - {f} else old(disk)
      ensures !pruned ==> Contents() == old(Contents()) && disk == old(disk) && files == old(files)
    {
      hide Located, Disjoint, Counted, Holding, LiveIn;
      var k := (kind, hash);
      if k !in index {
        return false;
      }
      LastGoes(index, files, last, disk, k);
      FewerRecords(k);
      PruneLocated(index, files, last, disk, k);
      PruneCounted(index, files, last, disk, k);
      var f := FileOf(index, k);
      var file := files[f].(blocks := files[f].blocks - 1);
      if file.blocks == 0 {
        files := files - {f};
      } else {
        files := files[f := file];
      }
      index := index - {k};
      if file.blocks == 0 {
        disk := disk - {f};
      }
      return true;
    }

    lemma RecordAt(k: Key)
      requires Valid() && k in index
      ensures var f := (k.0, index[k].file);
              && f in disk && index[k].position + index[k].length <= |disk[f]|
              && k in Contents() && Contents()[k] == Slice(disk[f], index[k])
              && |Contents()[k]| == index[k].length
              && Slice(disk[f], index[k]) == disk[f][index[k].position..index[k].position + index[k].length]
    {
      hide Disjoint, Counted, LiveIn;
      assert FileOf(index, k) in files;
    }

    /** The bytes of the file that holds a record, from the record on. */
    function FromRecord(k: Key): Bytes
      requires k in index && (k.0, index[k].file) in disk
      requires index[k].position <= |disk[(k.0, index[k].file)]|
      reads this
    {
      disk[(k.0, index[k].file)][index[k].position..]
    }

    /** `_read`.  Without an offset a length is not checked against the record: a
        longer one reads on into the file, and fails only at its end. */
    method Read(kind: Kind, hash: Hash, offset: Option<nat>, length: Option<nat>)
        returns (o: Outcome<Option<Bytes>>)
      requires Valid()
      ensures (kind, hash) !in index ==> o == Accept(None)
      ensures (kind, hash) in index ==>
                var k := (kind, hash);
                && (kind, index[k].file) in disk && index[k].position <= |disk[(kind, index[k].file)]|
                && k in Contents() && Contents()[k] <= FromRecord(k)
                && o == ReadRule(FromRecord(k), |Contents()[k]|, offset, length)
    {
      var k := (kind, hash);
      if k !in index {
        return Accept(None);
      }
      hide Located, Disjoint, Counted, Holding, Slice, Valid;
      var block := index[k];
      RecordAt(k);
      return ReadAt(disk[(kind, block.file)], block, offset, length);
    }
  }

  /** The computation of `_read` on the bytes of a file. */
  function ReadAt(file: Bytes, block: BlockRecord, offset: Option<nat>, length: Option<nat>):
      (o: Outcome<Option<Bytes>>)
    requires block.position + block.length <= |file|
    ensures o == ReadRule(file[block.position..], block.length, offset, length)
  {
    var from := if offset.Some? then offset.value else 0;
    var position := block.position + from;
    var asked: int := if length.Some? then length.value else 0;
    var rest := if asked == 0 && from > 0 then block.length - from else asked;
    var count := if rest == 0 then block.length else rest;
    if offset.Some? && from + count > block.length then Throw("Out-of-bounds read.")
    else if count < 0 then Throw("RangeError")
    else if position + count > |file| then Throw("Wrong number of bytes read.")
    else
      Behind(file, block.position, from, count);
      Accept(Some(file[position..position + count]))
  }

  lemma Behind(file: Bytes, position: nat, from: nat, count: nat)
    requires position + from + count <= |file|
    ensures file[position + from..position + from + count] == file[position..][from..from + count]
    ensures from == 0 ==> file[position..position + count] == file[position..][..count]
  {
  }

  /** One record in a new store, and another behind it. */
  lemma TwoRecords(network: nat, max: nat, one: Hash, other: Hash, first: Bytes, second: Bytes)
    requires one != other
    ensures var s0 := Store(map[], map[], map[], map[]);
            var s1 := AfterWrite(s0, network, max, (BLOCK, one), first, 0);
            var s2 := AfterWrite(s1, network, max, (BLOCK, other), second, 0);
            && s1.index.Keys == {(BLOCK, one)}
            && s1.files == map[(BLOCK, 0) := FileRecord(1, 8 + |first|, max)] && s1.last == map[BLOCK := 0]
            && (BLOCK, one) in s2.index && s2.index[(BLOCK, one)] == BlockRecord(0, 8, |first|)
            && (BLOCK, 0) in s2.disk
            && s2.disk[(BLOCK, 0)]
               == Magic(network, BLOCK, one, |first|) + first + Magic(network, BLOCK, other, |second|) + second
  {
    hide Magic, Appended;
    var magic, next := Magic(network, BLOCK, one, |first|), Magic(network, BLOCK, other, |second|);
    AppendedBytes([], 0, magic, first);
    assert [] + magic + first == magic + first;
    AppendedBytes(magic + first, 8 + |first|, next, second);
  }

  lemma FromFirst(magic: Bytes, first: Bytes, next: Bytes, second: Bytes)
    requires |magic| == |next| == 8
    ensures (magic + first + next + second)[8..][..|first| + 8 + |second|] == first + next + second
  {
    assert magic + first + next + second == magic + (first + next + second);
  }

  /** Two records written one after the other: a read of the first with a length but
      no offset goes on through the magic into the second. */
  method ReadIntoNext(network: nat, one: Hash, other: Hash, first: Bytes, second: Bytes)
      returns (o: Outcome<Option<Bytes>>)
    requires one != other
    ensures o == Accept(Some(first + Magic(network, BLOCK, other, |second|) + second))
  {
    hide FileBlockStore.Valid, Appended, Magic, AfterWrite, Put, Holding;
    var store := new FileBlockStore(network, |first| + |second| + 16);
    TwoRecords(network, store.maxFileLength, one, other, first, second);
    var wrote := store.Write(BLOCK, one, first);
    assert !store.Full(BLOCK, |second| + 8) && store.CanAllocate(BLOCK, |second| + 8);
    wrote := store.Write(BLOCK, other, second);
    o := store.Read(BLOCK, one, None, Some(|first| + 8 + |second|));
    FromFirst(Magic(network, BLOCK, one, |first|), first, Magic(network, BLOCK, other, |second|), second);
  }
}
