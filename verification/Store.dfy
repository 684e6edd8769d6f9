/**
 The content-addressed store.  Any number of writers link complete files under the digest of their
 content; the disk is modelled down to the file that two directory entries may share, so that an
 object would change if anybody still wrote to its file.
 */
module Store {
  import opened Text
  import opened Runs
  import opened Lines
  import opened Base64

  /** What an envelope says besides its payload. */
  datatype Header = Header(kind: string, visibility: string)

  /** Envelope encoding and parsing, and the content digest. */
  datatype Codec = Codec(
    envelope: (Header, string) -> Bytes, open: Bytes -> Option<(Header, string)>, digest: Bytes -> string)

  ghost predicate Lawful(c: Codec) {
    && (forall h, p :: c.open(c.envelope(h, p)) == Some((h, p)))
    && (forall a, b :: c.digest(a) == c.digest(b) ==> a == b)
  }

  /** Files by number, the entries of finished and of temporary files, and the files open for writing. */
  datatype Disk = Disk(files: map<nat, Bytes>, objects: map<string, nat>, temps: map<string, nat>, writable: set<nat>)

  const EMPTY: Disk := Disk(map[], map[], map[], {})

  // ---------- steps ----------

  ghost predicate Creates(d: Disk, d': Disk, t: string, f: nat) {
    && t !in d.temps && f !in d.files
    && d' == d.(files := d.files[f := []], temps := d.temps[t := f], writable := d.writable + {f})
  }

  ghost predicate Grows(d: Disk, d': Disk, f: nat, more: Bytes) {
    && f in d.writable && f in d.files
    && d' == d.(files := d.files[f := d.files[f] + more])
  }

  /** A file is closed, by its writer or because the writer died. */
  ghost predicate Seals(d: Disk, d': Disk, f: nat) {
    d' == d.(writable := d.writable - {f})
  }

  /** Atomic create-if-absent of an entry for a complete, closed file, under the digest of its content. */
  ghost predicate Links(c: Codec, d: Disk, d': Disk, t: string) {
    && t in d.temps && d.temps[t] in d.files && d.temps[t] !in d.writable
    && var n := c.digest(d.files[d.temps[t]]);
       n !in d.objects && d' == d.(objects := d.objects[n := d.temps[t]])
  }

  ghost predicate Unlinks(d: Disk, d': Disk, t: string) {
    d' == d.(temps := d.temps - {t})
  }

  ghost predicate Step(c: Codec, d: Disk, d': Disk) {
    || (exists t: string, f: nat :: Creates(d, d', t, f))
    || (exists f: nat, more: Bytes :: Grows(d, d', f, more))
    || (exists f: nat :: Seals(d, d', f))
    || (exists t: string :: Links(c, d, d', t))
    || (exists t: string :: Unlinks(d, d', t))
  }

  ghost predicate IsPath(c: Codec, run: seq<Disk>) {
    forall i, j | 0 <= i < j < |run| && j == i + 1 :: Step(c, run[i], run[j])
  }

  ghost predicate IsRun(c: Codec, run: seq<Disk>) {
    run != [] && run[0] == EMPTY && IsPath(c, run)
  }

  // ---------- what every run keeps ----------

  /** Every object is a complete file under its own digest, and nobody can write to it any more. */
  ghost predicate Sound(c: Codec, d: Disk) {
    && (forall n <- d.objects ::
       d.objects[n] in d.files && d.objects[n] !in d.writable && c.digest(d.files[d.objects[n]]) == n)
    && (forall f <- d.writable :: f in d.files)
  }

  /** Objects and the content of files nobody writes to are never changed or lost. */
  ghost predicate Later(d: Disk, d': Disk) {
    && (forall n <- d.objects :: n in d'.objects && d'.objects[n] == d.objects[n])
    && (forall f <- d.files :: f !in d.writable ==> f in d'.files && f !in d'.writable && d'.files[f] == d.files[f])
  }

  /** The other entries and files are as they were, and an object's file is not open for writing. */
  lemma CreationKeepsSound(c: Codec, d: Disk, d': Disk, t: string, f: nat)
    requires Sound(c, d) && Creates(d, d', t, f)
    ensures Sound(c, d') && Later(d, d')
  {}

  lemma GrowthKeepsSound(c: Codec, d: Disk, d': Disk, f: nat, more: Bytes)
    requires Sound(c, d) && Grows(d, d', f, more)
    ensures Sound(c, d') && Later(d, d')
  {}

  lemma SealKeepsSound(c: Codec, d: Disk, d': Disk, f: nat)
    requires Sound(c, d) && Seals(d, d', f)
    ensures Sound(c, d') && Later(d, d')
  {}

  lemma LinkKeepsSound(c: Codec, d: Disk, d': Disk, t: string)
    requires Sound(c, d) && Links(c, d, d', t)
    ensures Sound(c, d') && Later(d, d')
  {}

  lemma UnlinkKeepsSound(c: Codec, d: Disk, d': Disk, t: string)
    requires Sound(c, d) && Unlinks(d, d', t)
    ensures Sound(c, d') && Later(d, d')
  {}

  lemma StepKeepsSound(c: Codec, d: Disk, d': Disk)
    requires Sound(c, d) && Step(c, d, d')
    ensures Sound(c, d') && Later(d, d')
  {
    if t: string, f: nat :| Creates(d, d', t, f) {
      CreationKeepsSound(c, d, d', t, f);
    } else if f: nat, more: Bytes :| Grows(d, d', f, more) {
      GrowthKeepsSound(c, d, d', f, more);
    } else if f: nat :| Seals(d, d', f) {
      SealKeepsSound(c, d, d', f);
    } else if t: string :| Links(c, d, d', t) {
      LinkKeepsSound(c, d, d', t);
    } else {
      var t: string :| Unlinks(d, d', t);
      UnlinkKeepsSound(c, d, d', t);
    }
  }

  lemma {:induction false} RunKeepsSound(c: Codec, run: seq<Disk>, i: nat)
    requires IsRun(c, run) && i < |run|
    ensures Sound(c, run[i])
  {
    if i == 0 {
    } else {
      RunKeepsSound(c, run, i - 1);
      StepKeepsSound(c, run[i - 1], run[i]);
    }
  }

  lemma LaterIsTransitive(d: Disk, e: Disk, f: Disk)
    requires Later(d, e) && Later(e, f)
    ensures Later(d, f)
  {}

  /** For any interleaving of writers, wherever some of them died: what is linked never changes. */
  lemma ObjectsNeverChange(c: Codec, run: seq<Disk>, i: nat, j: nat)
    requires IsRun(c, run) && i <= j < |run|
    ensures Later(run[i], run[j])
  {
    forall k, l | i <= k < l <= j && l == k + 1
      ensures Later(run[k], run[l])
    {
      RunKeepsSound(c, run, k);
      StepKeepsSound(c, run[k], run[l]);
    }
    forall d: Disk, e: Disk, f: Disk | Later(d, e) && Later(e, f)
      ensures Later(d, f)
    {
      LaterIsTransitive(d, e, f);
    }
    Chain(run, (d, e) => Later(d, e), i, j);
  }

  /** The content of an object. */
  function Content(d: Disk, n: string): Option<Bytes> {
    if n in d.objects && d.objects[n] in d.files then Some(d.files[d.objects[n]]) else None
  }

  lemma ContentStays(c: Codec, run: seq<Disk>, i: nat, j: nat, n: string)
    requires IsRun(c, run) && i <= j < |run| && Content(run[i], n).Some?
    ensures Content(run[j], n) == Content(run[i], n)
    ensures c.digest(Content(run[i], n).value) == n
  {
    RunKeepsSound(c, run, i);
    ObjectsNeverChange(c, run, i, j);
  }

  lemma PathExtends(c: Codec, run: seq<Disk>, more: seq<Disk>)
    requires run != [] && IsPath(c, run) && IsPath(c, [run[|run| - 1]] + more)
    ensures IsPath(c, run + more)
  {
    var all, tail := run + more, [run[|run| - 1]] + more;
    forall i, j | 0 <= i < j < |all| && j == i + 1
      ensures Step(c, all[i], all[j])
    {
      if i >= |run| - 1 {
        var k := i - (|run| - 1);
        assert tail[k] == all[i] && tail[k + 1] == all[j];
      }
    }
  }

  // ---------- the store ----------

  datatype Ref = Ref(digest: string, header: Header)

  datatype PutResult = Put(ref: Ref) | Corrupt | Died

  datatype GetResult = Got(data: Bytes) | NotFound | EnvelopeTooLarge | PayloadTooLarge | Integrity

  datatype FileRead = Complete(data: Bytes) | Oversized

  /** The envelope under which bytes are stored. */
  function EnvelopeOf(c: Codec, h: Header, data: Bytes): Bytes {
    c.envelope(h, Encode(data))
  }

  function RefOf(c: Codec, h: Header, data: Bytes): Ref {
    Ref(c.digest(EnvelopeOf(c, h, data)), h)
  }

  /** The bytes are stored under the reference. */
  predicate Stored(c: Codec, d: Disk, ref: Ref, data: Bytes) {
    Content(d, ref.digest) == Some(EnvelopeOf(c, ref.header, data))
  }

  /** A reference identifies its bytes and what was said of them. */
  lemma RefsIdentify(c: Codec, h: Header, data: Bytes, h': Header, data': Bytes)
    requires Lawful(c)
    ensures c.digest(EnvelopeOf(c, h, data)) == c.digest(EnvelopeOf(c, h', data')) <==> h == h' && data == data'
  {
    if c.digest(EnvelopeOf(c, h, data)) == c.digest(EnvelopeOf(c, h', data')) {
      assert c.open(EnvelopeOf(c, h, data)) == Some((h, Encode(data)));
      DecodeEncode(data);
      DecodeEncode(data');
    }
  }

  /** What reading gives, by the content that is found: the checks in the order of the code. */
  function ReadObject(
    c: Codec, content: Option<Bytes>, ref: Ref, envelopeCap: Option<nat>, payloadCap: Option<nat>): GetResult {
    if content.None? then NotFound
    else if envelopeCap.Some? && |content.value| > envelopeCap.value then EnvelopeTooLarge
    else if c.digest(content.value) != ref.digest then Integrity
    else
      var parsed := c.open(content.value);
      if parsed.None? || parsed.value.0 != ref.header then Integrity
      else
        ResultOf(ReadPayload(parsed.value.1, payloadCap))
  }

  function ResultOf(p: Payload): GetResult {
    match p
    case Invalid => Integrity
    case TooLarge => PayloadTooLarge
    case Data(data) => Got(data)
  }

  /** What was stored is read back, whole, whenever the caps allow it. */
  lemma StoredIsRead(c: Codec, d: Disk, ref: Ref, data: Bytes, envelopeCap: Option<nat>, payloadCap: Option<nat>)
    requires Lawful(c) && Stored(c, d, ref, data) && ref == RefOf(c, ref.header, data)
    ensures var r := ReadObject(c, Content(d, ref.digest), ref, envelopeCap, payloadCap);
            if envelopeCap.Some? && |EnvelopeOf(c, ref.header, data)| > envelopeCap.value then r.EnvelopeTooLarge?
            else if payloadCap.Some? && |data| > payloadCap.value then r.PayloadTooLarge?
            else r == Got(data)
  {
    ReadsExactly(Encode(data), payloadCap, data);
  }

  /**
   Nothing is read that was not stored under the reference: the object has its digest and header and is
   within the caps, and the bytes are those of whoever was given this reference.
   */
  lemma ReadWasStored(c: Codec, d: Disk, ref: Ref, data: Bytes, envelopeCap: Option<nat>, payloadCap: Option<nat>)
    requires Lawful(c)
    requires ReadObject(c, Content(d, ref.digest), ref, envelopeCap, payloadCap) == Got(data)
    ensures exists e: Bytes :: Content(d, ref.digest) == Some(e) && c.digest(e) == ref.digest
                            && c.open(e) == Some((ref.header, Encode(data)))
                            && (envelopeCap.None? || |e| <= envelopeCap.value)
    ensures payloadCap.None? || |data| <= payloadCap.value
    ensures forall other: Bytes :: ref == RefOf(c, ref.header, other) ==> other == data
  {
    var e := Content(d, ref.digest).value;
    ReadsExactly(c.open(e).value.1, payloadCap, data);
    forall other: Bytes | ref == RefOf(c, ref.header, other)
      ensures other == data
    {
      assert e == EnvelopeOf(c, ref.header, other);
      DecodeEncode(other);
      DecodeEncode(data);
    }
  }

  /** What other processes do between two steps of this one, whose temporary entry they leave alone. */
  type Interference = (nat, Option<string>, Disk) -> seq<Disk>

  ghost predicate Spares(t: Option<string>, d: Disk, path: seq<Disk>) {
    t.Some? && t.value in d.temps && d.temps[t.value] in d.files ==>
      forall e <- path :: SameTemp(t.value, d, e)
  }

  ghost predicate SameTemp(t: string, d: Disk, e: Disk) {
    && t in d.temps && d.temps[t] in d.files && t in e.temps && e.temps[t] == d.temps[t] && d.temps[t] in e.files
    && e.files[d.temps[t]] == d.files[d.temps[t]]
    && (d.temps[t] in e.writable <==> d.temps[t] in d.writable)
  }

  class ArtifactStore {
    const c: Codec
    const others: Interference
    /** Names of temporary files, and numbers of files, that are not in use. */
    const uuid: set<string> -> string
    const inode: set<nat> -> nat
    var disk: Disk
    var clock: nat
    ghost var run: seq<Disk>

    ghost predicate Valid()
      reads this
    {
      && IsRun(c, run) && run[|run| - 1] == disk
      && (forall used :: uuid(used) !in used) && (forall used :: inode(used) !in used)
      && (forall n, t, d :: IsPath(c, [d] + others(n, t, d)) && Spares(t, d, others(n, t, d)))
    }

    /** An empty store, among other processes that keep to the steps. */
    constructor (c: Codec, others: Interference, uuid: set<string> -> string, inode: set<nat> -> nat)
      requires (forall used :: uuid(used) !in used) && forall used :: inode(used) !in used
      requires forall n, t, d :: IsPath(c, [d] + others(n, t, d)) && Spares(t, d, others(n, t, d))
      ensures Valid() && disk == EMPTY
      ensures this.c == c && this.others == others
    {
      this.c, this.others, this.uuid, this.inode := c, others, uuid, inode;
      disk, clock, run := EMPTY, 0, [EMPTY];
    }

    method Move(next: Disk)
      requires Valid() && Step(c, disk, next)
      modifies this`disk, this`run
      ensures Valid() && disk == next && old(run) <= run
    {
      PathExtends(c, run, [next]);
      disk, run := next, run + [next];
    }

    /** Others act; what is linked stays as it is, and so does the temporary file `t` of this process. */
    method Wait(t: Option<string>)
      requires Valid()
      modifies this`disk, this`run, this`clock
      ensures Valid() && old(run) <= run
      ensures t.Some? && t.value in old(disk).temps && old(disk).temps[t.value] in old(disk).files ==>
              SameTemp(t.value, old(disk), disk)
    {
      var path := others(clock, t, disk);
      clock := clock + 1;
      if path != [] {
        PathExtends(c, run, path);
        assert path[|path| - 1] in path;
        disk, run := path[|path| - 1], run + path;
      }
    }

    /** Reads a file in small requests, and never more than one byte past the cap. */
    method ReadFile(content: Bytes, cap: Option<nat>) returns (r: FileRead)
      ensures r == if cap.Some? && |content| > cap.value then Oversized else Complete(content)
    {
      if cap.None? {
        return Complete(content);
      }
      if |content| > cap.value {
        return Oversized;
      }
      var data: Bytes := [];
      while |data| <= cap.value
        invariant |data| <= |content| && data == content[..|data|]
        decreases |content| - |data|
      {
        if |data| == |content| {
          break;
        }
        var limit := |content| - |data|;
        var count: nat :| 1 <= count <= limit;
        data := content[..|data| + count];
        if |data| > cap.value {
          return Oversized;
        }
      }
      assert content[..|content|] == content;
      return Complete(data);
    }

    /**
     Stores bytes.  Whatever other writers do meanwhile, a normal return means that the bytes are
     stored under their reference; an existing object is never found to differ.
     */
    method PutBytes(data: Bytes, header: Header) returns (r: PutResult)
      requires Valid() && Lawful(c)
      modifies this
      ensures Valid() && old(run) <= run
      ensures !r.Corrupt?
      ensures r.Put? ==> r.ref == RefOf(c, header, data) && Stored(c, disk, r.ref, data)
    {
      var envelope := EnvelopeOf(c, header, data);
      var ref := RefOf(c, header, data);
      var t := WriteTemp(envelope);
      if t.None? {
        return Died;
      }
      Wait(t);
      var linked := LinkTemp(t.value, envelope);
      if !linked {
        return Corrupt;
      }
      var alive := UnlinkTemp(t.value, ref.digest);
      return if alive then Put(ref) else Died;
    }

    /** Removes the temporary entry, unless the process dies before; the object stays what it is. */
    method UnlinkTemp(t: string, ghost name: string) returns (alive: bool)
      requires Valid() && Content(disk, name).Some?
      modifies this
      ensures Valid() && old(run) <= run
      ensures Content(disk, name) == old(Content(disk, name))
      ensures alive ==> t !in disk.temps
    {
      ghost var at := |run| - 1;
      Wait(Some(t));
      ContentStays(c, run, at, |run| - 1, name);
      if * {
        return false;
      }
      var next := disk.(temps := disk.temps - {t});
      assert Unlinks(disk, next, t);
      Move(next);
      return true;
    }

    /** A complete, closed temporary file with the given content, unless the process dies on the way. */
    method WriteTemp(content: Bytes) returns (t: Option<string>)
      requires Valid()
      modifies this
      ensures Valid() && old(run) <= run
      ensures t.Some? ==>
                && t.value in disk.temps && disk.temps[t.value] in disk.files
                && disk.files[disk.temps[t.value]] == content && disk.temps[t.value] !in disk.writable
    {
      Wait(None);
      var name, f := uuid(disk.temps.Keys), inode(disk.files.Keys);
      var started :=
        disk.(files := disk.files[f := []], temps := disk.temps[name := f], writable := disk.writable + {f});
      assert Creates(disk, started, name, f);
      Move(started);
      Wait(Some(name));
      var count: nat :| count <= |content|;
      assert Grows(disk, disk.(files := disk.files[f := disk.files[f] + content[..count]]), f, content[..count]);
      Move(disk.(files := disk.files[f := disk.files[f] + content[..count]]));
      Wait(Some(name));
      assert Seals(disk, disk.(writable := disk.writable - {f}), f);
      Move(disk.(writable := disk.writable - {f}));
      if count < |content| {
        return None;
      }
      assert [] + content[..count] == content;
      return Some(name);
    }

    /** Links the file if the name is free; otherwise the object there must be the same. */
    method LinkTemp(t: string, envelope: Bytes) returns (same: bool)
      requires Valid() && Lawful(c)
      requires t in disk.temps && disk.temps[t] in disk.files
      requires disk.files[disk.temps[t]] == envelope && disk.temps[t] !in disk.writable
      modifies this`disk, this`run
      ensures Valid() && old(run) <= run
      ensures same && Content(disk, c.digest(envelope)) == Some(envelope)
      ensures t in disk.temps && disk.temps[t] in disk.files
    {
      var name := c.digest(envelope);
      RunKeepsSound(c, run, |run| - 1);
      if name !in disk.objects {
        assert Links(c, disk, disk.(objects := disk.objects[name := disk.temps[t]]), t);
        Move(disk.(objects := disk.objects[name := disk.temps[t]]));
        return true;
      }
      var existing := ReadFile(disk.files[disk.objects[name]], Some(|envelope|));
      return existing == Complete(envelope);
    }

    /** Reads the bytes of a reference, after others had their turn. */
    method GetBytes(ref: Ref, envelopeCap: Option<nat>, payloadCap: Option<nat>) returns (r: GetResult)
      requires Valid() && Lawful(c)
      modifies this
      ensures Valid() && old(run) <= run
      ensures r == ReadObject(c, Content(disk, ref.digest), ref, envelopeCap, payloadCap)
      ensures forall data :: Stored(c, old(disk), ref, data) && ref == RefOf(c, ref.header, data) ==>
              Stored(c, disk, ref, data)
    {
      ghost var at := |run| - 1;
      Wait(None);
      RunKeepsSound(c, run, |run| - 1);
      if Content(run[at], ref.digest).Some? {
        ContentStays(c, run, at, |run| - 1, ref.digest);
      }
      if ref.digest !in disk.objects {
        return NotFound;
      }
      var content := ReadFile(disk.files[disk.objects[ref.digest]], envelopeCap);
      if content.Oversized? {
        return EnvelopeTooLarge;
      }
      if c.digest(content.data) != ref.digest {
        return Integrity;
      }
      var parsed := c.open(content.data);
      if parsed.None? || parsed.value.0 != ref.header {
        return Integrity;
      }
      return ResultOf(ReadPayload(parsed.value.1, payloadCap));
    }
  }
}
