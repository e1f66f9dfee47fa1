/**
 * FileProvider: a queue kept as one JSON file per message under
 * `path/shard/id.json`, claimed by holding an exclusive lock on the open
 * file and recording the handle in a per-process table.
 */
module FileQueue {
  import opened Messages
  import opened HumanTime
  import opened FileLayout
  import opened FileClaims

  /** Finder::in() on a queue directory that does not exist throws. */
  datatype Error = DirectoryNotFound

  /** An open file pointer: a per-process serial number and the file it was opened on. */
  datatype Handle = Handle(serial: nat, path: Path)

  /** The message receive builds from a claimed candidate: decoded contents, empty metadata. */
  function Delivery(c: Candidate, disk: Disk, decode: string -> Json): Message
    requires c.path in disk
  {
    Message(c.id, decode(disk[c.path].contents), map[])
  }

  /** The disk after delete: the id's stored file is removed when the id was claimed here. */
  function AfterRemove(disk: Disk, md5: string -> string, id: string, claimed: bool): Disk {
    if claimed then disk - {StoredPath(md5, id)} else disk
  }

  /** `msgs` are the deliveries of the claimed candidates, in the order they were claimed. */
  predicate DeliveredInOrder(msgs: seq<Message>, cands: seq<Candidate>, picked: seq<nat>, disk: Disk, decode: string -> Json)
    requires forall k :: 0 <= k < |cands| ==> cands[k].path in disk
    requires forall k :: 0 <= k < |picked| ==> picked[k] < |cands|
  {
    && |msgs| == |picked|
    && forall k :: 0 <= k < |picked| ==> msgs[k] == Delivery(cands[picked[k]], disk, decode)
  }

  /**
   * `after` is `before` with one new entry per claimed id, each a handle
   * not open before on the claimed file.
   */
  predicate ClaimedInto(after: map<string, Handle>, before: map<string, Handle>, cands: seq<Candidate>, picked: seq<nat>, openBefore: set<Handle>)
    requires forall k :: 0 <= k < |picked| ==> picked[k] < |cands|
  {
    && after.Keys == before.Keys + ClaimedIds(cands, picked)
    && (forall id :: id in before ==> after[id] == before[id])
    && (forall k :: 0 <= k < |picked| ==>
          && cands[picked[k]].id in after
          && after[cands[picked[k]].id].path == cands[picked[k]].path
          && after[cands[picked[k]].id] !in openBefore)
  }

  /** Claiming candidate `i` with a new handle extends the table accordingly. */
  lemma ClaimedIntoStep(after: map<string, Handle>, before: map<string, Handle>, cands: seq<Candidate>, picked: seq<nat>,
                        openBefore: set<Handle>, i: nat, h: Handle)
    requires forall k :: 0 <= k < |picked| ==> picked[k] < i
    requires i < |cands|
    requires ClaimedInto(after, before, cands, picked, openBefore)
    requires cands[i].id !in after && h.path == cands[i].path && h !in openBefore
    ensures ClaimedInto(after[cands[i].id := h], before, cands, picked + [i], openBefore)
  {
    var q := picked + [i];
    var a := after[cands[i].id := h];
    ClaimedIdsSnoc(cands, picked, i);
    forall k | 0 <= k < |q|
      ensures cands[q[k]].id in a && a[cands[q[k]].id].path == cands[q[k]].path && a[cands[q[k]].id] !in openBefore
    {
      if k < |picked| {
        assert q[k] == picked[k];
      }
    }
  }

  /** Delivering candidate `i` extends the delivered sequence accordingly. */
  lemma DeliveredStep(msgs: seq<Message>, cands: seq<Candidate>, picked: seq<nat>, disk: Disk, decode: string -> Json, i: nat)
    requires forall k :: 0 <= k < |cands| ==> cands[k].path in disk
    requires forall k :: 0 <= k < |picked| ==> picked[k] < |cands|
    requires i < |cands|
    requires DeliveredInOrder(msgs, cands, picked, disk, decode)
    ensures DeliveredInOrder(msgs + [Delivery(cands[i], disk, decode)], cands, picked + [i], disk, decode)
  {
    var q := picked + [i];
    forall k | 0 <= k < |q| ensures (msgs + [Delivery(cands[i], disk, decode)])[k] == Delivery(cands[q[k]], disk, decode) {
      if k < |picked| {
        assert q[k] == picked[k];
      }
    }
  }

  /**
   * Claiming candidate `i` with the new handle `h` during receive's scan
   * keeps the scan's invariant: the deliveries and the table grow by that
   * candidate, and the scan moves on to `i + 1` unless the batch is full.
   */
  lemma ScanClaims(cands: seq<Candidate>, i: nat, locked: set<Path>, batch: int, disk: Disk, decode: string -> Json,
                   msgs: seq<Message>, picked: seq<nat>, table0: map<string, Handle>, open0: set<Handle>,
                   before: map<string, Handle>, h: Handle)
    requires i < |cands| && forall k :: 0 <= k < |cands| ==> cands[k].path in disk
    requires forall k :: 0 <= k < |picked| ==> picked[k] < i
    requires DeliveredInOrder(msgs, cands, picked, disk, decode)
    requires ClaimedInto(before, table0, cands, picked, open0)
    requires Claimable(cands[i], before.Keys, locked)
    requires h.path == cands[i].path && h !in open0
    ensures DeliveredInOrder(msgs + [Delivery(cands[i], disk, decode)], cands, picked + [i], disk, decode)
    ensures ClaimedInto(before[cands[i].id := h], table0, cands, picked + [i], open0)
    ensures picked + Claims(cands, i, before.Keys, locked, batch, |picked|)
            == (picked + [i]) + if |msgs| + 1 == batch then [] else Claims(cands, i + 1, before[cands[i].id := h].Keys, locked, batch, |picked| + 1)
  {
    ClaimsAdvance(cands, i, before.Keys, locked, batch, picked);
    DeliveredStep(msgs, cands, picked, disk, decode, i);
    ClaimedIntoStep(before, table0, cands, picked, open0, i, h);
    assert before[cands[i].id := h].Keys == before.Keys + {cands[i].id};
  }

  /** Adding a fresh key adds its value to the map's values. */
  lemma ValuesAfterInsert(t: map<string, Handle>, id: string, h: Handle)
    requires id !in t
    ensures t[id := h].Values == t.Values + {h}
  {
    forall g | g in t.Values ensures g in t[id := h].Values {
      var k :| k in t && t[k] == g;
      assert t[id := h][k] == g;
    }
    assert t[id := h][id] == h;
  }

  /** In a map without shared values, removing a key removes exactly its value. */
  lemma ValuesAfterRemove(t: map<string, Handle>, id: string)
    requires id in t
    requires forall a, b :: a in t && b in t && a != b ==> t[a] != t[b]
    ensures (t - {id}).Values == t.Values - {t[id]}
  {
    forall g | g in t.Values - {t[id]} ensures g in (t - {id}).Values {
      var k :| k in t && t[k] == g;
      assert k != id && (t - {id})[k] == g;
    }
  }

  class FileProvider {
    const md5: string -> string
    /** options['message_delay'], options['message_expiration'] and (int) options['messages_to_receive']. */
    const delay: int
    const expiration: int
    const batch: int

    /** Whether the queue directory options['path'] exists, and the files below it. */
    var rootExists: bool
    var files: Disk
    /** $filePointerList: message id to the locked handle this process holds. */
    var table: map<string, Handle>
    /** The file pointers this process has open, and the next serial fopen hands out. */
    var openHandles: set<Handle>
    var nextSerial: nat

    ghost predicate Valid()
      reads this
    {
      && (!rootExists ==> files == map[])
      && openHandles == table.Values
      && (forall a, b :: a in table && b in table && a != b ==> table[a] != table[b])
      && (forall h :: h in openHandles ==> h.serial < nextSerial)
    }

    /** A provider over the queue directory as it stands; it holds no handles. */
    constructor (md5: string -> string, delay: int, expiration: int, batch: int, rootExists: bool, files: Disk)
      requires !rootExists ==> files == map[]
      ensures Valid()
      ensures this.md5 == md5 && this.delay == delay && this.expiration == expiration && this.batch == batch
      ensures this.rootExists == rootExists && this.files == files && table == map[]
    {
      this.md5 := md5;
      this.delay := delay;
      this.expiration := expiration;
      this.batch := batch;
      this.rootExists := rootExists;
      this.files := files;
      table := map[];
      openHandles := {};
      nextSerial := 0;
    }

    /**
     * create() as written: makes the directory when it is missing and then
     * returns Filesystem::mkdir's result, which is null; true when it existed.
     */
    method Create() returns (r: Option<bool>)
      requires Valid()
      modifies this`rootExists
      ensures Valid() && rootExists
      ensures r == if old(rootExists) then Some(true) else None
    {
      if !rootExists {
        rootExists := true;
        return None;
      }
      return Some(true);
    }

    /** create() returning true on both paths, as its caller expects. */
    method CreateReportingSuccess() returns (ok: bool)
      requires Valid()
      modifies this`rootExists
      ensures Valid() && rootExists && ok
    {
      rootExists := true;
      ok := true;
    }

    /**
     * Writes the encoded payload to `shard/id.json`, the id being the
     * microtime stamp without spaces, stamped with the current time, and
     * returns the id. Filesystem::dumpFile creates a missing directory.
     */
    method Publish(message: Payload, stamp: string, now: int, encode: Json -> string) returns (id: string)
      requires Valid()
      modifies this`files, this`rootExists
      ensures Valid() && rootExists
      ensures id == StripSpaces(stamp) && ' ' !in id
      ensures files == old(files)[StoredPath(md5, id) := StoredFile(encode(JArray(message)), now)]
    {
      id := StripSpaces(stamp);
      files := files[StoredPath(md5, id) := StoredFile(encode(JArray(message)), now)];
      rootExists := true;
    }

    /**
     * One step of receive's scan: opens the file, claims it when its id is
     * not in the table and no other process holds it locked, and otherwise
     * closes the handle again.
     */
    method TryClaim(c: Candidate, locked: set<Path>) returns (claimed: bool)
      requires Valid()
      modifies this`table, this`openHandles, this`nextSerial
      ensures Valid()
      ensures nextSerial == old(nextSerial) + 1
      ensures claimed == Claimable(c, old(table).Keys, locked)
      ensures table == if claimed then old(table)[c.id := Handle(old(nextSerial), c.path)] else old(table)
    {
      var h := Handle(nextSerial, c.path);
      nextSerial := nextSerial + 1;
      openHandles := openHandles + {h};
      claimed := c.id !in table && c.path !in locked;
      if claimed {
        ValuesAfterInsert(table, c.id, h);
        table := table[c.id := h];
      } else {
        openHandles := openHandles - {h};
      }
    }

    /** Closes the handle held for `id` and drops its table entry. */
    method Release(id: string)
      requires Valid() && id in table
      modifies this`table, this`openHandles
      ensures Valid()
      ensures table == old(table) - {id}
      ensures openHandles == old(openHandles) - {old(table)[id]}
    {
      ValuesAfterRemove(table, id);
      openHandles := openHandles - {table[id]};
      table := table - {id};
    }

    /**
     * One iteration of receive's scan over candidate `i`: tries to claim it
     * and, when claimed, appends its delivery. `picked` are the indices
     * claimed so far, `claimed0` the table and open handles before the scan.
     */
    method ScanStep(cands: seq<Candidate>, i: nat, locked: set<Path>, decode: string -> Json, messages: seq<Message>,
                    ghost picked: seq<nat>, ghost table0: map<string, Handle>, ghost open0: set<Handle>)
      returns (messages': seq<Message>, ghost picked': seq<nat>)
      requires Valid()
      requires i < |cands| && forall k :: 0 <= k < |cands| ==> cands[k].path in files
      requires forall k :: 0 <= k < |picked| ==> picked[k] < i
      requires forall h :: h in open0 ==> h.serial < nextSerial
      requires DeliveredInOrder(messages, cands, picked, files, decode)
      requires ClaimedInto(table, table0, cands, picked, open0)
      modifies this`table, this`openHandles, this`nextSerial
      ensures Valid()
      ensures nextSerial == old(nextSerial) + 1
      ensures forall k :: 0 <= k < |picked'| ==> picked'[k] < i + 1
      ensures DeliveredInOrder(messages', cands, picked', files, decode)
      ensures ClaimedInto(table, table0, cands, picked', open0)
      ensures picked + Claims(cands, i, old(table).Keys, locked, batch, |picked|)
              == picked' + if |messages'| == batch then [] else Claims(cands, i + 1, table.Keys, locked, batch, |picked'|)
    {
      var c := cands[i];
      ghost var before := table;
      ghost var h := Handle(nextSerial, c.path);
      var claimed := TryClaim(c, locked);
      if claimed {
        ScanClaims(cands, i, locked, batch, files, decode, messages, picked, table0, open0, before, h);
        messages' := messages + [Message(c.id, decode(files[c.path].contents), map[])];
        picked' := picked + [i];
      } else {
        ClaimsAdvance(cands, i, before.Keys, locked, batch, picked);
        messages', picked' := messages, picked;
      }
    }

    /**
     * Receive's scan over the candidates in enumeration order: claims each
     * one it can and stops, after any file, once the number of claimed
     * messages equals messages_to_receive.
     */
    method Scan(cands: seq<Candidate>, locked: set<Path>, decode: string -> Json) returns (messages: seq<Message>)
      requires Valid()
      requires forall k :: 0 <= k < |cands| ==> cands[k].path in files
      modifies this`table, this`openHandles, this`nextSerial
      ensures Valid()
      ensures DeliveredInOrder(messages, cands, Claims(cands, 0, old(table).Keys, locked, batch, 0), files, decode)
      ensures ClaimedInto(table, old(table), cands, Claims(cands, 0, old(table).Keys, locked, batch, 0), old(openHandles))
    {
      ghost var all := Claims(cands, 0, table.Keys, locked, batch, 0);
      ghost var picked: seq<nat> := [];
      messages := [];
      var i := 0;
      while i < |cands|
        invariant 0 <= i <= |cands|
        invariant Valid()
        invariant forall h :: h in old(openHandles) ==> h.serial < nextSerial
        invariant forall k :: 0 <= k < |picked| ==> picked[k] < i
        invariant all == picked + Claims(cands, i, table.Keys, locked, batch, |picked|)
        invariant DeliveredInOrder(messages, cands, picked, files, decode)
        invariant ClaimedInto(table, old(table), cands, picked, old(openHandles))
      {
        messages, picked := ScanStep(cands, i, locked, decode, messages, picked, old(table), old(openHandles));
        if |messages| == batch {
          break;
        }
        i := i + 1;
      }
      assert all == picked + [] == picked;
      assert ClaimedInto(table, old(table), cands, all, old(openHandles));
    }

    /**
     * receive(): lists the files in the receive window in enumeration order
     * and scans them. Each one is opened; it is claimed when its id is not
     * in the table and no other process holds it locked (`locked`),
     * otherwise its handle is closed.
     */
    method Receive(now: int, order: seq<Path>, locked: set<Path>, decode: string -> Json) returns (r: Result<seq<Message>, Error>)
      requires Valid()
      modifies this`table, this`openHandles, this`nextSerial
      ensures Valid()
      ensures !rootExists ==> r == Err(DirectoryNotFound) && table == old(table) && openHandles == old(openHandles)
      ensures rootExists ==>
        var cands := ReceiveCandidates(files, order, now, delay, expiration);
        var picked := Claims(cands, 0, old(table).Keys, locked, batch, 0);
        && r.Ok?
        && DeliveredInOrder(r.value, cands, picked, files, decode)
        && ClaimedInto(table, old(table), cands, picked, old(openHandles))
    {
      if !rootExists {
        return Err(DirectoryNotFound);
      }
      var cands := ReceiveCandidates(files, order, now, delay, expiration);
      var messages := Scan(cands, locked, decode);
      r := Ok(messages);
    }

    /**
     * Removes the files in `victims` one by one, as `@unlink` does: a path
     * that is already gone is skipped silently.
     */
    method UnlinkAll(victims: seq<Path>)
      requires Valid()
      modifies this`files
      ensures Valid()
      ensures files == old(files) - (set p | p in victims)
    {
      var i := 0;
      while i < |victims|
        invariant 0 <= i <= |victims|
        invariant Valid()
        invariant files == old(files) - (set p | p in victims[..i])
      {
        assert victims[..i + 1] == victims[..i] + [victims[i]];
        files := files - {victims[i]};
        i := i + 1;
      }
      assert victims[..i] == victims;
    }

    /**
     * cleanUp() as written: unlinks the shallow `*.json` files modified
     * AFTER now minus the expiration, whatever their lock state. The lock
     * table is not touched.
     */
    method CleanUp(now: int, order: seq<Path>) returns (r: Result<(), Error>)
      requires Valid()
      modifies this`files
      ensures Valid()
      ensures !rootExists ==> r == Err(DirectoryNotFound) && files == old(files)
      ensures rootExists ==> r == Ok(()) && files == old(files) - (set p | p in CleanUpVictims(old(files), order, now, expiration))
    {
      if !rootExists {
        return Err(DirectoryNotFound);
      }
      UnlinkAll(CleanUpVictims(files, order, now, expiration));
      return Ok(());
    }

    /** cleanUp with the date filter the other way round: unlinks the expired shallow files only. */
    method CleanUpExpired(now: int, order: seq<Path>) returns (r: Result<(), Error>)
      requires Valid()
      modifies this`files
      ensures Valid()
      ensures !rootExists ==> r == Err(DirectoryNotFound) && files == old(files)
      ensures rootExists ==> r == Ok(()) && files == old(files) - (set p | p in ExpiredVictims(old(files), order, now, expiration))
    {
      if !rootExists {
        return Err(DirectoryNotFound);
      }
      UnlinkAll(ExpiredVictims(files, order, now, expiration));
      return Ok(());
    }

    /**
     * delete($id): when this process holds `id`, removes `shard/id.json`
     * (computed from the id as publish does), closes the handle and drops
     * the entry; returns whether it held the id. When `sweep` (the one-in-ten
     * draw) is set, the sweep of expired files runs afterwards and its
     * exception, if any, replaces the result.
     */
    method Delete(id: string, now: int, order: seq<Path>, sweep: bool) returns (r: Result<bool, Error>)
      requires Valid()
      modifies this`files, this`table, this`openHandles
      ensures Valid()
      ensures table == old(table) - {id}
      ensures openHandles == if id in old(table) then old(openHandles) - {old(table)[id]} else old(openHandles)
      ensures !sweep ==> r == Ok(id in old(table)) && files == AfterRemove(old(files), md5, id, id in old(table))
      ensures sweep && !rootExists ==> r == Err(DirectoryNotFound) && files == AfterRemove(old(files), md5, id, id in old(table))
      ensures sweep && rootExists ==>
        var removed := AfterRemove(old(files), md5, id, id in old(table));
        r == Ok(id in old(table)) && files == removed - (set p | p in ExpiredVictims(removed, order, now, expiration))
    {
      var success := false;
      if id in table {
        files := files - {StoredPath(md5, id)};
        Release(id);
        success := true;
      }
      if sweep {
        var swept := CleanUpExpired(now, order);
        if swept.Err? {
          return Err(swept.error);
        }
      }
      return Ok(success);
    }

    /**
     * onMessageReceived: deletes the message by its id once every listener
     * has run. It returns nothing; an exception from delete's sweep passes
     * through.
     */
    method OnMessageReceived(message: Message, now: int, order: seq<Path>, sweep: bool) returns (r: Result<(), Error>)
      requires Valid()
      modifies this`files, this`table, this`openHandles
      ensures Valid()
      ensures table == old(table) - {message.id}
      ensures openHandles == if message.id in old(table) then old(openHandles) - {old(table)[message.id]} else old(openHandles)
      ensures r.Err? <==> sweep && !rootExists
      ensures r.Err? ==> r.error == DirectoryNotFound
      ensures !sweep || !rootExists ==> files == AfterRemove(old(files), md5, message.id, message.id in old(table))
      ensures sweep && rootExists ==>
        var removed := AfterRemove(old(files), md5, message.id, message.id in old(table));
        files == removed - (set p | p in ExpiredVictims(removed, order, now, expiration))
    {
      var deleted := Delete(message.id, now, order, sweep);
      if deleted.Err? {
        return Err(deleted.error);
      }
      return Ok(());
    }

    /**
     * destroy(): removes the queue directory recursively and reports that it
     * is gone. Handles in the table stay open and their entries stay.
     */
    method Destroy() returns (ok: bool)
      requires Valid()
      modifies this`files, this`rootExists
      ensures Valid() && ok
      ensures !rootExists && files == map[]
    {
      files := map[];
      rootExists := false;
      ok := !rootExists;
    }
  }

  /** A second delete of the same id finds nothing to release and returns false. */
  method DeleteTwice(q: FileProvider, id: string, now: int, order: seq<Path>)
    requires q.Valid() && id in q.table
    modifies q
    ensures q.Valid() && id !in q.table
  {
    var first := q.Delete(id, now, order, false);
    assert first == Ok(true);
    var second := q.Delete(id, now, order, false);
    assert second == Ok(false);
  }
}
