/**
 * The on-disk layout of FileProvider's queue directory and the file
 * selections its Finder queries make.
 *
 * A path is the list of names below the queue root, so `[shard, "x.json"]`
 * is `path/shard/x.json` and a file's Finder depth is its length minus one.
 */
module FileLayout {
  import opened HumanTime

  type Path = seq<string>

  /** A regular file: its contents and its modification time in seconds. */
  datatype StoredFile = StoredFile(contents: string, mtime: int)

  /** The files below the queue root. */
  type Disk = map<Path, StoredFile>

  /** A file that receive may try to claim, with the id read from its name. */
  datatype Candidate = Candidate(path: Path, id: string)

  const JsonExtension: string := ".json"

  /** `str_replace(' ', '', $s)`: the stamp with every space removed. */
  function StripSpaces(s: string): (r: string)
    ensures ' ' !in r
    ensures multiset(r) == multiset(s)[' ' := 0]
  {
    if s == [] then []
    else
      var rest := StripSpaces(s[1..]);
      assert s == [s[0]] + s[1..];
      if s[0] == ' ' then rest else [s[0]] + rest
  }

  /** A single character is dropped when it is a space and kept otherwise. */
  lemma StripSpacesChar(c: char)
    ensures StripSpaces([c]) == if c == ' ' then [] else [c]
  {
    assert [c][1..] == [];
  }

  /**
   * Removing spaces works piece by piece: the characters that remain keep
   * their order, so a stamp split anywhere strips to the two stripped parts.
   */
  lemma {:induction false} StripSpacesConcat(a: string, b: string)
    ensures StripSpaces(a + b) == StripSpaces(a) + StripSpaces(b)
  {
    if a == [] {
      assert a + b == b;
    } else {
      assert (a + b)[0] == a[0];
      assert (a + b)[1..] == a[1..] + b;
      StripSpacesConcat(a[1..], b);
      if a[0] != ' ' {
        assert [a[0]] + (StripSpaces(a[1..]) + StripSpaces(b)) == ([a[0]] + StripSpaces(a[1..])) + StripSpaces(b);
      }
    }
  }

  /** A stamp without spaces is left exactly as it is. */
  lemma {:induction false} StripSpacesKeepsSpaceFree(s: string)
    requires ' ' !in s
    ensures StripSpaces(s) == s
  {
    if s != [] {
      StripSpacesKeepsSpaceFree(s[1..]);
      assert s == [s[0]] + s[1..];
    }
  }

  /** `substr(hash('md5', $id), 0, 3)`: at most the first three characters of the hash. */
  function ShardOf(md5: string -> string, id: string): (shard: string)
    ensures shard <= md5(id)
    ensures |shard| == if |md5(id)| < 3 then |md5(id)| else 3
  {
    var h := md5(id);
    if |h| < 3 then h else h[..3]
  }

  function StoredName(id: string): string {
    id + JsonExtension
  }

  function FileName(p: Path): string
    requires |p| >= 1
  {
    p[|p| - 1]
  }

  /** `substr($fileName, 0, -5)`: the name without its last five characters. */
  function IdOf(fileName: string): (id: string)
    ensures |fileName| >= 5 ==> id <= fileName && |id| == |fileName| - 5
    ensures |fileName| < 5 ==> id == ""
  {
    if |fileName| >= 5 then fileName[..|fileName| - 5] else ""
  }

  /** Stripping ".json" from a stored name gives back the id it was built from. */
  lemma IdOfStoredName(id: string)
    ensures IdOf(StoredName(id)) == id
  {
    assert StoredName(id)[..|id|] == id;
  }

  /**
   * The id receive reads off a stored file's name locates the same file
   * again: publish and delete agree on the path.
   */
  lemma StoredPathRoundTrip(md5: string -> string, id: string)
    ensures |StoredPath(md5, id)| == 2
    ensures IdOf(FileName(StoredPath(md5, id))) == id
    ensures StoredPath(md5, IdOf(FileName(StoredPath(md5, id)))) == StoredPath(md5, id)
  {
    IdOfStoredName(id);
  }

  // ---- Finder filters ------------------------------------------------------

  /** `ignoreDotFiles(true)` skips every file or directory whose name starts with a dot. */
  predicate IsDotName(n: string) {
    |n| > 0 && n[0] == '.'
  }

  /** The directory names `ignoreVCS(true)` skips. */
  const VcsDirectories: set<string> :=
    {".svn", "_svn", "CVS", "_darcs", ".arch-params", ".monotone", ".bzr", ".git", ".hg"}

  /** `name('*.json')`. */
  predicate HasJsonName(p: Path) {
    |p| >= 1 && |FileName(p)| >= 5 && FileName(p)[|FileName(p)| - 5..] == JsonExtension
  }

  /**
   * Where publish writes and delete removes the message `id`:
   * `shard/id.json`, one directory below the root and named `*.json`.
   */
  function StoredPath(md5: string -> string, id: string): (p: Path)
    ensures |p| == 2 && p[0] == ShardOf(md5, id) && p[1] == id + JsonExtension
    ensures HasJsonName(p)
  {
    var name := StoredName(id);
    assert name[|name| - 5..] == JsonExtension;
    [ShardOf(md5, id), name]
  }

  /** A file the Finder lists under `files()->ignoreDotFiles(true)->ignoreVCS(true)->name('*.json')`. */
  predicate Listed(p: Path) {
    && HasJsonName(p)
    && (forall k :: 0 <= k < |p| ==> !IsDotName(p[k]))
    && (forall k :: 0 <= k < |p| - 1 ==> p[k] !in VcsDirectories)
  }

  /** `date('< N ago')` for the delay, applied only when the delay is positive. */
  predicate DelayPassed(mtime: int, now: int, delay: int) {
    delay > 0 ==> mtime < Cutoff(now, delay)
  }

  /** `date('> N ago')` for the expiration. */
  predicate NotExpired(mtime: int, now: int, expiration: int) {
    mtime > Cutoff(now, expiration)
  }

  /** The whole Finder query of receive. */
  predicate Receivable(p: Path, f: StoredFile, now: int, delay: int, expiration: int) {
    Listed(p) && DelayPassed(f.mtime, now, delay) && NotExpired(f.mtime, now, expiration)
  }

  /**
   * The files receive iterates, in enumeration order, each with the id
   * `substr($file->getFilename(), 0, -5)`. `order` is the directory
   * walk's enumeration; only files that exist are listed.
   */
  function ReceiveCandidates(disk: Disk, order: seq<Path>, now: int, delay: int, expiration: int): (cands: seq<Candidate>)
    ensures forall k :: 0 <= k < |cands| ==>
      && cands[k].path in disk
      && cands[k].path in order
      && Receivable(cands[k].path, disk[cands[k].path], now, delay, expiration)
      && cands[k].id == IdOf(FileName(cands[k].path))
  {
    if order == [] then []
    else
      var p := order[0];
      var rest := ReceiveCandidates(disk, order[1..], now, delay, expiration);
      if p in disk && Receivable(p, disk[p], now, delay, expiration) then
        [Candidate(p, IdOf(FileName(p)))] + rest
      else rest
  }

  /** Every enumerated file that passes the receive query is a candidate. */
  lemma {:induction false} ReceiveCandidatesComplete(disk: Disk, order: seq<Path>, now: int, delay: int, expiration: int)
    ensures forall p :: p in order && p in disk && Receivable(p, disk[p], now, delay, expiration) ==>
      Candidate(p, IdOf(FileName(p))) in ReceiveCandidates(disk, order, now, delay, expiration)
  {
    if order != [] {
      ReceiveCandidatesComplete(disk, order[1..], now, delay, expiration);
      assert forall p :: p in order ==> p == order[0] || p in order[1..];
    }
  }

  /** Listing keeps enumeration order: candidates of a split walk are the candidates of its parts. */
  lemma {:induction false} ReceiveCandidatesAppend(disk: Disk, a: seq<Path>, b: seq<Path>, now: int, delay: int, expiration: int)
    ensures ReceiveCandidates(disk, a + b, now, delay, expiration)
         == ReceiveCandidates(disk, a, now, delay, expiration) + ReceiveCandidates(disk, b, now, delay, expiration)
  {
    if a != [] {
      assert (a + b)[1..] == a[1..] + b;
      ReceiveCandidatesAppend(disk, a[1..], b, now, delay, expiration);
    } else {
      assert a + b == b;
    }
  }

  /**
   * A message publish stored at `stamp` is offered to receive under exactly
   * the id publish returned, once the delay has passed and before it expires.
   */
  lemma PublishedFileIsCandidate(disk: Disk, order: seq<Path>, md5: string -> string, id: string,
                                 now: int, delay: int, expiration: int)
    requires StoredPath(md5, id) in order && StoredPath(md5, id) in disk
    requires Listed(StoredPath(md5, id))
    requires delay > 0 ==> disk[StoredPath(md5, id)].mtime < now - delay
    requires disk[StoredPath(md5, id)].mtime > now - expiration
    ensures Candidate(StoredPath(md5, id), id) in ReceiveCandidates(disk, order, now, delay, expiration)
  {
    StoredPathRoundTrip(md5, id);
    ReceiveCandidatesComplete(disk, order, now, delay, expiration);
  }

  // ---- cleanUp -------------------------------------------------------------

  /** The files among `order` that exist and satisfy `keep`, in enumeration order. */
  function Select(disk: Disk, order: seq<Path>, keep: (Path, StoredFile) -> bool): (r: seq<Path>)
    ensures forall p :: p in r <==> p in order && p in disk && keep(p, disk[p])
  {
    if order == [] then []
    else
      var rest := Select(disk, order[1..], keep);
      assert order == [order[0]] + order[1..];
      if order[0] in disk && keep(order[0], disk[order[0]]) then [order[0]] + rest else rest
  }

  /**
   * The Finder query of cleanUp as written: depth below 2 and the same
   * `'> N ago'` filter receive uses to keep unexpired files.
   */
  predicate SweptByCleanUp(p: Path, f: StoredFile, now: int, expiration: int)
    ensures SweptByCleanUp(p, f, now, expiration) ==> NotExpired(f.mtime, now, expiration)
  {
    Listed(p) && |p| <= 2 && f.mtime > Cutoff(now, expiration)
  }

  /** The files cleanUp unlinks, in enumeration order. */
  function CleanUpVictims(disk: Disk, order: seq<Path>, now: int, expiration: int): (victims: seq<Path>)
    ensures forall p :: p in victims <==> p in order && p in disk && SweptByCleanUp(p, disk[p], now, expiration)
  {
    Select(disk, order, (p, f) => SweptByCleanUp(p, f, now, expiration))
  }

  /** The evidently intended query: shallow files that receive no longer returns because they expired. */
  predicate Expired(p: Path, f: StoredFile, now: int, expiration: int) {
    Listed(p) && |p| <= 2 && f.mtime <= Cutoff(now, expiration)
  }

  function ExpiredVictims(disk: Disk, order: seq<Path>, now: int, expiration: int): (victims: seq<Path>)
    ensures forall p :: p in victims <==> p in order && p in disk && Expired(p, disk[p], now, expiration)
  {
    Select(disk, order, (p, f) => Expired(p, f, now, expiration))
  }

  /** Every file present is listed by the enumeration. */
  predicate Enumerates(order: seq<Path>, disk: Disk) {
    forall p :: p in disk ==> p in order
  }

  /**
   * As written, cleanUp unlinks exactly the shallow files that receive still
   * treats as unexpired, and leaves behind only expired ones.
   */
  lemma CleanUpSweepsUnexpired(disk: Disk, order: seq<Path>, now: int, expiration: int)
    requires Enumerates(order, disk)
    ensures forall p :: p in disk && Listed(p) && |p| <= 2 ==>
      (p in CleanUpVictims(disk, order, now, expiration) <==> NotExpired(disk[p].mtime, now, expiration))
  {
  }

  /**
   * A concrete case: with a 60-second expiration, a message written ten
   * seconds ago is removed by cleanUp while one written 100 seconds ago stays.
   */
  lemma CleanUpRemovesLiveMessage()
    ensures var young := ["abc", "1.json"]; var aged := ["abc", "2.json"];
      var disk := map[young := StoredFile("{}", 990), aged := StoredFile("{}", 900)];
      && Receivable(young, disk[young], 1000, 0, 60)
      && !Receivable(aged, disk[aged], 1000, 0, 60)
      && CleanUpVictims(disk, [young, aged], 1000, 60) == [young]
  {
    var young, aged := ["abc", "1.json"], ["abc", "2.json"];
    assert FileName(young)[|FileName(young)| - 5..] == ".json";
    assert FileName(aged)[|FileName(aged)| - 5..] == ".json";
  }

  /**
   * The corrected sweep removes exactly the shallow files that receive no
   * longer returns, so it never takes a file receive could deliver.
   */
  lemma ExpiredSweepComplementsReceive(disk: Disk, order: seq<Path>, now: int, delay: int, expiration: int)
    requires Enumerates(order, disk)
    ensures forall p :: p in disk && Listed(p) && |p| <= 2 ==>
      (p in ExpiredVictims(disk, order, now, expiration) <==> !NotExpired(disk[p].mtime, now, expiration))
    ensures forall p :: p in ExpiredVictims(disk, order, now, expiration) ==>
      !Receivable(p, disk[p], now, delay, expiration)
  {
  }
}
