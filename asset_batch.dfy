/** The batch drivers of `src/core/crypto.py` (`decrypt`, `encode`) and of
    the older scripts `decrypt.py` and `encrypt.py`, over a directory held
    as maps. A batch works in two phases, as the source does: every job is
    submitted to the pool first, and the pool runs all of them whatever
    any one of them raises; then the futures are read in completion order,
    and the first one that raised re-raises its exception. The model runs
    the jobs one after another and reads the futures one after another,
    each in an order it leaves open. */
module AssetBatch {
  import opened Outcomes
  import opened Paths
  import opened UnityFsLocator
  import opened HeaderTransform

  /** An index cache: root-relative path (or file name) to header length. */
  type Index = map<string, int>

  /** The future of one decrypt job: the file name and header length it returned, or what it raised. */
  type DecryptFuture = Raises<(string, int)>

  /** The name `decrypt` in crypto.py gives its cache file (relative to the working directory). */
  function CacheName(timestamp: string): (r: string)
    ensures |r| == |timestamp| + 23 && r[18..|r| - 5] == timestamp
  {
    "cache/index_cache_" + timestamp + ".json"
  }

  /** The name `decrypt` in decrypt.py gives its cache file. */
  function LegacyCacheName(dateStr: string): (r: string)
    ensures |r| == |dateStr| + 29 && r[24..|r| - 5] == dateStr
  {
    "index_cache/index_cache_" + dateStr + ".json"
  }

  // ---------------------------------------------------------------------
  // Specification of one job

  /** What the decrypt job of `path` returns or raises: the file name and the
      locator's answer for a regular file, an exception for a directory or a
      missing path. */
  function DecryptJob(files: map<string, seq<byte>>, dirs: set<string>, path: string): DecryptFuture {
    if path in files then
      match FindNextUnityFsIndex(files[path])
      case Returns(headerLen) => Returns((Basename(path), headerLen))
      case Raises(e) => Raises(e)
    else if path in dirs then Raises(IsADirectory)
    else Raises(FileVanished)
  }

  /** What the encode job of `path` returns or raises. */
  function EncodeJob(files: map<string, seq<byte>>, dirs: set<string>, path: string): Raises<()> {
    if path in files then Returns(())
    else if path in dirs then Raises(IsADirectory)
    else Raises(FileVanished)
  }

  /** The futures of the decrypt jobs of `todo`, by path. */
  function DecryptJobs(files: map<string, seq<byte>>, dirs: set<string>, todo: set<string>): map<string, DecryptFuture> {
    map k | k in todo :: DecryptJob(files, dirs, k)
  }

  /** The futures of the encode jobs of `todo`, by path. */
  function EncodeJobs(files: map<string, seq<byte>>, dirs: set<string>, todo: set<string>): map<string, Raises<()>> {
    map k | k in todo :: EncodeJob(files, dirs, k)
  }

  /** The files after the decrypt jobs of the paths in `done` have run. */
  function DecodedWhere(files: map<string, seq<byte>>, done: set<string>): map<string, seq<byte>> {
    map k | k in files :: if k in done then Decoded(files[k]) else files[k]
  }

  /** The files after the encode jobs of the index entries in `done` have run. */
  function EncodedWhere(files: map<string, seq<byte>>, index: Index, done: set<string>): map<string, seq<byte>> {
    map k | k in files :: if k in done && k in index then EncodeBuffer(files[k], index[k]) else files[k]
  }

  /** The header lengths other than -1 among returned futures, keyed by the futures' own keys. */
  function PathResults(futures: map<string, DecryptFuture>): Index {
    map k | k in futures && futures[k].Returns? && futures[k].value.1 != -1 :: futures[k].value.1
  }

  /** The file names of the returned futures whose header length is not -1. */
  function ResultNames(futures: map<string, DecryptFuture>): set<string> {
    set k | k in futures && futures[k].Returns? && futures[k].value.1 != -1 :: futures[k].value.0
  }

  /** Some future in the collection raised. */
  ghost predicate SomeRaised<T>(futures: map<string, Raises<T>>) {
    exists k :: k in futures && futures[k].Raises?
  }

  // ---------------------------------------------------------------------
  // Specification of the batches, in terms of the directory before them

  /** Every regular file under the root after crypto.py's decrypt batch. */
  function DecodeAll(files: map<string, seq<byte>>): map<string, seq<byte>> {
    map k | k in files :: Decoded(files[k])
  }

  /** The `results` dict crypto.py's `decrypt` returns and saves. */
  function DecryptResults(files: map<string, seq<byte>>): Index {
    map k | k in files && Eligible(files[k]) :: FindNextUnityFsIndex(files[k]).value
  }

  /** The files whose decrypt job raises. */
  function RaisingFiles(files: map<string, seq<byte>>): set<string> {
    set k | k in files && FindNextUnityFsIndex(files[k]).Raises?
  }

  /** Every regular file under the root after crypto.py's encode batch with `index`. */
  function EncodeAll(files: map<string, seq<byte>>, index: Index): map<string, seq<byte>> {
    map k | k in files :: if k in index then EncodeBuffer(files[k], index[k]) else files[k]
  }

  /** The index entries for which `root / rel_path` exists: one encode job each. */
  function Submitted(files: map<string, seq<byte>>, dirs: set<string>, index: Index): set<string> {
    set k | k in index && (k in files || k in dirs)
  }

  /** The index entries that name a directory: their encode job raises. */
  function DirectoryEntries(files: map<string, seq<byte>>, dirs: set<string>, index: Index): set<string> {
    set k | k in index && k !in files && k in dirs
  }

  /** The entries `iterdir` yields: the top-level files and directories. */
  function Entries(files: map<string, seq<byte>>, dirs: set<string>): set<string> {
    (set k | k in files && TopLevel(k)) + (set k | k in dirs && TopLevel(k))
  }

  /** Every regular file after decrypt.py's batch: only top-level files are decoded. */
  function DecodeTopLevel(files: map<string, seq<byte>>): map<string, seq<byte>> {
    map k | k in files :: if TopLevel(k) then Decoded(files[k]) else files[k]
  }

  /** The `decrypt_result` dict of decrypt.py, keyed by file name. */
  function LegacyResults(files: map<string, seq<byte>>): Index {
    map k | k in files && TopLevel(k) && Eligible(files[k]) :: FindNextUnityFsIndex(files[k]).value
  }

  /** The top-level entries whose decrypt job raises (directories and odd-offset files). */
  function LegacyRaising(files: map<string, seq<byte>>, dirs: set<string>): set<string> {
    set k | k in Entries(files, dirs) && DecryptJob(files, dirs, k).Raises?
  }

  /** Every regular file after encrypt.py's batch: top-level files named in the index are encoded. */
  function EncodeTopLevel(files: map<string, seq<byte>>, index: Index): map<string, seq<byte>> {
    map k | k in files :: if TopLevel(k) && k in index then EncodeBuffer(files[k], index[k]) else files[k]
  }

  // ---------------------------------------------------------------------
  // Reading the futures (the `as_completed` loops)

  /** crypto.py's result loop: read the futures in some order, re-raise the
      first exception met, and otherwise record each length that is not -1
      under the future's own key (the relative path). */
  method CollectByPath(futures: map<string, DecryptFuture>) returns (r: Raises<Index>)
    ensures r.Raises? <==> SomeRaised(futures)
    ensures r.Raises? ==> exists k :: k in futures && futures[k] == Raises(r.error)
    ensures r.Returns? ==> r.value == PathResults(futures)
  {
    var pending := futures.Keys;
    var results: Index := map[];
    while pending != {}
      invariant pending <= futures.Keys
      invariant forall k :: k in futures && k !in pending ==> futures[k].Returns?
      invariant results == PathResults(map k | k in futures && k !in pending :: futures[k])
      decreases pending
    {
      var k :| k in pending;
      match futures[k] {
        case Raises(e) =>
          return Raises(e);
        case Returns((_, headerLen)) =>
          if headerLen != -1 {
            results := results[k := headerLen];
          }
      }
      pending := pending - {k};
    }
    assert (map k | k in futures && k !in pending :: futures[k]) == futures;
    r := Returns(results);
  }

  /** decrypt.py's result loop: as `CollectByPath`, but each length is
      recorded under the file name the job returned. */
  method CollectByName(futures: map<string, DecryptFuture>) returns (r: Raises<Index>)
    ensures r.Raises? <==> SomeRaised(futures)
    ensures r.Raises? ==> exists k :: k in futures && futures[k] == Raises(r.error)
    ensures r.Returns? ==> r.value.Keys == ResultNames(futures)
    ensures r.Returns? ==> forall n :: n in r.value ==> exists k :: k in futures && futures[k] == Returns((n, r.value[n]))
  {
    var pending := futures.Keys;
    var results: Index := map[];
    while pending != {}
      invariant pending <= futures.Keys
      invariant forall k :: k in futures && k !in pending ==> futures[k].Returns?
      invariant results.Keys == ResultNames(Settled(futures, pending))
      invariant forall n :: n in results ==> exists k :: k in futures && futures[k] == Returns((n, results[n]))
      decreases pending
    {
      var k :| k in pending;
      SettledStep(futures, pending, k);
      ResultNamesStep(Settled(futures, pending), k, futures[k]);
      match futures[k] {
        case Raises(e) =>
          return Raises(e);
        case Returns((fileName, headerLen)) =>
          if headerLen != -1 {
            results := results[fileName := headerLen];
          }
      }
      pending := pending - {k};
    }
    assert Settled(futures, pending) == futures;
    r := Returns(results);
  }

  /** The futures already read when `pending` remain. */
  function Settled(futures: map<string, DecryptFuture>, pending: set<string>): map<string, DecryptFuture> {
    map k | k in futures && k !in pending :: futures[k]
  }

  lemma SettledStep(futures: map<string, DecryptFuture>, pending: set<string>, k: string)
    requires k in pending && k in futures
    ensures k !in Settled(futures, pending)
    ensures Settled(futures, pending - {k}) == Settled(futures, pending)[k := futures[k]]
  {
  }

  /** Reading one more future adds at most its own name. */
  lemma ResultNamesStep(settled: map<string, DecryptFuture>, k: string, future: DecryptFuture)
    requires k !in settled
    ensures ResultNames(settled[k := future]) ==
      ResultNames(settled) + if future.Returns? && future.value.1 != -1 then {future.value.0} else {}
  {
    var after := settled[k := future];
    forall n | n in ResultNames(after)
      ensures n in ResultNames(settled) + if future.Returns? && future.value.1 != -1 then {future.value.0} else {}
    {
      var j :| j in after && after[j].Returns? && after[j].value.1 != -1 && after[j].value.0 == n;
      if j != k {
        assert n in ResultNames(settled);
      }
    }
    forall n | n in ResultNames(settled)
      ensures n in ResultNames(after)
    {
      var j :| j in settled && settled[j].Returns? && settled[j].value.1 != -1 && settled[j].value.0 == n;
      assert after[j] == settled[j];
    }
    if future.Returns? && future.value.1 != -1 {
      assert after[k] == future;
      assert future.value.0 in ResultNames(after);
    }
  }

  /** The encode batches' wait loop: re-raise the first exception met. */
  method WaitAll(futures: map<string, Raises<()>>) returns (r: Raises<()>)
    ensures r.Raises? <==> SomeRaised(futures)
    ensures r.Raises? ==> exists k :: k in futures && futures[k] == Raises(r.error)
  {
    var pending := futures.Keys;
    while pending != {}
      invariant pending <= futures.Keys
      invariant forall k :: k in futures && k !in pending ==> futures[k].Returns?
      decreases pending
    {
      var k :| k in pending;
      if futures[k].Raises? {
        return Raises(futures[k].error);
      }
      pending := pending - {k};
    }
    r := Returns(());
  }

  // ---------------------------------------------------------------------
  // The directory and its batches

  /** `paths` and `dirs` can be the regular files and sub-directories of one
      directory tree: no path is both, and every proper '/'-prefix of a path
      is a sub-directory; paths are relative, so none is empty or starts
      with '/'. */
  ghost predicate IsTree(paths: set<string>, dirs: set<string>) {
    && paths !! dirs
    && (forall p :: p in paths + dirs ==> p != [] && p[0] != '/')
    && forall p, k :: p in paths + dirs && 0 < k < |p| && p[k] == '/' ==> p[..k] in dirs
  }

  class AssetDirectory {
    /** Whether the bundle directory exists. */
    var rootExists: bool
    /** Regular files under the root, by root-relative path. */
    var files: map<string, seq<byte>>
    /** Sub-directories under the root, by root-relative path. */
    var dirs: set<string>
    /** Index-cache files on disk, by path, with the index each holds. */
    var caches: map<string, Index>

    /** The files and sub-directories form a directory tree. */
    ghost predicate Valid()
      reads this
    {
      IsTree(files.Keys, dirs)
    }

    constructor (rootExists: bool, files: map<string, seq<byte>>, dirs: set<string>, caches: map<string, Index>)
      requires IsTree(files.Keys, dirs)
      ensures Valid()
      ensures this.rootExists == rootExists && this.files == files
      ensures this.dirs == dirs && this.caches == caches
    {
      this.rootExists := rootExists;
      this.files := files;
      this.dirs := dirs;
      this.caches := caches;
    }

    /** decrypt_file: read the file, locate the header, and overwrite the file
        with `data[header_len:]` unless the locator answered -1 or raised. */
    method DecryptFile(path: string) returns (r: DecryptFuture)
      modifies this`files
      requires Valid()
      ensures Valid()
      ensures r == DecryptJob(old(files), dirs, path)
      ensures files == if path in old(files) then old(files)[path := Decoded(old(files)[path])] else old(files)
    {
      if path !in files {
        r := if path in dirs then Raises(IsADirectory) else Raises(FileVanished);
        return;
      }
      var data := files[path];
      var headerLen := FindNextUnityFsIndex(data);
      match headerLen {
        case Raises(e) =>
          r := Raises(e);
        case Returns(n) =>
          if n != -1 {
            files := files[path := PySuffix(data, n as nat)];
          }
          r := Returns((Basename(path), n));
      }
    }

    /** encode_file: read the file and overwrite it with `data[:header_len] + data`. */
    method EncodeFile(path: string, headerLen: int) returns (r: Raises<()>)
      modifies this`files
      requires Valid()
      ensures Valid()
      ensures r == EncodeJob(old(files), dirs, path)
      ensures files == if path in old(files) then old(files)[path := EncodeBuffer(old(files)[path], headerLen)] else old(files)
    {
      if path !in files {
        r := if path in dirs then Raises(IsADirectory) else Raises(FileVanished);
        return;
      }
      var data := files[path];
      var encData := PyPrefix(data, headerLen);
      files := files[path := encData + data];
      assert files.Keys == old(files).Keys;
      r := Returns(());
    }

    /** Submitting a decrypt job for every path in `todo`: all of them run. */
    method RunDecryptJobs(todo: set<string>) returns (futures: map<string, DecryptFuture>)
      modifies this`files
      requires Valid()
      ensures Valid()
      ensures files == DecodedWhere(old(files), todo)
      ensures futures == DecryptJobs(old(files), dirs, todo)
    {
      ghost var start := files;
      var pending := todo;
      ghost var done: set<string> := {};
      futures := map[];
      while pending != {}
        invariant pending <= todo && done == todo - pending
        invariant files == DecodedWhere(start, done)
        invariant futures == DecryptJobs(start, dirs, done)
        decreases pending
      {
        var path :| path in pending;
        DecodeStep(start, done, path);
        DecryptJobsStep(start, dirs, done, path);
        assert DecryptJob(files, dirs, path) == DecryptJob(start, dirs, path);
        var job := DecryptFile(path);
        futures := futures[path := job];
        pending := pending - {path};
        done := done + {path};
      }
    }

    /** crypto.py `decrypt`: decode every regular file under the root, keep the
        lengths that are not -1 by relative path, and save them as a new
        index cache; a raising job re-raises before the cache is written. */
    method Decrypt(timestamp: string) returns (r: Raises<Index>)
      modifies this`files, this`caches
      requires Valid()
      ensures Valid()
      ensures !rootExists ==> r == Raises(RootNotFound) && files == old(files) && caches == old(caches)
      ensures rootExists ==> files == DecodeAll(old(files))
      ensures rootExists ==> r == if RaisingFiles(old(files)) != {} then Raises(OddLengthHex) else Returns(DecryptResults(old(files)))
      ensures rootExists ==> caches == if r.Returns? then old(caches)[CacheName(timestamp) := r.value] else old(caches)
    {
      if !rootExists {
        return Raises(RootNotFound);
      }
      ghost var start := files;
      var futures := RunDecryptJobs(files.Keys);
      DecodeAllWhere(start);
      FileFuturesRaise(start, dirs);
      FileFuturesOddHex(start, dirs);
      FileFuturesResults(start, dirs);
      var collected := CollectByPath(futures);
      if collected.Raises? {
        return Raises(collected.error);
      }
      caches := caches[CacheName(timestamp) := collected.value];
      r := collected;
    }

    /** crypto.py's submission loop: for each index entry, submit an encode
        job when `root / rel_path` exists. */
    method RunEncodeJobs(index: Index) returns (futures: map<string, Raises<()>>)
      modifies this`files
      requires Valid()
      ensures Valid()
      ensures files == EncodeAll(old(files), index)
      ensures futures == EncodeJobs(old(files), dirs, Submitted(old(files), dirs, index))
    {
      ghost var start := files;
      ghost var jobs := Submitted(start, dirs, index);
      var pending := index.Keys;
      ghost var done: set<string> := {};
      futures := map[];
      while pending != {}
        invariant pending <= index.Keys && done == index.Keys - pending
        invariant files == EncodedWhere(start, index, done)
        invariant futures == EncodeJobs(start, dirs, done * jobs)
        decreases pending
      {
        var relPath :| relPath in pending;
        EncodeStep(start, index, done, relPath);
        IntersectStep(done, jobs, relPath);
        EncodeJobsStep(start, dirs, done * jobs, relPath);
        assert relPath in jobs <==> relPath in start || relPath in dirs;
        assert EncodeJob(files, dirs, relPath) == EncodeJob(start, dirs, relPath);
        if relPath in files || relPath in dirs {
          var job := EncodeFile(relPath, index[relPath]);
          futures := futures[relPath := job];
        }
        pending := pending - {relPath};
        done := done + {relPath};
      }
      EncodeAllWhere(start, index);
      assert index.Keys * jobs == jobs;
    }

    /** crypto.py `encode`: after the directory and cache-file checks, encode
        `root / rel_path` for every index entry that exists and wait for all
        the jobs; the count is the number of jobs submitted, which the
        source logs. */
    method Encode(cacheFile: string) returns (r: Raises<nat>)
      modifies this`files
      requires Valid()
      ensures Valid()
      ensures !rootExists ==> r == Raises(RootNotFound) && files == old(files)
      ensures rootExists && cacheFile == "" ==> r == Raises(CacheFileNotGiven) && files == old(files)
      ensures rootExists && cacheFile != "" && cacheFile !in caches ==> r == Raises(CacheFileMissing) && files == old(files)
      ensures rootExists && cacheFile != "" && cacheFile in caches ==>
        var index := caches[cacheFile];
        && files == EncodeAll(old(files), index)
        && r == if DirectoryEntries(old(files), dirs, index) != {} then Raises(IsADirectory)
                else Returns(|Submitted(old(files), dirs, index)|)
    {
      if !rootExists {
        return Raises(RootNotFound);
      }
      if cacheFile == "" {
        return Raises(CacheFileNotGiven);
      }
      if cacheFile !in caches {
        return Raises(CacheFileMissing);
      }
      var index := caches[cacheFile];
      ghost var start := files;
      var futures := RunEncodeJobs(index);
      EncodeFutures(start, dirs, index);
      var waited := WaitAll(futures);
      if waited.Raises? {
        return Raises(waited.error);
      }
      r := Returns(|futures|);
    }

    /** decrypt.py `decrypt`: one job per top-level entry, results keyed by
        file name, saved as a new index cache unless a job raised. */
    method LegacyDecrypt(dateStr: string) returns (r: Raises<()>)
      modifies this`files, this`caches
      requires Valid()
      ensures Valid()
      ensures !rootExists ==> r == Raises(RootNotFound) && files == old(files) && caches == old(caches)
      ensures rootExists ==> files == DecodeTopLevel(old(files))
      ensures rootExists ==> (r.Raises? <==> LegacyRaising(old(files), dirs) != {})
      ensures rootExists && r.Raises? ==>
        exists k :: k in LegacyRaising(old(files), dirs) && DecryptJob(old(files), dirs, k) == Raises(r.error)
      ensures rootExists ==>
        caches == if r.Returns? then old(caches)[LegacyCacheName(dateStr) := LegacyResults(old(files))] else old(caches)
    {
      if !rootExists {
        return Raises(RootNotFound);
      }
      ghost var start := files;
      var futures := RunDecryptJobs(Entries(files, dirs));
      DecodeTopLevelWhere(start, dirs);
      EntryFutures(start, dirs);
      var collected := CollectByName(futures);
      if collected.Raises? {
        return Raises(collected.error);
      }
      EntryFuturesNamed(start, dirs);
      ByNameIsByKey(futures, collected.value);
      EntryPathResults(start, dirs);
      caches := caches[LegacyCacheName(dateStr) := collected.value];
      r := Returns(());
    }

    /** encrypt.py's submission loop: for each entry in `todo`, submit an
        encode job when its name has an index entry, and skip it otherwise. */
    method RunLegacyEncodeJobs(index: Index, todo: set<string>) returns (futures: map<string, Raises<()>>)
      modifies this`files
      requires Valid()
      ensures Valid()
      ensures files == EncodedWhere(old(files), index, todo)
      ensures futures == EncodeJobs(old(files), dirs, todo * index.Keys)
    {
      ghost var start := files;
      var pending := todo;
      ghost var done: set<string> := {};
      futures := map[];
      while pending != {}
        invariant pending <= todo && done == todo - pending
        invariant files == EncodedWhere(start, index, done)
        invariant futures == EncodeJobs(start, dirs, done * index.Keys)
        decreases pending
      {
        var entry :| entry in pending;
        EncodeStep(start, index, done, entry);
        IntersectStep(done, index.Keys, entry);
        EncodeJobsStep(start, dirs, done * index.Keys, entry);
        assert EncodeJob(files, dirs, entry) == EncodeJob(start, dirs, entry);
        if entry in index {
          var job := EncodeFile(entry, index[entry]);
          futures := futures[entry := job];
        }
        pending := pending - {entry};
        done := done + {entry};
      }
    }

    /** encrypt.py `encode`: one job per top-level entry whose name has an
        index entry, the others skipped, then wait for all the jobs. */
    method LegacyEncode(cacheFile: string) returns (r: Raises<()>)
      modifies this`files
      requires Valid()
      ensures Valid()
      ensures !rootExists ==> r == Raises(RootNotFound) && files == old(files)
      ensures rootExists && cacheFile == "" ==> r == Raises(CacheFileNotGiven) && files == old(files)
      ensures rootExists && cacheFile != "" && cacheFile !in caches ==> r == Raises(CacheFileMissing) && files == old(files)
      ensures rootExists && cacheFile != "" && cacheFile in caches ==>
        var index := caches[cacheFile];
        && files == EncodeTopLevel(old(files), index)
        && (r.Raises? <==> Entries(old(files), dirs) * DirectoryEntries(old(files), dirs, index) != {})
        && (r.Raises? ==> r.error == IsADirectory)
    {
      if !rootExists {
        return Raises(RootNotFound);
      }
      if cacheFile == "" {
        return Raises(CacheFileNotGiven);
      }
      if cacheFile !in caches {
        return Raises(CacheFileMissing);
      }
      var index := caches[cacheFile];
      ghost var start := files;
      var futures := RunLegacyEncodeJobs(index, Entries(files, dirs));
      EncodeTopLevelWhere(start, dirs, index);
      LegacyEncodeFutures(start, dirs, index);
      var waited := WaitAll(futures);
      if waited.Raises? {
        return Raises(waited.error);
      }
      r := Returns(());
    }
  }

  // ---------------------------------------------------------------------
  // Lemmas about one step of a submission loop

  /** Running the decrypt job of one more path updates that path alone. */
  lemma DecodeStep(files: map<string, seq<byte>>, done: set<string>, path: string)
    requires path !in done
    ensures DecodedWhere(files, done).Keys == files.Keys
    ensures path in files ==> DecodedWhere(files, done)[path] == files[path]
    ensures DecodedWhere(files, done + {path}) ==
      if path in files then DecodedWhere(files, done)[path := Decoded(files[path])] else DecodedWhere(files, done)
  {
  }

  /** Running the encode job of one more index entry updates that file alone. */
  lemma EncodeStep(files: map<string, seq<byte>>, index: Index, done: set<string>, path: string)
    requires path !in done
    ensures EncodedWhere(files, index, done).Keys == files.Keys
    ensures path in files ==> EncodedWhere(files, index, done)[path] == files[path]
    ensures EncodedWhere(files, index, done + {path}) ==
      if path in files && path in index then EncodedWhere(files, index, done)[path := EncodeBuffer(files[path], index[path])]
      else EncodedWhere(files, index, done)
  {
  }

  /** One more decrypt future. */
  lemma DecryptJobsStep(files: map<string, seq<byte>>, dirs: set<string>, done: set<string>, path: string)
    ensures DecryptJobs(files, dirs, done + {path}) == DecryptJobs(files, dirs, done)[path := DecryptJob(files, dirs, path)]
  {
  }

  /** One more encode future. */
  lemma EncodeJobsStep(files: map<string, seq<byte>>, dirs: set<string>, done: set<string>, path: string)
    ensures EncodeJobs(files, dirs, done + {path}) == EncodeJobs(files, dirs, done)[path := EncodeJob(files, dirs, path)]
  {
  }

  /** Adding one element to `done` adds it to `done * s` exactly when it is in `s`. */
  lemma IntersectStep(done: set<string>, s: set<string>, x: string)
    ensures (done + {x}) * s == if x in s then done * s + {x} else done * s
  {
  }

  // ---------------------------------------------------------------------
  // Lemmas tying the futures of a batch to the directory before it

  lemma DecodeAllWhere(files: map<string, seq<byte>>)
    ensures DecodedWhere(files, files.Keys) == DecodeAll(files)
  {
  }

  lemma EncodeAllWhere(files: map<string, seq<byte>>, index: Index)
    ensures EncodedWhere(files, index, index.Keys) == EncodeAll(files, index)
  {
  }

  lemma DecodeTopLevelWhere(files: map<string, seq<byte>>, dirs: set<string>)
    ensures DecodedWhere(files, Entries(files, dirs)) == DecodeTopLevel(files)
  {
  }

  lemma EncodeTopLevelWhere(files: map<string, seq<byte>>, dirs: set<string>, index: Index)
    ensures EncodedWhere(files, index, Entries(files, dirs)) == EncodeTopLevel(files, index)
  {
  }

  /** The decrypt job of a regular file answers as the locator does. */
  lemma DecryptJobOfFile(files: map<string, seq<byte>>, dirs: set<string>, path: string)
    requires path in files
    ensures var job := DecryptJob(files, dirs, path);
      && (job.Raises? <==> FindNextUnityFsIndex(files[path]).Raises?)
      && (job.Raises? ==> job.error == FindNextUnityFsIndex(files[path]).error)
      && (job.Returns? ==> job.value == (Basename(path), FindNextUnityFsIndex(files[path]).value))
  {
  }

  /** Some future of crypto.py's decrypt batch raises exactly when some file's locator raises. */
  lemma FileFuturesRaise(files: map<string, seq<byte>>, dirs: set<string>)
    ensures SomeRaised(DecryptJobs(files, dirs, files.Keys)) <==> RaisingFiles(files) != {}
  {
    var futures := DecryptJobs(files, dirs, files.Keys);
    if SomeRaised(futures) {
      var k :| k in futures && futures[k].Raises?;
      DecryptJobOfFile(files, dirs, k);
      assert k in RaisingFiles(files);
    }
    if RaisingFiles(files) != {} {
      var k :| k in RaisingFiles(files);
      DecryptJobOfFile(files, dirs, k);
      assert futures[k].Raises?;
    }
  }

  /** Every exception raised in crypto.py's decrypt batch is the odd-length error. */
  lemma FileFuturesOddHex(files: map<string, seq<byte>>, dirs: set<string>)
    ensures var futures := DecryptJobs(files, dirs, files.Keys);
      forall k :: k in futures && futures[k].Raises? ==> futures[k].error == OddLengthHex
  {
    var futures := DecryptJobs(files, dirs, files.Keys);
    forall k | k in futures && futures[k].Raises?
      ensures futures[k].error == OddLengthHex
    {
      DecryptJobOfFile(files, dirs, k);
      LocatorRaisesOnlyOddHex(files[k]);
    }
  }

  /** The results crypto.py collects by path are `DecryptResults`. */
  lemma FileFuturesResults(files: map<string, seq<byte>>, dirs: set<string>)
    ensures PathResults(DecryptJobs(files, dirs, files.Keys)) == DecryptResults(files)
  {
    var futures := DecryptJobs(files, dirs, files.Keys);
    forall k | k in files
      ensures k in PathResults(futures) <==> k in DecryptResults(files)
      ensures k in PathResults(futures) ==> PathResults(futures)[k] == DecryptResults(files)[k]
    {
      DecryptJobOfFile(files, dirs, k);
    }
  }

  /** The futures of crypto.py's encode batch: some raises exactly when an
      index entry names a directory, and then with `IsADirectory`. */
  lemma EncodeFutures(files: map<string, seq<byte>>, dirs: set<string>, index: Index)
    ensures var futures := EncodeJobs(files, dirs, Submitted(files, dirs, index));
      && futures.Keys == Submitted(files, dirs, index)
      && (SomeRaised(futures) <==> DirectoryEntries(files, dirs, index) != {})
      && (forall k :: k in futures && futures[k].Raises? ==> futures[k].error == IsADirectory)
  {
    var futures := EncodeJobs(files, dirs, Submitted(files, dirs, index));
    if SomeRaised(futures) {
      var k :| k in futures && futures[k].Raises?;
      assert k in DirectoryEntries(files, dirs, index);
    }
    if DirectoryEntries(files, dirs, index) != {} {
      var k :| k in DirectoryEntries(files, dirs, index);
      assert k in Submitted(files, dirs, index);
      assert futures[k].Raises?;
    }
  }

  /** The futures of decrypt.py's batch: some raises exactly when an entry's
      job raises. */
  lemma EntryFutures(files: map<string, seq<byte>>, dirs: set<string>)
    ensures var futures := DecryptJobs(files, dirs, Entries(files, dirs));
      && (SomeRaised(futures) <==> LegacyRaising(files, dirs) != {})
      && (forall k :: k in futures && futures[k].Raises? ==> k in LegacyRaising(files, dirs))
  {
    var futures := DecryptJobs(files, dirs, Entries(files, dirs));
    if SomeRaised(futures) {
      var k :| k in futures && futures[k].Raises?;
      assert k in LegacyRaising(files, dirs);
    }
    if LegacyRaising(files, dirs) != {} {
      var k :| k in LegacyRaising(files, dirs);
      assert futures[k].Raises?;
    }
  }

  /** Every returned future carries its own key as its file name. */
  ghost predicate NamedByKey(futures: map<string, DecryptFuture>) {
    forall k :: k in futures && futures[k].Returns? ==> futures[k].value.0 == k
  }

  /** In decrypt.py's batch a top-level entry's name is its relative path. */
  lemma EntryFuturesNamed(files: map<string, seq<byte>>, dirs: set<string>)
    ensures NamedByKey(DecryptJobs(files, dirs, Entries(files, dirs)))
  {
    var futures := DecryptJobs(files, dirs, Entries(files, dirs));
    forall k | k in futures && futures[k].Returns?
      ensures futures[k].value.0 == k
    {
      EntryBasename(files, dirs, k);
    }
  }

  /** When no two futures share a name, collecting by name is collecting by key. */
  lemma ByNameIsByKey(futures: map<string, DecryptFuture>, results: Index)
    requires NamedByKey(futures)
    requires results.Keys == ResultNames(futures)
    requires forall n :: n in results ==> exists k :: k in futures && futures[k] == Returns((n, results[n]))
    ensures results == PathResults(futures)
  {
    forall n | n in results
      ensures n in PathResults(futures) && results[n] == PathResults(futures)[n]
    {
      var k :| k in futures && futures[k] == Returns((n, results[n]));
    }
    forall n | n in PathResults(futures)
      ensures n in results
    {
      assert futures[n].value.0 == n;
    }
  }

  /** The results decrypt.py collects, read by key, are `LegacyResults`. */
  lemma EntryPathResults(files: map<string, seq<byte>>, dirs: set<string>)
    ensures PathResults(DecryptJobs(files, dirs, Entries(files, dirs))) == LegacyResults(files)
  {
    var futures := DecryptJobs(files, dirs, Entries(files, dirs));
    forall k | k in futures
      ensures k in PathResults(futures) <==> k in LegacyResults(files)
      ensures k in PathResults(futures) ==> PathResults(futures)[k] == LegacyResults(files)[k]
    {
      if k in files {
        DecryptJobOfFile(files, dirs, k);
      }
    }
    forall k | k in LegacyResults(files)
      ensures k in futures
    {
    }
  }

  /** The futures of encrypt.py's batch: some raises exactly when an entry
      named in the index is a directory, and then with `IsADirectory`. */
  lemma LegacyEncodeFutures(files: map<string, seq<byte>>, dirs: set<string>, index: Index)
    ensures var futures := EncodeJobs(files, dirs, Entries(files, dirs) * index.Keys);
      && (SomeRaised(futures) <==> Entries(files, dirs) * DirectoryEntries(files, dirs, index) != {})
      && (forall k :: k in futures && futures[k].Raises? ==> futures[k].error == IsADirectory)
  {
    var futures := EncodeJobs(files, dirs, Entries(files, dirs) * index.Keys);
    forall k | k in futures && futures[k].Raises?
      ensures k in dirs && futures[k].error == IsADirectory
    {
      assert k in Entries(files, dirs);
    }
    if SomeRaised(futures) {
      var k :| k in futures && futures[k].Raises?;
      assert k in Entries(files, dirs) * DirectoryEntries(files, dirs, index);
    }
    if Entries(files, dirs) * DirectoryEntries(files, dirs, index) != {} {
      var k :| k in Entries(files, dirs) * DirectoryEntries(files, dirs, index);
      assert futures[k].Raises?;
    }
  }

  /** A top-level entry's name is its relative path. */
  lemma EntryBasename(files: map<string, seq<byte>>, dirs: set<string>, entry: string)
    requires entry in Entries(files, dirs)
    ensures Basename(entry) == entry
  {
    BasenameOfPlainName(entry);
  }

  /** The position of the first '/' in a path that has one. */
  function FirstSlash(p: string): (k: nat)
    requires '/' in p
    ensures k < |p| && p[k] == '/' && '/' !in p[..k]
  {
    if p[0] == '/' then 0
    else
      var k := 1 + FirstSlash(p[1..]);
      assert p[..k] == [p[0]] + p[1..][..k - 1];
      k
  }

  /** In a directory tree, a path below a sub-directory means the root has a
      top-level sub-directory, whose job in decrypt.py's batch raises: that
      batch never succeeds on a root with sub-directories. */
  lemma NestedPathMakesLegacyDecryptRaise(files: map<string, seq<byte>>, dirs: set<string>, p: string)
    requires IsTree(files.Keys, dirs)
    requires p in files.Keys + dirs && !TopLevel(p)
    ensures LegacyRaising(files, dirs) != {}
  {
    var k := FirstSlash(p);
    assert 0 < k by { assert p != [] && p[0] != '/'; }
    var top := p[..k];
    assert top in dirs && top !in files;
    assert TopLevel(top);
    assert top in Entries(files, dirs);
    assert DecryptJob(files, dirs, top) == Raises(IsADirectory);
    assert top in LegacyRaising(files, dirs);
  }
}
