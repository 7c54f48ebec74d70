/**
 * The module cache: a process-wide map from a module's path to the
 * modification time it had when it was last parsed and the export map derived
 * from it.
 *
 * The file system is an input: each fetch is told whether the file exists and,
 * if it does, its current modification time and content. The parser is the
 * function `parse` the cache is built with; `None` stands for a syntax error.
 */
module Cache {
  import opened Wrappers
  import opened Ast
  import opened Dicts
  import opened Walker
  import opened Errors

  /** What the file system says about a path at the moment of a fetch. */
  datatype FileState = Missing | Present(mtime: int, content: string)

  /** The modification time a module was parsed at, and what was derived from it. */
  datatype CacheRecord = CacheRecord(mtime: int, exports: ExportMap)

  /** `os.path.basename`: what follows the last `/`. */
  function BaseName(path: string): (b: string)
    ensures '/' !in b
    ensures |b| <= |path| && path[|path| - |b|..] == b
    ensures |b| < |path| ==> path[|path| - |b| - 1] == '/'
    decreases |path|
  {
    if path == [] || path[|path| - 1] == '/' then []
    else
      var init := path[..|path| - 1];
      var b := BaseName(init);
      assert path[|path| - |b| - 1..] == init[|init| - |b|..] + [path[|path| - 1]];
      assert |b| < |init| ==> path[|path| - |b| - 2] == init[|init| - |b| - 1];
      b + [path[|path| - 1]]
  }

  /**
   * What the completion request relies on after a successful fetch of `path`
   * yielded `e`: a record for the path at the file's current modification time
   * holding `e`, or no record, a missing file and an empty map.
   */
  ghost predicate Serves(records: map<string, CacheRecord>, path: string, file: FileState, e: ExportMap)
  {
    if path in records then file.Present? && records[path].mtime == file.mtime && records[path].exports == e
    else file.Missing? && e == Empty()
  }

  /** Two record maps agree on every path but `path`. */
  ghost predicate SameOutside(a: map<string, CacheRecord>, b: map<string, CacheRecord>, path: string)
  {
    forall x :: x != path ==> (x in a <==> x in b) && (x in a ==> a[x] == b[x])
  }

  /** A fetch of `path` reads and derives the file: it exists and is not recorded at its modification time. */
  predicate Fresh(records: map<string, CacheRecord>, path: string, file: FileState)
  {
    file.Present? && !(path in records && file.mtime == records[path].mtime)
  }

  /**
   * What a fetch of `path` answers from the records `records`, where `derived`
   * is what deriving the file's current content gives:
   * - a recorded path whose file is gone raises (its modification time is
   *   read outside the guarded read);
   * - a recorded path whose modification time is unchanged is answered from
   *   the record;
   * - an unrecorded missing file answers an empty map;
   * - otherwise the derived map is answered.
   */
  function Answer(records: map<string, CacheRecord>, path: string, file: FileState,
                  derived: Result<ExportMap, Error>): Result<ExportMap, Error>
  {
    if path in records && file.Missing? then Err(FileNotFound(path))
    else if path in records && file.mtime == records[path].mtime then Ok(records[path].exports)
    else if file.Missing? then Ok(Empty())
    else derived
  }

  /**
   * The transition of one fetch of `path` from the records `before` to the
   * records `after`, answering `r`: the answer is `Answer`, and a fresh
   * successful derivation replaces the path's record; nothing else is recorded.
   */
  ghost predicate Fetched(before: map<string, CacheRecord>, after: map<string, CacheRecord>, path: string,
                          file: FileState, derived: Result<ExportMap, Error>, r: Result<ExportMap, Error>)
  {
    && r == Answer(before, path, file, derived)
    && after == if Fresh(before, path, file) && derived.Ok? then before[path := CacheRecord(file.mtime, derived.value)] else before
  }

  /**
   * After a successful fetch the answer is served for that path; nothing
   * outside the path changes; and a path already served is answered with
   * the same map without touching the records.
   */
  lemma FetchedServes(before: map<string, CacheRecord>, after: map<string, CacheRecord>, path: string,
                      file: FileState, derived: Result<ExportMap, Error>, r: Result<ExportMap, Error>)
    requires Fetched(before, after, path, file, derived, r)
    ensures r.Ok? ==> Serves(after, path, file, r.value)
    ensures SameOutside(after, before, path)
    ensures forall e :: Serves(before, path, file, e) ==> r == Ok(e) && after == before
  {
  }

  /**
   * The cache only remembers: after any fetch, successful or not, every path
   * is answered as it was before, given the same file state and derivation
   * for the fetched path.
   */
  lemma FetchedAnswers(before: map<string, CacheRecord>, after: map<string, CacheRecord>, path: string,
                       file: FileState, derived: Result<ExportMap, Error>, r: Result<ExportMap, Error>,
                       other: string, otherFile: FileState, otherDerived: Result<ExportMap, Error>)
    requires Fetched(before, after, path, file, derived, r)
    requires other == path ==> otherFile == file && otherDerived == derived
    ensures Answer(after, other, otherFile, otherDerived) == Answer(before, other, otherFile, otherDerived)
  {
  }

  /** `records` holds, for each of its paths, what `derive` yields from its source in `sources`. */
  ghost predicate Consistent(derive: (string, string) -> Result<ExportMap, Error>,
                             records: map<string, CacheRecord>, sources: map<string, string>)
  {
    && records.Keys == sources.Keys
    && forall p :: p in records ==> derive(p, sources[p]) == Ok(records[p].exports)
  }

  /** Recording a successful derivation keeps the records consistent. */
  lemma Record(derive: (string, string) -> Result<ExportMap, Error>,
               records: map<string, CacheRecord>, sources: map<string, string>,
               path: string, content: string, mtime: int, e: ExportMap)
    requires Consistent(derive, records, sources) && derive(path, content) == Ok(e)
    ensures Consistent(derive, records[path := CacheRecord(mtime, e)], sources[path := content])
  {
    var records', sources' := records[path := CacheRecord(mtime, e)], sources[path := content];
    forall p | p in records'
      ensures derive(p, sources'[p]) == Ok(records'[p].exports)
    {
      if p != path {
        assert sources'[p] == sources[p] && records'[p] == records[p];
      }
    }
    assert records'.Keys == sources'.Keys;
  }

  /** The last case of `Fetched`: a present file that is not recorded at its current modification time. */
  lemma FetchedFresh(before: map<string, CacheRecord>, after: map<string, CacheRecord>, path: string,
                     file: FileState, r: Result<ExportMap, Error>)
    requires Fresh(before, path, file)
    requires after == if r.Ok? then before[path := CacheRecord(file.mtime, r.value)] else before
    ensures Fetched(before, after, path, file, r, r)
  {
  }

  class ModuleCache {
    const parse: string -> Option<Program>
    var records: map<string, CacheRecord>
    /** The content each record was derived from. */
    ghost var sources: map<string, string>

    /** Every record holds exactly what its source yields. */
    ghost predicate Valid()
      reads this
    {
      Consistent(Derive, records, sources)
    }

    /** Parsing `content` as the module at `path` and walking its exports. */
    function Derive(path: string, content: string): (r: Result<ExportMap, Error>)
      ensures r.Ok? ==> r.value.Valid()
    {
      match parse(content)
      case None => Err(SyntaxError(path))
      case Some(program) => Exports(program.body, BaseName(path))
    }

    constructor (parse: string -> Option<Program>)
      ensures Valid()
      ensures this.parse == parse && records == map[]
    {
      this.parse := parse;
      records := map[];
      sources := map[];
    }

    /** What reading and deriving the file would give now; a missing file has nothing to derive. */
    function Current(path: string, file: FileState): Result<ExportMap, Error>
    {
      if file.Present? then Derive(path, file.content) else Err(FileNotFound(path))
    }

    /** A record is derived when the file exists and still has the recorded modification time. */
    predicate Hit(path: string, file: FileState)
      reads this
    {
      file.Present? && !Fresh(records, path, file)
    }

    /**
     * The exports of the module at `path`: the recorded ones when the
     * modification time is unchanged; otherwise freshly derived and recorded
     * in place of the old record. A missing file that has no record yields an
     * empty map and is not recorded; a missing file that has a record raises,
     * because the modification time is read before the guarded read.
     */
    method ParseFile(path: string, file: FileState) returns (r: Result<ExportMap, Error>)
      requires Valid()
      modifies this
      ensures Valid()
      ensures r.Ok? ==> r.value.Valid()
      ensures Fetched(old(records), records, path, file, Current(path, file), r)
    {
      if path in records {
        if file.Missing? {
          return Err(FileNotFound(path));
        }
        if file.mtime == records[path].mtime {
          return Ok(records[path].exports);
        }
      }
      if file.Missing? {
        return Ok(Empty());
      }
      r := Refresh(path, file);
      FetchedFresh(old(records), records, path, file, r);
    }

    /** Parses `content` and walks the exports of the module at `path`. */
    method Load(path: string, content: string) returns (r: Result<ExportMap, Error>)
      ensures r == Derive(path, content)
    {
      var program := parse(content);
      if program.None? {
        return Err(SyntaxError(path));
      }
      r := WalkExports(program.value, BaseName(path));
    }

    /**
     * Reads, parses and walks a present file, recording the result in place of
     * the path's old record when the walk succeeds.
     */
    method Refresh(path: string, file: FileState) returns (r: Result<ExportMap, Error>)
      requires Valid() && file.Present?
      modifies this
      ensures Valid()
      ensures r == Current(path, file)
      ensures records == if r.Ok? then old(records)[path := CacheRecord(file.mtime, r.value)] else old(records)
    {
      r := Load(path, file.content);
      if r.Ok? {
        Record(Derive, records, sources, path, file.content, file.mtime, r.value);
        records := records[path := CacheRecord(file.mtime, r.value)];
        sources := sources[path := file.content];
      }
    }
  }

  /**
   * Two fetches of an unchanged file agree, whether they succeed or fail
   * (a file gone from a recorded path raises again, a syntax error is raised
   * again); after a successful first fetch the second is answered from the
   * record, without deriving the exports again.
   */
  method FetchTwice(cache: ModuleCache, path: string, file: FileState)
    returns (first: Result<ExportMap, Error>, second: Result<ExportMap, Error>)
    requires cache.Valid()
    modifies cache
    ensures cache.Valid()
    ensures second == first
    ensures first.Ok? ==> Serves(cache.records, path, file, first.value)
    ensures first.Ok? && file.Present? ==> cache.Hit(path, file)
  {
    ghost var start := cache.records;
    first := cache.ParseFile(path, file);
    ghost var between := cache.records;
    second := cache.ParseFile(path, file);
    FetchedAnswers(start, between, path, file, cache.Current(path, file), first, path, file, cache.Current(path, file));
    assert first.Ok? ==> cache.records == between;
  }
}
