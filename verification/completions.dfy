/**
 * The completion assembler. For every cursor it takes the `alias.prefix`
 * token before the cursor (if the line ends in one) and either lists the
 * exports of the aliased module that start with the prefix, or, when the
 * alias is not a known import, the known aliases that start with it.
 *
 * The import statements and the cursor tokens are found by regular
 * expressions over the editor's buffer; their matches are inputs here, with
 * import paths already resolved against the buffer's directory.
 */
module Completions {
  import opened Wrappers
  import opened Dicts
  import opened Signature
  import opened Walker
  import opened Errors
  import opened Cache

  /** The `alias.prefix` token before a cursor; the prefix may be empty. */
  datatype Token = Token(alias: string, prefix: string)

  type AliasMap = Dict<string, string>

  /** `s.startswith(p)` */
  predicate StartsWith(s: string, p: string)
  {
    |p| <= |s| && s[..|p|] == p
  }

  /** The alias map from the import matches in scan order: each alias maps to its resolved path. */
  method FindImports(matches: seq<(string, string)>) returns (imports: AliasMap)
    ensures imports == FromPairs(matches)
  {
    imports := Empty();
    for i := 0 to |matches|
      invariant imports == FromPairs(matches[..i])
    {
      FromPairsSnoc(matches[..i], matches[i]);
      assert matches[..i + 1] == matches[..i] + [matches[i]];
      imports := imports.Put(matches[i].0, matches[i].1);
    }
    assert matches[..|matches|] == matches;
  }

  /** The suggestion for a module alias: `alias.js<TAB>module`, inserting the alias. */
  function ModuleSuggestion(alias: string): Entry
  {
    Entry(alias + ".js\tmodule", alias)
  }

  /** The suggestions for the aliases among `keys` that start with `partial`, in order. */
  function Suggestions(keys: seq<string>, partial: string): seq<Entry>
  {
    if keys == [] then []
    else
      var last := keys[|keys| - 1];
      Suggestions(keys[..|keys| - 1], partial) + (if StartsWith(last, partial) then [ModuleSuggestion(last)] else [])
  }

  /** The entries of the keys among `keys` that start with `prefix`, in order. */
  function Matching(exports: ExportMap, keys: seq<string>, prefix: string): seq<Entry>
    requires forall i :: 0 <= i < |keys| ==> keys[i] in exports.entries
  {
    if keys == [] then []
    else
      var last := keys[|keys| - 1];
      Matching(exports, keys[..|keys| - 1], prefix) + (if StartsWith(last, prefix) then [exports.entries[last]] else [])
  }

  /** What one cursor contributes, given the exports fetched for it. */
  function Contribution(aliases: AliasMap, token: Option<Token>, exports: ExportMap): seq<Entry>
    requires exports.Valid()
  {
    match token
    case None => []
    case Some(Token(alias, prefix)) =>
      if alias in aliases.entries then Matching(exports, exports.keys, prefix)
      else Suggestions(aliases.keys, alias)
  }

  ghost predicate AllValid(fetched: seq<ExportMap>)
  {
    forall i :: 0 <= i < |fetched| ==> fetched[i].Valid()
  }

  /** The whole answer: the cursors' contributions concatenated in cursor order. */
  function Assemble(aliases: AliasMap, tokens: seq<Option<Token>>, fetched: seq<ExportMap>): seq<Entry>
    requires |fetched| == |tokens| && AllValid(fetched)
  {
    if tokens == [] then []
    else Contribution(aliases, tokens[0], fetched[0]) + Assemble(aliases, tokens[1..], fetched[1..])
  }

  /** The alias suggestions for an unknown alias. */
  method SuggestAliases(aliases: AliasMap, partial: string) returns (r: seq<Entry>)
    ensures r == Suggestions(aliases.keys, partial)
  {
    r := [];
    for i := 0 to |aliases.keys|
      invariant r == Suggestions(aliases.keys[..i], partial)
    {
      var key := aliases.keys[i];
      assert aliases.keys[..i + 1][..i] == aliases.keys[..i];
      if StartsWith(key, partial) {
        r := r + [ModuleSuggestion(key)];
      }
    }
    assert aliases.keys[..|aliases.keys|] == aliases.keys;
  }

  /** The entries of a module's exports whose names start with `prefix`. */
  method SelectExports(exports: ExportMap, prefix: string) returns (r: seq<Entry>)
    requires exports.Valid()
    ensures r == Matching(exports, exports.keys, prefix)
  {
    r := [];
    for i := 0 to |exports.keys|
      invariant r == Matching(exports, exports.keys[..i], prefix)
    {
      var key := exports.keys[i];
      assert exports.keys[..i + 1][..i] == exports.keys[..i];
      if StartsWith(key, prefix) {
        r := r + [exports.entries[key]];
      }
    }
    assert exports.keys[..|exports.keys|] == exports.keys;
  }

  /** What the file system says about `path`: an unlisted path is missing. */
  function FileAt(files: map<string, FileState>, path: string): FileState
  {
    if path in files then files[path] else Missing
  }

  // ---------------------------------------------------------------------------
  // Properties of the answer

  /**
   * The answer for a run of cursors is the answer for the first part followed
   * by the answer for the rest: contributions appear in cursor order.
   */
  lemma {:induction false} AssembleAppend(aliases: AliasMap, t1: seq<Option<Token>>, f1: seq<ExportMap>,
                                          t2: seq<Option<Token>>, f2: seq<ExportMap>)
    requires |f1| == |t1| && AllValid(f1) && |f2| == |t2| && AllValid(f2)
    ensures AllValid(f1 + f2)
    ensures Assemble(aliases, t1 + t2, f1 + f2) == Assemble(aliases, t1, f1) + Assemble(aliases, t2, f2)
  {
    AllValidAppend(f1, f2);
    if t1 == [] {
      assert t1 + t2 == t2 && f1 + f2 == f2;
    } else {
      assert (t1 + t2)[1..] == t1[1..] + t2 && (f1 + f2)[1..] == f1[1..] + f2;
      AssembleAppend(aliases, t1[1..], f1[1..], t2, f2);
    }
  }

  lemma AllValidAppend(f1: seq<ExportMap>, f2: seq<ExportMap>)
    requires AllValid(f1) && AllValid(f2)
    ensures AllValid(f1 + f2)
  {
    forall i | 0 <= i < |f1 + f2|
      ensures (f1 + f2)[i].Valid()
    {
      if i < |f1| { assert (f1 + f2)[i] == f1[i]; } else { assert (f1 + f2)[i] == f2[i - |f1|]; }
    }
  }

  /**
   * The suggestions for an unknown alias are exactly the module suggestions
   * for the known aliases that start with it.
   */
  lemma {:induction false} SuggestionsMembers(keys: seq<string>, partial: string)
    ensures |Suggestions(keys, partial)| <= |keys|
    ensures forall e :: e in Suggestions(keys, partial) <==>
      exists i :: 0 <= i < |keys| && StartsWith(keys[i], partial) && e == ModuleSuggestion(keys[i])
  {
    if keys != [] {
      var n := |keys| - 1;
      SuggestionsMembers(keys[..n], partial);
      forall e | e in Suggestions(keys, partial)
        ensures exists i :: 0 <= i < |keys| && StartsWith(keys[i], partial) && e == ModuleSuggestion(keys[i])
      {
        if e in Suggestions(keys[..n], partial) {
          var i :| 0 <= i < n && StartsWith(keys[..n][i], partial) && e == ModuleSuggestion(keys[..n][i]);
          assert keys[..n][i] == keys[i];
        }
      }
      forall e, i | 0 <= i < |keys| && StartsWith(keys[i], partial) && e == ModuleSuggestion(keys[i])
        ensures e in Suggestions(keys, partial)
      {
        if i < n {
          assert keys[..n][i] == keys[i];
        }
      }
    }
  }

  /**
   * The entries listed for a known alias are exactly those of the names that
   * start with the prefix.
   */
  lemma {:induction false} MatchingMembers(exports: ExportMap, keys: seq<string>, prefix: string)
    requires forall i :: 0 <= i < |keys| ==> keys[i] in exports.entries
    ensures |Matching(exports, keys, prefix)| <= |keys|
    ensures forall e :: e in Matching(exports, keys, prefix) <==>
      exists i :: 0 <= i < |keys| && StartsWith(keys[i], prefix) && e == exports.entries[keys[i]]
  {
    if keys != [] {
      var n := |keys| - 1;
      MatchingMembers(exports, keys[..n], prefix);
      forall e | e in Matching(exports, keys, prefix)
        ensures exists i :: 0 <= i < |keys| && StartsWith(keys[i], prefix) && e == exports.entries[keys[i]]
      {
        if e in Matching(exports, keys[..n], prefix) {
          var i :| 0 <= i < n && StartsWith(keys[..n][i], prefix) && e == exports.entries[keys[..n][i]];
          assert keys[..n][i] == keys[i];
        }
      }
      forall e, i | 0 <= i < |keys| && StartsWith(keys[i], prefix) && e == exports.entries[keys[i]]
        ensures e in Matching(exports, keys, prefix)
      {
        if i < n {
          assert keys[..n][i] == keys[i];
        }
      }
    }
  }

  /** The keys among `keys` that start with `prefix`, in order. */
  function Select(keys: seq<string>, prefix: string): seq<string>
  {
    if keys == [] then []
    else
      var last := keys[|keys| - 1];
      Select(keys[..|keys| - 1], prefix) + (if StartsWith(last, prefix) then [last] else [])
  }

  predicate Distinct(s: seq<string>)
  {
    forall i, j :: 0 <= i < j < |s| ==> s[i] != s[j]
  }

  /** The selected keys are exactly the keys that start with the prefix, each once when the keys are distinct. */
  lemma {:induction false} SelectMembers(keys: seq<string>, prefix: string)
    ensures forall k :: k in Select(keys, prefix) <==> k in keys && StartsWith(k, prefix)
    ensures Distinct(keys) ==> Distinct(Select(keys, prefix))
  {
    if keys != [] {
      var n := |keys| - 1;
      SelectMembers(keys[..n], prefix);
      assert keys == keys[..n] + [keys[n]];
      if Distinct(keys) {
        assert Distinct(keys[..n]);
        assert keys[n] !in keys[..n];
      }
    }
  }

  /** The suggestions are the module suggestions of the selected aliases, one by one, in alias order. */
  lemma {:induction false} SuggestionsSelect(keys: seq<string>, partial: string)
    ensures |Suggestions(keys, partial)| == |Select(keys, partial)|
    ensures forall i :: 0 <= i < |Select(keys, partial)| ==>
      Suggestions(keys, partial)[i] == ModuleSuggestion(Select(keys, partial)[i])
  {
    if keys != [] {
      SuggestionsSelect(keys[..|keys| - 1], partial);
    }
  }

  /** For the distinct keys of an alias map, no alias is suggested twice. */
  lemma SuggestionsDistinct(keys: seq<string>, partial: string)
    requires Distinct(keys)
    ensures forall i, j :: 0 <= i < j < |Suggestions(keys, partial)| ==>
      Suggestions(keys, partial)[i] != Suggestions(keys, partial)[j]
  {
    SuggestionsSelect(keys, partial);
    SelectMembers(keys, partial);
    var sel := Select(keys, partial);
    forall i, j | 0 <= i < j < |Suggestions(keys, partial)|
      ensures Suggestions(keys, partial)[i] != Suggestions(keys, partial)[j]
    {
      assert ModuleSuggestion(sel[i]).insertionTemplate == sel[i] != sel[j] == ModuleSuggestion(sel[j]).insertionTemplate;
    }
  }

  /** The listed entries are the entries of the selected names, one by one, in map order. */
  lemma {:induction false} MatchingSelect(exports: ExportMap, keys: seq<string>, prefix: string)
    requires forall i :: 0 <= i < |keys| ==> keys[i] in exports.entries
    ensures |Matching(exports, keys, prefix)| == |Select(keys, prefix)|
    ensures forall i :: 0 <= i < |Select(keys, prefix)| ==>
      Select(keys, prefix)[i] in exports.entries && Matching(exports, keys, prefix)[i] == exports.entries[Select(keys, prefix)[i]]
  {
    if keys != [] {
      var n := |keys| - 1;
      MatchingSelect(exports, keys[..n], prefix);
    }
  }

  /** An empty prefix lists every export, in the map's order. */
  lemma {:induction false} EmptyPrefixMatchesAll(exports: ExportMap, keys: seq<string>)
    requires forall i :: 0 <= i < |keys| ==> keys[i] in exports.entries
    ensures |Matching(exports, keys, "")| == |keys|
    ensures forall i :: 0 <= i < |keys| ==> Matching(exports, keys, "")[i] == exports.entries[keys[i]]
  {
    if keys != [] {
      var n := |keys| - 1;
      EmptyPrefixMatchesAll(exports, keys[..n]);
      assert StartsWith(keys[n], "");
    }
  }

  /** A cursor has a token whose alias is a known import, so the request fetches its module. */
  predicate Known(aliases: AliasMap, token: Option<Token>)
  {
    token.Some? && token.value.alias in aliases.entries
  }

  /** The path of the module a cursor's known alias names; empty when nothing is fetched. */
  function PathOf(aliases: AliasMap, token: Option<Token>): string
  {
    if Known(aliases, token) then aliases.entries[token.value.alias] else ""
  }

  /** The paths a cursor makes the request fetch: its known alias's path, or none. */
  function FetchedPath(aliases: AliasMap, token: Option<Token>): set<string>
  {
    if Known(aliases, token) then {PathOf(aliases, token)} else {}
  }

  /** The paths of the modules the cursors' known aliases name. */
  function FetchedPaths(aliases: AliasMap, tokens: seq<Option<Token>>): set<string>
  {
    if tokens == [] then {}
    else FetchedPaths(aliases, tokens[..|tokens| - 1]) + FetchedPath(aliases, tokens[|tokens| - 1])
  }

  /** Every cursor with a known alias got the map the records serve for its module's path. */
  ghost predicate AllServed(records: map<string, CacheRecord>, aliases: AliasMap, files: map<string, FileState>,
                            tokens: seq<Option<Token>>, fetched: seq<ExportMap>)
    requires |fetched| == |tokens|
  {
    forall j :: 0 <= j < |tokens| && Known(aliases, tokens[j]) ==>
      Serves(records, aliases.entries[tokens[j].value.alias], FileAt(files, aliases.entries[tokens[j].value.alias]), fetched[j])
  }

  /** The records agree with `earlier` outside `paths`. */
  ghost predicate UnchangedOutside(records: map<string, CacheRecord>, earlier: map<string, CacheRecord>, paths: set<string>)
  {
    forall p :: p !in paths ==> (p in records <==> p in earlier) && (p in records ==> records[p] == earlier[p])
  }

  /** A fetch of `path` that keeps earlier answers served keeps every earlier cursor served. */
  lemma StillServed(before: map<string, CacheRecord>, after: map<string, CacheRecord>, aliases: AliasMap,
                    files: map<string, FileState>, tokens: seq<Option<Token>>, fetched: seq<ExportMap>, path: string)
    requires |fetched| == |tokens|
    requires AllServed(before, aliases, files, tokens, fetched)
    requires SameOutside(after, before, path)
    requires forall e :: Serves(before, path, FileAt(files, path), e) ==> after == before
    ensures AllServed(after, aliases, files, tokens, fetched)
  {
    forall j | 0 <= j < |tokens| && Known(aliases, tokens[j])
      ensures Serves(after, aliases.entries[tokens[j].value.alias], FileAt(files, aliases.entries[tokens[j].value.alias]), fetched[j])
    {
      var pj := aliases.entries[tokens[j].value.alias];
      assert Serves(before, pj, FileAt(files, pj), fetched[j]);
    }
  }

  lemma ServedSnoc(records: map<string, CacheRecord>, aliases: AliasMap, files: map<string, FileState>,
                   tokens: seq<Option<Token>>, fetched: seq<ExportMap>, token: Option<Token>, e: ExportMap)
    requires |fetched| == |tokens|
    requires AllServed(records, aliases, files, tokens, fetched)
    requires Known(aliases, token) ==>
      Serves(records, aliases.entries[token.value.alias], FileAt(files, aliases.entries[token.value.alias]), e)
    ensures AllServed(records, aliases, files, tokens + [token], fetched + [e])
  {
    forall j | 0 <= j < |tokens| + 1 && Known(aliases, (tokens + [token])[j])
      ensures Serves(records, aliases.entries[(tokens + [token])[j].value.alias],
                     FileAt(files, aliases.entries[(tokens + [token])[j].value.alias]), (fetched + [e])[j])
    {
      if j < |tokens| {
        assert (tokens + [token])[j] == tokens[j] && (fetched + [e])[j] == fetched[j];
      }
    }
  }

  lemma {:induction false} FetchedPathsMembers(aliases: AliasMap, tokens: seq<Option<Token>>)
    ensures forall p :: p in FetchedPaths(aliases, tokens) <==>
      exists j :: 0 <= j < |tokens| && Known(aliases, tokens[j]) && p == aliases.entries[tokens[j].value.alias]
  {
    if tokens != [] {
      var n := |tokens| - 1;
      FetchedPathsMembers(aliases, tokens[..n]);
      forall p | p in FetchedPaths(aliases, tokens)
        ensures exists j :: 0 <= j < |tokens| && Known(aliases, tokens[j]) && p == aliases.entries[tokens[j].value.alias]
      {
        if p !in FetchedPath(aliases, tokens[n]) {
          assert p in FetchedPaths(aliases, tokens[..n]);
          var j :| 0 <= j < n && Known(aliases, tokens[..n][j]) && p == aliases.entries[tokens[..n][j].value.alias];
          assert tokens[..n][j] == tokens[j];
        }
      }
      forall p, j | 0 <= j < |tokens| && Known(aliases, tokens[j]) && p == aliases.entries[tokens[j].value.alias]
        ensures p in FetchedPaths(aliases, tokens)
      {
        if j < n {
          assert tokens[..n][j] == tokens[j];
        }
      }
    }
  }

  /** The paths fetched for a prefix of the cursors are among those fetched for all of them. */
  lemma {:induction false} FetchedPathsPrefix(aliases: AliasMap, tokens: seq<Option<Token>>, k: nat)
    requires k <= |tokens|
    ensures FetchedPaths(aliases, tokens[..k]) <= FetchedPaths(aliases, tokens)
    decreases |tokens|
  {
    if k < |tokens| {
      var n := |tokens| - 1;
      assert tokens[..n][..k] == tokens[..k];
      FetchedPathsPrefix(aliases, tokens[..n], k);
    } else {
      assert tokens[..k] == tokens;
    }
  }

  /** Changing the records at one more path keeps them unchanged outside the widened set. */
  lemma UnchangedStep(records: map<string, CacheRecord>, between: map<string, CacheRecord>,
                      earlier: map<string, CacheRecord>, paths: set<string>, more: set<string>, path: string)
    requires UnchangedOutside(between, earlier, paths)
    requires between == records || (path in more && SameOutside(records, between, path))
    ensures UnchangedOutside(records, earlier, paths + more)
  {
  }

  /**
   * What fetching for one cursor answers from the records `records`: the
   * fetch of its alias's module, or an empty map when nothing is fetched.
   */
  ghost function CursorAnswer(cache: ModuleCache, records: map<string, CacheRecord>, aliases: AliasMap,
                              files: map<string, FileState>, token: Option<Token>): Result<ExportMap, Error>
  {
    if Known(aliases, token) then
      var path := PathOf(aliases, token);
      Answer(records, path, FileAt(files, path), cache.Current(path, FileAt(files, path)))
    else Ok(Empty())
  }

  /** Every cursor got the map its fetch answers from the records `start`. */
  ghost predicate Answered(cache: ModuleCache, start: map<string, CacheRecord>, aliases: AliasMap,
                           files: map<string, FileState>, tokens: seq<Option<Token>>, fetched: seq<ExportMap>)
    requires |fetched| == |tokens|
  {
    forall j :: 0 <= j < |tokens| ==> CursorAnswer(cache, start, aliases, files, tokens[j]) == Ok(fetched[j])
  }

  /** Every cursor's fetch succeeds from the records `start`. */
  ghost predicate AllSucceed(cache: ModuleCache, start: map<string, CacheRecord>, aliases: AliasMap,
                             files: map<string, FileState>, tokens: seq<Option<Token>>)
  {
    forall j :: 0 <= j < |tokens| ==> CursorAnswer(cache, start, aliases, files, tokens[j]).Ok?
  }

  /** Cursor `i` is the first whose fetch fails from the records `start`, and it fails with `e`. */
  ghost predicate FirstFailure(cache: ModuleCache, start: map<string, CacheRecord>, aliases: AliasMap,
                               files: map<string, FileState>, tokens: seq<Option<Token>>, i: nat, e: Error)
  {
    && i < |tokens|
    && CursorAnswer(cache, start, aliases, files, tokens[i]) == Err(e)
    && forall k :: 0 <= k < i ==> CursorAnswer(cache, start, aliases, files, tokens[k]).Ok?
  }

  /** Cursors that all got what their fetches answer all succeed. */
  lemma AnsweredSucceed(cache: ModuleCache, start: map<string, CacheRecord>, aliases: AliasMap,
                        files: map<string, FileState>, tokens: seq<Option<Token>>, fetched: seq<ExportMap>)
    requires |fetched| == |tokens| && Answered(cache, start, aliases, files, tokens, fetched)
    ensures AllSucceed(cache, start, aliases, files, tokens)
  {
  }

  /** The records `now` answer every path as the records `start` do. */
  ghost predicate SameAnswers(cache: ModuleCache, now: map<string, CacheRecord>, start: map<string, CacheRecord>,
                              files: map<string, FileState>)
  {
    forall q :: Answer(now, q, FileAt(files, q), cache.Current(q, FileAt(files, q)))
             == Answer(start, q, FileAt(files, q), cache.Current(q, FileAt(files, q)))
  }

  /**
   * What one cursor's share of the request does to the records, answering
   * `answer`: a known alias makes one fetch of its module; an unknown alias
   * touches nothing and answers an empty map.
   */
  ghost predicate Stepped(before: map<string, CacheRecord>, after: map<string, CacheRecord>, cache: ModuleCache,
                          aliases: AliasMap, files: map<string, FileState>, token: Option<Token>,
                          answer: Result<ExportMap, Error>)
  {
    if Known(aliases, token) then
      var path := PathOf(aliases, token);
      Fetched(before, after, path, FileAt(files, path), cache.Current(path, FileAt(files, path)), answer)
    else answer == Ok(Empty()) && after == before
  }

  /**
   * A cursor's share answers what its fetch answers from the records at the
   * start of the request, and keeps every path answered as at the start.
   */
  lemma SteppedAnswer(before: map<string, CacheRecord>, after: map<string, CacheRecord>, start: map<string, CacheRecord>,
                      cache: ModuleCache, aliases: AliasMap, files: map<string, FileState>, token: Option<Token>,
                      answer: Result<ExportMap, Error>)
    requires SameAnswers(cache, before, start, files)
    requires Stepped(before, after, cache, aliases, files, token, answer)
    ensures answer == CursorAnswer(cache, start, aliases, files, token)
    ensures SameAnswers(cache, after, start, files)
  {
    if Known(aliases, token) {
      var path := PathOf(aliases, token);
      var file, derived := FileAt(files, path), cache.Current(path, FileAt(files, path));
      forall q
        ensures Answer(after, q, FileAt(files, q), cache.Current(q, FileAt(files, q)))
             == Answer(start, q, FileAt(files, q), cache.Current(q, FileAt(files, q)))
      {
        FetchedAnswers(before, after, path, file, derived, answer, q, FileAt(files, q), cache.Current(q, FileAt(files, q)));
      }
    }
  }

  lemma AnsweredSnoc(cache: ModuleCache, start: map<string, CacheRecord>, aliases: AliasMap, files: map<string, FileState>,
                     tokens: seq<Option<Token>>, fetched: seq<ExportMap>, token: Option<Token>, e: ExportMap)
    requires |fetched| == |tokens|
    requires Answered(cache, start, aliases, files, tokens, fetched)
    requires CursorAnswer(cache, start, aliases, files, token) == Ok(e)
    ensures Answered(cache, start, aliases, files, tokens + [token], fetched + [e])
  {
    forall j | 0 <= j < |tokens| + 1
      ensures CursorAnswer(cache, start, aliases, files, (tokens + [token])[j]) == Ok((fetched + [e])[j])
    {
      if j < |tokens| {
        assert (tokens + [token])[j] == tokens[j] && (fetched + [e])[j] == fetched[j];
      }
    }
  }

  /**
   * What the request keeps true once the cursors `done` have succeeded from
   * the records `start`, with the records now `records`: each got what its
   * fetch answers from `start` and is served now, only their paths' records
   * changed, and every path is answered as from `start`.
   */
  ghost predicate Progress(cache: ModuleCache, records: map<string, CacheRecord>, start: map<string, CacheRecord>,
                           aliases: AliasMap, files: map<string, FileState>, done: seq<Option<Token>>,
                           fetched: seq<ExportMap>)
  {
    && |fetched| == |done|
    && AllServed(records, aliases, files, done, fetched)
    && UnchangedOutside(records, start, FetchedPaths(aliases, done))
    && Answered(cache, start, aliases, files, done, fetched)
    && SameAnswers(cache, records, start, files)
  }

  /** The request's invariants carried across one successful cursor. */
  lemma RequestStep(before: map<string, CacheRecord>, after: map<string, CacheRecord>, start: map<string, CacheRecord>,
                    cache: ModuleCache, aliases: AliasMap, files: map<string, FileState>, tokens: seq<Option<Token>>,
                    i: nat, fetched: seq<ExportMap>, exports: ExportMap)
    requires i < |tokens|
    requires Progress(cache, before, start, aliases, files, tokens[..i], fetched)
    requires Stepped(before, after, cache, aliases, files, tokens[i], Ok(exports))
    ensures Progress(cache, after, start, aliases, files, tokens[..i + 1], fetched + [exports])
  {
    assert tokens[..i + 1][..i] == tokens[..i];
    assert tokens[..i + 1] == tokens[..i] + [tokens[i]];
    SteppedAnswer(before, after, start, cache, aliases, files, tokens[i], Ok(exports));
    AnsweredSnoc(cache, start, aliases, files, tokens[..i], fetched, tokens[i], exports);
    var more := FetchedPath(aliases, tokens[i]);
    if Known(aliases, tokens[i]) {
      var path := PathOf(aliases, tokens[i]);
      FetchedServes(before, after, path, FileAt(files, path), cache.Current(path, FileAt(files, path)), Ok(exports));
      StillServed(before, after, aliases, files, tokens[..i], fetched, path);
      UnchangedStep(after, before, start, FetchedPaths(aliases, tokens[..i]), more, path);
    } else {
      UnchangedStep(after, before, start, FetchedPaths(aliases, tokens[..i]), more, "");
    }
    ServedSnoc(after, aliases, files, tokens[..i], fetched, tokens[i], exports);
  }

  /**
   * A failed cursor changed nothing; its fetch fails from the records at the
   * start of the request, and every earlier cursor's fetch succeeds there.
   */
  lemma FailedStep(before: map<string, CacheRecord>, after: map<string, CacheRecord>, start: map<string, CacheRecord>,
                   cache: ModuleCache, aliases: AliasMap, files: map<string, FileState>, tokens: seq<Option<Token>>,
                   i: nat, fetched: seq<ExportMap>, e: Error)
    requires i < |tokens|
    requires Progress(cache, before, start, aliases, files, tokens[..i], fetched)
    requires Stepped(before, after, cache, aliases, files, tokens[i], Err(e))
    ensures after == before
    ensures Progress(cache, after, start, aliases, files, tokens[..i], fetched)
    ensures UnchangedOutside(after, start, FetchedPaths(aliases, tokens))
    ensures SameAnswers(cache, after, start, files)
    ensures FirstFailure(cache, start, aliases, files, tokens, i, e)
    ensures !AllSucceed(cache, start, aliases, files, tokens)
  {
    SteppedAnswer(before, after, start, cache, aliases, files, tokens[i], Err(e));
    FetchedPathsPrefix(aliases, tokens, i);
    forall k | 0 <= k < i
      ensures CursorAnswer(cache, start, aliases, files, tokens[k]).Ok?
    {
      assert tokens[..i][k] == tokens[k];
    }
  }

  /** The answer for one more cursor is the answer so far followed by its contribution. */
  lemma AssembleStep(aliases: AliasMap, tokens: seq<Option<Token>>, i: nat, fetched: seq<ExportMap>, exports: ExportMap)
    requires i < |tokens| && |fetched| == i && AllValid(fetched) && exports.Valid()
    ensures AllValid(fetched + [exports])
    ensures Assemble(aliases, tokens[..i + 1], fetched + [exports])
         == Assemble(aliases, tokens[..i], fetched) + Contribution(aliases, tokens[i], exports)
  {
    assert tokens[..i + 1] == tokens[..i] + [tokens[i]];
    assert AllValid([exports]);
    AssembleAppend(aliases, tokens[..i], fetched, [tokens[i]], [exports]);
  }

  /**
   * One cursor's share of the request: fetches the module of a known alias
   * through the cache and selects its exports, or suggests aliases for an
   * unknown one. `exports` is the map fetched (empty when nothing is fetched);
   * a failed fetch fails the share with the fetch's error.
   */
  method Contribute(cache: ModuleCache, imports: AliasMap, token: Option<Token>, files: map<string, FileState>)
    returns (r: Result<seq<Entry>, Error>, exports: ExportMap)
    requires cache.Valid()
    modifies cache
    ensures cache.Valid() && exports.Valid()
    ensures r.Ok? ==> r.value == Contribution(imports, token, exports)
    ensures Stepped(old(cache.records), cache.records, cache, imports, files, token,
                    if r.Ok? then Ok(exports) else Err(r.error))
  {
    exports := Empty();
    match token {
      case None =>
        r := Ok([]);
      case Some(Token(alias, prefix)) =>
        if alias !in imports.entries {
          var suggestions := SuggestAliases(imports, alias);
          r := Ok(suggestions);
        } else {
          var path := imports.entries[alias];
          var fetch := cache.ParseFile(path, FileAt(files, path));
          if fetch.Err? {
            return Err(fetch.error), exports;
          }
          exports := fetch.value;
          var selected := SelectExports(exports, prefix);
          r := Ok(selected);
        }
    }
  }

  /**
   * The completion request. `fetched[i]` is the export map fetched for cursor
   * `i` (empty when its alias is unknown or it has no token).
   * - The request succeeds iff every cursor's fetch succeeds from the records
   *   it started with; a failure carries the error of the first failing
   *   cursor, whose index is `|fetched|`.
   * - On success each fetched map is what its fetch answers from the starting
   *   records, the answer is the cursors' contributions in cursor order, and
   *   each fetched map is served by the cache afterwards.
   * - On failure `fetched` holds the maps of the cursors before the failing
   *   one; they are what their fetches answer, and their records, made by
   *   those fetches, stay in the cache and serve them. The records of every
   *   other path, the failing cursor's and later cursors' included, are as
   *   they were at the start.
   * - Every path is answered afterwards as at the start, and the records
   *   changed only at the paths of known aliases.
   */
  method GetCompletions(cache: ModuleCache, matches: seq<(string, string)>, tokens: seq<Option<Token>>,
                        files: map<string, FileState>)
    returns (r: Result<seq<Entry>, Error>, ghost fetched: seq<ExportMap>)
    requires cache.Valid()
    modifies cache
    ensures cache.Valid()
    ensures r.Ok? <==> AllSucceed(cache, old(cache.records), FromPairs(matches), files, tokens)
    ensures r.Err? ==> && FirstFailure(cache, old(cache.records), FromPairs(matches), files, tokens, |fetched|, r.error)
                       && Answered(cache, old(cache.records), FromPairs(matches), files, tokens[..|fetched|], fetched)
                       && AllServed(cache.records, FromPairs(matches), files, tokens[..|fetched|], fetched)
                       && UnchangedOutside(cache.records, old(cache.records), FetchedPaths(FromPairs(matches), tokens[..|fetched|]))
    ensures r.Ok? ==> |fetched| == |tokens| && AllValid(fetched)
    ensures r.Ok? ==> Answered(cache, old(cache.records), FromPairs(matches), files, tokens, fetched)
    ensures r.Ok? ==> r.value == Assemble(FromPairs(matches), tokens, fetched)
    ensures r.Ok? ==> AllServed(cache.records, FromPairs(matches), files, tokens, fetched)
    ensures SameAnswers(cache, cache.records, old(cache.records), files)
    ensures UnchangedOutside(cache.records, old(cache.records), FetchedPaths(FromPairs(matches), tokens))
  {
    var imports := FindImports(matches);
    var completions := [];
    fetched := [];
    for i := 0 to |tokens|
      invariant cache.Valid()
      invariant |fetched| == i
      invariant AllValid(fetched)
      invariant completions == Assemble(imports, tokens[..i], fetched)
      invariant Progress(cache, cache.records, old(cache.records), imports, files, tokens[..i], fetched)
    {
      ghost var before := cache.records;
      var contribution, exports := Contribute(cache, imports, tokens[i], files);
      if contribution.Err? {
        FailedStep(before, cache.records, old(cache.records), cache, imports, files, tokens, i, fetched, contribution.error);
        return Err(contribution.error), fetched;
      }
      RequestStep(before, cache.records, old(cache.records), cache, imports, files, tokens, i, fetched, exports);
      AssembleStep(imports, tokens, i, fetched, exports);
      completions := completions + contribution.value;
      fetched := fetched + [exports];
    }
    assert tokens[..|tokens|] == tokens;
    AnsweredSucceed(cache, old(cache.records), imports, files, tokens, fetched);
    r := Ok(completions);
  }
}
