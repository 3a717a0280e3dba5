/**
 * Merging of configuration files: a file may include another one, which is merged first, and each
 * merge updates the base dictionary in place, key by key and into nested dictionaries.
 */
module Configurator {
  import opened Octets

  type Path = string

  datatype Value = Scalar(text: string) | Dict(entries: map<string, Value>)

  type Entries = map<string, Value>

  // ---- deep merge -----------------------------------------------------------------------------

  /** What a key holds after merging `adding` over what it held. */
  function MergeValue(base: Option<Value>, adding: Value): Value
    decreases adding, 1
  {
    if adding.Dict? && base.Some? && base.value.Dict? then Dict(MergeInto(base.value.entries, adding))
    else adding
  }

  function MergeInto(base: Entries, adding: Value): (r: Entries)
    requires adding.Dict?
    ensures r.Keys == base.Keys + adding.entries.Keys
    decreases adding, 0
  {
    map k | k in base.Keys + adding.entries.Keys ::
      if k in adding.entries then MergeValue(Get(base, k), adding.entries[k]) else base[k]
  }

  function Merge(base: Entries, adding: Entries): Entries
  {
    MergeInto(base, Dict(adding))
  }

  function Get(m: Entries, k: string): Option<Value>
  {
    if k in m then Some(m[k]) else None
  }

  /** The loop over the items of the added dictionary, in any order. */
  method DeepMergeDict(base: Entries, adding: Value) returns (merged: Entries)
    requires adding.Dict?
    ensures merged == MergeInto(base, adding)
    decreases adding
  {
    merged := base;
    var todo := adding.entries.Keys;
    while todo != {}
      invariant todo <= adding.entries.Keys
      invariant merged.Keys == base.Keys + (adding.entries.Keys - todo)
      invariant forall k :: k in merged ==>
        merged[k] == if k in adding.entries && k !in todo then MergeValue(Get(base, k), adding.entries[k]) else base[k]
      decreases todo
    {
      var key :| key in todo;
      var value := adding.entries[key];
      if value.Dict? && key in merged && merged[key].Dict? {
        var nested := DeepMergeDict(merged[key].entries, value);
        merged := merged[key := Dict(nested)];
      } else {
        merged := merged[key := value];
      }
      todo := todo - {key};
    }
  }

  // ---- what a merge means ---------------------------------------------------------------------

  /** The scalar at the end of a path of keys. */
  predicate ScalarAt(v: Value, path: seq<string>, text: string)
  {
    if path == [] then v == Scalar(text)
    else v.Dict? && path[0] in v.entries && ScalarAt(v.entries[path[0]], path[1..], text)
  }

  /** The added dictionary has nothing at this path, nor a scalar in place of one of its steps. */
  predicate Leaves(adding: Value, path: seq<string>)
  {
    path != [] && adding.Dict?
    && (path[0] !in adding.entries || Leaves(adding.entries[path[0]], path[1..]))
  }

  /**
   * Right bias, by paths: a merged dictionary has a scalar at a path exactly when the added one
   * has it there, or the base had it and the added one leaves the path alone.
   */
  lemma {:induction false} MergeByPaths(base: Entries, adding: Value, path: seq<string>, text: string)
    requires adding.Dict?
    ensures ScalarAt(Dict(MergeInto(base, adding)), path, text)
            <==> ScalarAt(adding, path, text) || (ScalarAt(Dict(base), path, text) && Leaves(adding, path))
    decreases |path|
  {
    if path != [] && path[0] in adding.entries {
      var (key, rest) := (path[0], path[1..]);
      var value := adding.entries[key];
      if key in base && base[key].Dict? && value.Dict? {
        MergeByPaths(base[key].entries, value, rest, text);
      } else if key in base && !value.Dict? {
        assert !Leaves(value, rest);
      }
    }
  }

  /** The path of keys leads somewhere, to a scalar or to a dictionary. */
  predicate Reaches(v: Value, path: seq<string>)
  {
    path == [] || (v.Dict? && path[0] in v.entries && Reaches(v.entries[path[0]], path[1..]))
  }

  /**
   * Which paths a merged dictionary has: those of the added one, and those of the base that the added
   * one leaves alone. With MergeByPaths this says all there is to say of a merge.
   */
  lemma {:induction false} MergeReaches(base: Entries, adding: Value, path: seq<string>)
    requires adding.Dict?
    ensures Reaches(Dict(MergeInto(base, adding)), path)
            <==> Reaches(adding, path) || (Reaches(Dict(base), path) && Leaves(adding, path))
    decreases |path|
  {
    if path != [] && path[0] in adding.entries {
      var (key, rest) := (path[0], path[1..]);
      var value := adding.entries[key];
      if key in base && base[key].Dict? && value.Dict? {
        MergeReaches(base[key].entries, value, rest);
      } else if key in base && !value.Dict? {
        assert !Leaves(value, rest);
      }
    }
  }

  /** Merging the same dictionary again changes nothing. */
  lemma {:induction false} MergeIsIdempotent(base: Entries, adding: Value)
    requires adding.Dict?
    ensures MergeInto(MergeInto(base, adding), adding) == MergeInto(base, adding)
    decreases adding
  {
    var once := MergeInto(base, adding);
    forall k | k in adding.entries ensures MergeValue(Get(once, k), adding.entries[k]) == once[k] {
      var value := adding.entries[k];
      assert once[k] == MergeValue(Get(base, k), value);
      if value.Dict? {
        if k in base && base[k].Dict? {
          MergeIsIdempotent(base[k].entries, value);
          assert once[k] == Dict(MergeInto(base[k].entries, value));
        } else {
          MergeWithSelf(value);
          assert once[k] == value == Dict(value.entries);
        }
      }
    }
  }

  lemma {:induction false} MergeWithSelf(v: Value)
    requires v.Dict?
    ensures MergeInto(v.entries, v) == v.entries
    decreases v
  {
    forall k | k in v.entries && v.entries[k].Dict? ensures MergeInto(v.entries[k].entries, v.entries[k]) == v.entries[k].entries {
      MergeWithSelf(v.entries[k]);
    }
  }

  // ---- include chains -------------------------------------------------------------------------

  /** A readable file: the path it includes, resolved, and the rest of its contents. */
  datatype File = File(inner: Option<Path>, entries: Entries)

  type Files = map<Path, File>

  datatype ConfigError = Unreadable | Circular

  function MergeFile(files: Files, base: Entries, file: Path, traversed: set<Path>): Result<Entries, ConfigError>
    decreases |files.Keys - traversed|
  {
    if file !in files then Err(Unreadable)
    else if file in traversed then Err(Circular)
    else
      var config := files[file];
      if config.inner.None? then Ok(Merge(base, config.entries))
      else
        assert files.Keys - (traversed + {file}) < files.Keys - traversed;
        SmallerSet(files.Keys - (traversed + {file}), files.Keys - traversed);
        match MergeFile(files, base, config.inner.value, traversed + {file})
        case Err(e) => Err(e)
        case Ok(included) => Ok(Merge(included, config.entries))
  }

  /** The dictionary that merges happen in. */
  class Config {
    var entries: Entries

    constructor (entries: Entries)
      ensures this.entries == entries
    {
      this.entries := entries;
    }

    /** Merges a file and its includes; after an error the dictionary is as it was. */
    method MergeConfig(files: Files, file: Path, traversed: set<Path>) returns (error: Option<ConfigError>)
      modifies this
      ensures match MergeFile(files, old(entries), file, traversed)
              case Ok(merged) => error.None? && entries == merged
              case Err(e) => error == Some(e) && entries == old(entries)
      decreases |files.Keys - traversed|
    {
      if file !in files {
        return Some(Unreadable);
      }
      if file in traversed {
        return Some(Circular);
      }
      var config := files[file];
      if config.inner.Some? {
        SmallerSet(files.Keys - (traversed + {file}), files.Keys - traversed);
        error := MergeConfig(files, config.inner.value, traversed + {file});
        if error.Some? {
          return;
        }
      }
      entries := DeepMergeDict(entries, Dict(config.entries));
      return None;
    }
  }

  /** The n-th file of the include chain, if the chain gets that far. */
  function Nth(files: Files, file: Path, n: nat): Option<Path>
  {
    if n == 0 then Some(file)
    else
      var before := Nth(files, file, n - 1);
      if before.Some? && before.value in files then files[before.value].inner else None
  }

  /** The chain comes back to a file it has been to. */
  ghost predicate Revisits(files: Files, file: Path)
  {
    exists i, j :: 0 <= i < j && Nth(files, file, i).Some? && Nth(files, file, i) == Nth(files, file, j)
  }

  ghost predicate EndsAt(files: Files, file: Path, n: nat)
  {
    Nth(files, file, n).Some? && Nth(files, file, n + 1).None?
  }

  lemma {:induction false} ChainIsPrefixClosed(files: Files, file: Path, i: nat, n: nat)
    requires i <= n && Nth(files, file, n).Some?
    ensures Nth(files, file, i).Some?
    decreases n
  {
    if i < n {
      ChainIsPrefixClosed(files, file, i, n - 1);
    }
  }

  lemma {:induction false} ChainRepeats(files: Files, file: Path, i: nat, j: nat, d: nat)
    requires Nth(files, file, i) == Nth(files, file, j)
    ensures Nth(files, file, i + d) == Nth(files, file, j + d)
    decreases d
  {
    if d > 0 {
      ChainRepeats(files, file, i, j, d - 1);
    }
  }

  lemma {:induction false} RevisitNeverEnds(files: Files, file: Path, i: nat, j: nat, n: nat)
    requires i < j && Nth(files, file, i).Some? && Nth(files, file, i) == Nth(files, file, j)
    ensures Nth(files, file, n).Some?
    decreases n
  {
    if n <= j {
      ChainIsPrefixClosed(files, file, n, j);
    } else {
      RevisitNeverEnds(files, file, i, j, n - (j - i));
      ChainRepeats(files, file, i, j, n - j);
    }
  }

  /** Merging the files of the chain from the n-th back to the i-th over a base. */
  function Fold(files: Files, base: Entries, file: Path, i: nat, n: nat): Entries
    requires i <= n && forall k :: i <= k <= n ==> Nth(files, file, k).Some? && Nth(files, file, k).value in files
    decreases n - i
  {
    var inner := if i == n then base else Fold(files, base, file, i + 1, n);
    Merge(inner, files[Nth(files, file, i).value].entries)
  }

  ghost predicate IsNth(files: Files, start: Path, i: nat, p: Path)
  {
    Nth(files, start, i) == Some(p)
  }

  /** Every file traversed is one of the first `k` of the chain. */
  ghost predicate Visited(files: Files, start: Path, k: nat, traversed: set<Path>)
  {
    forall p :: p in traversed ==> exists i :: 0 <= i < k && IsNth(files, start, i, p)
  }

  ghost predicate ReadableTo(files: Files, start: Path, k: nat, n: nat)
  {
    forall i :: k <= i <= n ==> Nth(files, start, i).Some? && Nth(files, start, i).value in files
  }

  lemma VisitOne(files: Files, start: Path, k: nat, traversed: set<Path>, file: Path)
    requires Visited(files, start, k, traversed) && IsNth(files, start, k, file)
    ensures Visited(files, start, k + 1, traversed + {file})
  {
    forall p | p in traversed + {file} ensures exists i :: 0 <= i < k + 1 && IsNth(files, start, i, p) {
      if p in traversed {
        var i :| 0 <= i < k && IsNth(files, start, i, p);
        assert i < k + 1;
      } else {
        assert IsNth(files, start, k, p);
      }
    }
  }

  lemma FoldOneMore(files: Files, base: Entries, start: Path, k: nat, n: nat)
    requires k < n && ReadableTo(files, start, k + 1, n) && Nth(files, start, k).Some? && Nth(files, start, k).value in files
    ensures ReadableTo(files, start, k, n)
    ensures Fold(files, base, start, k, n)
            == Merge(Fold(files, base, start, k + 1, n), files[Nth(files, start, k).value].entries)
  {
  }

  lemma BackToVisited(files: Files, start: Path, k: nat, traversed: set<Path>, file: Path)
    requires Visited(files, start, k, traversed) && IsNth(files, start, k, file) && file in traversed
    ensures Revisits(files, start)
  {
    var i :| 0 <= i < k && IsNth(files, start, i, file);
    assert Nth(files, start, i) == Nth(files, start, k);
  }

  /** How the merge of the k-th file ends says how the chain goes on to its n-th. */
  ghost predicate Follows(files: Files, base: Entries, start: Path, k: nat, n: nat, r: Result<Entries, ConfigError>)
  {
    match r
    case Ok(merged) =>
      k <= n && EndsAt(files, start, n) && ReadableTo(files, start, k, n) && merged == Fold(files, base, start, k, n)
    case Err(Unreadable) => EndsAt(files, start, n) && Nth(files, start, n).value !in files
    case Err(Circular) => Revisits(files, start)
  }

  lemma {:induction false} MergeFollowsChain(files: Files, base: Entries, start: Path, k: nat, traversed: set<Path>, file: Path)
    returns (n: nat)
    requires IsNth(files, start, k, file) && Visited(files, start, k, traversed)
    ensures n >= k && Follows(files, base, start, k, n, MergeFile(files, base, file, traversed))
    decreases |files.Keys - traversed|
  {
    n := k;
    if file in files && file in traversed {
      BackToVisited(files, start, k, traversed, file);
    } else if file in files && files[file].inner.Some? {
      var next := traversed + {file};
      SmallerSet(files.Keys - next, files.Keys - traversed);
      VisitOne(files, start, k, traversed, file);
      n := MergeFollowsChain(files, base, start, k + 1, next, files[file].inner.value);
      if MergeFile(files, base, files[file].inner.value, next).Ok? {
        FoldOneMore(files, base, start, k, n);
      }
    }
  }

  /**
   * Merging a file terminates for every file system; it reports a circular include exactly when
   * the chain revisits a file, an unreadable file exactly when the chain reaches one, and otherwise
   * merges the whole chain over the base, innermost include first.
   */
  lemma MergeOutcome(files: Files, base: Entries, file: Path) returns (n: nat)
    ensures MergeFile(files, base, file, {}) == Err(Circular) <==> Revisits(files, file)
    ensures !Revisits(files, file) ==> EndsAt(files, file, n)
    ensures !Revisits(files, file) ==>
              (MergeFile(files, base, file, {}) == Err(Unreadable) <==> Nth(files, file, n).value !in files)
    ensures !Revisits(files, file) && Nth(files, file, n).value in files ==>
              ReadableTo(files, file, 0, n) && MergeFile(files, base, file, {}) == Ok(Fold(files, base, file, 0, n))
  {
    n := MergeFollowsChain(files, base, file, 0, {}, file);
    if Revisits(files, file) {
      var i, j :| 0 <= i < j && Nth(files, file, i).Some? && Nth(files, file, i) == Nth(files, file, j);
      RevisitNeverEnds(files, file, i, j, n + 1);
    }
  }
}
