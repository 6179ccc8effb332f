/**
 * The artifact cache: a local store in front of a source store, the artifact tree, and the user's
 * files. Every operation may fail at any of its input/output steps.
 */
module ArtifactCache {
  import opened Wrappers
  import opened Packets
  import opened TreeView
  import opened UserWalk
  import T = ArtifactTree

  // What a store holds, by hash.
  type Blobs = map<string, Bytes>

  // Every blob is under its own hash, and the cache holds nothing the source does not.
  ghost predicate Mirrors(hash: Bytes -> string, blob: string -> Bytes, source: Blobs, cache: Blobs) {
    && (forall h :: h in source ==> hash(source[h]) == h && source[h] == blob(h))
    && (forall h :: h in cache ==> h in source && cache[h] == source[h])
  }

  // The data of every file is what its hash stands for.
  ghost predicate NoCollision(hash: Bytes -> string, blob: string -> Bytes, entries: seq<Named>)
    decreases entries
  {
    entries == [] ||
    (&& (match entries[0].entry
         case File(data) => blob(hash(data)) == data
         case Folder(below) => NoCollision(hash, blob, below))
     && NoCollision(hash, blob, entries[1..]))
  }

  // The data of every visited file is in both stores.
  ghost predicate AllStored(hash: Bytes -> string, visits: seq<Visit>, source: Blobs, cache: Blobs) {
    forall v :: v in visits ==> hash(v.data) in source && source[hash(v.data)] == v.data && hash(v.data) in cache
  }

  lemma StoredMore(hash: Bytes -> string, visits: seq<Visit>, v: Visit, source: Blobs, cache: Blobs, source': Blobs,
    cache': Blobs)
    requires AllStored(hash, visits, source, cache)
    requires forall h :: h in source ==> h in source' && source'[h] == source[h]
    requires forall h :: h in cache ==> h in cache'
    requires hash(v.data) in source' && source'[hash(v.data)] == v.data && hash(v.data) in cache'
    ensures AllStored(hash, visits + [v], source', cache')
  {
  }

  // The maps at and above a path, from the root down.
  ghost function Trail(p: Path, maps: map<Path, T.Tree>): seq<Option<T.Tree>>
    decreases |p|
  {
    (if p == [] then [] else Trail(Parent(p), maps)) + [if p in maps then Some(maps[p]) else None]
  }

  // The same trail ends at the same map.
  lemma SameHere(p: Path, a: map<Path, T.Tree>, b: map<Path, T.Tree>)
    requires Trail(p, a) == Trail(p, b) && p in a
    ensures p in b && b[p] == a[p]
  {
    var t := Trail(p, a);
    assert t[|t| - 1] == Some(a[p]);
  }

  lemma TrailUp(p: Path, name: string, a: map<Path, T.Tree>, b: map<Path, T.Tree>)
    requires Trail(p + [name], a) == Trail(p + [name], b)
    ensures Trail(p, a) == Trail(p, b)
  {
    assert Parent(p + [name]) == p;
    var t, u := Trail(p + [name], a), Trail(p + [name], b);
    assert Trail(p, a) == t[..|t| - 1] && Trail(p, b) == u[..|u| - 1];
  }

  lemma {:induction false} KeptAbove(p: Path, a: T.Shape, b: T.Shape)
    requires T.ShapeOk(a) && IsDir(a.view, p) && T.MapsKept(a, b)
    ensures Trail(p, a.maps) == Trail(p, b.maps)
    decreases |p|
  {
    assert p in a.contents && p in a.maps;
    if p != [] {
      assert IsDir(a.view, Parent(p));
      KeptAbove(Parent(p), a, b);
    }
  }

  // One turn of the loop over a directory.
  lemma WalkTurn(r: Rules, w: Walked, p: Path, entries: seq<Named>, i: nat)
    requires i < |entries| && WalkOk(w.view, p)
    ensures WalkOk(VisitEntry(r, w, p, entries[i]).view, p)
    ensures Walk(r, w, p, entries[i..]) == Walk(r, VisitEntry(r, w, p, entries[i]), p, entries[i + 1..])
  {
    assert entries[i..][0] == entries[i] && entries[i..][1..] == entries[i + 1..];
    EntryKeepsOk(r, w, p, entries[i]);
  }

  lemma CollisionTurn(hash: Bytes -> string, blob: string -> Bytes, entries: seq<Named>, i: nat)
    requires i < |entries| && NoCollision(hash, blob, entries[i..])
    ensures NoCollision(hash, blob, [entries[i]]) && NoCollision(hash, blob, entries[i + 1..])
  {
    assert entries[i..][0] == entries[i] && entries[i..][1..] == entries[i + 1..];
  }

  class CachedStore {
    const config: T.Config
    const ignore: set<string>
    const hash: Bytes -> string
    const reliable: bool           // no input/output step fails
    const local: bool              // no such step on the cache or the user's files fails
    const limit: nat               // largest size pulled from the source; 0 means no limit
    ghost const blob: string -> Bytes   // the one blob that is ever stored under a hash
    var source: Blobs
    var cache: Blobs
    var files: map<Path, Bytes>    // the user's files, by their path in the tree

    constructor (config: T.Config, ignore: set<string>, hash: Bytes -> string, limit: nat, reliable: bool, local: bool,
      ghost blob: string -> Bytes, source: Blobs, cache: Blobs)
      requires config.Valid() && Mirrors(hash, blob, source, cache)
      ensures Valid() && this.config == config && this.source == source && this.cache == cache && files == map[]
    {
      this.config, this.ignore, this.hash := config, ignore, hash;
      this.limit, this.reliable, this.local, this.blob := limit, reliable, local, blob;
      this.source, this.cache, this.files := source, cache, map[];
    }

    ghost predicate Valid()
      reads this, config, config.trees
    {
      config.Valid() && Mirrors(hash, blob, source, cache)
    }

    // Whether the next input/output step fails.
    method Fails() returns (fails: bool)
      ensures reliable ==> !fails
    {
      fails := false;
      if * { fails := !reliable; }
    }

    // The same of a step on the cache or the user's files.
    method LocalFails() returns (fails: bool)
      ensures reliable || local ==> !fails
    {
      fails := false;
      if * { fails := !reliable && !local; }
    }

    // Into the source, then into the cache.
    method Store(h: string, data: Bytes) returns (ok: bool)
      requires Valid() && hash(data) == h && blob(h) == data
      modifies this`source, this`cache
      ensures Valid()
      ensures source == old(source) || source == old(source)[h := data]
      ensures cache == old(cache) || cache == old(cache)[h := data]
      ensures ok ==> h in source && source[h] == data && h in cache && cache[h] == data
      ensures reliable ==> ok
    {
      var fails := Fails();
      if fails { return false; }
      source := source[h := data];
      fails := Fails();
      if fails { return false; }
      cache := cache[h := data];
      return true;
    }

    // From the cache if it is there, else from the source.
    method Load(h: string) returns (r: Option<Bytes>)
      requires Valid()
      ensures r.Some? ==> h in source && r.value == source[h]
      ensures reliable ==> (r.Some? <==> h in source)
      ensures local && h in cache ==> r.Some?
    {
      var fails := LocalFails();
      if fails { return None; }
      if h in cache { return Some(cache[h]); }
      fails := Fails();
      if fails || h !in source { return None; }
      return Some(source[h]);
    }

    function RulesFor(write: bool): Rules {
      Rules(ignore, hash, write)
    }

    // Data into the stores, and then its hash into the tree.
    method StoreAt(q: Path, data: Bytes) returns (ok: bool)
      requires Valid() && q != [] && blob(hash(data)) == data
      modifies this`source, this`cache, config, config.trees
      ensures Valid() && old(config.trees) <= config.trees && fresh(config.trees - old(config.trees))
      ensures forall h :: h in old(source) ==> h in source && source[h] == old(source)[h]
      ensures forall h :: h in old(cache) ==> h in cache
      ensures T.MapsKept(old(config.shape), config.shape)
      ensures ok ==> config.shape.view == Stored(old(config.shape.view), q, hash(data), |data|)
      ensures ok ==> hash(data) in source && source[hash(data)] == data && hash(data) in cache
      ensures reliable ==> ok
    {
      ok := Store(hash(data), data);
      if ok {
        config.StoreHash([], config.root, hash(data), |data|, q);
        assert [] + q == q;
      }
    }

    // What the map at a path has under a name.
    method Existing(p: Path, t: T.Tree, name: string, h: string) returns (has: bool, same: bool)
      requires config.Valid() && IsDir(config.shape.view, p) && config.shape.maps[p] == t
      ensures has == (p + [name] in config.shape.view) && same == Has(config.shape.view, p + [name], h)
    {
      assert Parent(p + [name]) == p;
      assert T.KidsOk(p, config.shape.contents[p], config.shape.maps, config.shape.view);
      has := name in t.kids;
      same := has && t.kids[name].External? && t.kids[name].hash == h;
    }

    // One file of the user: left alone if the tree has it, else stored or reported.
    method VisitData(p: Path, t: T.Tree, name: string, data: Bytes, write: bool, before: seq<Visit>)
      returns (ok: bool, visits: seq<Visit>)
      requires Valid() && IsDir(config.shape.view, p) && config.shape.maps[p] == t
      requires write ==> blob(hash(data)) == data && AllStored(hash, before, source, cache)
      modifies this`source, this`cache, config, config.trees
      ensures Valid() && old(config.trees) <= config.trees && fresh(config.trees - old(config.trees))
      ensures write && ok ==> AllStored(hash, visits, source, cache)
      ensures !write ==> source == old(source) && cache == old(cache)
      ensures Trail(p, config.shape.maps) == Trail(p, old(config.shape).maps)
      ensures ok ==>
                Walked(config.shape.view, visits) ==
                VisitFile(RulesFor(write), Walked(old(config.shape.view), before), p + [name], data)
      ensures reliable ==> ok
    {
      visits := before;
      var fails := Fails();
      if fails { return false, visits; }
      var has, same := Existing(p, t, name, hash(data));
      if same { return true, visits; }
      visits := visits + [Visit(p + [name], data, has)];
      ok := true;
      if write {
        ghost var was := config.shape;
        ok := StoreAt(p + [name], data);
        KeptAbove(p, was, config.shape);
        if ok {
          StoredMore(hash, before, Visit(p + [name], data, has), old(source), old(cache), source, cache);
        }
      }
    }

    // The map at a name of the directory, which keeps the maps above it in place.
    method EnterKept(p: Path, t: T.Tree, name: string) returns (next: T.Tree)
      requires Valid() && IsDir(config.shape.view, p) && config.shape.maps[p] == t
      modifies config, config.trees
      ensures Valid() && old(config.trees) <= config.trees && fresh(config.trees - old(config.trees))
      ensures Trail(p, config.shape.maps) == Trail(p, old(config.shape).maps)
      ensures config.shape.view == EnsureDir(old(config.shape.view), p + [name])
      ensures IsDir(config.shape.view, p + [name]) && config.shape.maps[p + [name]] == next
      ensures source == old(source) && cache == old(cache)
    {
      ghost var was := config.shape;
      next := config.Enter(p, t, name);
      KeptAbove(p, was, config.shape);
    }

    // One directory of the user: entered, or made, in the tree, and walked.
    method VisitFolder(p: Path, t: T.Tree, name: string, entries: seq<Named>, write: bool, before: seq<Visit>)
      returns (ok: bool, visits: seq<Visit>)
      requires Valid() && IsDir(config.shape.view, p) && config.shape.maps[p] == t
      requires write ==> NoCollision(hash, blob, entries) && AllStored(hash, before, source, cache)
      modifies this`source, this`cache, config, config.trees
      ensures Valid() && old(config.trees) <= config.trees && fresh(config.trees - old(config.trees))
      ensures write && ok ==> AllStored(hash, visits, source, cache)
      ensures !write ==> source == old(source) && cache == old(cache)
      ensures Trail(p, config.shape.maps) == Trail(p, old(config.shape).maps)
      ensures ok ==>
                var entered := Walked(EnsureDir(old(config.shape.view), p + [name]), before);
                Walked(config.shape.view, visits) == Walk(RulesFor(write), entered, p + [name], entries)
      ensures reliable ==> ok
      decreases entries, 2
    {
      var next := EnterKept(p, t, name);
      ghost var entered, trees := config.shape, config.trees;
      var fails := Fails();
      if fails { return false, before; }
      ok, visits := WalkTree(p + [name], next, entries, write, before);
      TrailUp(p, name, entered.maps, config.shape.maps);
      assert config.trees - old(config.trees) <= (config.trees - trees) + (trees - old(config.trees));
    }

    method VisitNamed(p: Path, t: T.Tree, named: Named, write: bool, before: seq<Visit>)
      returns (ok: bool, visits: seq<Visit>)
      requires Valid() && IsDir(config.shape.view, p) && config.shape.maps[p] == t
      requires write ==> NoCollision(hash, blob, [named]) && AllStored(hash, before, source, cache)
      modifies this`source, this`cache, config, config.trees
      ensures Valid() && old(config.trees) <= config.trees && fresh(config.trees - old(config.trees))
      ensures write && ok ==> AllStored(hash, visits, source, cache)
      ensures !write ==> source == old(source) && cache == old(cache)
      ensures Trail(p, config.shape.maps) == Trail(p, old(config.shape).maps)
      ensures ok ==>
                Walked(config.shape.view, visits) ==
                VisitEntry(RulesFor(write), Walked(old(config.shape.view), before), p, named)
      ensures reliable ==> ok
      decreases named
    {
      match named.entry {
        case File(data) =>
          if named.name in ignore {
            return true, before;
          }
          ok, visits := VisitData(p, t, named.name, data, write, before);
        case Folder(entries) =>
          ok, visits := VisitFolder(p, t, named.name, entries, write, before);
      }
    }

    // One turn of the loop over a directory.
    method VisitAt(p: Path, t: T.Tree, entries: seq<Named>, i: nat, write: bool, before: seq<Visit>)
      returns (ok: bool, visits: seq<Visit>)
      requires Valid() && IsDir(config.shape.view, p) && config.shape.maps[p] == t && i < |entries|
      requires write ==> NoCollision(hash, blob, entries[i..]) && AllStored(hash, before, source, cache)
      modifies this`source, this`cache, config, config.trees
      ensures Valid() && old(config.trees) <= config.trees && fresh(config.trees - old(config.trees))
      ensures write && ok ==> AllStored(hash, visits, source, cache)
      ensures !write ==> source == old(source) && cache == old(cache)
      ensures write ==> NoCollision(hash, blob, entries[i + 1..])
      ensures Trail(p, config.shape.maps) == Trail(p, old(config.shape).maps)
      ensures ok ==> IsDir(config.shape.view, p) && config.shape.maps[p] == t
      ensures ok ==>
                Walk(RulesFor(write), Walked(config.shape.view, visits), p, entries[i + 1..]) ==
                Walk(RulesFor(write), Walked(old(config.shape.view), before), p, entries[i..])
      ensures reliable ==> ok
      decreases entries, 0
    {
      WalkTurn(RulesFor(write), Walked(config.shape.view, before), p, entries, i);
      if write { CollisionTurn(hash, blob, entries, i); }
      ok, visits := VisitNamed(p, t, entries[i], write, before);
      SameHere(p, old(config.shape).maps, config.shape.maps);
    }

    // One pass over a directory of the user: `t` is the map at `p`, shared with the tree being changed.
    method WalkTree(p: Path, t: T.Tree, entries: seq<Named>, write: bool, before: seq<Visit>)
      returns (ok: bool, visits: seq<Visit>)
      requires Valid() && IsDir(config.shape.view, p) && config.shape.maps[p] == t
      requires write ==> NoCollision(hash, blob, entries) && AllStored(hash, before, source, cache)
      modifies this`source, this`cache, config, config.trees
      ensures Valid() && old(config.trees) <= config.trees && fresh(config.trees - old(config.trees))
      ensures write && ok ==> AllStored(hash, visits, source, cache)
      ensures !write ==> source == old(source) && cache == old(cache)
      ensures Trail(p, config.shape.maps) == Trail(p, old(config.shape).maps)
      ensures ok ==>
                Walked(config.shape.view, visits) ==
                Walk(RulesFor(write), Walked(old(config.shape.view), before), p, entries)
      ensures reliable ==> ok
      decreases entries, 1
    {
      visits := before;
      ghost var whole := Walk(RulesFor(write), Walked(config.shape.view, before), p, entries);
      for i := 0 to |entries|
        invariant Valid()
        invariant old(config.trees) <= config.trees && fresh(config.trees - old(config.trees))
        invariant write ==> AllStored(hash, visits, source, cache) && NoCollision(hash, blob, entries[i..])
        invariant !write ==> source == old(source) && cache == old(cache)
        invariant Trail(p, config.shape.maps) == Trail(p, old(config.shape).maps)
        invariant IsDir(config.shape.view, p) && config.shape.maps[p] == t
        invariant whole == Walk(RulesFor(write), Walked(config.shape.view, visits), p, entries[i..])
      {
        ghost var trees := config.trees;
        ok, visits := VisitAt(p, t, entries, i, write, visits);
        assert fresh((config.trees - trees) + (trees - old(config.trees)));
        if !ok { return; }
      }
      ok := true;
    }

    /** On success the tree is in step with the directory, and all that was written is in both stores. */
    method WriteThroughUser(entries: seq<Named>) returns (ok: bool)
      requires Valid() && Distinct(entries) && NoCollision(hash, blob, entries)
      modifies this`source, this`cache, config, config.trees
      ensures Valid()
      ensures ok ==>
                var done := Walk(RulesFor(true), Walked(old(config.shape.view), []), [], entries);
                && config.shape.view == done.view && AllStored(hash, done.visits, source, cache)
                && Reports(RulesFor(true), old(config.shape.view), [], entries, done.visits)
                && Synced(RulesFor(true), config.shape.view, [], entries)
      ensures reliable ==> ok
    {
      var fails := Fails();
      if fails { return false; }
      WalkSyncs(RulesFor(true), Walked(config.shape.view, []), [], entries);
      VisitsExactly(RulesFor(true), config.shape.view, entries);
      var visits;
      ok, visits := WalkTree([], config.root, entries, true, []);
      fails := Fails();   // committing the tree may fail
      if fails { ok := false; }
    }

    /** Reports the files the tree does not have; makes, on the way, directories the tree does not have. */
    method Status(entries: seq<Named>) returns (ok: bool, visits: seq<Visit>)
      requires Valid()
      modifies this`source, this`cache, config, config.trees
      ensures Valid() && source == old(source) && cache == old(cache)
      ensures ok ==>
                Walked(config.shape.view, visits) ==
                Walk(RulesFor(false), Walked(old(config.shape.view), []), [], entries)
      ensures ok && Distinct(entries) ==> Reports(RulesFor(false), old(config.shape.view), [], entries, visits)
      ensures reliable ==> ok
    {
      var fails := Fails();
      if fails { return false, []; }
      if Distinct(entries) { VisitsExactly(RulesFor(false), config.shape.view, entries); }
      ok, visits := WalkTree([], config.root, entries, false, []);
    }

    // A file with the given hash put at a path, from the cache.
    method EmplaceFile(h: string, q: Path) returns (ok: bool)
      requires Mirrors(hash, blob, source, cache)
      modifies this`files
      ensures ok ==> q in files && hash(files[q]) == h
      ensures forall q2 :: q2 != q ==> SameFile(old(files), files, q2)
      ensures q in old(files) && hash(old(files)[q]) == h ==> files == old(files)
      ensures (reliable || local) && h in cache ==> ok
    {
      var fails := LocalFails();
      if fails { return false; }
      if h !in cache { return false; }
      if q in files {
        fails := LocalFails();
        if fails { return false; }
        if hash(files[q]) == h { return true; }
        fails := LocalFails();
        if fails { return false; }
        files := files - {q};
      }
      fails := LocalFails();   // parent directories, temporary file, copy
      if fails { return false; }
      files := files[q := cache[h]];
      return true;
    }

    // One leaf of the tree put at its path; pulled from the source if the cache lacks it and it is not too large.
    method EnsureLeaf(h: string, size: nat, q: Path, ignoreLimit: bool) returns (ok: bool)
      requires Valid()
      modifies this`cache, this`files
      ensures Valid()
      ensures ok ==>
                (q in files && hash(files[q]) == h) ||
                (!ignoreLimit && limit != 0 && size > limit && h !in old(cache))
      ensures !ignoreLimit && limit != 0 && size > limit && h !in old(cache) ==>
                files == old(files) && cache == old(cache)
      ensures forall q2 :: q2 != q ==> SameFile(old(files), files, q2)
      ensures reliable && h in source ==> ok
      ensures local && h in old(cache) ==> ok && cache == old(cache)
    {
      if h in cache {
        ok := EmplaceFile(h, q);
        return;
      }
      var fails := Fails();
      if fails { return false; }
      if !ignoreLimit && limit != 0 && size > limit { return true; }
      if h !in source { return false; }
      fails := Fails();
      if fails { return false; }
      cache := cache[h := source[h]];
      ok := EmplaceFile(h, q);
    }

    // Every node below a path is put at its path.
    method EnsureNode(node: T.Node, q: Path, ignoreLimit: bool) returns (ok: bool)
      requires Valid()
      requires node.Internal? ==> IsDir(config.shape.view, q) && config.shape.maps[q] == node.tree
      requires node.External? ==> T.Shows(node, q, config.shape.maps, config.shape.view)
      modifies this`cache, this`files
      ensures Valid()
      ensures ok ==> AllPlaced(config.shape.view, files, hash, if ignoreLimit then 0 else limit, q)
      ensures FilesKept(old(files), files, q)
      ensures reliable && AllIn(config.shape.view, source, q) ==> ok
      ensures local && AllIn(config.shape.view, old(cache), q) ==> ok && cache == old(cache)
      decreases |Below(config.shape.view, q)|
    {
      ghost var view, max := config.shape.view, if ignoreLimit then 0 else limit;
      if node.External? {
        NothingBelow(view, q);
        ok := EnsureLeaf(node.hash, node.size, q, ignoreLimit);
        return;
      }
      var kids := node.tree.kids;
      assert T.KidsOk(q, kids, config.shape.maps, view);
      var todo := kids.Keys;
      ok := true;
      while todo != {}
        invariant ok && Valid() && todo <= kids.Keys
        invariant forall name :: name in kids && name !in todo ==> AllPlaced(view, files, hash, max, q + [name])
        invariant FilesKept(old(files), files, q)
        invariant local && AllIn(view, old(cache), q) ==> cache == old(cache)
        decreases todo
      {
        var name :| name in todo;
        ghost var was := files;
        BelowShrinks(view, q, name);
        AllInBelow(view, source, q, name);
        AllInBelow(view, old(cache), q, name);
        ok := EnsureNode(kids[name], q + [name], ignoreLimit);
        if !ok {
          FilesKeptUp(old(files), was, files, q, name);
          break;
        }
        FilesKeptUp(old(files), was, files, q, name);
        forall n | n in kids && n !in todo
          ensures AllPlaced(view, files, hash, max, q + [n])
        {
          PlacedStays(view, was, files, hash, max, q, n, name);
        }
        todo := todo - {name};
      }
      if ok {
        AllChildrenPlaced(config.shape, files, hash, max, q);
      }
    }

    /** Ensure, with the path already split; the empty path stands for the whole tree. */
    method Ensure(path: Path, ignoreLimit: bool) returns (ok: bool)
      requires Valid()
      modifies this`cache, this`files
      ensures Valid()
      ensures ok ==> IsDir(config.shape.view, path) || path in config.shape.view
      ensures ok ==> AllPlaced(config.shape.view, files, hash, if ignoreLimit then 0 else limit, path)
      ensures FilesKept(old(files), files, path)
      ensures reliable && (path == [] || path in config.shape.view) && AllIn(config.shape.view, source, path) ==> ok
      ensures local && (path == [] || path in config.shape.view) && AllIn(config.shape.view, old(cache), path) ==> ok
    {
      if path == [] {
        ok := EnsureNode(T.Internal(config.root), [], ignoreLimit);
        return;
      }
      var node := config.Lookup([], config.root, path);
      assert [] + path == path;
      if node.None? { return false; }
      ok := EnsureNode(node.value, path, ignoreLimit);
    }
  }

  // A leaf has a file with its hash, or it is larger than a limit that is set.
  ghost predicate Placed(view: View, files: map<Path, Bytes>, hash: Bytes -> string, max: nat, q: Path) {
    q in view && view[q].Leaf? ==> (q in files && hash(files[q]) == view[q].hash) || (max != 0 && view[q].size > max)
  }

  ghost predicate AllPlaced(view: View, files: map<Path, Bytes>, hash: Bytes -> string, max: nat, q: Path) {
    forall q2 :: q <= q2 ==> Placed(view, files, hash, max, q2)
  }

  // A store holds every leaf at and below a path.
  ghost predicate AllIn(view: View, source: Blobs, q: Path) {
    forall q2 :: q <= q2 && q2 in view && view[q2].Leaf? ==> view[q2].hash in source
  }

  lemma AllInBelow(view: View, source: Blobs, q: Path, name: string)
    ensures AllIn(view, source, q) ==> AllIn(view, source, q + [name])
  {
    if AllIn(view, source, q) {
      forall q2 | q + [name] <= q2 && q2 in view && view[q2].Leaf?
        ensures view[q2].hash in source
      {
        assert q <= q + [name];
        assert q <= q2;
      }
    }
  }

  ghost predicate SameFile(a: map<Path, Bytes>, b: map<Path, Bytes>, q: Path) {
    (q in a <==> q in b) && (q in a ==> a[q] == b[q])
  }

  // Nothing but the files at and below a path was touched.
  ghost predicate FilesKept(a: map<Path, Bytes>, b: map<Path, Bytes>, q: Path) {
    forall q2 :: !(q <= q2) ==> SameFile(a, b, q2)
  }

  lemma FilesKeptUp(a: map<Path, Bytes>, b: map<Path, Bytes>, c: map<Path, Bytes>, q: Path, name: string)
    requires FilesKept(a, b, q) && FilesKept(b, c, q + [name])
    ensures FilesKept(a, c, q)
  {
    forall q2 | !(q <= q2)
      ensures SameFile(a, c, q2)
    {
      assert SameFile(a, b, q2);
      assert q <= q + [name];
      assert !(q + [name] <= q2) && SameFile(b, c, q2);
    }
  }

  lemma PlacedStays(view: View, a: map<Path, Bytes>, b: map<Path, Bytes>, hash: Bytes -> string, max: nat, q: Path,
    n: string, name: string)
    requires AllPlaced(view, a, hash, max, q + [n]) && FilesKept(a, b, q + [name]) && n != name
    ensures AllPlaced(view, b, hash, max, q + [n])
  {
    forall q2 | q + [n] <= q2
      ensures Placed(view, b, hash, max, q2)
    {
      assert Placed(view, a, hash, max, q2);
      assert (q + [n])[|q|] == n == q2[|q|] && (q + [name])[|q|] == name;
      assert !(q + [name] <= q2) && SameFile(a, b, q2);
    }
  }

  lemma AllChildrenPlaced(s: T.Shape, files: map<Path, Bytes>, hash: Bytes -> string, max: nat, q: Path)
    requires T.ShapeOk(s) && IsDir(s.view, q) && q in s.contents
    requires forall name :: name in s.contents[q] ==> AllPlaced(s.view, files, hash, max, q + [name])
    ensures AllPlaced(s.view, files, hash, max, q)
  {
    forall q2 | q <= q2
      ensures Placed(s.view, files, hash, max, q2)
    {
      if q2 in s.view && q2 != q {
        var name := q2[|q|];
        var child := q + [name];
        assert child <= q2 && Parent(child) == q;
        if child != q2 {
          DirsAbove(s.view, q2, child);
        }
        assert child in s.view && name in s.contents[q];
        assert AllPlaced(s.view, files, hash, max, child);
      }
    }
  }

  ghost function Below(view: View, q: Path): set<Path> {
    set q2 | q2 in view && q < q2
  }

  lemma BelowShrinks(view: View, q: Path, name: string)
    requires q + [name] in view
    ensures |Below(view, q + [name])| < |Below(view, q)|
  {
    assert q + [name] in Below(view, q) && q + [name] !in Below(view, q + [name]);
    assert Below(view, q + [name]) < Below(view, q);
    Smaller(Below(view, q + [name]), Below(view, q));
  }

  lemma Smaller(a: set<Path>, b: set<Path>)
    requires a < b
    ensures |a| < |b|
  {
    assert b == a + (b - a) && |b - a| > 0;
  }
}
