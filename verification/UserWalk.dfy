/**
 * The walk over the user's directory, for WriteThroughUser and for Status, as what it does to the
 * view of the artifact tree and which files it visits.
 */
module UserWalk {
  import opened Wrappers
  import opened Packets
  import opened TreeView

  datatype Entry = File(data: Bytes) | Folder(entries: seq<Named>)
  datatype Named = Named(name: string, entry: Entry)

  // `write` tells WriteThroughUser from Status. The hash is any function of the data.
  datatype Rules = Rules(ignore: set<string>, hash: Bytes -> string, write: bool)

  // A visited file: one not in the tree as it is; it may replace something there.
  datatype Visit = Visit(path: Path, data: Bytes, modified: bool)

  datatype Walked = Walked(view: View, visits: seq<Visit>)

  predicate Has(view: View, q: Path, hash: string) {
    q in view && view[q].Leaf? && view[q].hash == hash
  }

  function VisitFile(r: Rules, w: Walked, q: Path, data: Bytes): Walked {
    if Has(w.view, q, r.hash(data)) then w
    else
      var view := if r.write then Stored(w.view, q, r.hash(data), |data|) else w.view;
      Walked(view, w.visits + [Visit(q, data, q in w.view)])
  }

  function VisitEntry(r: Rules, w: Walked, p: Path, named: Named): Walked
    decreases named
  {
    match named.entry
    case File(data) => if named.name in r.ignore then w else VisitFile(r, w, p + [named.name], data)
    case Folder(entries) => Walk(r, w.(view := EnsureDir(w.view, p + [named.name])), p + [named.name], entries)
  }

  function Walk(r: Rules, w: Walked, p: Path, entries: seq<Named>): Walked
    decreases entries
  {
    if entries == [] then w else Walk(r, VisitEntry(r, w, p, entries[0]), p, entries[1..])
  }

  // No two names in a directory are the same.
  predicate Distinct(entries: seq<Named>)
    decreases entries
  {
    entries == [] ||
    (&& (forall i :: 0 < i < |entries| ==> entries[i].name != entries[0].name)
     && (entries[0].entry.Folder? ==> Distinct(entries[0].entry.entries))
     && Distinct(entries[1..]))
  }

  // The file at a path of a directory.
  function FileAt(entries: seq<Named>, rel: Path): Option<Bytes>
    decreases entries
  {
    if entries == [] || rel == [] then None
    else if entries[0].name != rel[0] then FileAt(entries[1..], rel)
    else
      match entries[0].entry
      case File(data) => if |rel| == 1 then Some(data) else None
      case Folder(below) => FileAt(below, rel[1..])
  }

  // The tree has every file that is not ignored, and every directory.
  predicate SyncedEntry(r: Rules, view: View, p: Path, named: Named)
    decreases named
  {
    var q := p + [named.name];
    match named.entry
    case File(data) => named.name in r.ignore || Has(view, q, r.hash(data))
    case Folder(entries) => q in view && view[q] == Dir && Synced(r, view, q, entries)
  }

  predicate Synced(r: Rules, view: View, p: Path, entries: seq<Named>)
    decreases entries
  {
    entries == [] || (SyncedEntry(r, view, p, entries[0]) && Synced(r, view, p, entries[1..]))
  }

  // ----- What the walk leaves alone -----

  predicate Agree(a: View, b: View, q: Path) {
    (q in a <==> q in b) && (q in a ==> a[q] == b[q])
  }

  predicate Apart(p: Path, entries: seq<Named>, q: Path) {
    forall i :: 0 <= i < |entries| ==> !(p + [entries[i].name] <= q)
  }

  ghost predicate WalkOk(view: View, p: Path) {
    Closed(view) && IsDir(view, p)
  }

  lemma PutOk(view: View, p: Path, name: string, seen: Seen, q: Path)
    requires WalkOk(view, p) && !(p + [name] <= q)
    ensures WalkOk(Put(view, p + [name], seen), p) && Agree(Put(view, p + [name], seen), view, q)
  {
    assert Parent(p + [name]) == p && !(p + [name] <= p);
    PutClosed(view, p + [name], seen);
  }

  lemma {:induction false} EntryFrame(r: Rules, w: Walked, p: Path, named: Named, q: Path)
    requires WalkOk(w.view, p) && !(p + [named.name] <= q)
    ensures WalkOk(VisitEntry(r, w, p, named).view, p) && Agree(VisitEntry(r, w, p, named).view, w.view, q)
    decreases named
  {
    var pn := p + [named.name];
    assert Parent(pn) == p && !(pn <= p);
    match named.entry {
      case File(data) =>
        StoredHere(w.view, pn, r.hash(data), |data|);
        PutOk(w.view, p, named.name, Leaf(r.hash(data), |data|), q);
      case Folder(entries) =>
        PutOk(w.view, p, named.name, Dir, q);
        var w1 := w.(view := EnsureDir(w.view, pn));
        WalkFrame(r, w1, pn, entries, q);
        WalkFrame(r, w1, pn, entries, p);
        assert IsDir(Walk(r, w1, pn, entries).view, p);
    }
  }

  // Whatever is not at or below one of the names stays as it is.
  lemma {:induction false} WalkFrame(r: Rules, w: Walked, p: Path, entries: seq<Named>, q: Path)
    requires WalkOk(w.view, p) && Apart(p, entries, q)
    ensures WalkOk(Walk(r, w, p, entries).view, p) && Agree(Walk(r, w, p, entries).view, w.view, q)
    decreases entries
  {
    if entries != [] {
      EntryFrame(r, w, p, entries[0], q);
      WalkFrame(r, VisitEntry(r, w, p, entries[0]), p, entries[1..], q);
    }
  }

  // The walk keeps the tree well-formed and its own directory in place.
  lemma WalkKeepsOk(r: Rules, w: Walked, p: Path, entries: seq<Named>)
    requires WalkOk(w.view, p)
    ensures WalkOk(Walk(r, w, p, entries).view, p)
  {
    forall i | 0 <= i < |entries|
      ensures !(p + [entries[i].name] <= p)
    {
      assert |p + [entries[i].name]| > |p|;
    }
    WalkFrame(r, w, p, entries, p);
  }

  lemma EntryKeepsOk(r: Rules, w: Walked, p: Path, named: Named)
    requires WalkOk(w.view, p)
    ensures WalkOk(VisitEntry(r, w, p, named).view, p)
  {
    assert |p + [named.name]| > |p|;
    EntryFrame(r, w, p, named, p);
  }

  // What is below one name is apart from all other names.
  lemma BelowApart(p: Path, name: string, entries: seq<Named>, q: Path)
    requires p + [name] <= q && forall i :: 0 <= i < |entries| ==> entries[i].name != name
    ensures Apart(p, entries, q)
  {
    forall i | 0 <= i < |entries|
      ensures !(p + [entries[i].name] <= q)
    {
      assert (p + [name])[|p|] == name == q[|p|];
      assert (p + [entries[i].name])[|p|] == entries[i].name;
    }
  }

  // ----- After a walk that writes -----

  lemma {:induction false} SyncedEntryStays(r: Rules, a: View, b: View, p: Path, named: Named)
    requires SyncedEntry(r, a, p, named) && forall q :: p + [named.name] <= q ==> Agree(a, b, q)
    ensures SyncedEntry(r, b, p, named)
    decreases named
  {
    var pn := p + [named.name];
    assert Agree(a, b, pn);
    if named.entry.Folder? {
      SyncedStays(r, a, b, pn, named.entry.entries);
    }
  }

  lemma {:induction false} SyncedStays(r: Rules, a: View, b: View, p: Path, entries: seq<Named>)
    requires Synced(r, a, p, entries) && forall q :: p <= q ==> Agree(a, b, q)
    ensures Synced(r, b, p, entries)
    decreases entries
  {
    if entries != [] {
      forall q | p + [entries[0].name] <= q
        ensures Agree(a, b, q)
      {
        assert p <= p + [entries[0].name];
        assert p <= q;
      }
      SyncedEntryStays(r, a, b, p, entries[0]);
      SyncedStays(r, a, b, p, entries[1..]);
    }
  }

  lemma {:induction false} EntrySyncs(r: Rules, w: Walked, p: Path, named: Named)
    requires r.write && WalkOk(w.view, p) && (named.entry.Folder? ==> Distinct(named.entry.entries))
    ensures SyncedEntry(r, VisitEntry(r, w, p, named).view, p, named)
    decreases named
  {
    if named.entry.Folder? {
      var pn, entries := p + [named.name], named.entry.entries;
      var w1 := w.(view := EnsureDir(w.view, pn));
      PutOk(w.view, p, named.name, Dir, p);
      WalkSyncs(r, w1, pn, entries);
      WalkKeepsOk(r, w1, pn, entries);
    }
  }

  lemma {:induction false} WalkSyncs(r: Rules, w: Walked, p: Path, entries: seq<Named>)
    requires r.write && WalkOk(w.view, p) && Distinct(entries)
    ensures Synced(r, Walk(r, w, p, entries).view, p, entries)
    decreases entries
  {
    if entries != [] {
      var w1, rest := VisitEntry(r, w, p, entries[0]), entries[1..];
      EntrySyncs(r, w, p, entries[0]);
      EntryKeepsOk(r, w, p, entries[0]);
      WalkSyncs(r, w1, p, rest);
      forall q | p + [entries[0].name] <= q
        ensures Agree(w1.view, Walk(r, w1, p, rest).view, q)
      {
        BelowApart(p, entries[0].name, rest, q);
        WalkFrame(r, w1, p, rest, q);
      }
      SyncedEntryStays(r, w1.view, Walk(r, w1, p, rest).view, p, entries[0]);
    }
  }

  // A tree in step with the directory: nothing to visit, nothing to change.
  lemma {:induction false} SyncedEntryIdle(r: Rules, w: Walked, p: Path, named: Named)
    requires SyncedEntry(r, w.view, p, named)
    ensures VisitEntry(r, w, p, named) == w
    decreases named
  {
    if named.entry.Folder? {
      SyncedIdle(r, w, p + [named.name], named.entry.entries);
    }
  }

  lemma {:induction false} SyncedIdle(r: Rules, w: Walked, p: Path, entries: seq<Named>)
    requires Synced(r, w.view, p, entries)
    ensures Walk(r, w, p, entries) == w
    decreases entries
  {
    if entries != [] {
      SyncedEntryIdle(r, w, p, entries[0]);
      SyncedIdle(r, w, p, entries[1..]);
    }
  }

  lemma {:induction false} SyncedEither(r: Rules, r': Rules, view: View, p: Path, entries: seq<Named>)
    requires r.ignore == r'.ignore && r.hash == r'.hash && Synced(r, view, p, entries)
    ensures Synced(r', view, p, entries)
    decreases entries
  {
    if entries != [] {
      if entries[0].entry.Folder? {
        SyncedEither(r, r', view, p + [entries[0].name], entries[0].entry.entries);
      }
      SyncedEither(r, r', view, p, entries[1..]);
    }
  }

  /** Status right after WriteThroughUser reports nothing and leaves the tree as it is. */
  lemma StatusAfterWriteThrough(r: Rules, view: View, entries: seq<Named>)
    requires r.write && Closed(view) && Distinct(entries)
    ensures var after := Walk(r, Walked(view, []), [], entries).view;
            Walk(r.(write := false), Walked(after, []), [], entries) == Walked(after, [])
  {
    var after := Walk(r, Walked(view, []), [], entries).view;
    WalkSyncs(r, Walked(view, []), [], entries);
    SyncedEither(r, r.(write := false), after, [], entries);
    SyncedIdle(r.(write := false), Walked(after, []), [], entries);
  }

  // ----- What a file's path leads to afterwards -----

  // The size is that of the data, unless the tree already had the hash there with a size of its own.
  function LeafFor(r: Rules, view: View, q: Path, data: Bytes): Seen {
    if Has(view, q, r.hash(data)) then view[q] else Leaf(r.hash(data), |data|)
  }

  lemma {:induction false} EntryStores(r: Rules, w: Walked, p: Path, named: Named, rel: Path, data: Bytes)
    requires r.write && WalkOk(w.view, p) && (named.entry.Folder? ==> Distinct(named.entry.entries))
    requires rel != [] && rel[0] == named.name && FileAt([named], rel) == Some(data) && rel[|rel| - 1] !in r.ignore
    ensures var after := VisitEntry(r, w, p, named).view;
            p + rel in after && after[p + rel] == LeafFor(r, w.view, p + rel, data)
    decreases named
  {
    var pn := p + [named.name];
    match named.entry {
      case File(_) => assert p + rel == pn;
      case Folder(entries) =>
        var w1 := w.(view := EnsureDir(w.view, pn));
        PutOk(w.view, p, named.name, Dir, p);
        assert pn + rel[1..] == p + rel;
        if w1.view != w.view {
          NothingBelow(w.view, pn);
        }
        assert LeafFor(r, w1.view, p + rel, data) == LeafFor(r, w.view, p + rel, data);
        WalkStores(r, w1, pn, entries, rel[1..], data);
    }
  }

  lemma {:induction false} WalkStores(r: Rules, w: Walked, p: Path, entries: seq<Named>, rel: Path, data: Bytes)
    requires r.write && WalkOk(w.view, p) && Distinct(entries)
    requires FileAt(entries, rel) == Some(data) && rel[|rel| - 1] !in r.ignore
    ensures var after := Walk(r, w, p, entries).view;
            p + rel in after && after[p + rel] == LeafFor(r, w.view, p + rel, data)
    decreases entries
  {
    var w1, rest := VisitEntry(r, w, p, entries[0]), entries[1..];
    EntryKeepsOk(r, w, p, entries[0]);
    assert p + [rel[0]] <= p + rel;
    if entries[0].name == rel[0] {
      EntryStores(r, w, p, entries[0], rel, data);
      BelowApart(p, rel[0], rest, p + rel);
      WalkFrame(r, w1, p, rest, p + rel);
    } else {
      BelowApart(p, rel[0], [entries[0]], p + rel);
      assert [entries[0]][0] == entries[0];
      EntryFrame(r, w, p, entries[0], p + rel);
      WalkStores(r, w1, p, rest, rel, data);
    }
  }

  /**
   * After WriteThroughUser the path of every file that is not ignored leads to a leaf with the
   * file's hash; its size is the file's length if and only if the tree did not already hold that
   * hash at that path with another size.
   */
  lemma FilesStored(r: Rules, view: View, entries: seq<Named>, rel: Path, data: Bytes)
    requires r.write && Closed(view) && Distinct(entries)
    requires FileAt(entries, rel) == Some(data) && rel[|rel| - 1] !in r.ignore
    ensures var after := Walk(r, Walked(view, []), [], entries).view;
            && rel in after && after[rel].Leaf? && after[rel].hash == r.hash(data)
            && (after[rel].size == |data| <==>
                 !(rel in view && view[rel].Leaf? && view[rel].hash == r.hash(data) && view[rel].size != |data|))
  {
    WalkStores(r, Walked(view, []), [], entries, rel, data);
    assert [] + rel == rel;
  }

  // A stale size: the tree has the hash of an empty file with size 1, and keeps it.
  lemma StaleSizeStays(r: Rules)
    requires r.write && "a" !in r.ignore
    ensures var view: View := map[["a"] := Leaf(r.hash([]), 1)];
            var after := Walk(r, Walked(view, []), [], [Named("a", File([]))]).view;
            ["a"] in after && after[["a"]] == Leaf(r.hash([]), 1)
  {
    var view: View := map[["a"] := Leaf(r.hash([]), 1)];
    var entries := [Named("a", File([]))];
    assert entries[1..] == [] && [] + ["a"] == ["a"];
    assert VisitEntry(r, Walked(view, []), [], entries[0]) == Walked(view, []);
  }

  /** A path that is not below a name of the directory leads where it did. */
  lemma OthersKept(r: Rules, view: View, entries: seq<Named>, q: Path)
    requires Closed(view) && q != [] && forall i :: 0 <= i < |entries| ==> entries[i].name != q[0]
    ensures Agree(Walk(r, Walked(view, []), [], entries).view, view, q)
  {
    assert [] + [q[0]] == [q[0]];
    BelowApart([], q[0], entries, q);
    WalkFrame(r, Walked(view, []), [], entries, q);
  }

  // ----- Which files are visited -----

  // The files of a directory that a tree does not have, in the order of the walk; the tree does not change.
  function Missing(r: Rules, view: View, p: Path, entries: seq<Named>): seq<Visit>
    decreases entries
  {
    if entries == [] then []
    else MissingEntry(r, view, p, entries[0]) + Missing(r, view, p, entries[1..])
  }

  function MissingEntry(r: Rules, view: View, p: Path, named: Named): seq<Visit>
    decreases named
  {
    var q := p + [named.name];
    match named.entry
    case File(data) =>
      if named.name in r.ignore || Has(view, q, r.hash(data)) then [] else [Visit(q, data, q in view)]
    case Folder(entries) => Missing(r, view, q, entries)
  }

  lemma {:induction false} MissingAgrees(r: Rules, a: View, b: View, p: Path, entries: seq<Named>)
    requires forall i, q :: 0 <= i < |entries| && p + [entries[i].name] <= q ==> Agree(a, b, q)
    ensures Missing(r, a, p, entries) == Missing(r, b, p, entries)
    decreases entries
  {
    if entries != [] {
      var pn := p + [entries[0].name];
      assert Agree(a, b, pn);
      if entries[0].entry.Folder? {
        var below := entries[0].entry.entries;
        forall i, q | 0 <= i < |below| && pn + [below[i].name] <= q
          ensures Agree(a, b, q)
        {
          assert pn <= pn + [below[i].name] <= q;
        }
        MissingAgrees(r, a, b, pn, below);
      }
      MissingAgrees(r, a, b, p, entries[1..]);
    }
  }

  // Entering a directory takes nothing away below it.
  lemma EnteredAgrees(r: Rules, view: View, p: Path, name: string, entries: seq<Named>)
    requires WalkOk(view, p)
    ensures Missing(r, EnsureDir(view, p + [name]), p + [name], entries) == Missing(r, view, p + [name], entries)
  {
    var pn := p + [name];
    var view' := EnsureDir(view, pn);
    forall i, q | 0 <= i < |entries| && pn + [entries[i].name] <= q
      ensures Agree(view', view, q)
    {
      assert pn < q;
      if view' != view {
        NothingBelow(view, pn);
      }
    }
    MissingAgrees(r, view', view, pn, entries);
  }

  lemma {:induction false} EntryVisits(r: Rules, w: Walked, p: Path, named: Named)
    requires WalkOk(w.view, p) && (named.entry.Folder? ==> Distinct(named.entry.entries))
    ensures VisitEntry(r, w, p, named).visits == w.visits + MissingEntry(r, w.view, p, named)
    decreases named
  {
    if named.entry.Folder? {
      var pn := p + [named.name];
      PutOk(w.view, p, named.name, Dir, p);
      WalkVisits(r, w.(view := EnsureDir(w.view, pn)), pn, named.entry.entries);
      EnteredAgrees(r, w.view, p, named.name, named.entry.entries);
    }
  }

  // A walk visits, after what was visited before, exactly the files that the tree did not have at first.
  lemma {:induction false} WalkVisits(r: Rules, w: Walked, p: Path, entries: seq<Named>)
    requires WalkOk(w.view, p) && Distinct(entries)
    ensures Walk(r, w, p, entries).visits == w.visits + Missing(r, w.view, p, entries)
    decreases entries
  {
    if entries != [] {
      var w1, rest := VisitEntry(r, w, p, entries[0]), entries[1..];
      EntryVisits(r, w, p, entries[0]);
      EntryKeepsOk(r, w, p, entries[0]);
      WalkVisits(r, w1, p, rest);
      forall i, q | 0 <= i < |rest| && p + [rest[i].name] <= q
        ensures Agree(w1.view, w.view, q)
      {
        assert rest[i] == entries[i + 1];
        BelowApart(p, rest[i].name, [entries[0]], q);
        assert [entries[0]][0] == entries[0];
        EntryFrame(r, w, p, entries[0], q);
      }
      MissingAgrees(r, w1.view, w.view, p, rest);
      Assoc(w.visits, MissingEntry(r, w.view, p, entries[0]), Missing(r, w.view, p, rest));
    }
  }

  // A file of the directory at p that is not ignored, whose hash the tree does not have at its path; marked as
  // modified if the tree has something there.
  predicate IsDue(r: Rules, view: View, p: Path, entries: seq<Named>, v: Visit) {
    && p < v.path && FileAt(entries, v.path[|p|..]) == Some(v.data) && v.path[|v.path| - 1] !in r.ignore
    && !(v.path in view && view[v.path].Leaf? && view[v.path].hash == r.hash(v.data))
    && v.modified == (v.path in view)
  }

  lemma {:induction false} FileAtNamed(entries: seq<Named>, rel: Path)
    requires FileAt(entries, rel).Some?
    ensures rel != [] && exists i :: 0 <= i < |entries| && entries[i].name == rel[0]
    decreases entries
  {
    if entries[0].name != rel[0] {
      FileAtNamed(entries[1..], rel);
      var i :| 0 <= i < |entries[1..]| && entries[1..][i].name == rel[0];
      assert entries[i + 1].name == rel[0];
    }
  }

  lemma {:induction false} MissingEntryMeans(r: Rules, view: View, p: Path, named: Named, v: Visit)
    requires named.entry.Folder? ==> Distinct(named.entry.entries)
    ensures v in MissingEntry(r, view, p, named) <==>
            p + [named.name] <= v.path && IsDue(r, view, p, [named], v)
    decreases named
  {
    var pn := p + [named.name];
    if pn <= v.path {
      assert p < v.path && v.path[|p|] == pn[|p|] == named.name;
      assert v.path[|p|..][1..] == v.path[|pn|..];
      if v.path == pn {
        assert v.path[|p|..] == [named.name];
      }
    }
    if named.entry.Folder? {
      var below := named.entry.entries;
      MissingMeans(r, view, pn, below, v);
      if pn <= v.path {
        assert FileAt([named], v.path[|p|..]) == FileAt(below, v.path[|pn|..]);
        assert v.path == pn ==> v.path[|pn|..] == [];
      }
    }
  }

  /** What is missing: exactly the files that are due. */
  lemma {:induction false} MissingMeans(r: Rules, view: View, p: Path, entries: seq<Named>, v: Visit)
    requires Distinct(entries)
    ensures v in Missing(r, view, p, entries) <==> IsDue(r, view, p, entries, v)
    decreases entries
  {
    if entries != [] {
      var named, rest := entries[0], entries[1..];
      MissingEntryMeans(r, view, p, named, v);
      MissingMeans(r, view, p, rest, v);
      if p < v.path {
        var rel := v.path[|p|..];
        assert p + [named.name] <= v.path <==> rel[0] == named.name;
        if rel[0] == named.name && FileAt(rest, rel).Some? {
          FileAtNamed(rest, rel);
          assert false;
        }
      }
    }
  }

  // The visits are exactly those due, each path once.
  ghost predicate Reports(r: Rules, view: View, p: Path, entries: seq<Named>, visits: seq<Visit>) {
    (forall v :: v in visits <==> IsDue(r, view, p, entries, v)) && OncePerPath(visits)
  }

  ghost predicate OncePerPath(visits: seq<Visit>) {
    forall i, j :: 0 <= i < j < |visits| ==> visits[i].path != visits[j].path
  }

  lemma OnceJoined(a: seq<Visit>, b: seq<Visit>)
    requires OncePerPath(a) && OncePerPath(b) && forall v, v' :: v in a && v' in b ==> v.path != v'.path
    ensures OncePerPath(a + b)
  {
    forall i, j | 0 <= i < j < |a + b|
      ensures (a + b)[i].path != (a + b)[j].path
    {
      if i < |a| <= j {
        assert a[i] in a && b[j - |a|] in b;
      }
    }
  }

  lemma {:induction false} MissingOnce(r: Rules, view: View, p: Path, entries: seq<Named>)
    requires Distinct(entries)
    ensures OncePerPath(Missing(r, view, p, entries))
    decreases entries
  {
    if entries != [] {
      var named, rest := entries[0], entries[1..];
      if named.entry.Folder? {
        MissingOnce(r, view, p + [named.name], named.entry.entries);
      }
      MissingOnce(r, view, p, rest);
      forall v, v' | v in MissingEntry(r, view, p, named) && v' in Missing(r, view, p, rest)
        ensures v.path != v'.path
      {
        MissingEntryMeans(r, view, p, named, v);
        MissingMeans(r, view, p, rest, v');
        FileAtNamed(rest, v'.path[|p|..]);
        assert (p + [named.name])[|p|] == v.path[|p|];
      }
      OnceJoined(MissingEntry(r, view, p, named), Missing(r, view, p, rest));
    }
  }

  /**
   * Which files a walk visits, be it for Status, which reports them, or for WriteThroughUser, which stores them: a
   * path with some data if and only if the directory has that data in a file there, the file's name is not
   * ignored, and the tree did not have the data's hash there; as modified if and only if the tree had
   * something there. No path is visited twice.
   */
  lemma VisitsExactly(r: Rules, view: View, entries: seq<Named>)
    requires Closed(view) && Distinct(entries)
    ensures Reports(r, view, [], entries, Walk(r, Walked(view, []), [], entries).visits)
  {
    var visits := Walk(r, Walked(view, []), [], entries).visits;
    WalkVisits(r, Walked(view, []), [], entries);
    MissingOnce(r, view, [], entries);
    assert visits == Missing(r, view, [], entries);
    forall v
      ensures v in visits <==> IsDue(r, view, [], entries, v)
    {
      MissingMeans(r, view, [], entries, v);
    }
  }
}
