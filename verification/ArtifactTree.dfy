/**
 * The artifact tree: nested maps, changed in place and shared by everyone who holds one of them.
 * What a path leads to is kept as a ghost map from paths, and every operation is specified on it.
 */
module TreeView {
  type Path = seq<string>

  // What a path leads to.
  datatype Seen = Dir | Leaf(hash: string, size: nat)
  type View = map<Path, Seen>

  function Parent(q: Path): Path
    requires q != []
  {
    q[..|q| - 1]
  }

  // Everything above something is a directory.
  ghost predicate Closed(view: View) {
    && [] !in view
    && forall q {:trigger Parent(q)} :: q in view && |q| > 1 ==> Parent(q) in view && view[Parent(q)] == Dir
  }

  predicate IsDir(view: View, p: Path) {
    p == [] || (p in view && view[p] == Dir)
  }

  // Put something at a path, in place of all that was there and below.
  function Put(view: View, path: Path, seen: Seen): View {
    (map q | q in view && !(path <= q) :: view[q])[path := seen]
  }

  function EnsureDir(view: View, q: Path): View {
    if q in view && view[q] == Dir then view else Put(view, q, Dir)
  }

  // storeHash, as what it does to the view: a leaf at the path, directories above, nothing below, all else as it was.
  function Stored(view: View, path: Path, hash: string, size: nat): View {
    map q | q in view.Keys + Above(path) + {path} && !(path < q) ::
      if q == path then Leaf(hash, size) else if q < path then Dir else view[q]
  }

  function Above(path: Path): set<Path> {
    set i | 1 <= i < |path| :: path[..i]
  }

  function Removed(view: View, path: Path): View {
    map q | q in view && !(path <= q) :: view[q]
  }

  lemma PrefixIsAbove(q: Path, path: Path)
    ensures q in Above(path) <==> q != [] && q < path
  {
    if q != [] && q < path {
      assert q == path[..|q|];
    }
  }

  lemma {:induction false} DirsAbove(view: View, q: Path, p: Path)
    requires Closed(view) && q in view && p != [] && p < q
    ensures p in view && view[p] == Dir
    decreases |q|
  {
    if p != Parent(q) {
      assert p < Parent(q) by {
        assert p == q[..|p|] && Parent(q)[..|p|] == q[..|p|];
      }
      DirsAbove(view, Parent(q), p);
    }
  }

  lemma NothingBelow(view: View, p: Path)
    requires Closed(view) && p != [] && (p in view ==> view[p] != Dir)
    ensures forall q :: q in view && p <= q ==> q == p
    ensures Put(view, p, Dir) == view[p := Dir]
  {
    forall q | q in view && p <= q
      ensures q == p
    {
      if p < q {
        DirsAbove(view, q, p);
      }
    }
  }

  // Storing step by step: a directory on the way, then the rest.
  lemma StoredBelow(view: View, p: Path, path: Path, hash: string, size: nat)
    requires Closed(view) && p != [] && p < path
    ensures Stored(EnsureDir(view, p), path, hash, size) == Stored(view, path, hash, size)
  {
    if !IsDir(view, p) {
      NothingBelow(view, p);
      PrefixIsAbove(p, path);
      var a, b := Stored(view[p := Dir], path, hash, size), Stored(view, path, hash, size);
      assert a.Keys == b.Keys;
      assert forall q :: q in b ==> a[q] == b[q];
    }
  }

  lemma DirsRemain(view: View, q: Path)
    requires Closed(view) && q != []
    ensures forall d {:trigger IsDir(view, d)} :: IsDir(view, d) ==> IsDir(EnsureDir(view, q), d)
  {
    if !IsDir(view, q) {
      NothingBelow(view, q);
    }
  }

  lemma StoredHere(view: View, path: Path, hash: string, size: nat)
    requires Closed(view) && path != [] && IsDir(view, Parent(path))
    ensures Stored(view, path, hash, size) == Put(view, path, Leaf(hash, size))
  {
    forall q | q in Above(path)
      ensures q in view && view[q] == Dir
    {
      PrefixIsAbove(q, path);
      assert q <= Parent(path) by {
        assert q == path[..|q|] && Parent(path)[..|q|] == path[..|q|];
      }
      if q != Parent(path) {
        DirsAbove(view, Parent(path), q);
      }
    }
    forall q | q < path && q in view
      ensures view[q] == Dir
    {
      PrefixIsAbove(q, path);
    }
  }

  lemma PutClosed(view: View, path: Path, seen: Seen)
    requires Closed(view) && path != [] && IsDir(view, Parent(path))
    ensures Closed(Put(view, path, seen))
  {
    var v1 := Put(view, path, seen);
    forall q | q in v1 && |q| > 1
      ensures Parent(q) in v1 && v1[Parent(q)] == Dir
    {
      assert path <= Parent(q) ==> path < q;
    }
  }

  lemma RemovedClosed(view: View, path: Path)
    requires Closed(view)
    ensures Closed(Removed(view, path))
  {
    forall q | q in Removed(view, path) && |q| > 1
      ensures !(path <= Parent(q))
    {
      assert path <= Parent(q) ==> path <= q;
    }
  }
}

module ArtifactTree {
  import opened Wrappers
  import opened TreeView

  // A node holds a map of its own or the location of an artifact.
  datatype Node = Internal(tree: Tree) | External(hash: string, size: nat)

  class Tree {
    var kids: map<string, Node>
    ghost const at: Path   // where it was made

    constructor (ghost at: Path)
      ensures this.at == at && kids == map[]
    {
      this.at := at;
      kids := map[];
    }
  }

  type Kids = map<string, Node>

  // The maps by the path they were last put at, what each of them holds, and what the paths lead to.
  datatype Shape = Shape(maps: map<Path, Tree>, contents: map<Path, Kids>, view: View)

  ghost predicate Shows(node: Node, q: Path, maps: map<Path, Tree>, view: View) {
    && q in view
    && match node
       case Internal(t) => view[q] == Dir && q in maps && maps[q] == t
       case External(hash, size) => view[q] == Leaf(hash, size)
  }

  // A map holds nothing but what the view has directly below its path.
  ghost predicate KidsOk(p: Path, kids: Kids, maps: map<Path, Tree>, view: View) {
    forall name {:trigger kids[name]} :: name in kids ==> Shows(kids[name], p + [name], maps, view)
  }

  // The same for every directory of the view.
  ghost predicate ContentsOk(s: Shape) {
    && s.contents.Keys == s.maps.Keys
    && forall p {:trigger IsDir(s.view, p)} {:trigger s.contents[p]} :: IsDir(s.view, p) ==>
         p in s.contents && KidsOk(p, s.contents[p], s.maps, s.view)
  }

  // And all of it is held.
  ghost predicate Held(contents: map<Path, Kids>, view: View) {
    forall q {:trigger Parent(q)} :: q != [] && q in view ==> Parent(q) in contents && q[|q| - 1] in contents[Parent(q)]
  }

  ghost predicate ShapeOk(s: Shape) {
    Closed(s.view) && ContentsOk(s) && Held(s.contents, s.view)
  }

  // A name deleted from a map.
  ghost function UnsetShape(s: Shape, p: Path, name: string): Shape
    requires p in s.contents
  {
    s.(contents := s.contents[p := s.contents[p] - {name}], view := Removed(s.view, p + [name]))
  }

  function SeenAs(node: Node): Seen {
    if node.Internal? then Dir else Leaf(node.hash, node.size)
  }

  // A node assigned to a name of a map; a new internal node starts empty.
  ghost function SetShape(s: Shape, p: Path, name: string, node: Node): Shape
    requires p in s.contents
  {
    var q, contents := p + [name], s.contents[p := s.contents[p][name := node]];
    if node.Internal? then Shape(s.maps[q := node.tree], contents[q := map[]], Put(s.view, q, Dir))
    else Shape(s.maps, contents, Put(s.view, q, SeenAs(node)))
  }

  lemma LastStep(p: Path, name: string, p2: Path, name2: string)
    requires p + [name] <= p2 + [name2] && !(p + [name] <= p2)
    ensures p == p2 && name == name2
  {
    var a, b := p + [name], p2 + [name2];
    assert a == b;
    assert a[..|p|] == p && b[..|p|] == p2 && a[|p|] == name && b[|p|] == name2;
  }

  // What a map beside the path shows stays.
  lemma ShowsBeside(p: Path, name: string, node: Node, p2: Path, n: string,
    maps: map<Path, Tree>, maps': map<Path, Tree>, view: View, view': View)
    requires Shows(node, p2 + [n], maps, view) && !(p + [name] <= p2) && (p2 != p || n != name)
    requires forall q :: q in maps && q != p + [name] ==> q in maps' && maps'[q] == maps[q]
    requires forall q :: q in view && !(p + [name] <= q) ==> q in view' && view'[q] == view[q]
    ensures Shows(node, p2 + [n], maps', view')
  {
    if p + [name] <= p2 + [n] {
      LastStep(p, name, p2, n);
    }
  }

  lemma UnsetKids(s: Shape, p: Path, name: string, p2: Path)
    requires ContentsOk(s) && p in s.contents && IsDir(Removed(s.view, p + [name]), p2)
    ensures p2 in s.contents && KidsOk(p2, UnsetShape(s, p, name).contents[p2], s.maps, Removed(s.view, p + [name]))
  {
    assert IsDir(s.view, p2) && !(p + [name] <= p2);
    assert KidsOk(p2, s.contents[p2], s.maps, s.view);
    var kids := UnsetShape(s, p, name).contents[p2];
    forall n | n in kids
      ensures Shows(kids[n], p2 + [n], s.maps, Removed(s.view, p + [name]))
    {
      assert kids[n] == s.contents[p2][n];
      ShowsBeside(p, name, kids[n], p2, n, s.maps, s.maps, s.view, Removed(s.view, p + [name]));
    }
  }

  lemma UnsetHeld(contents: map<Path, Kids>, view: View, p: Path, name: string)
    requires p in contents && Held(contents, view)
    ensures Held(contents[p := contents[p] - {name}], Removed(view, p + [name]))
  {
    forall q | q != [] && q in Removed(view, p + [name])
      ensures Parent(q) == p ==> q[|q| - 1] != name
    {
      assert Parent(q) + [q[|q| - 1]] == q;
    }
  }

  lemma UnsetShapeOk(s: Shape, p: Path, name: string)
    requires ShapeOk(s) && p in s.contents
    ensures ShapeOk(UnsetShape(s, p, name))
  {
    RemovedClosed(s.view, p + [name]);
    UnsetHeld(s.contents, s.view, p, name);
    forall p2 | IsDir(Removed(s.view, p + [name]), p2)
      ensures p2 in s.contents && KidsOk(p2, UnsetShape(s, p, name).contents[p2], s.maps, Removed(s.view, p + [name]))
    {
      UnsetKids(s, p, name, p2);
    }
  }

  lemma SetKids(s: Shape, p: Path, name: string, node: Node, p2: Path)
    requires ContentsOk(s) && p in s.contents && IsDir(Put(s.view, p + [name], SeenAs(node)), p2)
    ensures var s' := SetShape(s, p, name, node);
            p2 in s'.contents && KidsOk(p2, s'.contents[p2], s'.maps, s'.view)
  {
    var s', q := SetShape(s, p, name, node), p + [name];
    if p2 != q {
      assert IsDir(s.view, p2) && !(q <= p2);
      assert KidsOk(p2, s.contents[p2], s.maps, s.view);
      var kids := s'.contents[p2];
      forall n | n in kids
        ensures Shows(kids[n], p2 + [n], s'.maps, s'.view)
      {
        if p2 != p || n != name {
          assert kids[n] == s.contents[p2][n];
          ShowsBeside(p, name, kids[n], p2, n, s.maps, s'.maps, s.view, s'.view);
        }
      }
    }
  }

  lemma SetHeld(s: Shape, p: Path, name: string, node: Node)
    requires p in s.contents && Held(s.contents, s.view)
    ensures Held(SetShape(s, p, name, node).contents, SetShape(s, p, name, node).view)
  {
    var s', q := SetShape(s, p, name, node), p + [name];
    assert Parent(q) == p;
    forall q2 | q2 != [] && q2 in s'.view && q2 != q
      ensures Parent(q2) in s'.contents && q2[|q2| - 1] in s'.contents[Parent(q2)]
    {
      assert q2 in s.view && Parent(q2) != q;
    }
  }

  lemma SetShapeOk(s: Shape, p: Path, name: string, node: Node)
    requires ShapeOk(s) && IsDir(s.view, p)
    ensures p in s.contents && ShapeOk(SetShape(s, p, name, node))
  {
    var s' := SetShape(s, p, name, node);
    assert Parent(p + [name]) == p;
    PutClosed(s.view, p + [name], SeenAs(node));
    SetHeld(s, p, name, node);
    forall p2 | IsDir(s'.view, p2)
      ensures p2 in s'.contents && KidsOk(p2, s'.contents[p2], s'.maps, s'.view)
    {
      SetKids(s, p, name, node, p2);
    }
  }

  // Every directory keeps its map: whoever holds it still holds the right one.
  ghost predicate MapsKept(a: Shape, b: Shape) {
    forall d {:trigger IsDir(a.view, d)} :: IsDir(a.view, d) && d in a.maps ==> d in b.maps && b.maps[d] == a.maps[d]
  }

  class Config {
    const root: Tree
    ghost var shape: Shape
    ghost var trees: set<Tree>

    // The maps on the heap are those of the shape.
    ghost predicate Linked()
      reads this, trees
    {
      && [] in shape.maps && shape.maps[[]] == root
      && shape.maps.Keys == shape.contents.Keys
      && forall p :: p in shape.maps ==>
           shape.maps[p] in trees && shape.maps[p].at == p && shape.maps[p].kids == shape.contents[p]
    }

    ghost predicate Valid()
      reads this, trees
    {
      Linked() && ShapeOk(shape)
    }

    constructor ()
      ensures Valid() && shape.view == map[] && fresh(root) && trees == {root}
    {
      root := new Tree([]);
      new;
      shape, trees := Shape(map[[] := root], map[[] := map[]], map[]), {root};
    }

    // Deletes a name from a map.
    method Unset(ghost p: Path, t: Tree, name: string)
      requires Linked() && p in shape.maps && shape.maps[p] == t
      modifies this, t
      ensures Linked() && shape == UnsetShape(old(shape), p, name) && trees == old(trees)
    {
      t.kids := t.kids - {name};
      shape := UnsetShape(shape, p, name);
    }

    // Assigns to a name of a map.
    method SetLeaf(ghost p: Path, t: Tree, name: string, hash: string, size: nat)
      requires Linked() && p in shape.maps && shape.maps[p] == t
      modifies this, t
      ensures Linked() && shape == SetShape(old(shape), p, name, External(hash, size)) && trees == old(trees)
    {
      t.kids := t.kids[name := External(hash, size)];
      shape := SetShape(shape, p, name, External(hash, size));
    }

    method SetTree(ghost p: Path, t: Tree, name: string) returns (next: Tree)
      requires Linked() && p in shape.maps && shape.maps[p] == t
      modifies this, t
      ensures Linked() && fresh(next) && trees == old(trees) + {next}
      ensures shape == SetShape(old(shape), p, name, Internal(next))
    {
      ghost var q := p + [name];
      next := new Tree(q);
      assert |q| != |p|;
      t.kids := t.kids[name := Internal(next)];
      shape, trees := SetShape(shape, p, name, Internal(next)), trees + {next};
    }

    // A directory put at a name, in place of what was there.
    method MakeDir(ghost p: Path, t: Tree, name: string) returns (next: Tree)
      requires Valid() && IsDir(shape.view, p) && shape.maps[p] == t
      modifies this, t
      ensures Valid() && fresh(next) && trees == old(trees) + {next}
      ensures shape.view == Put(old(shape.view), p + [name], Dir)
      ensures p + [name] in shape.maps && shape.maps[p + [name]] == next
      ensures !IsDir(old(shape.view), p + [name]) ==> MapsKept(old(shape), shape)
    {
      ghost var was := shape;
      next := SetTree(p, t, name);
      SetShapeOk(was, p, name, Internal(next));
    }

    // The directory at a name, made if it is not there.
    method Enter(ghost p: Path, t: Tree, name: string) returns (next: Tree)
      requires Valid() && IsDir(shape.view, p) && shape.maps[p] == t
      modifies this, t
      ensures Valid() && old(trees) <= trees && fresh(trees - old(trees)) && next in trees
      ensures shape.view == EnsureDir(old(shape.view), p + [name]) && IsDir(shape.view, p + [name])
      ensures shape.maps[p + [name]] == next && MapsKept(old(shape), shape)
    {
      assert Parent(p + [name]) == p;
      assert KidsOk(p, shape.contents[p], shape.maps, shape.view);
      if name !in t.kids || t.kids[name].External? {
        next := MakeDir(p, t, name);
      } else {
        next := t.kids[name].tree;
      }
    }

    // A leaf put at a name, in place of what was there.
    method StoreLeaf(ghost p: Path, t: Tree, name: string, hash: string, size: nat)
      requires Valid() && IsDir(shape.view, p) && shape.maps[p] == t
      modifies this, t
      ensures Valid() && trees == old(trees)
      ensures shape.view == Stored(old(shape.view), p + [name], hash, size) && shape.maps == old(shape).maps
    {
      assert Parent(p + [name]) == p;
      StoredHere(shape.view, p + [name], hash, size);
      SetShapeOk(shape, p, name, External(hash, size));
      SetLeaf(p, t, name, hash, size);
    }

    // lookup, from the map at path `p`
    method Lookup(ghost p: Path, t: Tree, path: Path) returns (r: Option<Node>)
      requires Valid() && IsDir(shape.view, p) && shape.maps[p] == t
      ensures r.Some? <==> path != [] && p + path in shape.view
      ensures r.Some? ==> Shows(r.value, p + path, shape.maps, shape.view)
      decreases |path|
    {
      if |path| == 0 {
        return None;
      }
      if path[0] !in t.kids {
        NotHeld(shape, p, path);
        return None;
      }
      var node := t.kids[path[0]];
      assert KidsOk(p, shape.contents[p], shape.maps, shape.view);
      assert Shows(node, p + [path[0]], shape.maps, shape.view);
      if |path| == 1 {
        assert path == [path[0]];
        return Some(node);
      }
      assert p + [path[0]] + path[1..] == p + path;
      if node.External? {
        // a nil map holds nothing
        NotBelowLeaf(shape, p + [path[0]], path[1..]);
        return None;
      }
      r := Lookup(p + [path[0]], node.tree, path[1..]);
    }

    // storeHash, into the map at path `p`
    method StoreHash(ghost p: Path, t: Tree, hash: string, size: nat, path: Path)
      requires Valid() && IsDir(shape.view, p) && shape.maps[p] == t
      modifies this, trees
      ensures Valid() && old(trees) <= trees && fresh(trees - old(trees))
      ensures shape.view == if path == [] then old(shape.view) else Stored(old(shape.view), p + path, hash, size)
      ensures MapsKept(old(shape), shape)
      decreases |path|
    {
      if |path| == 0 {
        return;
      }
      if |path| == 1 {
        assert path == [path[0]];
        StoreLeaf(p, t, path[0], hash, size);
        return;
      }
      ghost var q, view := p + [path[0]], shape.view;
      assert p + path == q + path[1..];
      StoredBelow(view, q, p + path, hash, size);
      DirsRemain(view, q);
      var next := Enter(p, t, path[0]);
      StoreHash(q, next, hash, size, path[1..]);
    }

    // removePath, from the map at path `p`
    method RemovePath(ghost p: Path, t: Tree, path: Path)
      requires Valid() && IsDir(shape.view, p) && shape.maps[p] == t
      modifies this, trees
      ensures Valid() && trees == old(trees)
      ensures shape.view == if path == [] then old(shape.view) else Removed(old(shape.view), p + path)
      decreases |path|
    {
      if |path| == 0 {
        return;
      }
      if |path| == 1 {
        assert path == [path[0]];
        UnsetShapeOk(shape, p, path[0]);
        Unset(p, t, path[0]);
        return;
      }
      assert p + [path[0]] + path[1..] == p + path;
      if path[0] !in t.kids {
        NotHeld(shape, p, path);
        NothingToRemove(shape.view, p + path);
        return;
      }
      assert KidsOk(p, shape.contents[p], shape.maps, shape.view);
      var node := t.kids[path[0]];
      if node.External? {
        NotBelowLeaf(shape, p + [path[0]], path[1..]);
        NothingToRemove(shape.view, p + path);
        return;
      }
      RemovePath(p + [path[0]], node.tree, path[1..]);
    }
  }

  lemma NotHeld(s: Shape, p: Path, path: Path)
    requires ShapeOk(s) && p in s.contents && path != [] && path[0] !in s.contents[p]
    ensures p + path !in s.view
  {
    var q := p + [path[0]];
    assert Parent(q) == p;
    assert q !in s.view;
    if p + path in s.view {
      assert q <= p + path;
      if q != p + path {
        DirsAbove(s.view, p + path, q);
      }
    }
  }

  lemma NotBelowLeaf(s: Shape, q: Path, rest: Path)
    requires ShapeOk(s) && q != [] && q in s.view && s.view[q] != Dir && rest != []
    ensures q + rest !in s.view
  {
    NothingBelow(s.view, q);
  }

  lemma NothingToRemove(view: View, path: Path)
    requires Closed(view) && path != [] && path !in view
    ensures Removed(view, path) == view
  {
    NothingBelow(view, path);
  }
}
