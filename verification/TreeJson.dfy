/**
 * The JSON form of the artifact tree. A node does not say which kind it is: reading guesses from
 * a size that is a number, with Go's rules for matching and filling fields.
 */
module TreeJson {
  import opened Wrappers

  // Nil is a node that is absent, or neither internal nor external.
  datatype Node = Nil | Internal(kids: map<string, Node>) | External(hash: string, size: int)

  datatype Json = JNull | JInt(n: int) | JOther | JString(s: string) | JObject(members: seq<Member>)
  datatype Member = Member(name: string, value: Json)

  const MinInt: int := -0x8000_0000_0000_0000
  const MaxInt: int := 0x7fff_ffff_ffff_ffff

  predicate IsInt(j: Json) {
    j.JInt? && MinInt <= j.n <= MaxInt
  }

  // ----- Reading -----

  // A key matches a field whatever its case; the long s folds to s.
  predicate Folds(c: char, lower: char, upper: char) {
    c == lower || c == upper || (lower == 's' && c == '\U{017F}')
  }

  predicate IsSize(name: string) {
    |name| == 4 && Folds(name[0], 's', 'S') && Folds(name[1], 'i', 'I') && Folds(name[2], 'z', 'Z') &&
        Folds(name[3], 'e', 'E')
  }

  predicate IsHash(name: string) {
    |name| == 4 && Folds(name[0], 'h', 'H') && Folds(name[1], 'a', 'A') && Folds(name[2], 's', 'S') &&
        Folds(name[3], 'h', 'H')
  }

  // The optional size field: every match must be null or an int, and the last one counts.
  function SizeField(members: seq<Member>): Result<Option<int>> {
    if members == [] then Ok(None)
    else
      var before := SizeField(members[..|members| - 1]);
      var Member(name, value) := members[|members| - 1];
      if before.Err? || !IsSize(name) then before
      else if value.JNull? then Ok(None)
      else if IsInt(value) then Ok(Some(value.n))
      else Err("type")
  }

  // The fields of an external node; null leaves a field as it is.
  function Fields(members: seq<Member>): Result<Node>
    ensures Fields(members).Ok? ==> Fields(members).value.External?
  {
    if members == [] then Ok(External("", 0))
    else
      var before := Fields(members[..|members| - 1]);
      var Member(name, value) := members[|members| - 1];
      if before.Err? || value.JNull? then before
      else if IsHash(name) then (if value.JString? then Ok(before.value.(hash := value.s)) else Err("type"))
      else if IsSize(name) then (if IsInt(value) then Ok(before.value.(size := value.n)) else Err("type"))
      else before
  }

  // A map of nodes: a later member replaces an earlier one, an error anywhere is an error.
  function Kids(members: seq<Member>): Result<map<string, Node>>
    decreases members
  {
    if members == [] then Ok(map[])
    else
      var last := members[|members| - 1];
      var before := Kids(members[..|members| - 1]);
      var node := if last.value.JNull? then Ok(Nil) else Unmarshal(last.value);
      if before.Err? then before else if node.Err? then Err(node.message) else Ok(before.value[last.name := node.value])
  }

  // UnmarshalJSON
  function Unmarshal(j: Json): Result<Node>
    decreases j
  {
    match j
    case JNull => Ok(Nil)
    case JObject(members) =>
      var size := SizeField(members);
      if size.Ok? && size.value.Some? then Fields(members)
      else
        var kids := Kids(members);
        if kids.Ok? then Ok(Internal(kids.value)) else Err(kids.message)
    case _ => Err("type")
  }

  // ----- Writing -----

  predicate WellFormed(node: Node)
    decreases node
  {
    match node
    case Nil => false
    case External(_, size) => MinInt <= size <= MaxInt
    case Internal(kids) => forall name :: name in kids ==> WellFormed(kids[name])
  }

  predicate Distinct(members: seq<Member>) {
    forall i, k :: 0 <= i < k < |members| ==> members[i].name != members[k].name
  }

  function Names(members: seq<Member>): set<string> {
    if members == [] then {} else Names(members[..|members| - 1]) + {members[|members| - 1].name}
  }

  // MarshalJSON, with the members of a map in any order.
  predicate Writes(node: Node, j: Json)
    decreases j
  {
    match node
    case Nil => j == JNull
    case External(hash, size) => j == JObject([Member("hash", JString(hash)), Member("size", JInt(size))])
    case Internal(kids) => j.JObject? && WritesAll(kids, j.members)
  }

  predicate WritesAll(kids: map<string, Node>, members: seq<Member>)
    decreases members
  {
    && Distinct(members)
    && Names(members) == kids.Keys
    && (forall i :: 0 <= i < |members| ==> members[i].name in kids && Writes(kids[members[i].name], members[i].value))
  }

  // Part of the members written: those of the names that are not left to do.
  ghost predicate Written(kids: map<string, Node>, members: seq<Member>, todo: set<string>) {
    && todo <= kids.Keys && Distinct(members) && Names(members) == kids.Keys - todo
    && forall i :: 0 <= i < |members| ==>
         members[i].name in kids && members[i].name !in todo && Writes(kids[members[i].name], members[i].value)
  }

  lemma WriteMore(kids: map<string, Node>, members: seq<Member>, todo: set<string>, m: Member)
    requires Written(kids, members, todo) && m.name in todo && Writes(kids[m.name], m.value)
    ensures Written(kids, members + [m], todo - {m.name})
  {
    assert (members + [m])[..|members|] == members;
  }

  // Some order of the members; Go sorts them.
  method Marshal(node: Node) returns (j: Json)
    ensures Writes(node, j)
    decreases node
  {
    match node {
      case Nil => j := JNull;
      case External(hash, size) => j := JObject([Member("hash", JString(hash)), Member("size", JInt(size))]);
      case Internal(kids) =>
        var members: seq<Member> := [];
        var todo := kids.Keys;
        while todo != {}
          invariant Written(kids, members, todo)
          decreases todo
        {
          var name :| name in todo;
          var value := Marshal(kids[name]);
          WriteMore(kids, members, todo, Member(name, value));
          members := members + [Member(name, value)];
          todo := todo - {name};
        }
        j := JObject(members);
    }
  }

  // ----- Reading back what was written -----

  // A size that is an object is an error, not a size.
  lemma {:induction false} NoSize(members: seq<Member>)
    requires forall i :: 0 <= i < |members| ==> members[i].value.JObject?
    ensures SizeField(members).Err? || SizeField(members) == Ok(None)
  {
    if members != [] {
      NoSize(members[..|members| - 1]);
    }
  }

  ghost predicate ReadBack(kids: map<string, Node>, members: seq<Member>) {
    forall i :: 0 <= i < |members| ==>
        members[i].name in kids && !members[i].value.JNull? && Unmarshal(members[i].value) == Ok(kids[members[i].name])
  }

  lemma {:induction false} KidsReadBack(kids: map<string, Node>, members: seq<Member>)
    requires ReadBack(kids, members)
    ensures Kids(members).Ok?
    ensures Kids(members).value.Keys == Names(members)
    ensures forall name :: name in Kids(members).value ==> name in kids && Kids(members).value[name] == kids[name]
  {
    if members != [] {
      KidsReadBack(kids, members[..|members| - 1]);
    }
  }

  lemma FieldsReadBack(hash: string, size: int)
    requires MinInt <= size <= MaxInt
    ensures Unmarshal(JObject([Member("hash", JString(hash)), Member("size", JInt(size))])) == Ok(External(hash, size))
  {
    var h, s := Member("hash", JString(hash)), Member("size", JInt(size));
    assert [h, s][..1] == [h] && [h][..0] == [];
    assert IsSize(s.name) && IsHash(h.name) && !IsSize(h.name) && !IsHash(s.name);
    assert SizeField([]) == Ok(None) && SizeField([h]) == SizeField([]);
    assert SizeField([h, s]) == Ok(Some(size));
    assert Fields([]) == Ok(External("", 0));
    assert Fields([h]) == Ok(External(hash, 0));
  }

  /** Reading what was written gives the same node, whatever the names and sizes in it. */
  lemma {:induction false} RoundTrip(node: Node, j: Json)
    requires WellFormed(node) && Writes(node, j)
    ensures j.JObject? && Unmarshal(j) == Ok(node)
    decreases j
  {
    match node {
      case External(hash, size) => FieldsReadBack(hash, size);
      case Internal(kids) => TreeRoundTrip(kids, j.members);
    }
  }

  /** The same for the whole tree, which is read as a map of nodes; and no such map looks like an external node. */
  lemma {:induction false} TreeRoundTrip(kids: map<string, Node>, members: seq<Member>)
    requires (forall name :: name in kids ==> WellFormed(kids[name])) && WritesAll(kids, members)
    ensures Kids(members) == Ok(kids)
    ensures SizeField(members).Err? || SizeField(members) == Ok(None)
    decreases members
  {
    forall i | 0 <= i < |members|
      ensures members[i].value.JObject? && Unmarshal(members[i].value) == Ok(kids[members[i].name])
    {
      RoundTrip(kids[members[i].name], members[i].value);
    }
    NoSize(members);
    KidsReadBack(kids, members);
    assert Kids(members).value == kids;
  }

  /** So no two nodes have a form in common. */
  lemma Unambiguous(a: Node, b: Node, j: Json)
    requires WellFormed(a) && WellFormed(b) && Writes(a, j) && Writes(b, j)
    ensures a == b
  {
    RoundTrip(a, j);
    RoundTrip(b, j);
  }

  // ----- Reading anything -----

  // The last member that has a property, by number; -1 if there is none.
  ghost predicate IsLast(members: seq<Member>, has: Member -> bool, i: int) {
    && -1 <= i < |members| && (i >= 0 ==> has(members[i]))
    && forall j :: i < j < |members| ==> !has(members[j])
  }

  predicate NamesSize(m: Member) {
    IsSize(m.name)
  }

  predicate SetsSize(m: Member) {
    IsSize(m.name) && !m.value.JNull?
  }

  predicate SetsHash(m: Member) {
    IsHash(m.name) && !m.value.JNull?
  }

  // Every size that is not null is an int, and every hash a string.
  predicate SizesFit(members: seq<Member>) {
    forall i :: 0 <= i < |members| && SetsSize(members[i]) ==> IsInt(members[i].value)
  }

  predicate HashesFit(members: seq<Member>) {
    forall i :: 0 <= i < |members| && SetsHash(members[i]) ==> members[i].value.JString?
  }

  lemma LastOfInit(members: seq<Member>, has: Member -> bool, i: int)
    requires members != [] && IsLast(members, has, i) && !has(members[|members| - 1])
    ensures IsLast(members[..|members| - 1], has, i)
  {
  }

  lemma {:induction false} FindLast(members: seq<Member>, has: Member -> bool) returns (i: int)
    ensures IsLast(members, has, i)
    decreases |members|
  {
    if members == [] {
      i := -1;
    } else if has(members[|members| - 1]) {
      i := |members| - 1;
    } else {
      i := FindLast(members[..|members| - 1], has);
    }
  }

  // The size that decides the kind of a node: the last one, if all that are not null are ints.
  lemma {:induction false} SizeFieldMeans(members: seq<Member>, i: int)
    requires IsLast(members, NamesSize, i)
    ensures SizeField(members).Ok? <==> SizesFit(members)
    ensures SizesFit(members) ==>
              SizeField(members) == if i < 0 || members[i].value.JNull? then Ok(None) else Ok(Some(members[i].value.n))
    decreases |members|
  {
    if members != [] {
      var init, last := members[..|members| - 1], members[|members| - 1];
      var k := FindLast(init, NamesSize);
      SizeFieldMeans(init, k);
      assert SizesFit(members) <==> SizesFit(init) && (SetsSize(last) ==> IsInt(last.value)) by {
        assert forall j :: 0 <= j < |init| ==> members[j] == init[j];
      }
      if !NamesSize(last) {
        LastOfInit(members, NamesSize, i);
        assert i == k;
      }
    }
  }

  lemma OneLast(members: seq<Member>, has: Member -> bool, i: int, k: int)
    requires IsLast(members, has, i) && IsLast(members, has, k)
    ensures i == k
  {
  }

  // The fields of an external node: the last hash and the last size that are not null.
  lemma {:induction false} FieldsMean(members: seq<Member>, h: int, z: int)
    requires IsLast(members, SetsHash, h) && IsLast(members, SetsSize, z)
    ensures Fields(members).Ok? <==> SizesFit(members) && HashesFit(members)
    ensures Fields(members).Ok? ==>
              Fields(members).value ==
              External(if h < 0 then "" else members[h].value.s, if z < 0 then 0 else members[z].value.n)
    decreases |members|
  {
    if members != [] {
      var init, last := members[..|members| - 1], members[|members| - 1];
      var h' := FindLast(init, SetsHash);
      var z' := FindLast(init, SetsSize);
      FieldsMean(init, h', z');
      assert forall j :: 0 <= j < |init| ==> members[j] == init[j];
      assert SizesFit(members) <==> SizesFit(init) && (SetsSize(last) ==> IsInt(last.value));
      assert HashesFit(members) <==> HashesFit(init) && (SetsHash(last) ==> last.value.JString?);
      if !SetsHash(last) {
        LastOfInit(members, SetsHash, h);
        OneLast(init, SetsHash, h, h');
      }
      if !SetsSize(last) {
        LastOfInit(members, SetsSize, z);
        OneLast(init, SetsSize, z, z');
      }
    }
  }

  // The node a member of a map stands for.
  function NodeOf(m: Member): Result<Node> {
    if m.value.JNull? then Ok(Nil) else Unmarshal(m.value)
  }

  // A map of nodes: every member reads, and under each name there is what the last member of that name reads as.
  lemma {:induction false} KidsMean(members: seq<Member>, i: nat)
    requires i < |members| && forall j :: i < j < |members| ==> members[j].name != members[i].name
    ensures Kids(members).Ok? <==> forall j :: 0 <= j < |members| ==> NodeOf(members[j]).Ok?
    ensures Kids(members).Ok? ==>
              members[i].name in Kids(members).value && Kids(members).value[members[i].name] == NodeOf(members[i]).value
    decreases |members|
  {
    var init, last := members[..|members| - 1], members[|members| - 1];
    assert forall j :: 0 <= j < |init| ==> members[j] == init[j];
    if i < |init| {
      KidsMean(init, i);
    } else if init != [] {
      KidsMean(init, |init| - 1);
    }
    assert (forall j :: 0 <= j < |members| ==> NodeOf(members[j]).Ok?) <==>
           (forall j :: 0 <= j < |init| ==> NodeOf(init[j]).Ok?) && NodeOf(last).Ok?;
  }

  /**
   * How any object is read. It is an external node if and only if its last size, whatever the case of its name, is
   * an int and no size is anything but null or an int; then its hashes must be strings or null, and the last
   * ones that are not null count. Otherwise it is an internal node, of which every member must read.
   */
  lemma ReadExactly(members: seq<Member>, i: int, h: int, z: int)
    requires IsLast(members, NamesSize, i) && IsLast(members, SetsHash, h) && IsLast(members, SetsSize, z)
    ensures var r, external := Unmarshal(JObject(members)), SizesFit(members) && i >= 0 && !members[i].value.JNull?;
            if external then
              && (r.Ok? <==> HashesFit(members))
              && (r.Ok? ==> r.value == External(if h < 0 then "" else members[h].value.s, members[i].value.n))
            else
              && (r.Ok? <==> Kids(members).Ok?) && (r.Ok? ==> r.value == Internal(Kids(members).value))
  {
    SizeFieldMeans(members, i);
    FieldsMean(members, h, z);
    if i >= 0 && !members[i].value.JNull? {
      assert IsLast(members, SetsSize, i);
      OneLast(members, SetsSize, i, z);
    }
  }

  // Simple case folding of the characters that fold to a letter of these names.
  function Fold(c: char): char {
    if 'A' <= c <= 'Z' then c - 'A' + 'a' else if c == '\U{017F}' then 's' else c
  }

  function Folded(name: string): string {
    seq(|name|, i requires 0 <= i < |name| => Fold(name[i]))
  }

  /** A member names a field exactly when it does so after folding. */
  lemma NamesByFolding(name: string)
    ensures IsSize(name) <==> Folded(name) == "size"
    ensures IsHash(name) <==> Folded(name) == "hash"
  {
    if |name| == 4 {
      assert Folded(name) == [Fold(name[0]), Fold(name[1]), Fold(name[2]), Fold(name[3])];
    }
  }
}
