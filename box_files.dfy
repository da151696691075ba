/**
 * The Box folder-tree materialiser. Remote storage is a map from folder id
 * to the folder's listing (name, id and type of each item, in listing
 * order) with an allocator for fresh ids. `Walk` is the meaning of
 * `Folder_Recursive_Build`: look each segment up among the current folder's
 * sub-folders, descend if found, create it otherwise. `Lookup` is the same
 * walk without creation; the lemmas relate the two (an existing path is
 * followed without creating anything, a successful build leaves a path
 * behind that any later state still has, so a second build is a no-op).
 */
module BoxFiles {
  import opened Wrappers
  import opened Strings
  import opened Records

  datatype Kind = Folder | File

  /** One entry of a folder listing. */
  datatype Item = Item(name: string, id: Id, kind: Kind)

  /** Remote storage: every folder's listing, and the id Box hands out next. */
  datatype Store = Store(children: map<Id, seq<Item>>, nextId: Id)

  /** Every existing folder id was handed out before `nextId`, so `nextId` is fresh. */
  predicate WellFormed(st: Store) {
    forall f :: f in st.children ==> f < st.nextId
  }

  /** `st2` is `st1` with items appended to listings and folders added; nothing is removed or reordered. */
  predicate Extends(st1: Store, st2: Store) {
    st1.nextId <= st2.nextId &&
    forall f :: f in st1.children ==> f in st2.children && st1.children[f] <= st2.children[f]
  }

  lemma ExtendsTransitive(a: Store, b: Store, c: Store)
    requires Extends(a, b) && Extends(b, c)
    ensures Extends(a, c)
  {
  }

  // ---------------------------------------------------------------------
  // Listings

  predicate OfKind(it: Item, kind: Option<Kind>) {
    kind.None? || it.kind == kind.value
  }

  /** `itemEntries.filter(item => item.type === contentType)`, or every entry when no type is given. */
  function Filter(items: seq<Item>, kind: Option<Kind>): (r: seq<Item>)
    ensures |r| <= |items|
    ensures kind.None? ==> r == items
  {
    if |items| == 0 then []
    else
      var rest := Filter(items[1..], kind);
      assert kind.None? ==> items == [items[0]] + items[1..];
      if OfKind(items[0], kind) then [items[0]] + rest else rest
  }

  /** The filtered listing holds exactly the items of the requested type. */
  lemma {:induction false} FilterMembers(items: seq<Item>, kind: Option<Kind>)
    ensures forall it :: it in Filter(items, kind) <==> it in items && OfKind(it, kind)
  {
    if |items| > 0 {
      FilterMembers(items[1..], kind);
      assert items == [items[0]] + items[1..];
    }
  }

  lemma FilterCons(x: Item, rest: seq<Item>, kind: Option<Kind>)
    ensures Filter([x] + rest, kind) == (if OfKind(x, kind) then [x] else []) + Filter(rest, kind)
  {
    assert ([x] + rest)[1..] == rest;
  }

  /** Filtering distributes over appending to a listing. */
  lemma {:induction false} FilterAppend(a: seq<Item>, b: seq<Item>, kind: Option<Kind>)
    ensures Filter(a + b, kind) == Filter(a, kind) + Filter(b, kind)
  {
    if |a| == 0 {
      assert a + b == b;
    } else {
      var head := if OfKind(a[0], kind) then [a[0]] else [];
      calc {
        Filter(a + b, kind);
      == { assert a + b == [a[0]] + (a[1..] + b); FilterCons(a[0], a[1..] + b, kind); }
        head + Filter(a[1..] + b, kind);
      == { FilterAppend(a[1..], b, kind); }
        head + (Filter(a[1..], kind) + Filter(b, kind));
      ==
        (head + Filter(a[1..], kind)) + Filter(b, kind);
      == { assert a == [a[0]] + a[1..]; FilterCons(a[0], a[1..], kind); }
        Filter(a, kind) + Filter(b, kind);
      }
    }
  }

  /** A listing that grows by appending keeps its filtered listing as a prefix. */
  lemma FilterPrefix(a: seq<Item>, b: seq<Item>, kind: Option<Kind>)
    requires a <= b
    ensures Filter(a, kind) <= Filter(b, kind)
  {
    assert b == a + b[|a|..];
    FilterAppend(a, b[|a|..], kind);
  }

  /** `r` is the id of the first item named `name`, or `None` when no item has that name. */
  predicate FirstNamed(items: seq<Item>, name: string, r: Option<Id>) {
    (r.Some? ==> exists i :: 0 <= i < |items| && items[i].name == name && items[i].id == r.value &&
                   forall j :: 0 <= j < i ==> items[j].name != name) &&
    (r.None? <==> forall i :: 0 <= i < |items| ==> items[i].name != name)
  }

  /** The first match in the tail is the first match in the whole listing when the head does not match. */
  lemma FirstNamedTail(items: seq<Item>, name: string, r: Option<Id>)
    requires |items| > 0 && items[0].name != name && FirstNamed(items[1..], name, r)
    ensures FirstNamed(items, name, r)
  {
    if r.Some? {
      var i :| 0 <= i < |items[1..]| && items[1..][i].name == name && items[1..][i].id == r.value &&
               forall j :: 0 <= j < i ==> items[1..][j].name != name;
      assert items[i + 1] == items[1..][i];
      forall j | 0 < j < i + 1 ensures items[j].name != name {
        assert items[j] == items[1..][j - 1];
      }
    } else {
      forall i | 0 < i < |items| ensures items[i].name != name {
        assert items[i] == items[1..][i - 1];
      }
    }
  }

  /** The id of the first item with the given name, as the lookup loop returns it; `None` for null. */
  function FindNamed(items: seq<Item>, name: string): (r: Option<Id>)
    ensures FirstNamed(items, name, r)
  {
    if |items| == 0 then None
    else if items[0].name == name then Some(items[0].id)
    else
      var r := FindNamed(items[1..], name);
      FirstNamedTail(items, name, r);
      r
  }

  /** There is only one first match: whatever satisfies the description is what the lookup returns. */
  lemma FirstNamedUnique(items: seq<Item>, name: string, r: Option<Id>)
    requires FirstNamed(items, name, r)
    ensures r == FindNamed(items, name)
  {
    var f := FindNamed(items, name);
    if r.Some? {
      var i :| 0 <= i < |items| && items[i].name == name && items[i].id == r.value &&
               forall j :: 0 <= j < i ==> items[j].name != name;
      var k :| 0 <= k < |items| && items[k].name == name && items[k].id == f.value &&
               forall j :: 0 <= j < k ==> items[j].name != name;
      assert !(i < k) && !(k < i);
    }
  }

  /** Appending to a listing does not change which item a name finds first. */
  lemma FindNamedPrefix(a: seq<Item>, b: seq<Item>, name: string)
    requires a <= b && FindNamed(a, name).Some?
    ensures FindNamed(b, name) == FindNamed(a, name)
  {
    var i :| 0 <= i < |a| && a[i].name == name && a[i].id == FindNamed(a, name).value &&
             forall j :: 0 <= j < i ==> a[j].name != name;
    assert forall j :: 0 <= j <= i ==> b[j] == a[j];
  }

  /** The sub-folder of a listing named `name`, as the build finds it. */
  function SubFolder(items: seq<Item>, name: string): Option<Id> {
    FindNamed(Filter(items, Some(Folder)), name)
  }

  lemma SubFolderPrefix(a: seq<Item>, b: seq<Item>, name: string)
    requires a <= b && SubFolder(a, name).Some?
    ensures SubFolder(b, name) == SubFolder(a, name)
  {
    FilterPrefix(a, b, Some(Folder));
    FindNamedPrefix(Filter(a, Some(Folder)), Filter(b, Some(Folder)), name);
  }

  predicate NameInUse(items: seq<Item>, name: string) {
    exists i :: 0 <= i < |items| && items[i].name == name
  }

  // ---------------------------------------------------------------------
  // Creating items

  /**
   * `client.folders.create` and `client.files.uploadFile`: a new item with a
   * fresh id at the end of the parent's listing. Box refuses a parent that
   * does not exist, an empty name, and a name already used in the parent.
   */
  function Create(st: Store, parent: Id, name: string, kind: Kind): (r: Option<(Id, Store)>)
    requires WellFormed(st)
    ensures r.Some? <==> parent in st.children && name != "" && !NameInUse(st.children[parent], name)
    ensures r.Some? ==> r.value.0 !in st.children && WellFormed(r.value.1) && Extends(st, r.value.1)
    ensures r.Some? ==> FindNamed(Filter(r.value.1.children[parent], Some(kind)), name) == Some(r.value.0)
    ensures r.Some? && kind == Folder ==> r.value.0 in r.value.1.children && r.value.1.children[r.value.0] == []
    ensures r.Some? && kind == File ==> r.value.1.children.Keys == st.children.Keys
  {
    if parent !in st.children || name == "" || NameInUse(st.children[parent], name) then None
    else
      var id := st.nextId;
      var items := st.children[parent];
      var listed := st.children[parent := items + [Item(name, id, kind)]];
      AppendFindsLast(items, Item(name, id, kind));
      Some((id, Store(if kind == Folder then listed[id := []] else listed, id + 1)))
  }

  /** An item appended under a name nothing else uses is what that name finds among items of its kind. */
  lemma AppendFindsLast(items: seq<Item>, it: Item)
    requires !NameInUse(items, it.name)
    ensures FindNamed(Filter(items + [it], Some(it.kind)), it.name) == Some(it.id)
  {
    FilterAppend(items, [it], Some(it.kind));
    assert Filter([it], Some(it.kind)) == [it] by {
      assert [it][1..] == [];
    }
    var before := Filter(items, Some(it.kind));
    FilterMembers(items, Some(it.kind));
    forall j | 0 <= j < |before| ensures before[j].name != it.name {
      assert before[j] in before;
    }
    assert (before + [it])[|before|] == it;
  }

  // ---------------------------------------------------------------------
  // Walking a path

  /** The outcome of a build: the leaf id (`None` when it failed) and the storage state it left. */
  datatype Built = Built(leaf: Option<Id>, st: Store)

  /**
   * One segment of `Folder_Recursive_Build`: the sub-folder of `cur` with the
   * segment's name, created first when there is none. `None` when `cur`
   * does not exist or Box refuses the new folder.
   */
  function Step(st: Store, cur: Id, seg: string): (r: Option<(Id, Store)>)
    requires WellFormed(st)
    ensures r.Some? ==> WellFormed(r.value.1) && Extends(st, r.value.1) && r.value.1.nextId <= st.nextId + 1
    ensures r.Some? ==> cur in r.value.1.children && SubFolder(r.value.1.children[cur], seg) == Some(r.value.0)
    ensures cur in st.children && SubFolder(st.children[cur], seg).Some? ==>
              r == Some((SubFolder(st.children[cur], seg).value, st))
  {
    if cur !in st.children then None
    else
      var found := SubFolder(st.children[cur], seg);
      if found.Some? then Some((found.value, st))
      else Create(st, cur, seg, Folder)
  }

  /**
   * `Folder_Recursive_Build(cur, segs, i)`: past the last segment the current
   * folder is the answer; otherwise the build steps into the segment's
   * folder (creating it if need be) and goes on from there.
   */
  function Walk(st: Store, cur: Id, segs: seq<string>, i: nat): (b: Built)
    requires WellFormed(st) && i <= |segs|
    ensures WellFormed(b.st) && Extends(st, b.st)
    ensures b.st.nextId <= st.nextId + (|segs| - i)
    decreases |segs| - i
  {
    if i == |segs| then Built(Some(cur), st)
    else
      var next := Step(st, cur, segs[i]);
      if next.None? then Built(None, st)
      else
        var b := Walk(next.value.1, next.value.0, segs, i + 1);
        ExtendsTransitive(st, next.value.1, b.st);
        b
  }

  /** The folder a path leads to in the current state, creating nothing. */
  function Lookup(st: Store, cur: Id, segs: seq<string>, i: nat): Option<Id>
    requires i <= |segs|
    decreases |segs| - i
  {
    if i == |segs| then Some(cur)
    else if cur !in st.children then None
    else match SubFolder(st.children[cur], segs[i])
      case Some(next) => Lookup(st, next, segs, i + 1)
      case None => None
  }

  /** A path that exists stays where it is when storage grows. */
  lemma {:induction false} LookupExtends(st1: Store, st2: Store, cur: Id, segs: seq<string>, i: nat)
    requires i <= |segs| && Extends(st1, st2) && Lookup(st1, cur, segs, i).Some?
    ensures Lookup(st2, cur, segs, i) == Lookup(st1, cur, segs, i)
    decreases |segs| - i
  {
    if i < |segs| {
      var next := SubFolder(st1.children[cur], segs[i]).value;
      SubFolderPrefix(st1.children[cur], st2.children[cur], segs[i]);
      LookupExtends(st1, st2, next, segs, i + 1);
    }
  }

  /** Where every segment already exists as a folder, the build descends and creates nothing. */
  lemma {:induction false} WalkFollowsLookup(st: Store, cur: Id, segs: seq<string>, i: nat)
    requires WellFormed(st) && i <= |segs| && Lookup(st, cur, segs, i).Some?
    ensures Walk(st, cur, segs, i) == Built(Lookup(st, cur, segs, i), st)
    decreases |segs| - i
  {
    if i < |segs| {
      WalkFollowsLookup(st, SubFolder(st.children[cur], segs[i]).value, segs, i + 1);
    }
  }

  /** A successful build leaves behind the path it reported: looking it up afterwards finds the same leaf. */
  lemma {:induction false} WalkEstablishes(st: Store, cur: Id, segs: seq<string>, i: nat)
    requires WellFormed(st) && i <= |segs| && Walk(st, cur, segs, i).leaf.Some?
    ensures Lookup(Walk(st, cur, segs, i).st, cur, segs, i) == Walk(st, cur, segs, i).leaf
    decreases |segs| - i
  {
    if i < |segs| {
      var next := Step(st, cur, segs[i]).value;
      WalkEstablishes(next.1, next.0, segs, i + 1);
      var b := Walk(next.1, next.0, segs, i + 1);
      SubFolderPrefix(next.1.children[cur], b.st.children[cur], segs[i]);
    }
  }

  /** Building the same path twice returns the same leaf, and the second build creates no folder. */
  lemma WalkIdempotent(st: Store, cur: Id, segs: seq<string>)
    requires WellFormed(st) && Walk(st, cur, segs, 0).leaf.Some?
    ensures Walk(Walk(st, cur, segs, 0).st, cur, segs, 0) == Walk(st, cur, segs, 0)
  {
    var b := Walk(st, cur, segs, 0);
    WalkEstablishes(st, cur, segs, 0);
    WalkFollowsLookup(b.st, cur, segs, 0);
  }

  // ---------------------------------------------------------------------
  // Paths

  /** `Get_Tree_From_Path`: the pieces of the path between slashes, without the piece before the first one. */
  function Tree(path: string): (segs: seq<string>)
    ensures forall k :: 0 <= k < |segs| ==> '/' !in segs[k]
  {
    Split(path, '/')[1..]
  }

  /** An absolute path gives back its segments. */
  lemma TreeOfAbsolute(segs: seq<string>)
    requires |segs| >= 1 && forall k :: 0 <= k < |segs| ==> '/' !in segs[k]
    ensures Tree("/" + Join(segs, "/")) == segs
  {
    SplitJoin(segs, '/');
    SplitAtFirst("", '/', Join(segs, "/"));
    assert "" + ['/'] + Join(segs, "/") == "/" + Join(segs, "/");
  }

  /** A path without a slash has no segments at all. */
  lemma TreeOfRelative(path: string)
    requires '/' !in path
    ensures Tree(path) == []
  {
    SplitWithoutSeparator(path, '/');
  }

  lemma TreeExamples()
    ensures Tree("/a/b") == ["a", "b"]
    ensures Tree("/") == [""]
    ensures Tree("a") == []
  {
    TreeOfAbsolute(["a", "b"]);
    assert Join(["a", "b"], "/") == "a/b" by {
      assert ["a", "b"][1..] == ["b"];
    }
    assert "/" + "a/b" == "/a/b";
    TreeOfAbsolute([""]);
    assert "/" + Join([""], "/") == "/";
    TreeOfRelative("a");
  }

  /** A path whose first segment is empty ("/", "//x") names the starting folder itself. */
  predicate NamesStart(tree: seq<string>) {
    |tree| > 0 && tree[0] == ""
  }

  /** One location of `Make_Data_Folders`: the starting folder for "/"-like paths, otherwise the build of its segments. */
  function Resolve(st: Store, from: Id, location: string): (b: Built)
    requires WellFormed(st)
    ensures WellFormed(b.st) && Extends(st, b.st)
  {
    var tree := Tree(location);
    if NamesStart(tree) then Built(Some(from), st) else Walk(st, from, tree, 0)
  }

  /** The folder a location names in the current state, creating nothing. */
  function Locate(st: Store, from: Id, location: string): Option<Id> {
    var tree := Tree(location);
    if NamesStart(tree) then Some(from) else Lookup(st, from, tree, 0)
  }

  /** A location whose first segment is empty resolves to the starting folder and creates nothing. */
  lemma ResolveStart(st: Store, from: Id, location: string)
    requires WellFormed(st) && NamesStart(Tree(location))
    ensures Resolve(st, from, location) == Built(Some(from), st)
  {
  }

  lemma ResolveEstablishes(st: Store, from: Id, location: string)
    requires WellFormed(st) && Resolve(st, from, location).leaf.Some?
    ensures Locate(Resolve(st, from, location).st, from, location) == Resolve(st, from, location).leaf
  {
    if !NamesStart(Tree(location)) {
      WalkEstablishes(st, from, Tree(location), 0);
    }
  }

  lemma LocateExtends(st1: Store, st2: Store, from: Id, location: string)
    requires Extends(st1, st2) && Locate(st1, from, location).Some?
    ensures Locate(st2, from, location) == Locate(st1, from, location)
  {
    if !NamesStart(Tree(location)) {
      LookupExtends(st1, st2, from, Tree(location), 0);
    }
  }

  lemma ResolveFollowsLocate(st: Store, from: Id, location: string)
    requires WellFormed(st) && Locate(st, from, location).Some?
    ensures Resolve(st, from, location) == Built(Locate(st, from, location), st)
  {
    if !NamesStart(Tree(location)) {
      WalkFollowsLookup(st, from, Tree(location), 0);
    }
  }

  // ---------------------------------------------------------------------
  // Make_Data_Folders

  /** What `Make_Data_Folders` reports: each subtree location's id, and the base location's id. */
  datatype Locations = Locations(subtrees: map<string, Id>, basetree: map<string, Id>)

  const FolderError := "issue when making box folder"

  /** The subtree loop from index `i` on: each location is built under `baseId`, in order, up to the first failure. */
  function SubtreesFrom(st: Store, baseId: Id, subs: seq<string>, i: nat, acc: map<string, Id>): (r: (Option<map<string, Id>>, Store))
    requires WellFormed(st) && i <= |subs|
    ensures WellFormed(r.1) && Extends(st, r.1)
    decreases |subs| - i
  {
    if i == |subs| then (Some(acc), st)
    else
      var b := Resolve(st, baseId, subs[i]);
      if b.leaf.None? then (None, b.st)
      else
        var r := SubtreesFrom(b.st, baseId, subs, i + 1, acc[subs[i] := b.leaf.value]);
        ExtendsTransitive(st, b.st, r.1);
        r
  }

  /**
   * `Make_Data_Folders(rootId, baseLocation, subs)`: the base location is
   * resolved from the root, then every subtree location from the base
   * folder. Any failure is the one error the function raises; the folders
   * created before it stay.
   */
  function DataFolders(st: Store, rootId: Id, baseLocation: string, subs: seq<string>): (r: (Result<Locations>, Store))
    requires WellFormed(st)
    ensures WellFormed(r.1) && Extends(st, r.1)
  {
    var b := Resolve(st, rootId, baseLocation);
    if b.leaf.None? then (Err(FolderError), b.st)
    else
      var sub := SubtreesFrom(b.st, b.leaf.value, subs, 0, map[]);
      ExtendsTransitive(st, b.st, sub.1);
      if sub.0.None? then (Err(FolderError), sub.1)
      else (Ok(Locations(sub.0.value, map[baseLocation := b.leaf.value])), sub.1)
  }

  lemma {:induction false} SubtreesFromLocated(st: Store, baseId: Id, subs: seq<string>, i: nat, acc: map<string, Id>)
    requires WellFormed(st) && i <= |subs|
    requires SubtreesFrom(st, baseId, subs, i, acc).0.Some?
    requires forall s :: s in acc ==> Locate(st, baseId, s) == Some(acc[s])
    ensures var (m, st') := SubtreesFrom(st, baseId, subs, i, acc);
      m.value.Keys == acc.Keys + (set s | s in subs[i..]) &&
      forall s :: s in m.value ==> Locate(st', baseId, s) == Some(m.value[s])
    decreases |subs| - i
  {
    if i == |subs| {
      assert subs[i..] == [];
    } else {
      var b := Resolve(st, baseId, subs[i]);
      var acc' := acc[subs[i] := b.leaf.value];
      ResolveEstablishes(st, baseId, subs[i]);
      forall s | s in acc' ensures Locate(b.st, baseId, s) == Some(acc'[s]) {
        if s != subs[i] {
          LocateExtends(st, b.st, baseId, s);
        }
      }
      SubtreesFromLocated(b.st, baseId, subs, i + 1, acc');
      assert subs[i..] == [subs[i]] + subs[i + 1..];
    }
  }

  /**
   * After a successful `Make_Data_Folders` the base location leads from the
   * root to the base id, every subtree location (and nothing else) is a key
   * of the subtree map, and each leads from the BASE folder, not the root,
   * to the id reported for it.
   */
  lemma DataFoldersLocated(st: Store, rootId: Id, baseLocation: string, subs: seq<string>)
    requires WellFormed(st) && DataFolders(st, rootId, baseLocation, subs).0.Ok?
    ensures var (r, st') := DataFolders(st, rootId, baseLocation, subs);
      var loc := r.value;
      loc.basetree.Keys == {baseLocation} &&
      Locate(st', rootId, baseLocation) == Some(loc.basetree[baseLocation]) &&
      loc.subtrees.Keys == (set s | s in subs) &&
      forall s :: s in loc.subtrees ==> Locate(st', loc.basetree[baseLocation], s) == Some(loc.subtrees[s])
  {
    var b := Resolve(st, rootId, baseLocation);
    var sub := SubtreesFrom(b.st, b.leaf.value, subs, 0, map[]);
    ResolveEstablishes(st, rootId, baseLocation);
    LocateExtends(b.st, sub.1, rootId, baseLocation);
    SubtreesFromLocated(b.st, b.leaf.value, subs, 0, map[]);
    assert subs[0..] == subs;
  }

  /** Where every remaining location already exists, the subtree loop succeeds and creates nothing. */
  lemma {:induction false} SubtreesFromExisting(st: Store, baseId: Id, subs: seq<string>, i: nat, acc: map<string, Id>)
    requires WellFormed(st) && i <= |subs|
    requires forall k :: i <= k < |subs| ==> Locate(st, baseId, subs[k]).Some?
    ensures SubtreesFrom(st, baseId, subs, i, acc).0.Some?
    ensures SubtreesFrom(st, baseId, subs, i, acc).1 == st
    decreases |subs| - i
  {
    if i < |subs| {
      ResolveFollowsLocate(st, baseId, subs[i]);
      var b := Resolve(st, baseId, subs[i]);
      SubtreesFromExisting(st, baseId, subs, i + 1, acc[subs[i] := b.leaf.value]);
    }
  }

  /** Running `Make_Data_Folders` again with the same arguments reports the same ids and creates nothing. */
  lemma DataFoldersIdempotent(st: Store, rootId: Id, baseLocation: string, subs: seq<string>)
    requires WellFormed(st) && DataFolders(st, rootId, baseLocation, subs).0.Ok?
    ensures var (r, st') := DataFolders(st, rootId, baseLocation, subs);
      DataFolders(st', rootId, baseLocation, subs) == (r, st')
  {
    var (r, st') := DataFolders(st, rootId, baseLocation, subs);
    var loc := r.value;
    var baseId := loc.basetree[baseLocation];
    DataFoldersLocated(st, rootId, baseLocation, subs);
    ResolveFollowsLocate(st', rootId, baseLocation);
    assert forall k :: 0 <= k < |subs| ==> subs[k] in loc.subtrees;
    SubtreesFromExisting(st', baseId, subs, 0, map[]);
    var again := SubtreesFrom(st', baseId, subs, 0, map[]);
    SubtreesFromLocated(st', baseId, subs, 0, map[]);
    forall s | s in again.0.value ensures again.0.value[s] == loc.subtrees[s] {
      assert Locate(st', baseId, s) == Some(loc.subtrees[s]);
    }
    assert again.0.value == loc.subtrees;
  }

  // ---------------------------------------------------------------------
  // The client

  const Unavailable := "unavailable"

  /** The shared link Box issues for a folder. */
  function SharedLink(id: Id): (link: string)
    ensures link != Unavailable
  {
    "https://app.box.com/folder/" + NatToString(id)
  }

  /**
   * The Box account as the service's client sees it: the folder listings,
   * the id allocator, and the version count of every uploaded file.
   */
  class BoxClient {
    var children: map<Id, seq<Item>>
    var nextId: Id
    var versions: map<Id, nat>

    function State(): Store
      reads this
    {
      Store(children, nextId)
    }

    ghost predicate Valid()
      reads this
    {
      WellFormed(State())
    }

    constructor (st: Store, fileVersions: map<Id, nat>)
      requires WellFormed(st)
      ensures Valid() && State() == st && versions == fileVersions
    {
      children := st.children;
      nextId := st.nextId;
      versions := fileVersions;
    }

    /** `Get_Ids_In_Folder`: an existing folder's listing, filtered by type when one is given. */
    method GetIdsInFolder(folder: Id, kind: Option<Kind>) returns (r: Result<seq<Item>>)
      ensures r.Ok? <==> folder in children
      ensures r.Ok? ==> r.value == Filter(children[folder], kind)
    {
      if folder !in children {
        return Err("folder not found");
      }
      r := Ok(Filter(children[folder], kind));
    }

    /** `Get_Id_Of_Item_In_Folder`: the id of the first listed item of the type with that name, or null. */
    method GetIdOfItemInFolder(folder: Id, name: string, kind: Option<Kind>) returns (r: Result<Option<Id>>)
      ensures r.Ok? <==> folder in children
      ensures r.Ok? ==> FirstNamed(Filter(children[folder], kind), name, r.value)
    {
      var listed := GetIdsInFolder(folder, kind);
      if listed.Err? {
        return Err(listed.message);
      }
      var items := listed.value;
      var i := 0;
      while i < |items|
        invariant 0 <= i <= |items|
        invariant forall j :: 0 <= j < i ==> items[j].name != name
      {
        if items[i].name == name {
          return Ok(Some(items[i].id));
        }
        i := i + 1;
      }
      r := Ok(None);
    }

    /** `Create_New_Folder`: a new, empty folder at the end of the parent's listing. */
    method CreateNewFolder(parent: Id, name: string) returns (r: Option<Id>)
      requires Valid()
      modifies this`children, this`nextId
      ensures Valid()
      ensures Create(old(State()), parent, name, Folder) == if r.Some? then Some((r.value, State())) else None
      ensures r.None? ==> State() == old(State())
    {
      if parent !in children || name == "" || NameInUse(children[parent], name) {
        return None;
      }
      r := Some(nextId);
      children := children[parent := children[parent] + [Item(name, nextId, Folder)]][nextId := []];
      nextId := nextId + 1;
    }

    /**
     * `Folder_Recursive_Build`, its recursion written as a loop over the
     * segments with the current folder id: descend into an existing
     * sub-folder, otherwise create it.
     */
    method FolderRecursiveBuild(root: Id, segs: seq<string>) returns (r: Option<Id>)
      requires Valid()
      modifies this`children, this`nextId
      ensures Valid() && Walk(old(State()), root, segs, 0) == Built(r, State())
    {
      var cur := root;
      var i := 0;
      while i < |segs|
        invariant Valid() && 0 <= i <= |segs|
        invariant Walk(old(State()), root, segs, 0) == Walk(State(), cur, segs, i)
      {
        var found := GetIdOfItemInFolder(cur, segs[i], Some(Folder));
        if found.Err? {
          return None;
        }
        FirstNamedUnique(Filter(children[cur], Some(Folder)), segs[i], found.value);
        if found.value.Some? {
          cur := found.value.value;
        } else {
          var created := CreateNewFolder(cur, segs[i]);
          if created.None? {
            return None;
          }
          cur := created.value;
        }
        i := i + 1;
      }
      r := Some(cur);
    }

    /** The location handling of `Make_Data_Folders`: the start folder itself for "/"-like paths, else a build. */
    method ResolveLocation(from: Id, location: string) returns (r: Option<Id>)
      requires Valid()
      modifies this`children, this`nextId
      ensures Valid() && Resolve(old(State()), from, location) == Built(r, State())
    {
      var tree := Tree(location);
      if !(|tree| > 0 && tree[0] == "") {
        r := FolderRecursiveBuild(from, tree);
      } else {
        r := Some(from);
      }
    }

    /**
     * `Make_Data_Folders`: the base location from the root, then each subtree
     * location from the base folder, collecting the ids.
     */
    method MakeDataFolders(rootId: Id, baseLocation: string, subtreeLocations: seq<string>) returns (r: Result<Locations>)
      requires Valid()
      modifies this`children, this`nextId
      ensures Valid() && DataFolders(old(State()), rootId, baseLocation, subtreeLocations) == (r, State())
    {
      var baseFolderId := ResolveLocation(rootId, baseLocation);
      if baseFolderId.None? {
        return Err(FolderError);
      }
      var basetree := map[baseLocation := baseFolderId.value];
      ghost var built := State();
      var subtrees: map<string, Id> := map[];
      var i := 0;
      while i < |subtreeLocations|
        invariant Valid() && 0 <= i <= |subtreeLocations|
        invariant SubtreesFrom(built, baseFolderId.value, subtreeLocations, 0, map[])
               == SubtreesFrom(State(), baseFolderId.value, subtreeLocations, i, subtrees)
      {
        var subtreeId := ResolveLocation(baseFolderId.value, subtreeLocations[i]);
        if subtreeId.None? {
          return Err(FolderError);
        }
        subtrees := subtrees[subtreeLocations[i] := subtreeId.value];
        i := i + 1;
      }
      r := Ok(Locations(subtrees, basetree));
    }

    /** `Upload_File`: a new file item in the folder, at version 1; Box refuses it as it refuses a folder. */
    method UploadFile(folder: Id, name: string) returns (r: Option<Id>)
      requires Valid()
      modifies this
      ensures Valid()
      ensures Create(old(State()), folder, name, File) == if r.Some? then Some((r.value, State())) else None
      ensures r.None? ==> State() == old(State()) && versions == old(versions)
      ensures r.Some? ==> versions == old(versions)[r.value := 1]
    {
      if folder !in children || name == "" || NameInUse(children[folder], name) {
        return None;
      }
      r := Some(nextId);
      children := children[folder := children[folder] + [Item(name, nextId, File)]];
      versions := versions[nextId := 1];
      nextId := nextId + 1;
    }

    /** `Update_File`: a new version of an uploaded file; it fails for an id that is not one. */
    method UpdateFile(fileId: Id) returns (ok: bool)
      modifies this`versions
      ensures ok <==> fileId in old(versions)
      ensures versions == if ok then old(versions)[fileId := old(versions)[fileId] + 1] else old(versions)
    {
      ok := fileId in versions;
      if ok {
        versions := versions[fileId := versions[fileId] + 1];
      }
    }

    /** `Make_Download_Link_To_Folder`: the folder's shared link; it fails for a folder that does not exist. */
    method MakeDownloadLink(folder: Id) returns (r: Result<string>)
      ensures r.Ok? <==> folder in children
      ensures r.Ok? ==> r.value == SharedLink(folder)
    {
      if folder !in children {
        return Err("Failed to make link");
      }
      r := Ok(SharedLink(folder));
    }
  }
}
