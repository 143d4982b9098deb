/** Static delivery budgets of the web build: which files a module chunk pulls in through its
    static imports, whatever cycles the module graph has. */
module DeliveryBudget {
  datatype Chunk = Chunk(file: string, imports: seq<string>, css: seq<string>)

  type Manifest = map<string, Chunk>

  // ---- Reachability through static imports ----

  predicate IsPath(m: Manifest, path: seq<string>) {
    && path != []
    && (forall i :: 0 <= i < |path| ==> path[i] in m)
    && (forall i :: 0 <= i < |path| - 1 ==> path[i + 1] in m[path[i]].imports)
  }

  ghost predicate Reaches(m: Manifest, from: string, to: string) {
    exists path :: IsPath(m, path) && path[0] == from && path[|path| - 1] == to
  }

  lemma ReachesSelf(m: Manifest, key: string)
    requires key in m
    ensures Reaches(m, key, key)
  {
    assert IsPath(m, [key]);
  }

  lemma ReachesVia(m: Manifest, from: string, next: string, to: string)
    requires from in m && next in m[from].imports && Reaches(m, next, to)
    ensures Reaches(m, from, to)
  {
    var path :| IsPath(m, path) && path[0] == next && path[|path| - 1] == to;
    var longer := [from] + path;
    forall i | 0 <= i < |longer| - 1 ensures longer[i + 1] in m[longer[i]].imports {
      if i > 0 { assert longer[i] == path[i - 1] && longer[i + 1] == path[i]; }
    }
    assert IsPath(m, longer);
  }

  /** A set of chunks closed under imports holds everything reachable from its members. */
  lemma {:induction false} ClosedHoldsReachable(m: Manifest, visited: set<string>, path: seq<string>)
    requires IsPath(m, path) && path[0] in visited
    requires forall k, i :: k in visited && k in m && i in m[k].imports && i in m ==> i in visited
    ensures path[|path| - 1] in visited
  {
    if |path| > 1 {
      assert path[1] in m[path[0]].imports;
      forall i | 0 <= i < |path[1..]| - 1 ensures path[1..][i + 1] in m[path[1..][i]].imports {
        assert path[1..][i] == path[i + 1] && path[1..][i + 1] == path[i + 2];
      }
      ClosedHoldsReachable(m, visited, path[1..]);
    }
  }

  // ---- What should be collected ----

  predicate Provides(c: Chunk, file: string) {
    file == c.file || file in c.css
  }

  /** The files and style sheets of every chunk reachable from the key. */
  ghost predicate Needs(m: Manifest, key: string, file: string) {
    exists k :: k in m && Reaches(m, key, k) && Provides(m[k], file)
  }

  /** Among the chunks reachable from the root, file names are distinct and differ from css names. */
  ghost predicate NamesApart(m: Manifest, root: string) {
    forall a, b :: a in m && b in m && Reaches(m, root, a) && Reaches(m, root, b) ==>
      (m[a].file == m[b].file ==> a == b) && m[a].file !in m[b].css
  }

  ghost function ChunkFiles(m: Manifest): set<string> {
    set k | k in m :: m[k].file
  }

  class FileSet {
    var items: set<string>

    constructor ()
      ensures items == {}
    {
      items := {};
    }
  }

  /** Everything a completed visit owes: the chunk and its style sheets are in, and so is every
      chunk it imports. */
  ghost predicate Settled(m: Manifest, files: set<string>, k: string)
    requires k in m
  {
    && m[k].file in files
    && (forall css :: css in m[k].css ==> css in files)
    && (forall i :: i in m[k].imports && i in m ==> m[i].file in files)
  }

  ghost predicate AllNeeded(m: Manifest, key: string, found: set<string>) {
    forall f :: f in found ==> Needs(m, key, f)
  }

  /** Every chunk reachable from `root` that was entered after `before`, except `open`, is settled. */
  ghost predicate NewOnesSettled(m: Manifest, root: string, open: set<string>, before: set<string>, files: set<string>) {
    forall k :: k in m && Reaches(m, root, k) && m[k].file in files && m[k].file !in before && k !in open ==>
      Settled(m, files, k)
  }

  /** A traversal from `root` that has come to `key`, with names that identify chunks. */
  ghost predicate Traverses(m: Manifest, root: string, key: string) {
    NamesApart(m, root) && (key in m ==> Reaches(m, root, key))
  }

  /** How one call changes the shared set. */
  ghost predicate Collected(m: Manifest, root: string, key: string, before: set<string>, after: set<string>) {
    && before <= after
    && (if key in m then m[key].file in after else after == before)
    && AllNeeded(m, key, after - before)
    && (Traverses(m, root, key) ==> NewOnesSettled(m, root, {}, before, after))
  }

  lemma ReachesThrough(m: Manifest, root: string, key: string, imported: string)
    requires Reaches(m, root, key) && key in m && imported in m[key].imports && imported in m
    ensures Reaches(m, root, imported)
  {
    var path :| IsPath(m, path) && path[0] == root && path[|path| - 1] == key;
    assert IsPath(m, path + [imported]);
  }

  lemma NeedsOfImport(m: Manifest, key: string, imported: string, found: set<string>)
    requires key in m && imported in m[key].imports && AllNeeded(m, imported, found)
    ensures AllNeeded(m, key, found)
  {
    forall f | f in found ensures Needs(m, key, f) {
      var k :| k in m && Reaches(m, imported, k) && Provides(m[k], f);
      ReachesVia(m, key, imported, k);
    }
  }

  /** Entering a chunk adds no other chunk's file. */
  lemma EntryAddsOne(m: Manifest, root: string, key: string, before: set<string>, entered: set<string>)
    requires key in m
    requires entered == before + {m[key].file} + set c | c in m[key].css
    ensures AllNeeded(m, key, entered - before)
    ensures Traverses(m, root, key) ==> NewOnesSettled(m, root, {key}, before, entered)
  {
    ReachesSelf(m, key);
    forall f | f in entered - before ensures Needs(m, key, f) { assert Provides(m[key], f); }
  }

  /** Chunks settled before a nested call stay settled, and the nested call settles its own. */
  lemma NestedCall(m: Manifest, root: string, key: string, imported: string, before: set<string>, mid: set<string>, after: set<string>)
    requires key in m && imported in m[key].imports && before <= mid
    requires Collected(m, root, imported, mid, after)
    requires AllNeeded(m, key, mid - before)
    requires Traverses(m, root, key) ==> NewOnesSettled(m, root, {key}, before, mid)
    ensures before <= mid <= after && (imported in m ==> m[imported].file in after)
    ensures AllNeeded(m, key, after - before)
    ensures Traverses(m, root, key) ==> NewOnesSettled(m, root, {key}, before, after)
  {
    NeedsOfImport(m, key, imported, after - mid);
    if Traverses(m, root, key) {
      if imported in m { ReachesThrough(m, root, key, imported); }
      forall k | k in m && Reaches(m, root, k) && m[k].file in after && m[k].file !in before && k != key
        ensures Settled(m, after, k)
      {
        if m[k].file in mid { assert Settled(m, mid, k); }
      }
    }
  }

  lemma LastIsSettled(m: Manifest, root: string, key: string, before: set<string>, after: set<string>)
    requires key in m && Settled(m, after, key) && NewOnesSettled(m, root, {key}, before, after)
    ensures NewOnesSettled(m, root, {}, before, after)
  {
  }

  method CollectStaticFiles(m: Manifest, key: string, files: FileSet, ghost root: string)
    modifies files
    ensures Collected(m, root, key, old(files.items), files.items)
    decreases ChunkFiles(m) - files.items
  {
    hide AllNeeded;
    hide NewOnesSettled;
    hide Traverses;
    if key !in m || m[key].file in files.items {
      NothingNew(m, root, key, files.items);
      return;
    }
    var chunk := m[key];
    ghost var before := files.items;
    assert chunk.file in ChunkFiles(m);
    files.items := files.items + {chunk.file};
    for i := 0 to |chunk.css|
      invariant files.items == before + {chunk.file} + set c | c in chunk.css[..i]
    {
      assert chunk.css[..i + 1] == chunk.css[..i] + [chunk.css[i]];
      files.items := files.items + {chunk.css[i]};
    }
    assert chunk.css[..|chunk.css|] == chunk.css;
    ghost var entered := files.items;
    EntryAddsOne(m, root, key, before, entered);
    for i := 0 to |chunk.imports|
      invariant before <= entered <= files.items
      invariant AllNeeded(m, key, files.items - before)
      invariant forall j :: 0 <= j < i && chunk.imports[j] in m ==> m[chunk.imports[j]].file in files.items
      invariant Traverses(m, root, key) ==> NewOnesSettled(m, root, {key}, before, files.items)
    {
      ghost var mid := files.items;
      CollectStaticFiles(m, chunk.imports[i], files, root);
      NestedCall(m, root, key, chunk.imports[i], before, mid, files.items);
    }
    assert Settled(m, files.items, key);
    if Traverses(m, root, key) { LastIsSettled(m, root, key, before, files.items); }
  }

  lemma NothingNew(m: Manifest, root: string, key: string, files: set<string>)
    requires key !in m || m[key].file in files
    ensures Collected(m, root, key, files, files)
  {
  }

  /** Collecting into a fresh set finds only files the key needs, and, when names are apart, all. */
  method StaticFiles(m: Manifest, key: string) returns (files: FileSet)
    ensures fresh(files)
    ensures forall f :: f in files.items ==> Needs(m, key, f)
    ensures NamesApart(m, key) ==> forall f :: f in files.items <==> Needs(m, key, f)
  {
    files := new FileSet();
    CollectStaticFiles(m, key, files, key);
    if NamesApart(m, key) && key in m {
      ReachesSelf(m, key);
      forall f | Needs(m, key, f) ensures f in files.items {
        var k :| k in m && Reaches(m, key, k) && Provides(m[k], f);
        AllVisited(m, key, files.items, k);
      }
    } else if key !in m {
      forall f ensures !Needs(m, key, f) { NothingNeeded(m, key, f); }
    }
  }

  lemma NothingNeeded(m: Manifest, key: string, f: string)
    requires key !in m
    ensures !Needs(m, key, f)
  {
    assert forall path :: IsPath(m, path) ==> path[0] in m;
  }

  lemma AllVisited(m: Manifest, key: string, files: set<string>, k: string)
    requires NamesApart(m, key) && key in m && Collected(m, key, key, {}, files) && Reaches(m, key, key)
    requires k in m && Reaches(m, key, k)
    ensures Settled(m, files, k)
  {
    var visited := set j | j in m && Reaches(m, key, j) && m[j].file in files;
    forall j, i | j in visited && j in m && i in m[j].imports && i in m ensures i in visited {
      assert Settled(m, files, j);
      ReachesThrough(m, key, j, i);
    }
    var path :| IsPath(m, path) && path[0] == key && path[|path| - 1] == k;
    ClosedHoldsReachable(m, visited, path);
  }

  function Members(s: seq<string>): set<string> {
    set x | x in s
  }

  /** Two manifests that list the same imports and style sheets in different orders. */
  predicate SameGraph(m: Manifest, n: Manifest) {
    m.Keys == n.Keys &&
    forall k :: k in m ==>
      m[k].file == n[k].file &&
      Members(m[k].imports) == Members(n[k].imports) && Members(m[k].css) == Members(n[k].css)
  }

  /** The order of imports does not matter. */
  lemma OrderIndependent(m: Manifest, n: Manifest, key: string, file: string)
    requires SameGraph(m, n)
    ensures Needs(m, key, file) <==> Needs(n, key, file)
  {
    if Needs(m, key, file) { NeedsTransfers(m, n, key, file); }
    if Needs(n, key, file) { NeedsTransfers(n, m, key, file); }
  }

  lemma NeedsTransfers(m: Manifest, n: Manifest, key: string, file: string)
    requires SameGraph(m, n) && Needs(m, key, file)
    ensures Needs(n, key, file)
  {
    var k :| k in m && Reaches(m, key, k) && Provides(m[k], file);
    var path :| IsPath(m, path) && path[0] == key && path[|path| - 1] == k;
    forall i | 0 <= i < |path| - 1 ensures path[i + 1] in n[path[i]].imports {
      assert path[i + 1] in Members(m[path[i]].imports);
    }
    assert IsPath(n, path);
    assert Reaches(n, key, k);
    if file in m[k].css { assert file in Members(m[k].css); }
    assert Provides(n[k], file);
  }

  /** What a lazily loaded route costs on top of the entry: its files without the entry's. */
  method RouteFiles(m: Manifest, entryKey: string, routeKey: string) returns (route: FileSet)
    ensures NamesApart(m, entryKey) && NamesApart(m, routeKey) ==>
              forall f :: f in route.items <==> Needs(m, routeKey, f) && !Needs(m, entryKey, f)
  {
    var entry := StaticFiles(m, entryKey);
    route := StaticFiles(m, routeKey);
    ghost var collected := route.items;
    ghost var initial := entry.items;
    var rest := entry.items;
    while rest != {}
      invariant rest <= initial
      invariant route.items == collected - (initial - rest)
      decreases rest
    {
      var initialFile :| initialFile in rest;
      route.items := route.items - {initialFile};
      rest := rest - {initialFile};
    }
  }
}
