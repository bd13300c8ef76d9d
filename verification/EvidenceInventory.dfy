/**
 * The inventory of an evidence directory: the recursive listing that a frozen attempt is
 * compared by, and exactly what two equal inventories say about two directories.
 */
module EvidenceInventory {
  import opened Wrappers
  import opened Utf8
  import opened CanonicalJson
  import opened Sorting
  import opened Strings
  import opened LedgerChain
  import opened LedgerLines

  /** A directory entry; `Special` is a symbolic link, a device or a socket. */
  datatype Tree = File(content: seq<Byte>) | Special | Dir(entries: map<string, Tree>)

  datatype Item = Item(path: string, digest: string, size: nat)

  type Path = seq<string>

  predicate IsName(name: string) { name != "" && name != "." && name != ".." && '/' !in name }

  /** Names as a file system lists them. */
  ghost predicate NamesOk(v: Tree) {
    v.Dir? ==> forall name <- v.entries :: IsName(name) && NamesOk(v.entries[name])
  }

  /** The file that stands at a path, if a file does. */
  function FileAt(v: Tree, path: Path): Option<seq<Byte>> {
    if path == [] then if v.File? then Some(v.content) else None
    else if v.Dir? && path[0] in v.entries then FileAt(v.entries[path[0]], path[1..])
    else None
  }

  function PathText(path: Path): string
    requires path != []
  {
    Join(path, '/')
  }

  // ---- The listing ---------------------------------------------------------------------

  /** What the entries `names` of a directory add to the listing; `None` when a special entry is met. */
  function Listing(hash: seq<Byte> -> string, v: Tree, names: seq<string>, prefix: string,
      excluded: set<string>): Option<seq<Item>>
    requires v.Dir? && forall name <- names :: name in v.entries
    decreases v, |names|
  {
    if names == [] then Some([])
    else
      match (Listing(hash, v, names[..|names| - 1], prefix, excluded),
        Entry(hash, v, names[|names| - 1], prefix, excluded))
      case (Some(before), Some(items)) => Some(before + items)
      case _ => None
  }

  function Entry(hash: seq<Byte> -> string, v: Tree, name: string, prefix: string,
      excluded: set<string>): Option<seq<Item>>
    requires v.Dir? && name in v.entries
    decreases v, 0
  {
    match v.entries[name]
    case Special => None
    case File(content) =>
      Some(if prefix + name in excluded then [] else [Item(prefix + name, hash(content), |content|)])
    case Dir(entries) => Listing(hash, v.entries[name], SortedKeys(entries.Keys), prefix + name + "/", excluded)
  }

  function ItemKey(item: Item): seq<string> { [item.path] }

  /** `_inventory`: the listing sorted by path. */
  function Inventory(hash: seq<Byte> -> string, v: Tree, excluded: set<string>): Option<seq<Item>>
    requires v.Dir?
  {
    match Listing(hash, v, SortedKeys(v.entries.Keys), "", excluded)
    case None => None
    case Some(items) => Some(Sort(ItemKey, items))
  }

  /** The list that every level of the recursion appends to. */
  class Files {
    var items: seq<Item>

    constructor ()
      ensures items == []
    {
      items := [];
    }

    method Append(item: Item)
      modifies this
      ensures items == old(items) + [item]
    {
      items := items + [item];
    }

    method Sort()
      modifies this
      ensures items == Sorting.Sort(ItemKey, old(items))
    {
      var sorted: seq<Item> := [];
      var i := 0;
      while i < |items|
        invariant 0 <= i <= |items| && items == old(items) && sorted == Sorting.Sort(ItemKey, items[..i])
      {
        assert items[..i + 1][..i] == items[..i];
        sorted := Insert(ItemKey, items[i], sorted);
        i := i + 1;
      }
      assert items[..i] == items;
      items := sorted;
    }
  }

  /** `_inventory_directory`; false stands for the exception. */
  method InventoryDirectory(hash: seq<Byte> -> string, v: Tree, prefix: string, files: Files, excluded: set<string>)
      returns (ok: bool)
    requires v.Dir?
    modifies files
    ensures
      var listing := Listing(hash, v, SortedKeys(v.entries.Keys), prefix, excluded);
      ok == listing.Some? && (ok ==> files.items == old(files.items) + listing.value)
    decreases v
  {
    hide Listing;
    var names := SortedKeys(v.entries.Keys);
    var i := 0;
    NothingListed(hash, v, prefix, excluded);
    assert names[..0] == [];
    assert old(files.items) + [] == files.items;
    while i < |names|
      invariant 0 <= i <= |names|
      invariant
        var done := Listing(hash, v, names[..i], prefix, excluded);
        done.Some? && files.items == old(files.items) + done.value
    {
      var name := names[i];
      ListingStep(hash, v, names, i, prefix, excluded);
      match v.entries[name] {
        case Special =>
          ListingFails(hash, v, names, i + 1, prefix, excluded);
          return false;
        case File(content) =>
          if prefix + name !in excluded { files.Append(Item(prefix + name, hash(content), |content|)); }
        case Dir(_) =>
          ok := InventoryDirectory(hash, v.entries[name], prefix + name + "/", files, excluded);
          if !ok {
            ListingFails(hash, v, names, i + 1, prefix, excluded);
            return;
          }
      }
      i := i + 1;
    }
    assert names[..i] == names;
    ok := true;
  }

  lemma NothingListed(hash: seq<Byte> -> string, v: Tree, prefix: string, excluded: set<string>)
    requires v.Dir?
    ensures Listing(hash, v, [], prefix, excluded) == Some([])
  {
  }

  lemma ListingStep(hash: seq<Byte> -> string, v: Tree, names: seq<string>, i: nat, prefix: string,
      excluded: set<string>)
    requires v.Dir? && (forall name <- names :: name in v.entries) && i < |names|
    ensures Listing(hash, v, names[..i + 1], prefix, excluded) ==
      match (Listing(hash, v, names[..i], prefix, excluded), Entry(hash, v, names[i], prefix, excluded))
      case (Some(before), Some(items)) => Some(before + items)
      case _ => None
  {
    hide Entry;
    assert names[..i + 1][..i] == names[..i];
  }

  lemma {:induction false} ListingFails(hash: seq<Byte> -> string, v: Tree, names: seq<string>, n: nat, prefix: string,
      excluded: set<string>)
    requires v.Dir? && (forall name <- names :: name in v.entries) && n <= |names|
    requires Listing(hash, v, names[..n], prefix, excluded).None?
    ensures Listing(hash, v, names, prefix, excluded).None?
    decreases |names| - n
  {
    if n == |names| {
      assert names[..n] == names;
    } else {
      assert names[..n + 1][..n] == names[..n];
      ListingFails(hash, v, names, n + 1, prefix, excluded);
    }
  }

  method TakeInventory(hash: seq<Byte> -> string, v: Tree, excluded: set<string>) returns (r: Option<seq<Item>>)
    requires v.Dir?
    ensures r == Inventory(hash, v, excluded)
  {
    hide Listing, Sorting.Sort;
    var files := new Files();
    var ok := InventoryDirectory(hash, v, "", files, excluded);
    if !ok { return None; }
    assert forall xs: seq<Item> :: [] + xs == xs;
    files.Sort();
    r := Some(files.items);
  }

  // ---- What the listing holds ------------------------------------------------------------

  /** The file at `path` is listed as `item`. */
  ghost predicate ListedAs(hash: seq<Byte> -> string, v: Tree, prefix: string, excluded: set<string>, path: Path,
      item: Item) {
    && path != [] && FileAt(v, path).Some?
    && item == Item(prefix + PathText(path), hash(FileAt(v, path).value), |FileAt(v, path).value|)
    && item.path !in excluded
  }

  lemma PathTextInjective(p: Path, q: Path)
    requires p != [] && q != [] && (forall n <- p :: '/' !in n) && (forall n <- q :: '/' !in n)
    requires PathText(p) == PathText(q)
    ensures p == q
  {
    JoinSplits(p, '/');
    JoinSplits(q, '/');
  }

  /** A listing fails exactly on a special entry, at any depth. */
  predicate HasSpecial(v: Tree) {
    v.Special? || (v.Dir? && exists name <- v.entries :: HasSpecial(v.entries[name]))
  }

  lemma {:induction false} ListingSucceeds(hash: seq<Byte> -> string, v: Tree, names: seq<string>, prefix: string,
      excluded: set<string>)
    requires v.Dir? && forall name <- names :: name in v.entries
    ensures Listing(hash, v, names, prefix, excluded).Some? <==> forall name <- names :: !HasSpecial(v.entries[name])
    decreases v, |names|
  {
    hide HasSpecial;
    if names != [] {
      var last := names[|names| - 1];
      ListingSucceeds(hash, v, names[..|names| - 1], prefix, excluded);
      EntrySucceeds(hash, v, last, prefix, excluded);
      assert names == names[..|names| - 1] + [last];
    }
  }

  lemma {:induction false} EntrySucceeds(hash: seq<Byte> -> string, v: Tree, name: string, prefix: string,
      excluded: set<string>)
    requires v.Dir? && name in v.entries
    ensures Entry(hash, v, name, prefix, excluded).Some? <==> !HasSpecial(v.entries[name])
    decreases v, 0
  {
    match v.entries[name]
    case Dir(entries) => ListingSucceeds(hash, v.entries[name], SortedKeys(entries.Keys), prefix + name + "/",
      excluded);
    case _ =>
  }

  lemma Deeper(hash: seq<Byte> -> string, v: Tree, prefix: string, excluded: set<string>, name: string, path: Path,
      item: Item)
    requires v.Dir? && name in v.entries && path != []
    ensures ListedAs(hash, v, prefix, excluded, [name] + path, item)
      <==> ListedAs(hash, v.entries[name], prefix + name + "/", excluded, path, item)
  {
    assert ([name] + path)[1..] == path;
    assert prefix + PathText([name] + path) == prefix + name + "/" + PathText(path);
  }

  function NameSet(names: seq<string>): set<string> { set name | name in names }

  /** `item` is the listing of a file whose path starts with one of `names`. */
  ghost predicate Stands(hash: seq<Byte> -> string, v: Tree, names: set<string>, prefix: string, excluded: set<string>,
      item: Item) {
    exists path: Path :: path != [] && path[0] in names && ListedAs(hash, v, prefix, excluded, path, item)
  }

  lemma {:induction false} EntryListed(hash: seq<Byte> -> string, v: Tree, name: string, prefix: string,
      excluded: set<string>, item: Item)
    requires v.Dir? && name in v.entries && Entry(hash, v, name, prefix, excluded).Some?
    ensures item in Entry(hash, v, name, prefix, excluded).value <==> Stands(hash, v, {name}, prefix, excluded, item)
    decreases v, 0
  {
    hide Listing, ListedAs;
    match v.entries[name] {
      case Special =>
      case File(content) => FileListed(hash, v, name, prefix, excluded, item);
      case Dir(entries) =>
        var child := v.entries[name];
        var names := SortedKeys(entries.Keys);
        ListingListed(hash, child, names, prefix + name + "/", excluded, item);
        if Stands(hash, child, NameSet(names), prefix + name + "/", excluded, item) {
          var path: Path :| path != [] && path[0] in names && ListedAs(hash, child, prefix + name + "/", excluded,
            path, item);
          Deeper(hash, v, prefix, excluded, name, path, item);
          assert ([name] + path)[0] == name;
        }
        if Stands(hash, v, {name}, prefix, excluded, item) {
          var path: Path :| path != [] && path[0] in {name} && ListedAs(hash, v, prefix, excluded, path, item);
          InsideDir(hash, v, prefix, excluded, path, item);
          assert path == [name] + path[1..];
          Deeper(hash, v, prefix, excluded, name, path[1..], item);
        }
    }
  }

  lemma InsideDir(hash: seq<Byte> -> string, v: Tree, prefix: string, excluded: set<string>, path: Path, item: Item)
    requires v.Dir? && ListedAs(hash, v, prefix, excluded, path, item) && path[0] in v.entries
      && v.entries[path[0]].Dir?
    ensures |path| > 1 && path[1] in v.entries[path[0]].entries
  {
    assert FileAt(v.entries[path[0]], path[1..]).Some?;
  }

  lemma FileListed(hash: seq<Byte> -> string, v: Tree, name: string, prefix: string, excluded: set<string>, item: Item)
    requires v.Dir? && name in v.entries && v.entries[name].File?
    ensures item in Entry(hash, v, name, prefix, excluded).value <==> Stands(hash, v, {name}, prefix, excluded, item)
  {
    if item in Entry(hash, v, name, prefix, excluded).value {
      assert ListedAs(hash, v, prefix, excluded, [name], item);
      assert [name][0] in {name};
    }
    if Stands(hash, v, {name}, prefix, excluded, item) {
      var path: Path :| path != [] && path[0] in {name} && ListedAs(hash, v, prefix, excluded, path, item);
      assert FileAt(v.entries[name], path[1..]).Some?;
      assert path == [name];
    }
  }

  lemma {:induction false} ListingListed(hash: seq<Byte> -> string, v: Tree, names: seq<string>, prefix: string,
      excluded: set<string>, item: Item)
    requires v.Dir? && (forall name <- names :: name in v.entries) && Listing(hash, v, names, prefix, excluded).Some?
    ensures item in Listing(hash, v, names, prefix, excluded).value
      <==> Stands(hash, v, NameSet(names), prefix, excluded, item)
    decreases v, |names|
  {
    hide Entry, ListedAs;
    if names != [] {
      var before, last := names[..|names| - 1], names[|names| - 1];
      ListingListed(hash, v, before, prefix, excluded, item);
      EntryListed(hash, v, last, prefix, excluded, item);
      assert names == before + [last];
      StandsBoth(hash, v, before, last, prefix, excluded, item);
    }
  }

  lemma StandsBoth(hash: seq<Byte> -> string, v: Tree, before: seq<string>, last: string, prefix: string,
      excluded: set<string>, item: Item)
    ensures Stands(hash, v, NameSet(before + [last]), prefix, excluded, item)
      <==> Stands(hash, v, NameSet(before), prefix, excluded, item) || Stands(hash, v, {last}, prefix, excluded, item)
  {
    hide ListedAs;
    var all, some := NameSet(before + [last]), NameSet(before);
    assert all == some + {last};
    if Stands(hash, v, all, prefix, excluded, item) {
      var path: Path :| path != [] && path[0] in all && ListedAs(hash, v, prefix, excluded, path, item);
      assert path[0] in some || path[0] in {last};
    }
    if Stands(hash, v, some, prefix, excluded, item) {
      var path: Path :| path != [] && path[0] in some && ListedAs(hash, v, prefix, excluded, path, item);
      assert path[0] in all;
    }
    if Stands(hash, v, {last}, prefix, excluded, item) {
      var path: Path :| path != [] && path[0] in {last} && ListedAs(hash, v, prefix, excluded, path, item);
      assert path[0] in all;
    }
  }

  // ---- Paths are unique ------------------------------------------------------------------

  lemma {:induction false} NamesInPath(v: Tree, path: Path)
    requires NamesOk(v) && FileAt(v, path).Some?
    ensures forall name <- path :: IsName(name)
    decreases |path|
  {
    if path != [] {
      NamesInPath(v.entries[path[0]], path[1..]);
      assert path == [path[0]] + path[1..];
    }
  }

  lemma OnePath(hash: seq<Byte> -> string, v: Tree, w: Tree, prefix: string, excluded: set<string>, p: Path, q: Path,
      a: Item, b: Item)
    requires NamesOk(v) && NamesOk(w) && a.path == b.path
    requires ListedAs(hash, v, prefix, excluded, p, a) && ListedAs(hash, w, prefix, excluded, q, b)
    ensures p == q
  {
    NamesInPath(v, p);
    NamesInPath(w, q);
    assert (prefix + PathText(p))[|prefix|..] == PathText(p) && (prefix + PathText(q))[|prefix|..] == PathText(q);
    PathTextInjective(p, q);
  }

  lemma ItemsApart(hash: seq<Byte> -> string, v: Tree, before: set<string>, last: string, prefix: string,
      excluded: set<string>, a: Item, b: Item)
    requires NamesOk(v) && last !in before
    requires Stands(hash, v, before, prefix, excluded, a) && Stands(hash, v, {last}, prefix, excluded, b)
    ensures a.path != b.path
  {
    hide ListedAs, NamesOk;
    var p: Path :| p != [] && p[0] in before && ListedAs(hash, v, prefix, excluded, p, a);
    var q: Path :| q != [] && q[0] in {last} && ListedAs(hash, v, prefix, excluded, q, b);
    if a.path == b.path { OnePath(hash, v, v, prefix, excluded, p, q, a, b); }
  }

  predicate DistinctNames(names: seq<string>) {
    forall i, j | 0 <= i < j < |names| :: names[i] != names[j]
  }

  lemma {:induction false} ListingDistinct(hash: seq<Byte> -> string, v: Tree, names: seq<string>, prefix: string,
      excluded: set<string>)
    requires v.Dir? && NamesOk(v) && DistinctNames(names) && forall name <- names :: name in v.entries
    requires Listing(hash, v, names, prefix, excluded).Some?
    ensures DistinctKeys(ItemKey, Listing(hash, v, names, prefix, excluded).value)
    decreases v, |names|
  {
    hide Entry, Stands;
    if names != [] {
      var before, last := names[..|names| - 1], names[|names| - 1];
      ListingDistinct(hash, v, before, prefix, excluded);
      EntryDistinct(hash, v, last, prefix, excluded);
      var xs, ys := Listing(hash, v, before, prefix, excluded).value, Entry(hash, v, last, prefix, excluded).value;
      forall a, b | a in xs && b in ys ensures a.path != b.path {
        ListingListed(hash, v, before, prefix, excluded, a);
        EntryListed(hash, v, last, prefix, excluded, b);
        ItemsApart(hash, v, NameSet(before), last, prefix, excluded, a, b);
      }
      DistinctConcat(xs, ys);
    }
  }

  lemma DistinctConcat(xs: seq<Item>, ys: seq<Item>)
    requires DistinctKeys(ItemKey, xs) && DistinctKeys(ItemKey, ys)
    requires forall a, b | a in xs && b in ys :: a.path != b.path
    ensures DistinctKeys(ItemKey, xs + ys)
  {
    var all := xs + ys;
    forall i, j | 0 <= i < j < |all| ensures ItemKey(all[i]) != ItemKey(all[j]) {
      if j < |xs| {
        assert ItemKey(xs[i]) != ItemKey(xs[j]);
        assert all[i] == xs[i] && all[j] == xs[j];
      } else if i < |xs| {
        assert xs[i] in xs && ys[j - |xs|] in ys;
        PathKey(xs[i], ys[j - |xs|]);
      } else {
        assert ItemKey(ys[i - |xs|]) != ItemKey(ys[j - |xs|]);
      }
    }
  }

  lemma PathKey(a: Item, b: Item)
    ensures ItemKey(a) == ItemKey(b) <==> a.path == b.path
  {
    assert ItemKey(a)[0] == a.path && ItemKey(b)[0] == b.path;
  }

  lemma {:induction false} EntryDistinct(hash: seq<Byte> -> string, v: Tree, name: string, prefix: string,
      excluded: set<string>)
    requires v.Dir? && NamesOk(v) && name in v.entries && Entry(hash, v, name, prefix, excluded).Some?
    ensures DistinctKeys(ItemKey, Entry(hash, v, name, prefix, excluded).value)
    decreases v, 0
  {
    match v.entries[name]
    case Dir(entries) =>
      SortedNamesDistinct(entries.Keys);
      ListingDistinct(hash, v.entries[name], SortedKeys(entries.Keys), prefix + name + "/", excluded);
    case _ =>
  }

  lemma SortedNamesDistinct(names: set<string>)
    ensures DistinctNames(SortedKeys(names))
  {
    var ks := SortedKeys(names);
    forall i, j | 0 <= i < j < |ks| ensures ks[i] != ks[j] {
      assert Before(ks[i], ks[j]);
      BeforeIrreflexive(ks[i]);
    }
  }

  // ---- What equal inventories mean -------------------------------------------------------

  /** The two directories hold the same files, byte for byte, at every path that is not excluded. */
  ghost predicate SameFiles(s: Tree, t: Tree, excluded: set<string>) {
    forall path: Path | path != [] && PathText(path) !in excluded :: FileAt(s, path) == FileAt(t, path)
  }

  ghost predicate InListing(hash: seq<Byte> -> string, v: Tree, excluded: set<string>, item: Item) {
    exists path: Path :: ListedAs(hash, v, "", excluded, path, item)
  }

  /** An inventory lists exactly the files that are not excluded, sorted, each path once. */
  lemma InventoryExactly(hash: seq<Byte> -> string, v: Tree, excluded: set<string>)
    requires v.Dir? && NamesOk(v)
    ensures Inventory(hash, v, excluded).Some? <==> !HasSpecial(v)
    ensures Inventory(hash, v, excluded).Some? ==>
      var items := Inventory(hash, v, excluded).value;
      && (forall item :: item in items <==> InListing(hash, v, excluded, item))
      && Sorted(ItemKey, items) && DistinctKeys(ItemKey, items)
  {
    hide Listing, Sort, NamesOk, ListedAs;
    var names := SortedKeys(v.entries.Keys);
    ListingSucceeds(hash, v, names, "", excluded);
    if Inventory(hash, v, excluded).Some? {
      var listing := Listing(hash, v, names, "", excluded).value;
      var items := Inventory(hash, v, excluded).value;
      SortedNamesDistinct(v.entries.Keys);
      ListingDistinct(hash, v, names, "", excluded);
      SortSorts(ItemKey, listing);
      DistinctAfterSort(ItemKey, listing, items);
      forall item ensures item in items <==> InListing(hash, v, excluded, item) {
        assert item in items <==> item in multiset(items);
        assert item in listing <==> item in multiset(listing);
        ListingListed(hash, v, names, "", excluded, item);
        StandsAnywhere(hash, v, excluded, item);
      }
    }
  }

  lemma StandsAnywhere(hash: seq<Byte> -> string, v: Tree, excluded: set<string>, item: Item)
    requires v.Dir?
    ensures Stands(hash, v, NameSet(SortedKeys(v.entries.Keys)), "", excluded, item) <==>
      InListing(hash, v, excluded, item)
  {
    if InListing(hash, v, excluded, item) {
      var path: Path :| ListedAs(hash, v, "", excluded, path, item);
      assert path[0] in v.entries;
    }
  }

  /** Lists with one entry per key hold the same entries only in one number. */
  lemma SameMembers(xs: seq<Item>, ys: seq<Item>)
    requires DistinctKeys(ItemKey, xs) && DistinctKeys(ItemKey, ys) && forall x :: x in xs <==> x in ys
    ensures multiset(xs) == multiset(ys)
  {
    forall x ensures multiset(xs)[x] == multiset(ys)[x] {
      if x in xs {
        var i :| 0 <= i < |xs| && xs[i] == x;
        var j :| 0 <= j < |ys| && ys[j] == x;
        DistinctItems(xs);
        DistinctItems(ys);
        OnceCounts(xs, i);
        OnceCounts(ys, j);
      }
    }
  }

  lemma DistinctItems(xs: seq<Item>)
    requires DistinctKeys(ItemKey, xs)
    ensures forall i, j | 0 <= i < j < |xs| :: xs[i] != xs[j]
  {
    forall i, j | 0 <= i < j < |xs| ensures xs[i] != xs[j] {
      assert ItemKey(xs[i]) != ItemKey(xs[j]);
    }
  }

  lemma ListedSame(hash: seq<Byte> -> string, s: Tree, t: Tree, excluded: set<string>, path: Path, item: Item)
    requires SameFiles(s, t, excluded) && ListedAs(hash, s, "", excluded, path, item)
    ensures ListedAs(hash, t, "", excluded, path, item)
  {
    assert "" + PathText(path) == PathText(path);
  }

  /** Equal files give equal inventories. */
  lemma SameFilesSameInventory(hash: seq<Byte> -> string, s: Tree, t: Tree, excluded: set<string>)
    requires s.Dir? && t.Dir? && NamesOk(s) && NamesOk(t) && !HasSpecial(s) && !HasSpecial(t)
    requires SameFiles(s, t, excluded)
    ensures Inventory(hash, s, excluded) == Inventory(hash, t, excluded)
  {
    hide Inventory, NamesOk, HasSpecial;
    InventoryExactly(hash, s, excluded);
    InventoryExactly(hash, t, excluded);
    var xs, ys := Inventory(hash, s, excluded).value, Inventory(hash, t, excluded).value;
    forall item ensures InListing(hash, s, excluded, item) <==> InListing(hash, t, excluded, item) {
      if path: Path :| ListedAs(hash, s, "", excluded, path, item) { ListedSame(hash, s, t, excluded, path, item); }
      if path: Path :| ListedAs(hash, t, "", excluded, path, item) { ListedSame(hash, t, s, excluded, path, item); }
    }
    SameMembers(xs, ys);
    SortedUnique(ItemKey, xs, ys);
  }

  /** What one inventory lists at a path, an equal one lists there too. */
  lemma ListedInBoth(hash: seq<Byte> -> string, s: Tree, t: Tree, excluded: set<string>, path: Path)
    requires s.Dir? && t.Dir? && NamesOk(s) && NamesOk(t)
    requires Inventory(hash, s, excluded).Some? && Inventory(hash, s, excluded) == Inventory(hash, t, excluded)
    requires path != [] && PathText(path) !in excluded && FileAt(s, path).Some?
    ensures FileAt(t, path).Some? && hash(FileAt(t, path).value) == hash(FileAt(s, path).value)
    ensures |FileAt(t, path).value| == |FileAt(s, path).value|
  {
    hide Inventory, NamesOk, HasSpecial;
    InventoryExactly(hash, s, excluded);
    InventoryExactly(hash, t, excluded);
    var item := Item(PathText(path), hash(FileAt(s, path).value), |FileAt(s, path).value|);
    assert "" + PathText(path) == PathText(path);
    assert ListedAs(hash, s, "", excluded, path, item);
    assert InListing(hash, s, excluded, item) && InListing(hash, t, excluded, item);
    var q: Path :| ListedAs(hash, t, "", excluded, q, item);
    OnePath(hash, s, t, "", excluded, path, q, item, item);
  }

  /**
   * Two directories have equal inventories exactly when they hold the same files, or the
   * lemma hands back two different byte strings of one length with one digest.
   */
  lemma InventoryDeterminesFiles(hash: seq<Byte> -> string, s: Tree, t: Tree, excluded: set<string>)
    returns (x: seq<Byte>, y: seq<Byte>)
    requires s.Dir? && t.Dir? && NamesOk(s) && NamesOk(t) && !HasSpecial(s) && !HasSpecial(t)
    ensures SameFiles(s, t, excluded) ==> Inventory(hash, s, excluded) == Inventory(hash, t, excluded)
    ensures Inventory(hash, s, excluded) == Inventory(hash, t, excluded) ==>
      SameFiles(s, t, excluded) || (x != y && |x| == |y| && hash(x) == hash(y))
  {
    hide Inventory, NamesOk, HasSpecial;
    x, y := [], [];
    InventoryExactly(hash, s, excluded);
    if SameFiles(s, t, excluded) {
      SameFilesSameInventory(hash, s, t, excluded);
    } else if Inventory(hash, s, excluded) == Inventory(hash, t, excluded) {
      var path: Path :| path != [] && PathText(path) !in excluded && FileAt(s, path) != FileAt(t, path);
      if FileAt(s, path).Some? {
        ListedInBoth(hash, s, t, excluded, path);
      } else {
        ListedInBoth(hash, t, s, excluded, path);
      }
      x, y := FileAt(s, path).value, FileAt(t, path).value;
    }
  }

  /** An inventory does not see an empty directory, so neither does a comparison with one. */
  lemma EmptyDirectoryUnseen(hash: seq<Byte> -> string, v: Tree, name: string, excluded: set<string>)
    requires v.Dir? && NamesOk(v) && !HasSpecial(v)
    requires name !in v.entries && IsName(name)
    ensures Inventory(hash, Dir(v.entries[name := Dir(map[])]), excluded) == Inventory(hash, v, excluded)
  {
    var t := Dir(v.entries[name := Dir(map[])]);
    assert !HasSpecial(Dir(map[]));
    forall path: Path | path != [] ensures FileAt(v, path) == FileAt(t, path) {
      if path[0] == name { assert FileAt(Dir(map[]), path[1..]) == None; }
    }
    SameFilesSameInventory(hash, t, v, excluded);
  }

  // ---- The writer's own test of an inventory -----------------------------------------------

  function ItemJson(item: Item): Json {
    Obj(map["path" := Str(item.path), "sha256" := Str(item.digest), "size" := Num(item.size)])
  }

  function FilesJson(files: seq<Json>): Json { Obj(map["files" := Arr(files)]) }

  /** The record that `_inventory` returns. */
  function InventoryJson(hash: seq<Byte> -> string, items: seq<Item>): Json {
    var files := seq(|items|, i requires 0 <= i < |items| => ItemJson(items[i]));
    Obj(map["files" := Arr(files), "sha256" := Str(hash(JsonLine(FilesJson(files))))])
  }

  function JsonLine(v: Json): seq<Byte> {
    match CanonicalLine(v) case Success(line) => line case Failure(_) => []
  }

  /** One listed file as `_valid_inventory` wants it: a relative path that never climbs, a digest, a size. */
  predicate ValidItem(v: Json) {
    && v.Obj? && v.members.Keys == {"path", "sha256", "size"}
    && v.members["path"].Str? && v.members["sha256"].Str? && v.members["size"].Num?
    && var path := v.members["path"].text;
    && path != "" && path[0] != '/' && ".." !in SplitOn(path, '/')
    && HashShape(v.members["sha256"].text) && v.members["size"].number >= 0
  }

  function ItemPath(v: Json): string
    requires ValidItem(v)
  {
    v.members["path"].text
  }

  /** `_valid_inventory`. */
  predicate ValidInventory(hash: seq<Byte> -> string, v: Json) {
    && v.Obj? && v.members.Keys == {"files", "sha256"}
    && v.members["files"].Arr? && v.members["sha256"].Str? && HashShape(v.members["sha256"].text)
    && var files := v.members["files"].items;
    && (forall file <- files :: ValidItem(file))
    && StrictlySorted(seq(|files|, i requires 0 <= i < |files| => assert files[i] in files; ItemPath(files[i])))
    && CanonicalLine(FilesJson(files)).Success?
    && v.members["sha256"].text == hash(JsonLine(FilesJson(files)))
  }

  lemma ListedValid(hash: seq<Byte> -> string, v: Tree, excluded: set<string>, item: Item)
    requires NamesOk(v) && InListing(hash, v, excluded, item) && forall b :: HashShape(hash(b))
    ensures ValidItem(ItemJson(item)) && !HasReal(ItemJson(item))
  {
    var path: Path :| ListedAs(hash, v, "", excluded, path, item);
    NamesInPath(v, path);
    assert "" + PathText(path) == PathText(path) == item.path;
    RelativePath(path);
    assert ItemJson(item).members["path"] == Str(item.path);
  }

  /** A path of names is relative and does not climb. */
  lemma RelativePath(path: Path)
    requires path != [] && forall name <- path :: IsName(name)
    ensures var text := PathText(path); text != "" && text[0] != '/' && ".." !in SplitOn(text, '/')
  {
    JoinSplits(path, '/');
    assert IsName(path[0]) && path[0][0] in path[0];
    if |path| > 1 { assert PathText(path) == path[0] + (['/'] + Join(path[1..], '/')); }
    assert PathText(path)[0] == path[0][0];
  }

  /** Every inventory that is taken passes the test that the ledger's writer makes of it. */
  lemma InventoryIsTrusted(hash: seq<Byte> -> string, v: Tree, excluded: set<string>)
    requires v.Dir? && NamesOk(v) && !HasSpecial(v) && forall b :: HashShape(hash(b))
    ensures Inventory(hash, v, excluded).Some?
    ensures ValidInventory(hash, InventoryJson(hash, Inventory(hash, v, excluded).value))
  {
    hide Inventory, NamesOk, HasSpecial, ValidItem, Text;
    InventoryExactly(hash, v, excluded);
    var items := Inventory(hash, v, excluded).value;
    var files := InventoryJson(hash, items).members["files"].items;
    forall i | 0 <= i < |items| ensures ValidItem(files[i]) && !HasReal(files[i]) {
      assert items[i] in items;
      ListedValid(hash, v, excluded, items[i]);
    }
    forall i, j | 0 <= i < j < |items| ensures Before(items[i].path, items[j].path) {
      assert ItemKey(items[i]) != ItemKey(items[j]);
      SortedPaths(items[i], items[j]);
    }
    assert !HasReal(FilesJson(files)) by { assert forall f <- files :: !HasReal(f); }
  }

  lemma SortedPaths(a: Item, b: Item)
    requires ItemKey(a) != ItemKey(b) && !KeyBefore(ItemKey(b), ItemKey(a))
    ensures Before(a.path, b.path)
  {
    BeforeTotal(a.path, b.path);
    assert ItemKey(a)[0] == a.path && ItemKey(b)[0] == b.path;
  }

  /** Two inventories that pass the test with one digest list the same files, or the lemma returns a collision. */
  lemma DigestBindsFiles(hash: seq<Byte> -> string, v: Json, w: Json) returns (x: seq<Byte>, y: seq<Byte>)
    requires ValidInventory(hash, v) && ValidInventory(hash, w) && v.members["sha256"] == w.members["sha256"]
    ensures v == w || (x != y && hash(x) == hash(y))
  {
    hide Text, StrictlySorted, ValidItem, CanonicalLine;
    x, y := JsonLine(FilesJson(v.members["files"].items)), JsonLine(FilesJson(w.members["files"].items));
    if x == y {
      CanonicalLineInjective(FilesJson(v.members["files"].items), FilesJson(w.members["files"].items));
      assert FilesJson(v.members["files"].items).members["files"]
        == FilesJson(w.members["files"].items).members["files"];
      assert v.members == w.members;
    }
  }
}
