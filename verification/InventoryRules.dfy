/** The writer's test of a recorded inventory, in the record's own fields. */
module InventoryRules {
  import opened Wrappers
  import opened Strings
  import opened Utf8
  import opened CanonicalJson
  import opened CanonicalText
  import opened LedgerChain
  import opened LedgerRules
  import opened EvidenceInventory

  /** One listed file: its path does not start at the root and never climbs. */
  predicate IsItem(v: Json, item: Item) {
    && v == Obj(map["path" := Str(item.path), "sha256" := Str(item.digest), "size" := Num(item.size)])
    && item.path != "" && item.path[0] != '/' && IsDigest(item.digest)
  }

  /** No component of the path is `..`. */
  ghost predicate NeverClimbs(path: string) { !HasWord(path, '/', "..") }

  /** The files that a record lists, in the order of their paths, each once, and their digest. */
  ghost predicate Records(hash: seq<Byte> -> string, v: Json, files: seq<Json>, items: seq<Item>, digest: string) {
    && v == Obj(map["files" := Arr(files), "sha256" := Str(digest)])
    && |files| == |items| && (forall i | 0 <= i < |files| :: IsItem(files[i], items[i]) && NeverClimbs(items[i].path))
    && (forall i, j | 0 <= i < j < |items| :: CodeOrder(items[i].path, items[j].path))
    && IsDigest(digest) && digest == hash(Encode(Text(Obj(map["files" := Arr(files)]))) + [0x0A])
  }

  function ItemOf(v: Json): Item
    requires ValidItem(v)
  {
    Item(v.members["path"].text, v.members["sha256"].text, v.members["size"].number)
  }

  lemma ItemExactly(v: Json, item: Item)
    ensures ValidItem(v) && ItemOf(v) == item <==> IsItem(v, item) && NeverClimbs(item.path)
  {
    PieceExactly(item.path, '/', "..");
    DigestExactly(item.digest);
    hide HasWord, SplitOn, HashShape, IsDigest;
    if ValidItem(v) && ItemOf(v) == item {
      assert v.members == map["path" := Str(item.path), "sha256" := Str(item.digest), "size" := Num(item.size)];
    }
  }

  lemma NoRealsListed(files: seq<Json>)
    requires forall file <- files :: ValidItem(file)
    ensures !HasReal(Obj(map["files" := Arr(files)]))
  {
    var v := Obj(map["files" := Arr(files)]);
    forall file | file in files ensures !HasReal(file) {
      assert forall key <- file.members :: key in {"path", "sha256", "size"};
    }
    assert !HasReal(Arr(files));
    assert forall key <- v.members :: key == "files";
  }

  lemma RecordedItems(hash: seq<Byte> -> string, v: Json) returns (files: seq<Json>, items: seq<Item>, digest: string)
    requires ValidInventory(hash, v)
    ensures Records(hash, v, files, items, digest)
  {
    hide ValidItem, CanonicalLine, Text, Encode, HasReal, IsDigest, HashShape, CodeOrder, Before, IsItem, NeverClimbs;
    files, digest := v.members["files"].items, v.members["sha256"].text;
    assert v.members == map["files" := Arr(files), "sha256" := Str(digest)];
    items := seq(|files|, i requires 0 <= i < |files| => assert files[i] in files; ItemOf(files[i]));
    forall i | 0 <= i < |files| ensures IsItem(files[i], items[i]) && NeverClimbs(items[i].path) {
      assert files[i] in files;
      ItemExactly(files[i], items[i]);
    }
    var paths := seq(|files|, i requires 0 <= i < |files| => assert files[i] in files; ItemPath(files[i]));
    forall i, j | 0 <= i < j < |items| ensures CodeOrder(items[i].path, items[j].path) {
      assert Before(paths[i], paths[j]);
      BeforeIsCodeOrder(items[i].path, items[j].path);
    }
    DigestExactly(digest);
    NoRealsListed(files);
    LineSpelled(Obj(map["files" := Arr(files)]));
  }

  lemma RecordTrusted(hash: seq<Byte> -> string, v: Json, files: seq<Json>, items: seq<Item>, digest: string)
    requires Records(hash, v, files, items, digest)
    ensures ValidInventory(hash, v)
  {
    hide ValidItem, CanonicalLine, Text, Encode, HasReal, IsDigest, HashShape, CodeOrder, Before, IsItem, NeverClimbs;
    forall i | 0 <= i < |files| ensures ValidItem(files[i]) && ItemOf(files[i]) == items[i] {
      ItemExactly(files[i], items[i]);
    }
    var paths := seq(|files|, i requires 0 <= i < |files| => assert files[i] in files; ItemPath(files[i]));
    forall i, j | 0 <= i < j < |paths| ensures Before(paths[i], paths[j]) {
      BeforeIsCodeOrder(items[i].path, items[j].path);
    }
    DigestExactly(digest);
    NoRealsListed(files);
    LineSpelled(Obj(map["files" := Arr(files)]));
  }

  /** The writer trusts a record exactly when it lists files in this way. */
  lemma TrustedExactly(hash: seq<Byte> -> string, v: Json)
    ensures ValidInventory(hash, v) <==> exists files, items, digest :: Records(hash, v, files, items, digest)
  {
    hide ValidInventory, Records;
    if ValidInventory(hash, v) { var files, items, digest := RecordedItems(hash, v); }
    if files, items, digest :| Records(hash, v, files, items, digest) {
      RecordTrusted(hash, v, files, items, digest);
    }
  }
}
