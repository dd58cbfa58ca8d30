/**
 `getApiSchemas` (src/file-system/get-api-schemas.ts): one schema path per
 folder of the API directory, sorted. The directory listing is a parameter,
 and so is the comparator: `localeCompare(…, "en")` is locale collation,
 modelled as an abstract `leq` that the sortedness guarantee asks to be total.
 */
module ApiSchemas {
  import opened Wrappers
  import opened Text
  import opened Casing
  import ApiInterface

  /** `${f}/content-types/${f.split("/").pop()}/schema.json` */
  function SchemaPath(folder: string): string {
    folder + "/content-types/" + Last(Split(folder, {'/'})) + "/schema.json"
  }

  /** The comparator decides every pair one way or the other. */
  ghost predicate Total(leq: (string, string) -> bool) {
    forall a, b :: leq(a, b) || leq(b, a)
  }

  /** The comparator chains: `leq(a, b)` and `leq(b, c)` give `leq(a, c)`. */
  ghost predicate Transitive(leq: (string, string) -> bool) {
    forall a, b, c :: leq(a, b) && leq(b, c) ==> leq(a, c)
  }

  /** Only equal strings compare both ways. */
  ghost predicate Antisymmetric(leq: (string, string) -> bool) {
    forall a, b :: leq(a, b) && leq(b, a) ==> a == b
  }

  /** Every element is `leq` its successor. */
  predicate SortedBy(xs: seq<string>, leq: (string, string) -> bool) {
    forall i :: 0 <= i < |xs| - 1 ==> leq(xs[i], xs[i + 1])
  }

  /** Places `x` before the first element it is `leq` to. */
  function Insert(x: string, ys: seq<string>, leq: (string, string) -> bool): (r: seq<string>)
    ensures |r| == |ys| + 1
    ensures multiset(r) == multiset(ys) + multiset{x}
    ensures r[0] == x || (|ys| > 0 && r[0] == ys[0])
  {
    if |ys| == 0 || leq(x, ys[0]) then [x] + ys
    else
      assert ys == [ys[0]] + ys[1..];
      [ys[0]] + Insert(x, ys[1..], leq)
  }

  /** Inserting into a sorted list keeps it sorted. */
  lemma {:induction false} InsertSorted(x: string, ys: seq<string>, leq: (string, string) -> bool)
    requires Total(leq) && SortedBy(ys, leq)
    ensures SortedBy(Insert(x, ys, leq), leq)
    decreases |ys|
  {
    if |ys| > 0 && !leq(x, ys[0]) {
      assert leq(ys[0], x);
      InsertSorted(x, ys[1..], leq);
      var rest := Insert(x, ys[1..], leq);
      assert Insert(x, ys, leq) == [ys[0]] + rest;
      assert rest[0] == x || rest[0] == ys[1];
    }
  }

  /** `xs.sort(compare)`: a permutation of `xs`, in order when the comparator is total. */
  function SortBy(xs: seq<string>, leq: (string, string) -> bool): (r: seq<string>)
    ensures |r| == |xs|
    ensures multiset(r) == multiset(xs)
  {
    if |xs| == 0 then []
    else
      assert xs == [xs[0]] + xs[1..];
      Insert(xs[0], SortBy(xs[1..], leq), leq)
  }

  lemma {:induction false} SortSorted(xs: seq<string>, leq: (string, string) -> bool)
    requires Total(leq)
    ensures SortedBy(SortBy(xs, leq), leq)
    decreases |xs|
  {
    if |xs| > 0 {
      SortSorted(xs[1..], leq);
      InsertSorted(xs[0], SortBy(xs[1..], leq), leq);
    }
  }

  /** The schema paths of `folders`, in listing order. */
  function SchemaPaths(folders: seq<string>): seq<string> {
    Image(SchemaPath, folders)
  }

  /** `getApiSchemas()` over the listing `folders` of the API directory. */
  function GetApiSchemas(folders: seq<string>, leq: (string, string) -> bool): (r: seq<string>)
    ensures |r| == |folders|
    ensures multiset(r) == multiset(SchemaPaths(folders))
  {
    SortBy(SchemaPaths(folders), leq)
  }

  /** With a total comparator the schema paths come out in order. */
  lemma ApiSchemasSorted(folders: seq<string>, leq: (string, string) -> bool)
    requires Total(leq)
    ensures SortedBy(GetApiSchemas(folders, leq), leq)
  {
    SortSorted(SchemaPaths(folders), leq);
  }

  /** Every produced path is the schema path of some listed folder, and every folder's path is produced. */
  lemma PathsOfFolders(folders: seq<string>, leq: (string, string) -> bool)
    ensures var r := GetApiSchemas(folders, leq);
            && (forall i :: 0 <= i < |r| ==> exists j :: 0 <= j < |folders| && r[i] == SchemaPath(folders[j]))
            && (forall j :: 0 <= j < |folders| ==> SchemaPath(folders[j]) in r)
  {
    var r := GetApiSchemas(folders, leq);
    var paths := SchemaPaths(folders);
    forall i | 0 <= i < |r|
      ensures exists j :: 0 <= j < |folders| && r[i] == SchemaPath(folders[j])
    {
      assert r[i] in multiset(r);
      assert r[i] in paths;
      var j :| 0 <= j < |paths| && paths[j] == r[i];
      assert r[i] == SchemaPath(folders[j]);
    }
    forall j | 0 <= j < |folders|
      ensures SchemaPath(folders[j]) in r
    {
      assert paths[j] in multiset(paths);
      assert paths[j] in multiset(r);
    }
  }

  /**
   The schema path keeps the folder's own name as its second-to-last "/"
   segment, the segment from which interface and route names are taken.
   */
  lemma SchemaPathSegments(folder: string)
    ensures var name := Last(Split(folder, {'/'}));
            && AtFromEnd(Split(SchemaPath(folder), {'/'}), 2) == Some(name)
            && ApiInterface.InterfaceName(SchemaPath(folder)) == TitleCase(name)
  {
    var name := Last(Split(folder, {'/'}));
    var dir := folder + "/content-types";
    var file := "schema.json";
    SplitPiecesFree(folder, {'/'});
    assert Free(name, {'/'});
    assert Free(file, {'/'});
    assert SchemaPath(folder) == dir + ['/'] + name + ['/'] + file;
    SplitLastTwo(dir, '/', name, '/', file, {'/'});
    ApiInterface.NameFromFolder(dir, name, file);
    assert dir + "/" + name + "/" + file == SchemaPath(folder);
  }

  /**
   With a total order, the listing's order does not matter: listings that
   hold the same folders give the same sorted paths.
   */
  lemma ListingOrderIrrelevant(folders: seq<string>, other: seq<string>, leq: (string, string) -> bool)
    requires Total(leq) && Transitive(leq) && Antisymmetric(leq)
    requires multiset(folders) == multiset(other)
    ensures GetApiSchemas(folders, leq) == GetApiSchemas(other, leq)
  {
    ImageMultiset(SchemaPath, folders, other);
    SortSorted(SchemaPaths(folders), leq);
    SortSorted(SchemaPaths(other), leq);
    SortedUnique(GetApiSchemas(folders, leq), GetApiSchemas(other, leq), leq);
  }

  /** In a sorted list the first element is `leq` every element. */
  lemma {:induction false} HeadLeast(xs: seq<string>, leq: (string, string) -> bool)
    requires Total(leq) && Transitive(leq) && SortedBy(xs, leq) && |xs| > 0
    ensures forall i :: 0 <= i < |xs| ==> leq(xs[0], xs[i])
    decreases |xs|
  {
    var x := xs[0];
    assert leq(x, x) || leq(x, x);
    if |xs| > 1 {
      var tail := xs[1..];
      SortedTail(xs, leq);
      HeadLeast(tail, leq);
      forall i | 1 <= i < |xs| ensures leq(xs[0], xs[i]) {
        assert leq(tail[0], tail[i - 1]);
        assert leq(xs[0], xs[1]);
      }
    }
  }

  /** Two sorted lists with the same elements are the same list, when the order is antisymmetric. */
  lemma {:induction false} SortedUnique(xs: seq<string>, ys: seq<string>, leq: (string, string) -> bool)
    requires Total(leq) && Transitive(leq) && Antisymmetric(leq)
    requires SortedBy(xs, leq) && SortedBy(ys, leq) && multiset(xs) == multiset(ys)
    ensures xs == ys
    decreases |xs|
  {
    assert |xs| == |multiset(xs)| == |multiset(ys)| == |ys|;
    if |xs| > 0 {
      HeadLeast(xs, leq);
      HeadLeast(ys, leq);
      assert xs[0] in multiset(ys);
      var k :| 0 <= k < |ys| && ys[k] == xs[0];
      assert ys[0] in multiset(xs);
      var j :| 0 <= j < |xs| && xs[j] == ys[0];
      assert leq(ys[0], ys[k]) && leq(xs[0], xs[j]);
      assert xs[0] == ys[0];
      assert xs == [xs[0]] + xs[1..];
      assert ys == [ys[0]] + ys[1..];
      assert multiset(xs) == multiset{xs[0]} + multiset(xs[1..]);
      assert multiset(ys) == multiset{ys[0]} + multiset(ys[1..]);
      assert multiset(xs[1..]) == multiset(xs) - multiset{xs[0]};
      assert multiset(ys[1..]) == multiset(ys) - multiset{ys[0]};
      SortedTail(xs, leq);
      SortedTail(ys, leq);
      SortedUnique(xs[1..], ys[1..], leq);
    }
  }

  lemma SortedTail(xs: seq<string>, leq: (string, string) -> bool)
    requires SortedBy(xs, leq) && |xs| > 0
    ensures SortedBy(xs[1..], leq)
  {
    var tail := xs[1..];
    forall i | 0 <= i < |tail| - 1 ensures leq(tail[i], tail[i + 1]) {
      assert tail[i] == xs[i + 1] && tail[i + 1] == xs[i + 2];
    }
  }

  /** Removing position `k` removes one copy of its element. */
  lemma RemoveAt(ys: seq<string>, k: nat)
    requires k < |ys|
    ensures multiset(ys[..k] + ys[k + 1..]) == multiset(ys) - multiset{ys[k]}
  {
    assert ys == ys[..k] + [ys[k]] + ys[k + 1..];
  }

  /** The image of a list, cut around position `k`. */
  lemma ImageAround(f: string -> string, ys: seq<string>, k: nat)
    requires k < |ys|
    ensures multiset(Image(f, ys)) == multiset(Image(f, ys[..k] + ys[k + 1..])) + multiset{f(ys[k])}
  {
    assert Image(f, ys) == Image(f, ys[..k]) + [f(ys[k])] + Image(f, ys[k + 1..]);
    assert Image(f, ys[..k] + ys[k + 1..]) == Image(f, ys[..k]) + Image(f, ys[k + 1..]);
  }

  /** Taking the same element out of two lists equal up to order leaves lists equal up to order. */
  lemma RemoveSame(xs: seq<string>, ys: seq<string>, k: nat)
    requires multiset(xs) == multiset(ys)
    requires |xs| > 0 && k < |ys| && ys[k] == xs[0]
    ensures multiset(xs[1..]) == multiset(ys[..k] + ys[k + 1..])
  {
    RemoveAt(ys, k);
    RemoveAt(xs, 0);
    assert xs[..0] + xs[1..] == xs[1..];
  }

  /** Putting the same element back into both images. */
  lemma ImageRestore(f: string -> string, xs: seq<string>, ys: seq<string>, k: nat)
    requires |xs| > 0 && k < |ys| && ys[k] == xs[0]
    requires multiset(Image(f, xs[1..])) == multiset(Image(f, ys[..k] + ys[k + 1..]))
    ensures multiset(Image(f, xs)) == multiset(Image(f, ys))
  {
    ImageAround(f, ys, k);
    ImageHead(f, xs);
  }

  lemma ImageHead(f: string -> string, xs: seq<string>)
    requires |xs| > 0
    ensures multiset(Image(f, xs)) == multiset(Image(f, xs[1..])) + multiset{f(xs[0])}
  {
    assert Image(f, xs) == [f(xs[0])] + Image(f, xs[1..]);
  }

  /** Lists equal up to order have images equal up to order. */
  lemma {:induction false} ImageMultiset(f: string -> string, xs: seq<string>, ys: seq<string>)
    requires multiset(xs) == multiset(ys)
    ensures multiset(Image(f, xs)) == multiset(Image(f, ys))
    decreases |xs|
  {
    if |xs| > 0 {
      assert xs[0] in multiset(ys);
      var k :| 0 <= k < |ys| && ys[k] == xs[0];
      RemoveSame(xs, ys, k);
      ImageMultiset(f, xs[1..], ys[..k] + ys[k + 1..]);
      ImageRestore(f, xs, ys, k);
    }
  }
}
