/** Relative POSIX paths, the order of strings by code point, and sorting by a string key. */
module ReleasePaths {
  import Sorting

  /** The names from the root down to a file. */
  type Path = seq<string>

  /** A name as a file system can hold it. */
  predicate GoodName(name: string) {
    name != [] && '/' !in name && name != ['.'] && name != ['.', '.']
  }

  predicate GoodPath(path: Path) {
    path != [] && forall i | 0 <= i < |path| :: GoodName(path[i])
  }

  /** `as_posix` of a relative path given by its names. */
  function Join(path: Path): string {
    if path == [] then []
    else if |path| == 1 then path[0]
    else path[0] + ['/'] + Join(path[1..])
  }

  function Split(text: string): (names: seq<string>)
    ensures names != []
  {
    if text == [] then [[]]
    else
      var rest := Split(text[1..]);
      if text[0] == '/' then [[]] + rest else [[text[0]] + rest[0]] + rest[1..]
  }

  function Significant(names: seq<string>): seq<string> {
    if names == [] then []
    else (if names[0] == [] || names[0] == ['.'] then [] else [names[0]]) + Significant(names[1..])
  }

  /** `PurePosixPath(text).parts` of a relative text: empty names and single dots disappear. */
  function Parts(text: string): seq<string> {
    Significant(Split(text))
  }

  predicate IsAbsolute(text: string) {
    text != [] && text[0] == '/'
  }

  /** `PurePosixPath(text).as_posix()` of a relative text. */
  function AsPosix(text: string): string {
    if Parts(text) == [] then ['.'] else Join(Parts(text))
  }

  lemma {:induction false} SplitName(name: string)
    requires '/' !in name
    ensures Split(name) == [name]
  {
    if name != [] {
      SplitName(name[1..]);
      assert [name[0]] + name[1..] == name;
    }
  }

  lemma {:induction false} SplitFirst(name: string, rest: string)
    requires '/' !in name
    ensures Split(name + ['/'] + rest) == [name] + Split(rest)
    decreases |name|
  {
    var text := name + ['/'] + rest;
    if name == [] {
      assert text[1..] == rest;
    } else {
      SplitFirst(name[1..], rest);
      assert text[0] == name[0] && text[1..] == name[1..] + ['/'] + rest;
      assert ([name[1..]] + Split(rest))[1..] == Split(rest);
      assert [name[0]] + name[1..] == name;
    }
  }

  lemma {:induction false} SplitJoin(path: Path)
    requires GoodPath(path)
    ensures Split(Join(path)) == path
    decreases |path|
  {
    if |path| == 1 {
      SplitName(path[0]);
    } else {
      SplitJoin(path[1..]);
      SplitFirst(path[0], Join(path[1..]));
    }
  }

  lemma {:induction false} AllSignificant(path: Path)
    requires forall i | 0 <= i < |path| :: GoodName(path[i])
    ensures Significant(path) == path
  {
    if path != [] {
      AllSignificant(path[1..]);
    }
  }

  /** Reading back the text of a path gives the path, so different paths have different texts. */
  lemma PartsOfJoin(path: Path)
    requires GoodPath(path)
    ensures Parts(Join(path)) == path && AsPosix(Join(path)) == Join(path)
    ensures Join(path) != [] && !IsAbsolute(Join(path))
  {
    SplitJoin(path);
    AllSignificant(path);
    assert Join(path)[0] == path[0][0];
  }

  // The order of texts

  predicate Before(a: string, b: string) {
    b != [] && (a == [] || a[0] < b[0] || (a[0] == b[0] && Before(a[1..], b[1..])))
  }

  lemma {:induction false} BeforeIsLinear(a: string, b: string)
    ensures !(Before(a, b) && Before(b, a))
    ensures Before(a, b) || Before(b, a) <==> a != b
    decreases |a|
  {
    if a != [] && b != [] {
      BeforeIsLinear(a[1..], b[1..]);
      if a[0] == b[0] && a[1..] == b[1..] {
        assert a == [a[0]] + a[1..] == b;
      }
    }
  }

  lemma {:induction false} BeforeIsTransitive(a: string, b: string, c: string)
    requires !Before(b, a) && !Before(c, b)
    ensures !Before(c, a)
    decreases |a|
  {
    if Before(c, a) && a != [] && b != [] && c != [] && a[0] == c[0] {
      BeforeIsTransitive(a[1..], b[1..], c[1..]);
    }
  }

  /** The key of a plain sort of texts. */
  function Itself(text: string): string {
    text
  }

  ghost predicate Ascending<T>(items: seq<T>, key: T -> string) {
    forall i, j | 0 <= i < j < |items| :: !Before(key(items[j]), key(items[i]))
  }

  /** The order of items by their keys. */
  function ByKey<T>(key: T -> string): (T, T) -> bool {
    (a, b) => !Before(key(b), key(a))
  }

  /** `sorted(items, key=key)`. */
  function Sort<T>(items: seq<T>, key: T -> string): seq<T> {
    Sorting.Sort(items, ByKey(key))
  }

  lemma KeyOrder<T(!new)>(key: T -> string)
    ensures Sorting.TotalPreorder(ByKey(key))
  {
    forall x, y
      ensures ByKey(key)(x, y) || ByKey(key)(y, x)
    {
      BeforeIsLinear(key(x), key(y));
    }
    forall x, y, z | ByKey(key)(x, y) && ByKey(key)(y, z)
      ensures ByKey(key)(x, z)
    {
      BeforeIsTransitive(key(x), key(y), key(z));
    }
  }

  lemma SortAscends<T(!new)>(items: seq<T>, key: T -> string)
    ensures Ascending(Sort(items, key), key)
    ensures multiset(Sort(items, key)) == multiset(items)
  {
    KeyOrder(key);
    Sorting.SortOrders(items, ByKey(key));
  }

  /** A list is its own sorted form exactly if its keys ascend. */
  lemma SortedExactlyIfAscending<T(!new)>(items: seq<T>, key: T -> string)
    ensures items == Sort(items, key) <==> Ascending(items, key)
  {
    KeyOrder(key);
    Sorting.SortedExactlyIfOrdered(items, ByKey(key));
  }
}
