/**
 * The post-request halves of fetch_subfolders and fetch_recipes_in_category:
 * a name -> id dictionary built from the listed files (a later entry with the
 * same name overwrites an earlier one) and its keys sorted the way Python
 * compares strings, code point by code point.
 */
module Listing {
  import opened Wrappers

  /** One element of the `files` array of a listing response; a missing key is None. */
  datatype FileEntry = FileEntry(name: Option<string>, id: Option<string>)

  /** The pair (sorted names, name -> id) both fetch functions return. */
  datatype Listing = Listing(names: seq<string>, ids: map<string, string>)

  /** Python's `<` on str: a proper prefix, or a smaller code point at the first difference. */
  predicate LexLess(a: string, b: string)
    decreases |a|
  {
    if a == [] then b != []
    else if b == [] then false
    else if a[0] != b[0] then a[0] < b[0]
    else LexLess(a[1..], b[1..])
  }

  lemma {:induction false} LexLessIrreflexive(a: string)
    ensures !LexLess(a, a)
  {
    if a != [] { LexLessIrreflexive(a[1..]); }
  }

  lemma {:induction false} LexLessTransitive(a: string, b: string, c: string)
    requires LexLess(a, b) && LexLess(b, c)
    ensures LexLess(a, c)
    decreases |a|
  {
    if a != [] && b != [] && c != [] && a[0] == b[0] && b[0] == c[0] {
      LexLessTransitive(a[1..], b[1..], c[1..]);
    }
  }

  lemma {:induction false} LexLessTotal(a: string, b: string)
    requires a != b
    ensures LexLess(a, b) || LexLess(b, a)
    decreases |a|
  {
    if a != [] && b != [] && a[0] == b[0] {
      assert a == [a[0]] + a[1..] && b == [b[0]] + b[1..];
      LexLessTotal(a[1..], b[1..]);
    }
  }

  predicate StrictlyAscending(xs: seq<string>) {
    forall i, j :: 0 <= i < j < |xs| ==> LexLess(xs[i], xs[j])
  }

  /** Inserts x into a strictly ascending list, leaving it as it is when x is already there. */
  function Insert(x: string, xs: seq<string>): (r: seq<string>)
    requires StrictlyAscending(xs)
    ensures StrictlyAscending(r)
    ensures forall y :: y in r <==> y == x || y in xs
  {
    if xs == [] then [x]
    else if x == xs[0] then xs
    else if LexLess(x, xs[0]) then
      forall j | 0 < j < |xs| ensures LexLess(x, xs[j]) {
        LexLessTransitive(x, xs[0], xs[j]);
      }
      [x] + xs
    else
      LexLessTotal(x, xs[0]);
      var rest := Insert(x, xs[1..]);
      forall y | y in rest ensures LexLess(xs[0], y) {
        if y != x { var j :| 0 <= j < |xs[1..]| && xs[1..][j] == y; assert xs[j + 1] == y; }
      }
      [xs[0]] + rest
  }

  /** The dictionary comprehension: each pair in turn, a repeated name taking the later id. */
  function NameMap(pairs: seq<(string, string)>): (m: map<string, string>)
    ensures forall n :: n in m <==> exists i :: 0 <= i < |pairs| && pairs[i].0 == n
  {
    if pairs == [] then map[]
    else
      var prefix := pairs[..|pairs| - 1];
      var last := pairs[|pairs| - 1];
      var m := NameMap(prefix)[last.0 := last.1];
      assert forall i :: 0 <= i < |prefix| ==> prefix[i] == pairs[i];
      m
  }

  /** sorted(d.keys()) for the dictionary NameMap(pairs). */
  function SortedNames(pairs: seq<(string, string)>): (r: seq<string>)
    ensures StrictlyAscending(r)
    ensures forall n :: n in r <==> n in NameMap(pairs)
  {
    if pairs == [] then []
    else
      var prefix := pairs[..|pairs| - 1];
      assert forall i :: 0 <= i < |prefix| ==> prefix[i] == pairs[i];
      Insert(pairs[|pairs| - 1].0, SortedNames(prefix))
  }

  /** The (name, id) pairs of the entries, or None when one of them lacks a name or an id (the KeyError). */
  function EntryPairs(files: seq<FileEntry>): (r: Option<seq<(string, string)>>)
    ensures r.None? <==> exists i :: 0 <= i < |files| && (files[i].name.None? || files[i].id.None?)
    ensures r.Some? ==> |r.value| == |files|
    ensures r.Some? ==> forall i :: 0 <= i < |files| ==> r.value[i] == (files[i].name.value, files[i].id.value)
  {
    if files == [] then Some([])
    else if files[0].name.None? || files[0].id.None? then None
    else
      match EntryPairs(files[1..])
      case None =>
        assert forall i :: 0 <= i < |files[1..]| ==> files[1..][i] == files[i + 1];
        None
      case Some(rest) =>
        var r := [(files[0].name.value, files[0].id.value)] + rest;
        assert forall i :: 0 < i < |files| ==> files[i] == files[1..][i - 1];
        Some(r)
  }

  /**
   * The listing a fetch function returns for a listing response: None stands
   * for any failure of the request or of decoding it; a failure, or an entry
   * without a name or an id, yields ([], {}).
   */
  function BuildListing(response: Option<seq<FileEntry>>): (l: Listing)
    ensures StrictlyAscending(l.names)
    ensures forall n :: n in l.names <==> n in l.ids
  {
    match response
    case None => Listing([], map[])
    case Some(files) =>
      match EntryPairs(files)
      case None => Listing([], map[])
      case Some(pairs) => Listing(SortedNames(pairs), NameMap(pairs))
  }

  /** For a repeated name, the dictionary holds the id of the last pair with that name. */
  lemma {:induction false} LastPairWins(pairs: seq<(string, string)>, i: nat)
    requires i < |pairs|
    requires forall j :: i < j < |pairs| ==> pairs[j].0 != pairs[i].0
    ensures pairs[i].0 in NameMap(pairs) && NameMap(pairs)[pairs[i].0] == pairs[i].1
  {
    if i < |pairs| - 1 {
      var prefix := pairs[..|pairs| - 1];
      LastPairWins(prefix, i);
    }
  }

  lemma {:induction false} LexLessAsymmetric(a: string, b: string)
    ensures !(LexLess(a, b) && LexLess(b, a))
    decreases |a|
  {
    if a != [] && b != [] && a[0] == b[0] {
      LexLessAsymmetric(a[1..], b[1..]);
    }
  }

  /** The head of a strictly ascending list is below every other element. */
  lemma HeadIsLeast(xs: seq<string>, y: string)
    requires StrictlyAscending(xs) && y in xs
    ensures y == xs[0] || LexLess(xs[0], y)
  {
  }

  /** Two strictly ascending lists with the same elements are equal: the sorted order is unique. */
  lemma {:induction false} AscendingUnique(xs: seq<string>, ys: seq<string>)
    requires StrictlyAscending(xs) && StrictlyAscending(ys)
    requires forall n :: n in xs <==> n in ys
    ensures xs == ys
  {
    if xs != [] { assert xs[0] in xs; }
    if ys != [] { assert ys[0] in ys; }
    if xs != [] && ys != [] {
      // Both heads are the least element of the common set.
      var a, b := xs[0], ys[0];
      HeadIsLeast(xs, b);
      HeadIsLeast(ys, a);
      LexLessAsymmetric(a, b);
      assert a == b;
      assert xs == [a] + xs[1..] && ys == [a] + ys[1..];
      forall n ensures n in xs[1..] <==> n in ys[1..] {
        LexLessIrreflexive(a);
        if n in xs[1..] {
          var k :| 0 <= k < |xs[1..]| && xs[1..][k] == n;
          assert LexLess(xs[0], xs[k + 1]);
          assert n in ys;
        }
        if n in ys[1..] {
          var k :| 0 <= k < |ys[1..]| && ys[1..][k] == n;
          assert LexLess(ys[0], ys[k + 1]);
          assert n in xs;
        }
      }
      AscendingUnique(xs[1..], ys[1..]);
    }
  }

  /**
   * A listing response whose every entry has a name and an id: the names are
   * the entries' names in ascending order, each once, and each maps to the id
   * of the last entry carrying it.
   */
  lemma ListingOfWellFormed(files: seq<FileEntry>, n: string)
    requires forall i :: 0 <= i < |files| ==> files[i].name.Some? && files[i].id.Some?
    ensures var l := BuildListing(Some(files));
      (n in l.names <==> exists i :: 0 <= i < |files| && files[i].name == Some(n))
      && forall i :: 0 <= i < |files| && files[i].name == Some(n)
           && (forall j :: i < j < |files| ==> files[j].name != Some(n))
           ==> n in l.ids && l.ids[n] == files[i].id.value
  {
    var pairs := EntryPairs(files).value;
    forall i | 0 <= i < |files| && files[i].name == Some(n) && (forall j :: i < j < |files| ==> files[j].name != Some(n))
      ensures n in NameMap(pairs) && NameMap(pairs)[n] == files[i].id.value
    {
      LastPairWins(pairs, i);
    }
  }

  /** A failed request, or any entry missing its name or id, gives ([], {}). */
  lemma FailureGivesEmptyListing(response: Option<seq<FileEntry>>)
    requires response.Some? ==>
      exists i :: 0 <= i < |response.value| && (response.value[i].name.None? || response.value[i].id.None?)
    ensures BuildListing(response) == Listing([], map[])
  {
  }
}
