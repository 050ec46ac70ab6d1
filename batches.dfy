/** Finding the data files of one pass and grouping them by format key. */
module Batches {
  import opened Base
  import opened PyText

  predicate Sorted(s: seq<string>) {
    forall i, j :: 0 <= i < j < |s| ==> LexLeq(s[i], s[j])
  }

  predicate IsLeast(m: string, names: set<string>) {
    m in names && forall x :: x in names ==> LexLeq(m, x)
  }

  lemma {:induction false} Least(names: set<string>) returns (m: string)
    requires names != {}
    ensures IsLeast(m, names)
    decreases |names|
  {
    var y :| y in names;
    var rest := names - {y};
    if rest == {} {
      LexLeqTotal(y, y);
      assert names == {y};
      m := y;
    } else {
      var m' := Least(rest);
      LexLeqTotal(m', y);
      if LexLeq(y, m') {
        forall x | x in names ensures LexLeq(y, x) {
          if x == y {
            LexLeqTotal(y, y);
          } else {
            assert x in rest;
            LexLeqTransitive(y, m', x);
          }
        }
        m := y;
      } else {
        m := m';
      }
    }
  }

  /** Every non-empty finite set of names has a least one in Python's string order. */
  lemma MinimumExists(names: set<string>)
    requires names != {}
    ensures exists m :: IsLeast(m, names)
  {
    var m := Least(names);
  }

  /** `sorted(names)` over the names of a directory listing. */
  method SortedNames(names: set<string>) returns (r: seq<string>)
    ensures Sorted(r) && Distinct(r)
    ensures forall x :: x in r <==> x in names
  {
    r := [];
    var rest := names;
    while rest != {}
      invariant forall x :: x in names <==> x in rest || x in r
      invariant forall x :: x in r ==> x !in rest
      invariant Sorted(r) && Distinct(r)
      invariant forall i, x :: 0 <= i < |r| && x in rest ==> LexLeq(r[i], x)
      decreases |rest|
    {
      MinimumExists(rest);
      var m :| IsLeast(m, rest);
      r := r + [m];
      rest := rest - {m};
    }
  }

  /** The names of a set in Python's string order, least first. */
  ghost function SortedSeq(names: set<string>): (r: seq<string>)
    ensures Sorted(r) && Distinct(r)
    ensures forall x :: x in r <==> x in names
    decreases |names|
  {
    if names == {} then []
    else
      MinimumExists(names);
      var m :| IsLeast(m, names);
      var rest := SortedSeq(names - {m});
      assert forall i :: 0 <= i < |rest| ==> rest[i] in rest;
      [m] + rest
  }

  /** The first name of a sorted listing is the least of its names. */
  lemma HeadIsLeast(a: seq<string>, names: set<string>)
    requires a != [] && Sorted(a) && forall x :: x in a <==> x in names
    ensures IsLeast(a[0], names)
  {
    forall x | x in names ensures LexLeq(a[0], x) {
      var i :| 0 <= i < |a| && a[i] == x;
      if i == 0 { LexLeqTotal(x, x); }
    }
  }

  /** Dropping the first name of a sorted, duplicate-free listing lists the other names. */
  lemma TailListing(a: seq<string>)
    requires a != [] && Sorted(a) && Distinct(a)
    ensures Sorted(a[1..]) && Distinct(a[1..])
    ensures forall x :: x in a[1..] <==> x in a && x != a[0]
  {
    var tail := a[1..];
    assert forall i :: 0 <= i < |tail| ==> tail[i] == a[i + 1];
    forall x | x in a && x != a[0] ensures x in tail {
      var i :| 0 <= i < |a| && a[i] == x;
      assert tail[i - 1] == x;
    }
  }

  /** A set has one sorted listing: any sorted, duplicate-free sequence of exactly its names is `SortedSeq`. */
  lemma {:induction false} SortedUnique(a: seq<string>, names: set<string>)
    requires Sorted(a) && Distinct(a)
    requires forall x :: x in a <==> x in names
    ensures a == SortedSeq(names)
    decreases |names|
  {
    if a == [] {
      assert names == {};
    } else {
      HeadAndTail(a, names);
      SortedUnique(a[1..], names - {a[0]});
      assert a == [a[0]] + a[1..];
    }
  }

  /** A sorted listing without repeats and `SortedSeq` agree on the first name, and the rest of the listing is
      again a sorted listing, of the other names. */
  lemma HeadAndTail(a: seq<string>, names: set<string>)
    requires a != [] && Sorted(a) && Distinct(a) && forall x :: x in a <==> x in names
    ensures a[0] in names && SortedSeq(names) == [a[0]] + SortedSeq(names - {a[0]})
    ensures Sorted(a[1..]) && Distinct(a[1..]) && forall x :: x in a[1..] <==> x in names - {a[0]}
  {
    SameHead(a, names);
    SortedSeqStep(names);
    TailNames(a, names);
  }

  /** Two sorted listings of the same names start with the same, least, name. */
  lemma SameHead(a: seq<string>, names: set<string>)
    requires a != [] && Sorted(a) && forall x :: x in a <==> x in names
    ensures a[0] in names && SortedSeq(names) != [] && a[0] == SortedSeq(names)[0]
  {
    var s := SortedSeq(names);
    assert a[0] in a;
    assert s[0] in s;
    HeadIsLeast(a, names);
    HeadIsLeast(s, names);
    LexLeqAntisymmetric(a[0], s[0]);
  }

  /** The rest of a sorted listing lists the other names. */
  lemma TailNames(a: seq<string>, names: set<string>)
    requires a != [] && Sorted(a) && Distinct(a) && forall x :: x in a <==> x in names
    ensures Sorted(a[1..]) && Distinct(a[1..]) && forall x :: x in a[1..] <==> x in names - {a[0]}
  {
    TailListing(a);
  }

  /** A non-empty listing is its first name followed by the listing of the others. */
  lemma SortedSeqStep(names: set<string>)
    requires names != {}
    ensures var s := SortedSeq(names); s != [] && s == [s[0]] + SortedSeq(names - {s[0]})
  {
  }

  /** The names that end in `ext`, in their order (the comprehension at the head of a pass). */
  function WithExtension(names: seq<string>, ext: string): seq<string>
    decreases |names|
  {
    if names == [] then []
    else if EndsWith(names[0], ext) then [names[0]] + WithExtension(names[1..], ext)
    else WithExtension(names[1..], ext)
  }

  /** The filter keeps exactly the names with the extension. */
  lemma {:induction false} WithExtensionMembers(names: seq<string>, ext: string)
    ensures forall x :: x in WithExtension(names, ext) <==> x in names && EndsWith(x, ext)
    decreases |names|
  {
    if names != [] {
      WithExtensionMembers(names[1..], ext);
      assert forall x :: x in names <==> x == names[0] || x in names[1..];
    }
  }

  /** With no name carrying the extension, the filter keeps nothing. */
  lemma {:induction false} WithExtensionNone(names: seq<string>, ext: string)
    requires forall x :: x in names ==> !EndsWith(x, ext)
    ensures WithExtension(names, ext) == []
    decreases |names|
  {
    if names != [] {
      assert names[0] in names;
      assert forall x :: x in names[1..] ==> x in names;
      WithExtensionNone(names[1..], ext);
    }
  }

  /** The filter keeps a sorted listing sorted and a duplicate-free one duplicate-free. */
  lemma {:induction false} WithExtensionOrder(names: seq<string>, ext: string)
    ensures Sorted(names) ==> Sorted(WithExtension(names, ext))
    ensures Distinct(names) ==> Distinct(WithExtension(names, ext))
    decreases |names|
  {
    if names != [] && EndsWith(names[0], ext) {
      var rest := WithExtension(names[1..], ext);
      WithExtensionOrder(names[1..], ext);
      WithExtensionMembers(names[1..], ext);
      assert forall i :: 0 <= i < |rest| ==> rest[i] in names[1..];
      assert Sorted(names) ==> forall i :: 0 <= i < |rest| ==> LexLeq(names[0], rest[i]);
      assert Distinct(names) ==> names[0] !in names[1..];
    } else if names != [] {
      WithExtensionOrder(names[1..], ext);
    }
  }

  predicate AllSplit(files: seq<string>) {
    forall i :: 0 <= i < |files| ==> '_' in files[i]
  }

  /** The position of the first name without `_`, where the grouping loop stops with ValueError. */
  function FirstUnsplit(files: seq<string>): (k: nat)
    ensures k <= |files| && AllSplit(files[..k])
    ensures k < |files| ==> '_' !in files[k]
    ensures k == |files| ==> AllSplit(files)
    decreases |files|
  {
    if files == [] then 0
    else if '_' !in files[0] then 0
    else
      var k := 1 + FirstUnsplit(files[1..]);
      assert forall j :: 1 <= j < |files| ==> files[j] == files[1..][j - 1];
      k
  }

  lemma {:induction false} FirstUnsplitAt(files: seq<string>, i: nat)
    requires i < |files| && AllSplit(files[..i]) && '_' !in files[i]
    ensures FirstUnsplit(files) == i
    decreases i
  {
    if i > 0 {
      assert files[..i][0] == files[0];
      var tail := files[1..][..i - 1];
      assert AllSplit(tail) by {
        assert forall j :: 0 <= j < |tail| ==> tail[j] == files[j + 1];
        assert forall j :: 1 <= j < i ==> files[..i][j] == files[j];
      }
      FirstUnsplitAt(files[1..], i - 1);
    }
  }

  /** The format key of a data file name: the text before its last `_`. */
  function KeyOf(name: string): string
    requires '_' in name
  {
    RSplitOnce(name, '_').value.0
  }

  /** The batch suffix of a data file name: the text after its last `_`. */
  function SuffixOf(name: string): string
    requires '_' in name
  {
    RSplitOnce(name, '_').value.1
  }

  /** `key + '_' + value` rebuilds the name, and the suffix holds no `_`. */
  lemma KeyAndSuffixRebuild(name: string)
    requires '_' in name
    ensures KeyOf(name) + "_" + SuffixOf(name) == name && '_' !in SuffixOf(name)
  {
  }

  /** The files of `files` that have format key `key`, in their order. */
  function Members(files: seq<string>, key: string): seq<string>
    requires AllSplit(files)
    decreases |files|
  {
    if files == [] then []
    else
      var last := files[|files| - 1];
      Members(files[..|files| - 1], key) + (if KeyOf(last) == key then [last] else [])
  }

  /** The format keys of `files` in order of first occurrence: the iteration order of a Python dict filled in that order. */
  function KeyOrder(files: seq<string>): seq<string>
    requires AllSplit(files)
    decreases |files|
  {
    if files == [] then []
    else
      var keys := KeyOrder(files[..|files| - 1]);
      var k := KeyOf(files[|files| - 1]);
      if k in keys then keys else keys + [k]
  }

  lemma MembersStep(files: seq<string>, i: nat, k: string)
    requires i < |files| && AllSplit(files[..i + 1])
    ensures AllSplit(files[..i])
    ensures Members(files[..i + 1], k) == Members(files[..i], k) + (if KeyOf(files[i]) == k then [files[i]] else [])
  {
    assert files[..i + 1][..i] == files[..i];
  }

  lemma KeyOrderStep(files: seq<string>, i: nat)
    requires i < |files| && AllSplit(files[..i + 1])
    ensures AllSplit(files[..i])
    ensures KeyOrder(files[..i + 1]) == if KeyOf(files[i]) in KeyOrder(files[..i]) then KeyOrder(files[..i]) else KeyOrder(files[..i]) + [KeyOf(files[i])]
  {
    assert files[..i + 1][..i] == files[..i];
  }

  /** The dict `grouped_data_files`: its keys in insertion order and the list each key holds. */
  datatype Grouping = Grouping(keys: seq<string>, groups: map<string, seq<string>>)

  /** `grouped.setdefault(key, []).append(item)`. */
  function SetDefaultAppend(grouped: Grouping, key: string, item: string): Grouping {
    if key in grouped.groups then Grouping(grouped.keys, grouped.groups[key := grouped.groups[key] + [item]])
    else Grouping(grouped.keys + [key], grouped.groups[key := [item]])
  }

  /** `grouped` is the dict the loop has built from `files`. */
  ghost predicate GroupsOf(grouped: Grouping, files: seq<string>)
    requires AllSplit(files)
  {
    && grouped.keys == KeyOrder(files)
    && (forall k :: k in grouped.groups <==> k in grouped.keys)
    && (forall k :: k in grouped.groups ==> grouped.groups[k] == Members(files, k))
  }

  /** Appending one more name to the dict built from `prev` gives the dict built from `prev + [item]`. */
  lemma GroupingStep(prev: seq<string>, item: string, grouped: Grouping)
    requires AllSplit(prev) && '_' in item && GroupsOf(grouped, prev)
    ensures AllSplit(prev + [item]) && GroupsOf(SetDefaultAppend(grouped, KeyOf(item), item), prev + [item])
  {
    var files, key := prev + [item], KeyOf(item);
    var next := SetDefaultAppend(grouped, key, item);
    assert AllSplit(files) && files[..|prev|] == prev && files[|prev|] == item;
    forall k | k in next.groups ensures next.groups[k] == Members(files, k) {
      if k == key && key !in grouped.groups {
        NewKeyHasNoMembers(prev, key);
      }
    }
  }

  /** The grouping loop: each name split once from the right on `_`, appended to the list of its key. */
  method GroupByFormat(files: seq<string>) returns (r: Result<Grouping, Error>)
    ensures r.Failure? <==> !AllSplit(files)
    ensures r.Failure? ==> r.error == NotEnoughValues(files[FirstUnsplit(files)])
    ensures r.Success? ==> r.value.keys == KeyOrder(files)
    ensures r.Success? ==> forall k :: k in r.value.groups <==> k in r.value.keys
    ensures r.Success? ==> forall k :: k in r.value.groups ==> r.value.groups[k] == Members(files, k)
  {
    var grouped := Grouping([], map[]);
    var i := 0;
    while i < |files|
      invariant 0 <= i <= |files|
      invariant AllSplit(files[..i])
      invariant GroupsOf(grouped, files[..i])
    {
      var split := RSplitOnce(files[i], '_');
      if split.None? {
        FirstUnsplitAt(files, i);
        return Failure(NotEnoughValues(files[i]));
      }
      var (key, value) := split.value;
      KeyAndSuffixRebuild(files[i]);
      GroupingStep(files[..i], files[i], grouped);
      PrefixStep(files, i);
      grouped := SetDefaultAppend(grouped, key, key + "_" + value);
      i := i + 1;
    }
    assert files[..i] == files;
    r := Success(grouped);
  }

  lemma {:induction false} NewKeyHasNoMembers(files: seq<string>, key: string)
    requires AllSplit(files) && key !in KeyOrder(files)
    ensures Members(files, key) == []
    decreases |files|
  {
    if files != [] {
      NewKeyHasNoMembers(files[..|files| - 1], key);
    }
  }

  /** Grouping is a partition: a file is in the group of exactly one key, its own. */
  lemma {:induction false} MembersExactly(files: seq<string>, key: string)
    requires AllSplit(files)
    ensures forall x :: x in Members(files, key) <==> x in files && KeyOf(x) == key
    decreases |files|
  {
    if files != [] {
      var init := files[..|files| - 1];
      MembersExactly(init, key);
      assert files == init + [files[|files| - 1]];
    }
  }

  /** A group keeps the order of the scan: it is sorted and duplicate-free when the scan is. */
  lemma {:induction false} MembersKeepOrder(files: seq<string>, key: string)
    requires AllSplit(files)
    ensures Sorted(files) ==> Sorted(Members(files, key))
    ensures Distinct(files) ==> Distinct(Members(files, key))
    decreases |files|
  {
    if files != [] {
      var init := files[..|files| - 1];
      var last := files[|files| - 1];
      MembersKeepOrder(init, key);
      MembersExactly(init, key);
      var m := Members(init, key);
      assert Sorted(files) ==> Sorted(init) by {
        assert forall i :: 0 <= i < |init| ==> init[i] == files[i];
      }
      assert Distinct(files) ==> Distinct(init) by {
        assert forall i :: 0 <= i < |init| ==> init[i] == files[i];
      }
      forall a | 0 <= a < |m| ensures exists i :: 0 <= i < |init| && init[i] == m[a] && files[i] == m[a] {
        assert m[a] in init;
        var i :| 0 <= i < |init| && init[i] == m[a];
        assert files[i] == init[i];
      }
      if KeyOf(last) == key {
        assert Sorted(files) ==> forall a :: 0 <= a < |m| ==> LexLeq(m[a], last);
        assert Distinct(files) ==> forall a :: 0 <= a < |m| ==> m[a] != last;
      }
    }
  }

  /** Each key is listed once, and exactly the keys of the files are listed. */
  lemma {:induction false} KeyOrderExactly(files: seq<string>)
    requires AllSplit(files)
    ensures Distinct(KeyOrder(files))
    ensures forall k :: k in KeyOrder(files) <==> exists x :: x in files && KeyOf(x) == k
    decreases |files|
  {
    if files != [] {
      var init := files[..|files| - 1];
      KeyOrderExactly(init);
      assert files == init + [files[|files| - 1]];
      assert forall x :: x in files <==> x in init || x == files[|files| - 1];
    }
  }

  lemma InterleaveSorted()
    ensures Sorted(["a_0.txt", "a_b_1.txt", "a_z.txt"])
  {
    assert LexLeq("0.txt", "b_1.txt") && LexLeq("b_1.txt", "z.txt") && LexLeq("0.txt", "z.txt");
    assert "a_0.txt"[1..] == "_0.txt" && "_0.txt"[1..] == "0.txt";
    assert "a_b_1.txt"[1..] == "_b_1.txt" && "_b_1.txt"[1..] == "b_1.txt";
    assert "a_z.txt"[1..] == "_z.txt" && "_z.txt"[1..] == "z.txt";
    assert LexLeq("_0.txt", "_b_1.txt") && LexLeq("_b_1.txt", "_z.txt") && LexLeq("_0.txt", "_z.txt");
  }

  lemma InterleaveKeys()
    ensures '_' in "a_0.txt" && KeyOf("a_0.txt") == "a"
    ensures '_' in "a_b_1.txt" && KeyOf("a_b_1.txt") == "a_b"
    ensures '_' in "a_z.txt" && KeyOf("a_z.txt") == "a"
  {
    KeyOfName("a_0.txt", "a", "0.txt");
    KeyOfName("a_b_1.txt", "a_b", "1.txt");
    KeyOfName("a_z.txt", "a", "z.txt");
  }

  /** A name made of a key, `_` and a suffix without `_` has that key. */
  lemma KeyOfName(name: string, key: string, rest: string)
    requires name == key + ['_'] + rest && '_' !in rest
    ensures '_' in name && KeyOf(name) == key
  {
    RSplitOnceUnique(key, '_', rest);
  }

  /** Three names whose first and last share a format key make two batches, the shared key first, holding its
      two names in order. */
  lemma {:induction false} FirstOccurrenceOfThree(files: seq<string>, key: string, other: string)
    requires |files| == 3 && AllSplit(files) && key != other
    requires KeyOf(files[0]) == key && KeyOf(files[1]) == other && KeyOf(files[2]) == key
    ensures KeyOrder(files) == [key, other]
    ensures Members(files, key) == [files[0], files[2]]
  {
    var p1, p2 := files[..1], files[..2];
    assert p1[..0] == [] && p2[..1] == p1 && files[..2] == p2;
    assert p1[0] == files[0] && p2[1] == files[1];
    assert KeyOrder(p1) == [key];
    assert KeyOrder(p2) == [key, other];
    assert Members(p1, key) == [files[0]];
    assert Members(p2, key) == [files[0]];
  }

  /** A key's files need not be adjacent in the sorted listing: "a_b_1.txt" sorts between the two files of "a". */
  lemma GroupsInterleave(files: seq<string>)
    requires files == ["a_0.txt", "a_b_1.txt", "a_z.txt"]
    ensures Sorted(files) && AllSplit(files)
    ensures KeyOrder(files) == ["a", "a_b"]
    ensures Members(files, "a") == ["a_0.txt", "a_z.txt"]
  {
    InterleaveSorted();
    InterleaveKeys();
    FirstOccurrenceOfThree(files, "a", "a_b");
  }

  lemma UnsortedKeysSorted()
    ensures Sorted(["a_b_1.txt", "a_c.txt"])
  {
    assert "a_b_1.txt"[1..] == "_b_1.txt" && "_b_1.txt"[1..] == "b_1.txt";
    assert "a_c.txt"[1..] == "_c.txt" && "_c.txt"[1..] == "c.txt";
    assert LexLeq("b_1.txt", "c.txt");
    assert LexLeq("_b_1.txt", "_c.txt");
  }

  lemma UnsortedKeysSplit()
    ensures '_' in "a_b_1.txt" && KeyOf("a_b_1.txt") == "a_b"
    ensures '_' in "a_c.txt" && KeyOf("a_c.txt") == "a"
  {
    KeyOfName("a_b_1.txt", "a_b", "1.txt");
    KeyOfName("a_c.txt", "a", "c.txt");
  }

  lemma KeyAfterItsExtension()
    ensures !LexLeq("a_b", "a")
  {
    assert "a_b"[1..] == "_b" && "a"[1..] == [];
  }

  /** Two names of different format keys make two batches, in the order of the names. */
  lemma {:induction false} OrderOfTwo(files: seq<string>, first: string, second: string)
    requires |files| == 2 && AllSplit(files) && first != second
    requires KeyOf(files[0]) == first && KeyOf(files[1]) == second
    ensures KeyOrder(files) == [first, second]
  {
    var p1 := files[..1];
    assert p1[..0] == [] && files[..1] == p1 && p1[0] == files[0];
    assert KeyOrder(p1) == [first];
  }

  /** The batches need not come out in sorted order of their keys: the sorted listing below makes the batch of
      "a_b" first and that of "a" second, and "a" sorts before "a_b". */
  lemma GroupsUnsortedKeys(files: seq<string>)
    requires files == ["a_b_1.txt", "a_c.txt"]
    ensures Sorted(files) && AllSplit(files)
    ensures KeyOrder(files) == ["a_b", "a"]
    ensures !Sorted(KeyOrder(files))
  {
    UnsortedKeysSorted();
    UnsortedKeysSplit();
    KeyAfterItsExtension();
    OrderOfTwo(files, "a_b", "a");
    var keys := KeyOrder(files);
    assert keys[0] == "a_b" && keys[1] == "a";
  }
}
