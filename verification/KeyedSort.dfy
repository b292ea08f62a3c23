/** The stable sort by a text key that `Array.prototype.sort` performs. */
module KeyedSort {
  import opened Texts

  datatype Keyed<+T> = Keyed(key: Text, val: T)

  function Insert<T>(e: Keyed<T>, s: seq<Keyed<T>>): (r: seq<Keyed<T>>)
    ensures multiset(r) == multiset{e} + multiset(s)
  {
    if s == [] || !Less(s[0].key, e.key) then
      [e] + s
    else
      assert s == [s[0]] + s[1..];
      [s[0]] + Insert(e, s[1..])
  }

  /** Inserting from the right end keeps elements with equal keys in their original order. */
  function Sort<T>(s: seq<Keyed<T>>): (r: seq<Keyed<T>>)
    ensures multiset(r) == multiset(s)
  {
    if s == [] then [] else
      assert s == [s[0]] + s[1..];
      Insert(s[0], Sort(s[1..]))
  }

  lemma SameElements<T>(a: seq<T>, b: seq<T>)
    requires multiset(a) == multiset(b)
    ensures |a| == |b|
    ensures forall e :: e in a <==> e in b
  {
    assert |multiset(a)| == |multiset(b)|;
    forall e ensures e in a <==> e in b {
      assert e in a <==> e in multiset(a);
    }
  }

  lemma SortMembers<T>(s: seq<Keyed<T>>)
    ensures |Sort(s)| == |s|
    ensures forall i :: 0 <= i < |s| ==> Sort(s)[i] in s && s[i] in Sort(s)
  {
    SameLength(Sort(s), s);
    forall i | 0 <= i < |s| ensures Sort(s)[i] in s && s[i] in Sort(s) {
      assert Sort(s)[i] in multiset(Sort(s));
      assert s[i] in multiset(s);
    }
  }

  lemma Removed<T>(s: seq<T>, j: nat)
    requires j < |s|
    ensures multiset(s[..j] + s[j + 1..]) == multiset(s) - multiset{s[j]}
  {
    assert s == s[..j] + [s[j]] + s[j + 1..];
  }

  lemma RemovedHead<T>(s: seq<T>)
    requires s != []
    ensures multiset(s[1..]) == multiset(s) - multiset{s[0]}
  {
    assert s == [s[0]] + s[1..];
  }

  lemma RemoveHeadFrom<T>(a: seq<T>, b: seq<T>) returns (j: nat)
    requires a != [] && multiset(a) == multiset(b)
    ensures j < |b| && b[j] == a[0]
    ensures multiset(a[1..]) == multiset(b[..j] + b[j + 1..])
  {
    assert a[0] in multiset(b);
    j :| 0 <= j < |b| && b[j] == a[0];
    Removed(b, j);
    RemovedHead(a);
  }

  lemma RemoveLastFrom<T>(a: seq<T>, b: seq<T>) returns (j: nat)
    requires a != [] && multiset(a) == multiset(b)
    ensures j < |b| && b[j] == a[|a| - 1]
    ensures multiset(a[..|a| - 1]) == multiset(b[..j] + b[j + 1..])
  {
    var n := |a| - 1;
    assert a[n] in multiset(b);
    j :| 0 <= j < |b| && b[j] == a[n];
    Removed(b, j);
    assert a == a[..n] + [a[n]];
  }

  lemma SameLength<T>(s: seq<T>, t: seq<T>)
    requires multiset(s) == multiset(t)
    ensures |s| == |t|
  {
    assert |multiset(s)| == |multiset(t)|;
  }

  predicate Sorted<T>(s: seq<Keyed<T>>) {
    forall i, j :: 0 <= i < j < |s| ==> !Less(s[j].key, s[i].key)
  }

  lemma {:induction false} InsertSorted<T>(e: Keyed<T>, s: seq<Keyed<T>>)
    requires Sorted(s)
    ensures Sorted(Insert(e, s))
  {
    if s == [] {
    } else if !Less(s[0].key, e.key) {
      forall j | 0 <= j < |s| ensures !Less(s[j].key, e.key) {
        if j > 0 { NotGreaterTransitive(e.key, s[0].key, s[j].key); }
      }
    } else {
      InsertSorted(e, s[1..]);
      var r := Insert(e, s[1..]);
      LessTotal(s[0].key, e.key);
      forall j | 0 <= j < |r| ensures !Less(r[j].key, s[0].key) {
        assert r[j] in multiset(r);
        if r[j] != e {
          assert r[j] in s[1..];
        }
      }
    }
  }

  lemma {:induction false} SortSorted<T>(s: seq<Keyed<T>>)
    ensures Sorted(Sort(s))
  {
    if s != [] {
      SortSorted(s[1..]);
      InsertSorted(s[0], Sort(s[1..]));
    }
  }

  // The elements with this key, in order.
  function WithKey<T>(s: seq<Keyed<T>>, key: Text): seq<Keyed<T>> {
    if s == [] then [] else (if s[0].key == key then [s[0]] else []) + WithKey(s[1..], key)
  }

  lemma {:induction false} InsertStable<T>(e: Keyed<T>, s: seq<Keyed<T>>, key: Text)
    ensures WithKey(Insert(e, s), key) == WithKey([e] + s, key)
  {
    if s != [] && Less(s[0].key, e.key) {
      LessIrreflexive(e.key);
      InsertStable(e, s[1..], key);
      assert ([s[0]] + Insert(e, s[1..]))[1..] == Insert(e, s[1..]);
      assert ([e] + s[1..])[1..] == s[1..] && ([e] + s)[1..] == s;
    }
  }

  /** The sort is stable: elements with the same key stay in their order. */
  lemma {:induction false} SortStable<T>(s: seq<Keyed<T>>, key: Text)
    ensures WithKey(Sort(s), key) == WithKey(s, key)
  {
    if s != [] {
      SortStable(s[1..], key);
      InsertStable(s[0], Sort(s[1..]), key);
      assert ([s[0]] + Sort(s[1..]))[1..] == Sort(s[1..]);
    }
  }

  function Keys<T>(s: seq<Keyed<T>>): (r: seq<Text>)
    ensures |r| == |s|
    ensures forall i :: 0 <= i < |s| ==> r[i] == s[i].key
  {
    seq(|s|, i requires 0 <= i < |s| => s[i].key)
  }

  predicate DistinctKeys<T>(s: seq<Keyed<T>>) {
    forall i, j :: 0 <= i < j < |s| ==> s[i].key != s[j].key
  }

  /** Two sorted sequences with distinct keys and the same elements are the same sequence. */
  lemma {:induction false} SortedUnique<T>(a: seq<Keyed<T>>, b: seq<Keyed<T>>)
    requires Sorted(a) && Sorted(b) && DistinctKeys(a) && DistinctKeys(b)
    requires forall e :: e in a <==> e in b
    ensures a == b
  {
    assert b != [] ==> b[0] in a;
    if a != [] {
      assert a[0] in b;
      assert b[0] in a;
      assert b != [];
      LessTotal(a[0].key, b[0].key);
      assert a[0] == b[0];
      forall e ensures e in a[1..] <==> e in b[1..] {
        assert e in a <==> e == a[0] || e in a[1..];
        assert e in b <==> e == b[0] || e in b[1..];
      }
      SortedUnique(a[1..], b[1..]);
    }
  }

  lemma KeysRemoved<T>(s: seq<Keyed<T>>, j: nat)
    requires j < |s|
    ensures multiset(Keys(s[..j] + s[j + 1..])) == multiset(Keys(s)) - multiset{s[j].key}
  {
    Removed(Keys(s), j);
    assert Keys(s[..j] + s[j + 1..]) == Keys(s)[..j] + Keys(s)[j + 1..];
  }

  lemma {:induction false} KeysMultiset<T>(s: seq<Keyed<T>>, t: seq<Keyed<T>>)
    requires multiset(s) == multiset(t)
    ensures multiset(Keys(s)) == multiset(Keys(t))
  {
    SameLength(s, t);
    if s != [] {
      var j := RemoveHeadFrom(s, t);
      KeysMultiset(s[1..], t[..j] + t[j + 1..]);
      KeysRemoved(t, j);
      RemovedHead(Keys(s));
      assert Keys(s)[1..] == Keys(s[1..]);
      RestoreElement(multiset(Keys(s)), multiset(Keys(t)), s[0].key);
    }
  }

  lemma RestoreElement<T>(a: multiset<T>, b: multiset<T>, e: T)
    requires e in a && e in b && a - multiset{e} == b - multiset{e}
    ensures a == b
  {
    assert a == (a - multiset{e}) + multiset{e};
    assert b == (b - multiset{e}) + multiset{e};
  }

  ghost predicate SortedTexts(s: seq<Text>) {
    forall i, j :: 0 <= i < j < |s| ==> !Less(s[j], s[i])
  }

  lemma SortedHead(a: seq<Text>, b: seq<Text>)
    requires SortedTexts(a) && SortedTexts(b) && multiset(a) == multiset(b) && a != []
    ensures b != [] && a[0] == b[0]
  {
    assert a[0] in multiset(b);
    assert b[0] in multiset(a);
    var i, j :| 0 <= i < |a| && 0 <= j < |b| && a[i] == b[0] && b[j] == a[0];
    LessTotal(a[0], b[0]);
  }

  lemma {:induction false} SortedTextsUnique(a: seq<Text>, b: seq<Text>)
    requires SortedTexts(a) && SortedTexts(b) && multiset(a) == multiset(b)
    ensures a == b
  {
    SameLength(a, b);
    if a != [] {
      SortedHead(a, b);
      RemovedHead(a);
      RemovedHead(b);
      SortedTextsUnique(a[1..], b[1..]);
      assert a == [a[0]] + a[1..] && b == [b[0]] + b[1..];
    }
  }

  /** The order in which the keys come out depends only on which keys go in, not on their order. */
  lemma SortKeysCanonical<T>(s: seq<Keyed<T>>, t: seq<Keyed<T>>)
    requires multiset(Keys(s)) == multiset(Keys(t))
    ensures Keys(Sort(s)) == Keys(Sort(t))
  {
    SortSorted(s);
    SortSorted(t);
    KeysMultiset(Sort(s), s);
    KeysMultiset(Sort(t), t);
    SortedTextsUnique(Keys(Sort(s)), Keys(Sort(t)));
  }

  lemma DistinctMultiset(s: seq<Text>, t: seq<Text>)
    requires multiset(s) == multiset(t)
    requires forall i, j :: 0 <= i < j < |s| ==> s[i] != s[j]
    ensures forall i, j :: 0 <= i < j < |t| ==> t[i] != t[j]
  {
    forall i, j | 0 <= i < j < |t| ensures t[i] != t[j] {
      if t[i] == t[j] {
        TwoOccurrences(t, i, j);
        AtMostOnce(s, t[i]);
      }
    }
  }

  lemma TwoOccurrences(t: seq<Text>, i: nat, j: nat)
    requires i < j < |t| && t[i] == t[j]
    ensures multiset(t)[t[i]] >= 2
  {
    assert t == t[..i] + [t[i]] + t[i + 1..j] + [t[j]] + t[j + 1..];
  }

  lemma {:induction false} AtMostOnce(s: seq<Text>, e: Text)
    requires forall i, j :: 0 <= i < j < |s| ==> s[i] != s[j]
    ensures multiset(s)[e] <= 1
  {
    if s != [] {
      AtMostOnce(s[1..], e);
      RemovedHead(s);
      if s[0] == e {
        assert e !in s[1..];
        assert e !in multiset(s[1..]);
      }
    }
  }
}
