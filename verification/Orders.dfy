/** Byte order on strings, sorting, and the fact that a sorted list is fixed by its contents.
    Go compares strings and storage keys in this order. */
module Orders {

  /** Lexicographic strictly-less. */
  predicate Less(a: string, b: string) {
    if b == "" then false
    else if a == "" then true
    else if a[0] != b[0] then a[0] < b[0]
    else Less(a[1..], b[1..])
  }

  lemma {:induction false} LessTrichotomy(a: string, b: string)
    ensures a != b ==> Less(a, b) || Less(b, a)
    ensures !(Less(a, b) && Less(b, a))
    ensures !Less(a, a)
  {
    if a != "" && b != "" {
      LessTrichotomy(a[1..], b[1..]);
      assert a == [a[0]] + a[1..] && b == [b[0]] + b[1..];
    }
    if a != "" {
      LessTrichotomy(a[1..], a[1..]);
    }
  }

  lemma {:induction false} LessTransitive(a: string, b: string, c: string)
    requires Less(a, b) && Less(b, c)
    ensures Less(a, c)
  {
    if a != "" && a[0] == b[0] == c[0] {
      LessTransitive(a[1..], b[1..], c[1..]);
    }
  }

  /** Two strings with a common prefix compare as their remainders. */
  lemma {:induction false} LessAfterPrefix(p: string, a: string, b: string)
    ensures Less(p + a, p + b) <==> Less(a, b)
  {
    if p == "" {
      assert p + a == a && p + b == b;
    } else {
      LessAfterPrefix(p[1..], a, b);
      assert (p + a)[1..] == p[1..] + a && (p + b)[1..] == p[1..] + b;
    }
  }

  /** What sorting needs of a comparison: no two elements precede each other, and not being
      preceded is transitive. */
  ghost predicate StrictWeak<T(!new)>(ahead: (T, T) -> bool) {
    && (forall a, b :: !(ahead(a, b) && ahead(b, a)))
    && (forall a, b, c :: !ahead(b, a) && !ahead(c, b) ==> !ahead(c, a))
  }

  /** No element comes before an earlier one. */
  predicate Ordered<T>(s: seq<T>, ahead: (T, T) -> bool) {
    forall i, j :: 0 <= i < j < |s| ==> !ahead(s[j], s[i])
  }

  function Insert<T>(x: T, s: seq<T>, ahead: (T, T) -> bool): seq<T> {
    if s == [] || !ahead(s[0], x) then [x] + s else [s[0]] + Insert(x, s[1..], ahead)
  }

  /** sort.SliceStable, and sort.Strings when the comparison is Less. */
  function Sort<T>(s: seq<T>, ahead: (T, T) -> bool): seq<T> {
    if s == [] then [] else Insert(s[0], Sort(s[1..], ahead), ahead)
  }

  lemma OrderedAfter<T>(x: T, s: seq<T>, ahead: (T, T) -> bool)
    requires Ordered(s, ahead) && forall j :: 0 <= j < |s| ==> !ahead(s[j], x)
    ensures Ordered([x] + s, ahead)
  {
  }

  lemma {:induction false} InsertKeeps<T(!new)>(x: T, s: seq<T>, ahead: (T, T) -> bool)
    requires StrictWeak(ahead) && Ordered(s, ahead)
    ensures Ordered(Insert(x, s, ahead), ahead)
    ensures multiset(Insert(x, s, ahead)) == multiset{x} + multiset(s)
  {
    if s == [] {
    } else if !ahead(s[0], x) {
      forall j | 0 <= j < |s| ensures !ahead(s[j], x) {
        assert j == 0 || !ahead(s[j], s[0]);
      }
      OrderedAfter(x, s, ahead);
    } else {
      var t := Insert(x, s[1..], ahead);
      assert s == [s[0]] + s[1..];
      InsertKeeps(x, s[1..], ahead);
      forall j | 0 <= j < |t| ensures !ahead(t[j], s[0]) {
        assert t[j] in multiset(t);
        if t[j] != x { assert t[j] in multiset(s[1..]); }
      }
      OrderedAfter(s[0], t, ahead);
    }
  }

  lemma {:induction false} SortSorts<T(!new)>(s: seq<T>, ahead: (T, T) -> bool)
    requires StrictWeak(ahead)
    ensures Ordered(Sort(s, ahead), ahead) && multiset(Sort(s, ahead)) == multiset(s)
  {
    if s != [] {
      SortSorts(s[1..], ahead);
      InsertKeeps(s[0], Sort(s[1..], ahead), ahead);
      assert s == [s[0]] + s[1..];
    }
  }

  lemma LessStrictWeak()
    ensures StrictWeak(Less)
  {
    forall a: string, b: string ensures !(Less(a, b) && Less(b, a)) {
      LessTrichotomy(a, b);
    }
    forall a: string, b: string, c: string | !Less(b, a) && !Less(c, b) ensures !Less(c, a) {
      LessTrichotomy(a, b);
      LessTrichotomy(b, c);
      if Less(c, a) && Less(a, b) { LessTransitive(c, a, b); }
    }
  }

  lemma SameHead(s: seq<string>, t: seq<string>)
    requires Ordered(s, Less) && Ordered(t, Less) && multiset(s) == multiset(t) && s != [] && t != []
    ensures s[0] == t[0]
  {
    assert s[0] in multiset(t) && t[0] in multiset(s);
    var i :| 0 <= i < |t| && t[i] == s[0];
    var j :| 0 <= j < |s| && s[j] == t[0];
    LessTrichotomy(s[0], t[0]);
  }

  /** A sorted list is determined by its contents. */
  lemma {:induction false} SortedUnique(s: seq<string>, t: seq<string>)
    requires Ordered(s, Less) && Ordered(t, Less) && multiset(s) == multiset(t)
    ensures s == t
  {
    assert |s| == |multiset(s)| == |multiset(t)| == |t|;
    if s != [] {
      SameHead(s, t);
      assert s == [s[0]] + s[1..] && t == [t[0]] + t[1..];
      assert multiset(s[1..]) == multiset(s) - multiset{s[0]} == multiset(t[1..]);
      SortedUnique(s[1..], t[1..]);
    }
  }

  lemma SortIgnoresOrder(s: seq<string>, t: seq<string>)
    requires multiset(s) == multiset(t)
    ensures Sort(s, Less) == Sort(t, Less)
  {
    LessStrictWeak();
    SortSorts(s, Less);
    SortSorts(t, Less);
    SortedUnique(Sort(s, Less), Sort(t, Less));
  }
}
