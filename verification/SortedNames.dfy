/** The order of strings and the sorted list a sort call returns. */
module SortedNames {

  /** Go's < on strings. */
  predicate Less(a: string, b: string) {
    b != "" && (a == "" || a[0] < b[0] || (a[0] == b[0] && Less(a[1..], b[1..])))
  }

  lemma {:induction false} Irreflexive(a: string)
    ensures !Less(a, a)
  {
    if a != "" { Irreflexive(a[1..]); }
  }

  lemma {:induction false} Transitive(a: string, b: string, c: string)
    requires Less(a, b) && Less(b, c)
    ensures Less(a, c)
  {
    if a != "" && a[0] == b[0] == c[0] { Transitive(a[1..], b[1..], c[1..]); }
  }

  lemma {:induction false} Connected(a: string, b: string)
    ensures a == b || Less(a, b) || Less(b, a)
  {
    if a != "" && b != "" && a[0] == b[0] {
      Connected(a[1..], b[1..]);
      assert a == [a[0]] + a[1..] && b == [b[0]] + b[1..];
    }
  }

  /** A string comes before another exactly when it is a shorter start of it or the first difference is smaller. */
  lemma {:induction false} LessExactly(a: string, b: string)
    ensures Less(a, b) <==>
      (|| (a <= b && a != b)
       || exists i :: 0 <= i < |a| && i < |b| && a[..i] == b[..i] && a[i] < b[i])
  {
    if a != "" && b != "" && a[0] == b[0] {
      LessExactly(a[1..], b[1..]);
      assert a == [a[0]] + a[1..] && b == [b[0]] + b[1..];
      if i :| 0 <= i < |a| && i < |b| && a[..i] == b[..i] && a[i] < b[i] {
        assert i > 0;
        assert a[1..][..i - 1] == a[..i][1..] && b[1..][..i - 1] == b[..i][1..];
        assert a[1..][i - 1] < b[1..][i - 1];
      }
      if i :| 0 <= i < |a[1..]| && i < |b[1..]| && a[1..][..i] == b[1..][..i] && a[1..][i] < b[1..][i] {
        assert a[..i + 1] == [a[0]] + a[1..][..i] && b[..i + 1] == [b[0]] + b[1..][..i];
        assert a[i + 1] < b[i + 1];
      }
    } else if a != "" && b != "" && a[0] < b[0] {
      assert a[..0] == b[..0];
    }
  }

  /** Strictly increasing, so without repetition. */
  predicate Increasing(s: seq<string>) {
    forall i, j :: 0 <= i < j < |s| ==> Less(s[i], s[j])
  }

  function Insert(s: seq<string>, x: string): seq<string> {
    if s == [] then [x]
    else if Less(x, s[0]) then [x] + s
    else [s[0]] + Insert(s[1..], x)
  }

  /** sort.Strings, by insertion: the result is the one increasing list of these names (see SortIsTheOnlyOne). */
  function Sort(s: seq<string>): seq<string> {
    if s == [] then [] else Insert(Sort(s[1..]), s[0])
  }

  lemma {:induction false} InsertMembers(s: seq<string>, x: string, y: string)
    ensures y in Insert(s, x) <==> y == x || y in s
  {
    if s != [] && !Less(x, s[0]) {
      InsertMembers(s[1..], x, y);
      assert s == [s[0]] + s[1..];
    }
  }

  lemma {:induction false} InsertIncreasing(s: seq<string>, x: string)
    requires Increasing(s) && x !in s
    ensures Increasing(Insert(s, x))
  {
    if s == [] {
    } else if Less(x, s[0]) {
      forall j | 0 <= j < |s| ensures Less(x, s[j]) {
        if j > 0 { Transitive(x, s[0], s[j]); }
      }
    } else {
      Connected(x, s[0]);
      InsertIncreasing(s[1..], x);
      forall y | y in Insert(s[1..], x) ensures Less(s[0], y) {
        InsertMembers(s[1..], x, y);
        if y in s[1..] {
          var k :| 0 <= k < |s[1..]| && s[1..][k] == y;
          assert Less(s[0], s[k + 1]);
        }
      }
    }
  }

  predicate NoRepeats(s: seq<string>) {
    forall i, j :: 0 <= i < j < |s| ==> s[i] != s[j]
  }

  lemma {:induction false} SortMembers(s: seq<string>, y: string)
    ensures y in Sort(s) <==> y in s
  {
    if s != [] {
      SortMembers(s[1..], y);
      InsertMembers(Sort(s[1..]), s[0], y);
      assert s == [s[0]] + s[1..];
    }
  }

  lemma {:induction false} SortIncreasing(s: seq<string>)
    requires NoRepeats(s)
    ensures Increasing(Sort(s))
  {
    if s != [] {
      SortIncreasing(s[1..]);
      SortMembers(s[1..], s[0]);
      InsertIncreasing(Sort(s[1..]), s[0]);
    }
  }

  lemma {:induction false} NoMembers(s: seq<string>)
    ensures s == [] <==> forall y :: y !in s
  {
    if s != [] { assert s[0] in s; }
  }

  /** Two increasing lists of the same names are the same list. */
  lemma {:induction false} SortIsTheOnlyOne(a: seq<string>, b: seq<string>)
    requires Increasing(a) && Increasing(b) && forall y :: y in a <==> y in b
    ensures a == b
  {
    NoMembers(a);
    NoMembers(b);
    if a != [] && b != [] {
      assert b[0] in b;
      assert a[0] in a;
      var i :| 0 <= i < |b| && b[i] == a[0];
      var j :| 0 <= j < |a| && a[j] == b[0];
      if i > 0 && j > 0 {
        Transitive(a[0], b[0], a[0]);
        Irreflexive(a[0]);
      }
      forall y ensures y in a[1..] <==> y in b[1..] { HeadDrops(a, y); HeadDrops(b, y); }
      SortIsTheOnlyOne(a[1..], b[1..]);
    }
  }

  lemma {:induction false} HeadDrops(a: seq<string>, y: string)
    requires a != [] && Increasing(a)
    ensures y in a[1..] <==> y in a && y != a[0]
  {
    Irreflexive(a[0]);
    assert a == [a[0]] + a[1..];
  }

  /** The order of lists of names. */
  predicate ListLess(a: seq<string>, b: seq<string>) {
    exists k :: 0 <= k < |a| && k < |b| && a[..k] == b[..k] && Less(a[k], b[k])
  }
}
