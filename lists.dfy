/** The ArrayList operations the engine relies on: remove(Object), which
  * deletes the first element equal to its argument, and the loops that
  * remove a whole list of elements one after another. */
module Lists {

  predicate NoDup<T(==)>(s: seq<T>)
  {
    forall i, j | 0 <= i < j < |s| :: s[i] != s[j]
  }

  /** Concatenation regroups freely; stated once so that callers need not
    * reason about sequence extensionality. */
  lemma AppendAssociative<T>(a: seq<T>, b: seq<T>, c: seq<T>)
    ensures a + b + c == a + (b + c)
  {
  }

  lemma AppendEmpty<T>(a: seq<T>)
    ensures a + [] == a && [] + a == a
  {
  }

  /** ArrayList.remove(x) for elements compared by value. */
  function RemoveFirst<T(==)>(s: seq<T>, x: T): (r: seq<T>)
    ensures x !in s ==> r == s
    ensures x in s ==> |r| == |s| - 1
  {
    if s == [] then []
    else if s[0] == x then s[1..]
    else [s[0]] + RemoveFirst(s[1..], x)
  }

  /** `for (x : xs) s.remove(x)` */
  function RemoveEach<T(==)>(s: seq<T>, xs: seq<T>): seq<T>
    decreases |xs|
  {
    if xs == [] then s else RemoveEach(RemoveFirst(s, xs[0]), xs[1..])
  }

  /** r is obtained from s by deleting elements: what r keeps appears in s
    * in the same order. */
  predicate IsSubsequence<T(==)>(r: seq<T>, s: seq<T>)
    decreases |s|
  {
    r == [] ||
    (s != [] && ((r[0] == s[0] && IsSubsequence(r[1..], s[1..])) || IsSubsequence(r, s[1..])))
  }

  lemma {:induction false} RemoveFirstSubsequence<T>(s: seq<T>, x: T)
    ensures IsSubsequence(RemoveFirst(s, x), s)
  {
    if s != [] && s[0] != x {
      RemoveFirstSubsequence(s[1..], x);
      assert ([s[0]] + RemoveFirst(s[1..], x))[1..] == RemoveFirst(s[1..], x);
    } else if s != [] {
      SubsequenceOfTail(s);
    }
  }

  lemma {:induction false} SubsequenceRefl<T>(s: seq<T>)
    ensures IsSubsequence(s, s)
  {
    if s != [] {
      SubsequenceRefl(s[1..]);
    }
  }

  lemma SubsequenceOfTail<T>(s: seq<T>)
    requires s != []
    ensures IsSubsequence(s[1..], s)
  {
    SubsequenceRefl(s[1..]);
  }

  lemma {:induction false} SubsequenceTrans<T>(a: seq<T>, b: seq<T>, c: seq<T>)
    requires IsSubsequence(a, b) && IsSubsequence(b, c)
    ensures IsSubsequence(a, c)
    decreases |c|
  {
    if a == [] {
    } else if IsSubsequence(b, c[1..]) {
      SubsequenceTrans(a, b, c[1..]);
    } else if a[0] == b[0] && IsSubsequence(a[1..], b[1..]) {
      SubsequenceTrans(a[1..], b[1..], c[1..]);
    } else {
      SubsequenceTrans(a, b[1..], c[1..]);
    }
  }

  /** Removing a list of elements one after another only deletes: what is
    * left is a subsequence of the original list. */
  lemma {:induction false} RemoveEachSubsequence<T>(s: seq<T>, xs: seq<T>)
    ensures IsSubsequence(RemoveEach(s, xs), s)
    decreases |xs|
  {
    if xs == [] {
      SubsequenceRefl(s);
    } else {
      RemoveFirstSubsequence(s, xs[0]);
      RemoveEachSubsequence(RemoveFirst(s, xs[0]), xs[1..]);
      SubsequenceTrans(RemoveEach(s, xs), RemoveFirst(s, xs[0]), s);
    }
  }

  lemma {:induction false} SubsequenceMembers<T>(r: seq<T>, s: seq<T>, x: T)
    requires IsSubsequence(r, s) && x in r
    ensures x in s
    decreases |s|
  {
    if IsSubsequence(r, s[1..]) {
      SubsequenceMembers(r, s[1..], x);
    } else if x != r[0] {
      assert x in r[1..];
      SubsequenceMembers(r[1..], s[1..], x);
    }
  }

  /** An element kept out of the removal list survives the removal, and one
    * listed for removal from a list without duplicates does not. */
  lemma {:induction false} RemoveEachMembers<T>(s: seq<T>, xs: seq<T>, x: T)
    requires NoDup(s)
    ensures x in RemoveEach(s, xs) <==> x in s && x !in xs
    decreases |xs|
  {
    if xs != [] {
      RemoveFirstNoDup(s, xs[0]);
      RemoveEachMembers(RemoveFirst(s, xs[0]), xs[1..], x);
      RemoveFirstMembers(s, xs[0], x);
    }
  }

  lemma {:induction false} RemoveFirstMembers<T>(s: seq<T>, y: T, x: T)
    requires NoDup(s)
    ensures x in RemoveFirst(s, y) <==> x in s && x != y
  {
    if s != [] && s[0] != y {
      assert NoDup(s[1..]) by {
        forall i, j | 0 <= i < j < |s[1..]| ensures s[1..][i] != s[1..][j] {
          assert s[1..][i] == s[i + 1] && s[1..][j] == s[j + 1];
        }
      }
      RemoveFirstMembers(s[1..], y, x);
    } else if s != [] {
      assert s[0] !in s[1..] by {
        forall j | 0 <= j < |s[1..]| ensures s[1..][j] != s[0] {
          assert s[1..][j] == s[j + 1];
        }
      }
    }
  }

  lemma RemoveFirstNoDup<T>(s: seq<T>, y: T)
    requires NoDup(s)
    ensures NoDup(RemoveFirst(s, y))
  {
    var r := RemoveFirst(s, y);
    RemoveFirstSubsequence(s, y);
    SubsequenceNoDup(r, s);
  }

  lemma {:induction false} SubsequenceNoDup<T>(r: seq<T>, s: seq<T>)
    requires IsSubsequence(r, s) && NoDup(s)
    ensures NoDup(r)
    decreases |s|
  {
    if r != [] {
      assert NoDup(s[1..]) by {
        forall i, j | 0 <= i < j < |s[1..]| ensures s[1..][i] != s[1..][j] {
          assert s[1..][i] == s[i + 1] && s[1..][j] == s[j + 1];
        }
      }
      if IsSubsequence(r, s[1..]) {
        SubsequenceNoDup(r, s[1..]);
      } else {
        SubsequenceNoDup(r[1..], s[1..]);
        forall j | 0 < j < |r| ensures r[j] != r[0] {
          assert r[j] == r[1..][j - 1];
          SubsequenceMembers(r[1..], s[1..], r[j]);
          var k :| 0 <= k < |s[1..]| && s[1..][k] == r[j];
          assert s[k + 1] == r[j];
        }
        forall i, j | 0 <= i < j < |r| ensures r[i] != r[j] {
          if i > 0 {
            assert r[i] == r[1..][i - 1] && r[j] == r[1..][j - 1];
          }
        }
      }
    }
  }
}
