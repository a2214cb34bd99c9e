/** Lists of strings sorted and without repetitions: the canonical form of a scope list
    (canonicalOAuthScopes in internal/config/cloud_login.go) and of a set of locks
    (internal/config/layered_lock.go). */
module SortedStrings {

  /** Go's order of strings. */
  predicate Less(a: string, b: string) {
    if b == [] then false
    else if a == [] then true
    else a[0] < b[0] || (a[0] == b[0] && Less(a[1..], b[1..]))
  }

  lemma {:induction false} LessTotal(a: string, b: string)
    ensures Less(a, b) || a == b || Less(b, a)
    ensures !(Less(a, b) && Less(b, a)) && (a == b ==> !Less(a, b))
  {
    if a != [] && b != [] {
      LessTotal(a[1..], b[1..]);
      if a[0] == b[0] && a[1..] == b[1..] {
        assert a == [a[0]] + a[1..] && b == [b[0]] + b[1..];
      }
    }
  }

  lemma {:induction false} LessTransitive(a: string, b: string, c: string)
    requires Less(a, b) && Less(b, c)
    ensures Less(a, c)
  {
    if a != [] && a[0] == b[0] && b[0] == c[0] {
      LessTransitive(a[1..], b[1..], c[1..]);
    }
  }

  predicate Increasing(s: seq<string>) {
    forall i, j :: 0 <= i < j < |s| ==> Less(s[i], s[j])
  }

  function Insert(x: string, s: seq<string>): seq<string> {
    if s == [] then [x]
    else if x == s[0] then s
    else if Less(x, s[0]) then [x] + s
    else [s[0]] + Insert(x, s[1..])
  }

  function Canonical(scopes: seq<string>): seq<string> {
    if scopes == [] then [] else Insert(scopes[0], Canonical(scopes[1..]))
  }

  function Members(s: seq<string>): set<string> {
    set x | x in s
  }

  /** x may go in front of a list whose head it is below. */
  lemma PrependSorted(x: string, s: seq<string>)
    requires Increasing(s) && s != [] && Less(x, s[0])
    ensures Increasing([x] + s) && Members([x] + s) == Members(s) + {x}
  {
    forall i | 0 <= i < |s| ensures Less(x, s[i]) {
      if i > 0 { LessTransitive(x, s[0], s[i]); }
    }
    hide Less;
  }

  lemma HeadAndRest(x: string, rest: seq<string>)
    requires Increasing(rest) && forall y :: y in Members(rest) ==> Less(x, y)
    ensures Increasing([x] + rest) && Members([x] + rest) == Members(rest) + {x}
  {
    hide Less;
    assert forall i :: 0 <= i < |rest| ==> rest[i] in Members(rest);
  }

  lemma TailSorted(s: seq<string>)
    requires Increasing(s) && s != []
    ensures Increasing(s[1..]) && Members(s) == Members(s[1..]) + {s[0]}
    ensures forall y :: y in Members(s[1..]) ==> Less(s[0], y)
  {
    hide Less;
    assert s == [s[0]] + s[1..];
  }

  lemma {:induction false} InsertSorted(x: string, s: seq<string>)
    requires Increasing(s)
    ensures Increasing(Insert(x, s)) && Members(Insert(x, s)) == Members(s) + {x}
  {
    hide Increasing, Members;
    if s == [] {
      NoMembers();
      HeadAndRest(x, []);
      assert [x] + [] == [x];
    } else {
      LessTotal(x, s[0]);
      TailSorted(s);
      if x == s[0] {
        assert Members(s) == Members(s) + {x};
      } else if Less(x, s[0]) {
        PrependSorted(x, s);
      } else {
        InsertSorted(x, s[1..]);
        HeadAndRest(s[0], Insert(x, s[1..]));
      }
    }
  }

  lemma NoMembers()
    ensures Increasing([]) && Members([]) == {}
  {
  }

  lemma {:induction false} CanonicalSorted(scopes: seq<string>)
    ensures Increasing(Canonical(scopes)) && Members(Canonical(scopes)) == Members(scopes)
  {
    if scopes != [] {
      CanonicalSorted(scopes[1..]);
      InsertSorted(scopes[0], Canonical(scopes[1..]));
      assert scopes == [scopes[0]] + scopes[1..];
    }
  }

  lemma {:induction false} SortedUnique(a: seq<string>, b: seq<string>)
    requires Increasing(a) && Increasing(b) && Members(a) == Members(b)
    ensures a == b
    decreases |a|
  {
    assert b != [] ==> b[0] in Members(b);
    if a != [] {
      assert a[0] in Members(b);
      var j :| 0 <= j < |b| && b[j] == a[0];
      assert b[0] in Members(a);
      var i :| 0 <= i < |a| && a[i] == b[0];
      LessTotal(a[0], b[0]);
      assert a[0] == b[0];
      assert a == [a[0]] + a[1..] && b == [b[0]] + b[1..];
      forall x | x in a ensures x != a[0] ==> x in a[1..] {
      }
      HeadIsLeast(a);
      HeadIsLeast(b);
      assert Members(a[1..]) == Members(a) - {a[0]};
      assert Members(b[1..]) == Members(b) - {b[0]};
      SortedUnique(a[1..], b[1..]);
    }
  }

  lemma HeadIsLeast(a: seq<string>)
    requires Increasing(a) && a != []
    ensures a[0] !in a[1..]
  {
    LessTotal(a[0], a[0]);
  }

  /** Two scope lists have one canonical form just when they hold the same scopes; the canonical
      form is a fixed point. */
  lemma CanonicalForm(a: seq<string>, b: seq<string>)
    ensures Canonical(a) == Canonical(b) <==> Members(a) == Members(b)
    ensures Canonical(Canonical(a)) == Canonical(a)
  {
    CanonicalSorted(a);
    CanonicalSorted(b);
    CanonicalSorted(Canonical(a));
    if Members(a) == Members(b) {
      SortedUnique(Canonical(a), Canonical(b));
    }
    SortedUnique(Canonical(Canonical(a)), Canonical(a));
  }
}
