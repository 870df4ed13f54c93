/** The order of a task listing: `ORDER BY organizationId ASC, position ASC`.
    Org ids compare character by character (a proper prefix comes first);
    ties on both keys are left in no particular order by the database, so
    the sort here is specified only up to those ties. */
module TaskOrder {
  import opened TaskEntity

  /** Lexicographic order on strings by character code. */
  predicate StrLe(a: string, b: string)
    decreases |a|
  {
    a == [] || (b != [] && (a[0] < b[0] || (a[0] == b[0] && StrLe(a[1..], b[1..]))))
  }

  lemma {:induction false} StrLeTotal(a: string, b: string)
    ensures StrLe(a, b) || StrLe(b, a)
    decreases |a|
  {
    if a != [] && b != [] && a[0] == b[0] {
      StrLeTotal(a[1..], b[1..]);
    }
  }

  lemma {:induction false} StrLeTransitive(a: string, b: string, c: string)
    requires StrLe(a, b) && StrLe(b, c)
    ensures StrLe(a, c)
    decreases |a|
  {
    if a != [] && a[0] == b[0] && b[0] == c[0] {
      StrLeTransitive(a[1..], b[1..], c[1..]);
    }
  }

  lemma {:induction false} StrLeAntisymmetric(a: string, b: string)
    requires StrLe(a, b) && StrLe(b, a)
    ensures a == b
    decreases |a|
  {
    if a != [] {
      StrLeAntisymmetric(a[1..], b[1..]);
      assert a == [a[0]] + a[1..] && b == [b[0]] + b[1..];
    }
  }

  /** x may come before y in the listing. */
  predicate TaskLe(x: Task, y: Task) {
    if x.organizationId == y.organizationId then x.position <= y.position
    else StrLe(x.organizationId, y.organizationId)
  }

  lemma TaskLeTotal(x: Task, y: Task)
    ensures TaskLe(x, y) || TaskLe(y, x)
  {
    StrLeTotal(x.organizationId, y.organizationId);
  }

  lemma TaskLeTransitive(x: Task, y: Task, z: Task)
    requires TaskLe(x, y) && TaskLe(y, z)
    ensures TaskLe(x, z)
  {
    var a, b, c := x.organizationId, y.organizationId, z.organizationId;
    if a != b && b != c {
      if a == c {
        StrLeAntisymmetric(a, b);
      } else {
        StrLeTransitive(a, b, c);
      }
    }
  }

  /** Ordered by org id, then by position. */
  predicate Sorted(s: seq<Task>) {
    forall i, j :: 0 <= i < j < |s| ==> TaskLe(s[i], s[j])
  }

  lemma PrependSorted(x: Task, s: seq<Task>)
    requires Sorted(s)
    requires forall k :: 0 <= k < |s| ==> TaskLe(x, s[k])
    ensures Sorted([x] + s)
  {
    var r := [x] + s;
    forall i, j | 0 <= i < j < |r| ensures TaskLe(r[i], r[j]) {
      if i == 0 {
        assert r[j] == s[j - 1];
      } else {
        assert r[i] == s[i - 1] && r[j] == s[j - 1];
      }
    }
  }

  /** Inserts one task in front of the first task it may precede. */
  function Insert(t: Task, s: seq<Task>): (r: seq<Task>)
    requires Sorted(s)
    ensures Sorted(r)
    ensures multiset(r) == multiset(s) + multiset{t}
  {
    if s == [] then [t]
    else if TaskLe(t, s[0]) then
      InsertInFront(t, s);
      [t] + s
    else
      var rest := Insert(t, s[1..]);
      InsertBehind(t, s, rest);
      assert s == [s[0]] + s[1..];
      [s[0]] + rest
  }

  lemma InsertInFront(t: Task, s: seq<Task>)
    requires Sorted(s) && s != [] && TaskLe(t, s[0])
    ensures Sorted([t] + s)
  {
    forall k | 0 <= k < |s| ensures TaskLe(t, s[k]) {
      if k > 0 {
        TaskLeTransitive(t, s[0], s[k]);
      }
    }
    PrependSorted(t, s);
  }

  lemma InsertBehind(t: Task, s: seq<Task>, rest: seq<Task>)
    requires Sorted(s) && s != [] && !TaskLe(t, s[0])
    requires Sorted(rest) && multiset(rest) == multiset(s[1..]) + multiset{t}
    ensures Sorted([s[0]] + rest)
  {
    TaskLeTotal(t, s[0]);
    forall k | 0 <= k < |rest| ensures TaskLe(s[0], rest[k]) {
      assert rest[k] in multiset(rest);
      if rest[k] != t {
        assert rest[k] in multiset(s[1..]);
        var m :| 0 <= m < |s[1..]| && s[1..][m] == rest[k];
        assert s[m + 1] == rest[k];
      }
    }
    PrependSorted(s[0], rest);
  }

  /** Insertion sort: one ordering the database may return. */
  function Sort(s: seq<Task>): (r: seq<Task>)
    ensures Sorted(r)
    ensures multiset(r) == multiset(s)
  {
    if s == [] then []
    else
      assert s == [s[0]] + s[1..];
      Insert(s[0], Sort(s[1..]))
  }
}
