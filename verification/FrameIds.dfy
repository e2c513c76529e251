/** The message id of a frame: equal for the same elements in any order, and different for different ones. */
module FrameIds {
  const PREFIX := "frame-"

  /** The order of strings, byte by byte. */
  predicate Leq(a: string, b: string) {
    a == "" || (b != "" && (a[0] < b[0] || (a[0] == b[0] && Leq(a[1..], b[1..]))))
  }

  function Insert(x: string, s: seq<string>): (r: seq<string>)
    ensures multiset(r) == multiset(s) + multiset{x}
  {
    if s == [] || Leq(x, s[0]) then [x] + s
    else
      assert s == [s[0]] + s[1..];
      [s[0]] + Insert(x, s[1..])
  }

  function Sort(s: seq<string>): (r: seq<string>)
    ensures multiset(r) == multiset(s)
  {
    if s == [] then []
    else
      assert s == [s[0]] + s[1..];
      Insert(s[0], Sort(s[1..]))
  }

  function JoinLines(parts: seq<string>): string {
    if parts == [] then "" else if |parts| == 1 then parts[0] else parts[0] + ("\n" + JoinLines(parts[1..]))
  }

  /** hash stands for the hex form of SHA-256. */
  function MsgId(hash: string -> string, ids: seq<string>): string {
    PREFIX + hash(JoinLines(Sort(ids)))
  }

  lemma {:induction false} LeqTotal(a: string, b: string)
    ensures Leq(a, b) || Leq(b, a)
    ensures Leq(a, b) && Leq(b, a) ==> a == b
  {
    if a != "" && b != "" && a[0] == b[0] {
      LeqTotal(a[1..], b[1..]);
      assert a == [a[0]] + a[1..] && b == [b[0]] + b[1..];
    }
  }

  lemma {:induction false} LeqTransitive(a: string, b: string, c: string)
    requires Leq(a, b) && Leq(b, c)
    ensures Leq(a, c)
  {
    if a != "" && a[0] == b[0] && b[0] == c[0] {
      LeqTransitive(a[1..], b[1..], c[1..]);
    }
  }

  ghost predicate Sorted(s: seq<string>) {
    forall p, q :: 0 <= p < q < |s| ==> Leq(s[p], s[q])
  }

  lemma {:induction false} InsertSorts(x: string, s: seq<string>)
    requires Sorted(s)
    ensures Sorted(Insert(x, s))
  {
    var r := Insert(x, s);
    if s == [] {
    } else if Leq(x, s[0]) {
      forall q | 0 < q < |r| ensures Leq(r[0], r[q]) {
        if q > 1 {
          LeqTransitive(x, s[0], s[q - 1]);
        }
      }
    } else {
      InsertSorts(x, s[1..]);
      LeqTotal(x, s[0]);
      forall q | 0 < q < |r| ensures Leq(r[0], r[q]) {
        assert r[q] in multiset(Insert(x, s[1..]));
        assert r[q] == x || r[q] in s[1..];
      }
    }
  }

  lemma {:induction false} SortSorts(s: seq<string>)
    ensures Sorted(Sort(s))
  {
    if s != [] {
      SortSorts(s[1..]);
      InsertSorts(s[0], Sort(s[1..]));
    }
  }

  lemma SortedFirst(a: seq<string>, b: seq<string>)
    requires a != [] && b != [] && Sorted(a) && Sorted(b) && multiset(a) == multiset(b)
    ensures a[0] == b[0]
  {
    assert a[0] in multiset(b) && b[0] in multiset(a);
    var p :| 0 <= p < |b| && b[p] == a[0];
    var q :| 0 <= q < |a| && a[q] == b[0];
    LeqTotal(a[0], b[0]);
    assert (p == 0 || Leq(b[0], b[p])) && (q == 0 || Leq(a[0], a[q]));
  }

  lemma {:induction false} SortedUnique(a: seq<string>, b: seq<string>)
    requires Sorted(a) && Sorted(b) && multiset(a) == multiset(b)
    ensures a == b
  {
    assert |a| == |multiset(a)| == |b|;
    if a != [] {
      SortedFirst(a, b);
      assert a == [a[0]] + a[1..] && b == [b[0]] + b[1..];
      TailsAgree(a, b);
      SortedUnique(a[1..], b[1..]);
    }
  }

  lemma TailsAgree(a: seq<string>, b: seq<string>)
    requires a != [] && b != [] && multiset(a) == multiset(b) && a[0] == b[0]
    ensures multiset(a[1..]) == multiset(b[1..])
  {
    assert a == [a[0]] + a[1..] && b == [b[0]] + b[1..];
    assert multiset(a[1..]) == multiset(a) - multiset{a[0]} && multiset(b[1..]) == multiset(b) - multiset{b[0]};
  }

  /** One line of text. */
  ghost predicate Line(id: string) {
    forall k :: 0 <= k < |id| ==> id[k] != '\n'
  }

  ghost predicate Lines(ids: seq<string>) {
    ids != [] && forall k :: 0 <= k < |ids| ==> Line(ids[k])
  }

  lemma {:induction false} FirstLine(a: string, b: string, x: string, y: string)
    requires Line(a) && Line(b) && (x == "" || x[0] == '\n') && (y == "" || y[0] == '\n') && a + x == b + y
    ensures a == b && x == y
  {
    assert (a != "" ==> (a + x)[0] == a[0]) && (b != "" ==> (b + y)[0] == b[0]);
    if a != "" && b != "" {
      assert (a + x)[1..] == a[1..] + x && (b + y)[1..] == b[1..] + y;
      FirstLine(a[1..], b[1..], x, y);
      assert a == [a[0]] + a[1..] && b == [b[0]] + b[1..];
    } else {
      assert "" + x == x && "" + y == y;
    }
  }

  function Behind(parts: seq<string>): string
    requires parts != []
  {
    if |parts| == 1 then "" else "\n" + JoinLines(parts[1..])
  }

  lemma JoinedParts(parts: seq<string>)
    requires parts != []
    ensures JoinLines(parts) == parts[0] + Behind(parts) && (Behind(parts) == "" || Behind(parts)[0] == '\n')
    ensures |parts| == 1 <==> Behind(parts) == ""
    ensures |parts| > 1 ==> Behind(parts)[1..] == JoinLines(parts[1..])
  {
  }

  lemma {:induction false} JoinInjective(a: seq<string>, b: seq<string>)
    requires Lines(a) && Lines(b) && JoinLines(a) == JoinLines(b)
    ensures a == b
  {
    JoinedParts(a);
    JoinedParts(b);
    hide JoinLines, Behind;
    FirstLine(a[0], b[0], Behind(a), Behind(b));
    assert a == [a[0]] + a[1..] && b == [b[0]] + b[1..];
    if |a| > 1 {
      JoinInjective(a[1..], b[1..]);
    }
  }

  /** The id of a frame does not depend on the order of its elements, and, as far as the hash tells texts apart, two frames
      have the same id only if they hold elements with the same ids. */
  lemma SameIdIff(hash: string -> string, a: seq<string>, b: seq<string>)
    ensures multiset(a) == multiset(b) ==> MsgId(hash, a) == MsgId(hash, b)
    ensures Lines(a) && Lines(b) && (forall s: string, t: string :: hash(s) == hash(t) ==> s == t) ==>
      (MsgId(hash, a) == MsgId(hash, b) <==> multiset(a) == multiset(b))
  {
    SortSorts(a);
    SortSorts(b);
    if multiset(a) == multiset(b) {
      SortedUnique(Sort(a), Sort(b));
    } else if Lines(a) && Lines(b) && MsgId(hash, a) == MsgId(hash, b) && forall s: string, t: string ::
        hash(s) == hash(t) ==> s == t
    {
      var s, t := JoinLines(Sort(a)), JoinLines(Sort(b));
      assert hash(s) == MsgId(hash, a)[|PREFIX|..] && hash(t) == MsgId(hash, b)[|PREFIX|..];
      SortedLines(a);
      SortedLines(b);
      JoinInjective(Sort(a), Sort(b));
    }
  }

  lemma SortedLines(ids: seq<string>)
    requires Lines(ids)
    ensures Lines(Sort(ids))
  {
    var r := Sort(ids);
    assert ids[0] in multiset(r);
    forall k | 0 <= k < |r| ensures Line(r[k]) {
      assert r[k] in multiset(ids);
    }
  }
}
