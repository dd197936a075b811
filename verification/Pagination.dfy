/**
 Keyset pagination of a project's deployments: the page query of the API, the walk
 over pages on a fixed and on a changing table, and the variant whose cursor is the
 timestamp alone.
 */
module Pagination {
  import opened Wrappers

  /** The two columns that order the list; `id` is the table's primary key. */
  datatype Row = Row(updatedAt: int, id: string)

  /** Text order of ids. */
  predicate Less(a: string, b: string) {
    b != [] && (a == [] || a[0] < b[0] || (a[0] == b[0] && Less(a[1..], b[1..])))
  }

  lemma {:induction false} LessTotal(a: string, b: string)
    ensures a == b || Less(a, b) || Less(b, a)
  {
    if a != [] && b != [] && a[0] == b[0] {
      LessTotal(a[1..], b[1..]);
      assert a == [a[0]] + a[1..] && b == [b[0]] + b[1..];
    }
  }

  lemma {:induction false} LessStrict(a: string, b: string)
    ensures !(Less(a, b) && Less(b, a)) && !Less(a, a)
  {
    if a != [] {
      LessStrict(a[1..], a[1..]);
      if b != [] { LessStrict(a[1..], b[1..]); }
    }
  }

  lemma {:induction false} LessTransitive(a: string, b: string, c: string)
    requires Less(a, b) && Less(b, c)
    ensures Less(a, c)
  {
    if a != [] && a[0] == b[0] && b[0] == c[0] { LessTransitive(a[1..], b[1..], c[1..]); }
  }

  /** `a` is a proper beginning of `b`, or has the smaller character where they first differ. */
  lemma {:induction false} LessExactly(a: string, b: string)
    ensures Less(a, b) <==>
              exists k | 0 <= k <= |a| && k < |b| :: a[..k] == b[..k] && (k == |a| || a[k] < b[k])
  {
    if a != [] && b != [] && a[0] == b[0] {
      LessExactly(a[1..], b[1..]);
      if Less(a[1..], b[1..]) {
        var k :| 0 <= k <= |a[1..]| && k < |b[1..]|
                 && a[1..][..k] == b[1..][..k] && (k == |a[1..]| || a[1..][k] < b[1..][k]);
        assert a[..k + 1] == [a[0]] + a[1..][..k] == b[..k + 1];
      }
      if k :| 0 <= k <= |a| && k < |b| && a[..k] == b[..k] && (k == |a| || a[k] < b[k]) {
        assert k > 0 && a[1..][..k - 1] == a[..k][1..] == b[..k][1..] == b[1..][..k - 1];
      }
    } else if b != [] && (a == [] || a[0] < b[0]) {
      assert a[..0] == b[..0];
    } else {
      forall k | 0 <= k <= |a| && k < |b| && a[..k] == b[..k] ensures k == 0 { SameHead(a, b, k); }
    }
  }

  lemma SameHead(a: string, b: string, k: nat)
    requires k <= |a| && k <= |b| && a[..k] == b[..k]
    ensures k > 0 ==> a[0] == b[0]
  {
    assert k > 0 ==> a[..k][0] == b[..k][0];
  }

  /** `ORDER BY updated_at DESC, deployment_id DESC`: `p` comes before `q`. */
  predicate Before(p: Row, q: Row) {
    p.updatedAt > q.updatedAt || (p.updatedAt == q.updatedAt && Less(q.id, p.id))
  }

  lemma BeforeOrder(p: Row, q: Row, r: Row)
    ensures p == q || Before(p, q) || Before(q, p)
    ensures !(Before(p, q) && Before(q, p)) && !Before(p, p)
    ensures Before(p, q) && Before(q, r) ==> Before(p, r)
  {
    LessTotal(p.id, q.id);
    LessStrict(p.id, q.id);
    if Less(q.id, p.id) && Less(r.id, q.id) { LessTransitive(r.id, q.id, p.id); }
  }

  // ---------------------------------------------------------------- sorted lists of a table

  ghost predicate IsListing(s: seq<Row>, t: set<Row>) {
    && (forall i, j :: 0 <= i < j < |s| ==> Before(s[i], s[j]))
    && (forall r :: r in s <==> r in t)
  }

  lemma {:induction false} ListingUnique(s: seq<Row>, u: seq<Row>, t: set<Row>)
    requires IsListing(s, t) && IsListing(u, t)
    ensures s == u
    decreases |s|
  {
    HeadIsMember(s);
    HeadIsMember(u);
    if s != [] {
      assert s[0] == u[0] by {
        var i :| 0 <= i < |u| && u[i] == s[0];
        var j :| 0 <= j < |s| && s[j] == u[0];
        BeforeOrder(s[0], u[0], s[0]);
      }
      forall x | x in s || x in u ensures !Before(x, x) { BeforeOrder(x, x, x); }
      TailListing(s, t);
      TailListing(u, t);
      ListingUnique(s[1..], u[1..], t - {s[0]});
      assert s == [s[0]] + s[1..] && u == [u[0]] + u[1..];
    }
  }

  lemma HeadIsMember(s: seq<Row>)
    ensures s == [] || s[0] in s
  {
  }

  lemma TailListing(s: seq<Row>, t: set<Row>)
    requires IsListing(s, t) && s != []
    ensures IsListing(s[1..], t - {s[0]})
  {
    BeforeOrder(s[0], s[0], s[0]);
    assert forall r :: r in s <==> r == s[0] || r in s[1..];
  }

  /** `r` comes before every other row of `t`. */
  ghost predicate IsFirst(r: Row, t: set<Row>) { r in t && forall q | q in t :: q == r || Before(r, q) }

  /** Of a row and the first of the others, the one that comes before the other is the first of all. */
  lemma FirstOfBoth(x: Row, r: Row, t: set<Row>)
    requires x in t && IsFirst(r, t - {x})
    ensures IsFirst(if Before(x, r) then x else r, t)
  {
    BeforeOrder(x, r, r);
    var first := if Before(x, r) then x else r;
    forall q | q in t ensures q == first || Before(first, q) {
      BeforeOrder(x, r, q);
      assert q == x || q in t - {x};
    }
  }

  lemma {:induction false} FirstExists(t: set<Row>) returns (first: Row)
    requires t != {}
    ensures IsFirst(first, t)
    decreases |t|
  {
    var x :| x in t;
    if t - {x} == {} {
      assert forall q | q in t :: q == x by { assert forall q | q in t && q != x :: q in t - {x}; }
      first := x;
    } else {
      hide IsFirst, Before;
      var r := FirstExists(t - {x});
      FirstOfBoth(x, r, t);
      first := if Before(x, r) then x else r;
    }
  }

  ghost function First(t: set<Row>): (r: Row)
    requires t != {}
    ensures IsFirst(r, t)
  {
    assert exists r :: IsFirst(r, t) by { var first := FirstExists(t); }
    var r :| IsFirst(r, t);
    r
  }

  /** The rows of a table in list order. */
  ghost function Listing(t: set<Row>): seq<Row>
    decreases |t|
  {
    if t == {} then [] else
      var r := First(t);
      [r] + Listing(t - {r})
  }

  lemma FirstThenRest(r: Row, rest: seq<Row>, t: set<Row>)
    requires IsFirst(r, t) && IsListing(rest, t - {r}) && |rest| == |t - {r}|
    ensures IsListing([r] + rest, t) && |[r] + rest| == |t|
  {
    hide Before;
    var s := [r] + rest;
    forall i, j | 0 <= i < j < |s| ensures Before(s[i], s[j]) {
      assert s[j] == rest[j - 1] && rest[j - 1] in rest;
      if i > 0 { assert s[i] == rest[i - 1]; }
    }
    forall q ensures q in s <==> q in t { assert q in s <==> q == r || q in rest; }
    assert t == {r} + (t - {r});
  }

  lemma {:induction false} ListingLists(t: set<Row>)
    ensures IsListing(Listing(t), t) && |Listing(t)| == |t|
    decreases |t|
  {
    if t != {} {
      var r := First(t);
      ListingLists(t - {r});
      hide Before, IsFirst, IsListing;
      FirstThenRest(r, Listing(t - {r}), t);
    }
  }

  // ---------------------------------------------------------------- pages

  /** `(updated_at, deployment_id) < cursor` */
  ghost function After(t: set<Row>, cursor: Option<Row>): set<Row> {
    if cursor.None? then t else set r | r in t && Before(cursor.value, r)
  }

  ghost function Page(t: set<Row>, cursor: Option<Row>, limit: nat): seq<Row> {
    var s := Listing(After(t, cursor));
    if |s| <= limit then s else s[..limit]
  }

  ghost function Last(p: seq<Row>): Option<Row>
    requires p != []
  {
    Some(p[|p| - 1])
  }

  /** A page takes rows after its cursor, and all of those up to its last row. */
  lemma PageRows(t: set<Row>, cursor: Option<Row>, limit: nat)
    requires limit > 0
    ensures var p := Page(t, cursor, limit);
            && (forall r | r in p :: r in After(t, cursor))
            && (p == [] <==> After(t, cursor) == {})
            && (p != [] ==> forall r | r in After(t, cursor) :: r in p || Before(p[|p| - 1], r))
            && (p != [] ==> forall r | r in p :: r == p[|p| - 1] || Before(r, p[|p| - 1]))
            && (forall i, j :: 0 <= i < j < |p| ==> Before(p[i], p[j]))
  {
    var s, p := Listing(After(t, cursor)), Page(t, cursor, limit);
    ListingLists(After(t, cursor));
    hide Listing;
    assert After(t, cursor) != {} ==> |s| > 0;
    forall r | p != [] && r in After(t, cursor) ensures r in p || Before(p[|p| - 1], r) {
      var i :| 0 <= i < |s| && s[i] == r;
      if i < |p| { assert p[i] == r; }
    }
  }

  /** A page is the first `limit` rows, in descending order of timestamp and then id, of those
      with a smaller timestamp and id than the cursor's. */
  lemma PageExactly(t: set<Row>, cursor: Option<Row>, limit: nat)
    requires limit > 0
    ensures var p, rows := Page(t, cursor, limit), After(t, cursor);
            && (forall r :: r in rows <==>
                  r in t && (cursor.None? || r.updatedAt < cursor.value.updatedAt
                             || (r.updatedAt == cursor.value.updatedAt && Less(r.id, cursor.value.id))))
            && (forall r | r in p :: r in rows)
            && |p| == (if |rows| <= limit then |rows| else limit)
            && (forall i, j | 0 <= i < j < |p| ::
                  p[i].updatedAt > p[j].updatedAt || (p[i].updatedAt == p[j].updatedAt && Less(p[j].id, p[i].id)))
            && (forall r, q | r in p && q in rows && q !in p ::
                  r.updatedAt > q.updatedAt || (r.updatedAt == q.updatedAt && Less(q.id, r.id)))
  {
    var p, rows := Page(t, cursor, limit), After(t, cursor);
    PageRows(t, cursor, limit);
    ListingLists(rows);
    assert |p| == if |rows| <= limit then |rows| else limit;
    hide Listing, Page, Less;
    forall r, q | r in p && q in rows && q !in p
      ensures r.updatedAt > q.updatedAt || (r.updatedAt == q.updatedAt && Less(q.id, r.id))
    {
      BeforeOrder(r, p[|p| - 1], q);
    }
    forall i, j | 0 <= i < j < |p|
      ensures p[i].updatedAt > p[j].updatedAt || (p[i].updatedAt == p[j].updatedAt && Less(p[j].id, p[i].id))
    {
      assert Before(p[i], p[j]);
    }
  }

  /** What is left for the pages after `p` is smaller. */
  lemma AfterShrinks(t: set<Row>, cursor: Option<Row>, limit: nat)
    requires limit > 0 && Page(t, cursor, limit) != []
    ensures After(t, Last(Page(t, cursor, limit))) < After(t, cursor)
    ensures |After(t, Last(Page(t, cursor, limit)))| < |After(t, cursor)|
  {
    var p := Page(t, cursor, limit);
    var last := p[|p| - 1];
    PageRows(t, cursor, limit);
    assert last in p && last in After(t, cursor);
    forall r | r in After(t, Some(last)) ensures r in After(t, cursor) {
      if cursor.Some? { BeforeOrder(cursor.value, last, r); }
    }
    BeforeOrder(last, last, last);
    SmallerSet(After(t, Some(last)), After(t, cursor));
  }

  lemma SmallerSet(a: set<Row>, b: set<Row>)
    requires a < b
    ensures |a| < |b|
  {
    assert b == a + (b - a) && a !! b - a;
  }

  /** Follow the cursors until a page is empty; the walk ends because what is left shrinks. */
  ghost function Walk(t: set<Row>, cursor: Option<Row>, limit: nat): seq<Row>
    requires limit > 0
    decreases |After(t, cursor)|
  {
    var p := Page(t, cursor, limit);
    if p == [] then []
    else
      AfterShrinks(t, cursor, limit);
      p + Walk(t, Last(p), limit)
  }

  /** A page followed by the list of what lies after it is the list of both. */
  lemma PageThenRest(t: set<Row>, cursor: Option<Row>, limit: nat)
    requires limit > 0 && Page(t, cursor, limit) != []
    ensures Page(t, cursor, limit) + Listing(After(t, Last(Page(t, cursor, limit)))) == Listing(After(t, cursor))
  {
    var p := Page(t, cursor, limit);
    var last := p[|p| - 1];
    var rest := Listing(After(t, Some(last)));
    ListingLists(After(t, Some(last)));
    ListingLists(After(t, cursor));
    PageRows(t, cursor, limit);
    AfterShrinks(t, cursor, limit);
    forall r, q | r in p && q in rest ensures Before(r, q) { BeforeOrder(r, last, q); }
    JoinListings(p, rest, After(t, cursor));
    ListingUnique(p + rest, Listing(After(t, cursor)), After(t, cursor));
  }

  lemma JoinListings(p: seq<Row>, rest: seq<Row>, t: set<Row>)
    requires forall i, j :: 0 <= i < j < |p| ==> Before(p[i], p[j])
    requires forall i, j :: 0 <= i < j < |rest| ==> Before(rest[i], rest[j])
    requires forall r, q | r in p && q in rest :: Before(r, q)
    requires forall r :: r in t <==> r in p || r in rest
    ensures IsListing(p + rest, t)
  {
    var w := p + rest;
    forall i, j | 0 <= i < j < |w| ensures Before(w[i], w[j]) {
      if i < |p| <= j { assert w[i] in p && w[j] in rest; }
    }
  }

  /** On a fixed table the pages, put together, are the rows after the cursor in order. */
  lemma {:induction false} WalkIsListing(t: set<Row>, cursor: Option<Row>, limit: nat)
    requires limit > 0
    ensures Walk(t, cursor, limit) == Listing(After(t, cursor))
    decreases |After(t, cursor)|
  {
    PageRows(t, cursor, limit);
    if Page(t, cursor, limit) != [] {
      AfterShrinks(t, cursor, limit);
      WalkIsListing(t, Last(Page(t, cursor, limit)), limit);
      PageThenRest(t, cursor, limit);
    }
  }

  /** All pages of any size, put together, are the project's rows in order. */
  lemma AllPagesAreTheTable(t: set<Row>, limit: nat)
    requires limit > 0
    ensures IsListing(Walk(t, None, limit), t)
  {
    WalkIsListing(t, None, limit);
    ListingLists(t);
  }

  // ---------------------------------------------------------------- a table that changes between pages

  /** Page number i is taken from `tables[i]`. */
  ghost function WalkOver(tables: seq<set<Row>>, cursor: Option<Row>, limit: nat): seq<Row>
    requires limit > 0
  {
    if tables == [] then [] else
      var p := Page(tables[0], cursor, limit);
      if p == [] then [] else p + WalkOver(tables[1..], Last(p), limit)
  }

  /** Whether the walk saw an empty page, its sign to stop. */
  ghost predicate Ends(tables: seq<set<Row>>, cursor: Option<Row>, limit: nat)
    requires limit > 0
  {
    tables != [] &&
    var p := Page(tables[0], cursor, limit);
    p == [] || Ends(tables[1..], Last(p), limit)
  }

  ghost predicate UniqueIds(t: set<Row>) { forall r, q | r in t && q in t && r.id == q.id :: r == q }

  /** Ids are unique, and the timestamp of a deployment that lay no later than `top` does not
      go back afterwards. */
  ghost predicate NeverBack(tables: seq<set<Row>>, top: int) {
    && (forall i | 0 <= i < |tables| :: UniqueIds(tables[i]))
    && (forall i, j | 0 <= i < j < |tables| ::
          forall r, q | r in tables[i] && q in tables[j] && r.id == q.id && r.updatedAt <= top ::
            q.updatedAt >= r.updatedAt)
  }

  /** Ids are unique, and what is inserted or updated later gets a timestamp after `top`. */
  ghost predicate Evolves(tables: seq<set<Row>>, top: int) {
    && (forall i | 0 <= i < |tables| :: UniqueIds(tables[i]))
    && (forall i | 0 <= i < |tables| - 1 :: forall r | r in tables[i + 1] && r !in tables[i] :: r.updatedAt > top)
  }

  lemma {:induction false} OldOrLater(tables: seq<set<Row>>, top: int, i: nat, j: nat, q: Row)
    requires Evolves(tables, top) && i <= j < |tables| && q in tables[j]
    ensures q in tables[i] || q.updatedAt > top
    decreases j
  {
    if i < j && q in tables[j - 1] {
      OldOrLater(tables, top, i, j - 1, q);
    } else if i < j {
      assert q in tables[j - 1 + 1];
    }
  }

  /** Later timestamps for whatever is new are enough. */
  lemma LaterStampsSuffice(tables: seq<set<Row>>, top: int)
    requires Evolves(tables, top)
    ensures NeverBack(tables, top)
  {
    forall i, j, r, q | 0 <= i < j < |tables| && r in tables[i] && q in tables[j] && r.id == q.id && r.updatedAt <= top
      ensures q.updatedAt >= r.updatedAt
    {
      OldOrLater(tables, top, i, j, q);
      assert UniqueIds(tables[i]);
    }
  }

  lemma NeverBackTail(tables: seq<set<Row>>, top: int)
    requires NeverBack(tables, top) && tables != []
    ensures NeverBack(tables[1..], top)
  {
    var rest := tables[1..];
    assert forall i | 0 <= i < |rest| :: rest[i] == tables[i + 1];
  }

  /** Everything a walk lists lies after its cursor and was in one of the tables. */
  lemma {:induction false} LaterPages(tables: seq<set<Row>>, cursor: Row, limit: nat, q: Row)
    requires limit > 0 && q in WalkOver(tables, Some(cursor), limit)
    ensures Before(cursor, q) && exists j | 0 <= j < |tables| :: q in tables[j]
    decreases |tables|
  {
    hide Listing, Page;
    var p := Page(tables[0], Some(cursor), limit);
    PageRows(tables[0], Some(cursor), limit);
    if q !in p {
      var last := p[|p| - 1];
      assert last in p;
      LaterPages(tables[1..], last, limit, q);
      BeforeOrder(cursor, last, q);
      var j :| 0 <= j < |tables[1..]| && q in tables[1..][j];
      assert q in tables[j + 1];
    }
  }

  ghost predicate DistinctIds(s: seq<Row>) { forall i, j :: 0 <= i < j < |s| ==> s[i].id != s[j].id }

  lemma JoinDistinct(p: seq<Row>, rest: seq<Row>)
    requires DistinctIds(p) && DistinctIds(rest) && forall r, q | r in p && q in rest :: r.id != q.id
    ensures DistinctIds(p + rest)
  {
    var w := p + rest;
    forall i, j | 0 <= i < j < |w| ensures w[i].id != w[j].id {
      if i < |p| <= j { assert w[i] in p && w[j] in rest; }
    }
  }

  /** No row of a page is later than its first. */
  lemma PageUpTo(t: set<Row>, cursor: Option<Row>, limit: nat, r: Row)
    requires limit > 0 && r in Page(t, cursor, limit)
    ensures r.updatedAt <= Page(t, cursor, limit)[0].updatedAt
  {
    PageRows(t, cursor, limit);
    hide Page, Listing;
    var p := Page(t, cursor, limit);
    var k :| 0 <= k < |p| && p[k] == r;
    assert k > 0 ==> Before(p[0], p[k]);
  }

  /** The pages after `p` list other deployments than `p`. */
  lemma RestDiffers(tables: seq<set<Row>>, cursor: Option<Row>, limit: nat, top: int, p: seq<Row>)
    requires limit > 0 && |tables| > 1 && NeverBack(tables, top)
    requires p == Page(tables[0], cursor, limit) && p != [] && p[0].updatedAt <= top
    ensures forall r, q | r in p && q in WalkOver(tables[1..], Last(p), limit) :: r.id != q.id
  {
    hide Page, WalkOver, Listing, NeverBack, Before;
    PageRows(tables[0], cursor, limit);
    var last := p[|p| - 1];
    forall r, q | r in p && q in WalkOver(tables[1..], Last(p), limit) ensures r.id != q.id {
      PageUpTo(tables[0], cursor, limit, r);
      LaterPages(tables[1..], last, limit, q);
      LaterDiffers(tables, r, last, q, top);
    }
  }

  /** The page after `p` starts no later than `p` ends. */
  lemma NextStartsLater(t: set<Row>, p: seq<Row>, limit: nat)
    requires limit > 0 && p != []
    ensures var next := Page(t, Last(p), limit);
            next != [] ==> next[0].updatedAt <= p[|p| - 1].updatedAt
  {
    PageRows(t, Last(p), limit);
    HeadIsMember(Page(t, Last(p), limit));
  }

  /** No deployment is listed twice, even if it was updated while the walk went on. */
  lemma {:induction false} NoRowTwice(tables: seq<set<Row>>, cursor: Option<Row>, limit: nat, top: int)
    requires limit > 0 && NeverBack(tables, top)
    requires tables != [] && Page(tables[0], cursor, limit) != [] ==>
               Page(tables[0], cursor, limit)[0].updatedAt <= top
    ensures DistinctIds(WalkOver(tables, cursor, limit))
    decreases |tables|
  {
    hide Page, Listing, DistinctIds;
    if tables == [] {
      NoneTwice([]);
    } else {
      var p := Page(tables[0], cursor, limit);
      PageDistinct(tables[0], cursor, limit, p);
      if p == [] {
        NoneTwice([]);
      } else if |tables| == 1 {
        assert tables[1..] == [];
        assert WalkOver(tables, cursor, limit) == p + [] == p;
      } else {
        RestDiffers(tables, cursor, limit, top, p);
        NextStartsLater(tables[1], p, limit);
        assert p[|p| - 1] in p;
        PageUpTo(tables[0], cursor, limit, p[|p| - 1]);
        NeverBackTail(tables, top);
        NoRowTwice(tables[1..], Last(p), limit, top);
        JoinDistinct(p, WalkOver(tables[1..], Last(p), limit));
      }
    }
  }

  lemma NoneTwice(s: seq<Row>)
    requires s == []
    ensures DistinctIds(s)
  {
  }

  lemma PageDistinct(t: set<Row>, cursor: Option<Row>, limit: nat, p: seq<Row>)
    requires limit > 0 && p == Page(t, cursor, limit) && UniqueIds(t)
    ensures DistinctIds(p)
  {
    PageRows(t, cursor, limit);
    forall i, j | 0 <= i < j < |p| ensures p[i].id != p[j].id {
      assert p[i] in p && p[j] in p;
      BeforeOrder(p[i], p[j], p[i]);
    }
  }

  /** A row after the last one listed is another deployment than one listed before. */
  lemma LaterDiffers(tables: seq<set<Row>>, listed: Row, last: Row, later: Row, top: int)
    requires |tables| > 1 && NeverBack(tables, top) && listed in tables[0] && listed.updatedAt <= top
    requires listed == last || Before(listed, last)
    requires Before(last, later) && exists j | 0 <= j < |tables[1..]| :: later in tables[1..][j]
    ensures listed.id != later.id
  {
    var j :| 0 <= j < |tables[1..]| && later in tables[1..][j];
    assert later in tables[j + 1];
    BeforeOrder(listed, last, later);
    LessStrict(listed.id, listed.id);
  }

  /** Every row that stays untouched is listed once the walk has come to its end. */
  lemma {:induction false} UntouchedListed(tables: seq<set<Row>>, cursor: Option<Row>, limit: nat, r: Row)
    requires limit > 0 && Ends(tables, cursor, limit)
    requires forall i | 0 <= i < |tables| :: r in tables[i]
    requires cursor.Some? ==> Before(cursor.value, r)
    ensures r in WalkOver(tables, cursor, limit)
    decreases |tables|
  {
    var p := Page(tables[0], cursor, limit);
    PageRows(tables[0], cursor, limit);
    assert r in After(tables[0], cursor);
    if r !in p {
      assert forall i | 0 <= i < |tables[1..]| :: r in tables[1..][i];
      UntouchedListed(tables[1..], Last(p), limit, r);
    }
  }

  /**
   Walking pages while rows are inserted, updated or removed between pages lists every
   untouched row once the walk ends, whatever happens to the others.  It lists no
   deployment twice if no deployment's timestamp goes back: it is enough to ask this of
   timestamps up to that of the very first row listed, and so it is enough that whatever
   is new has a later one (`LaterStampsSuffice`).
   */
  lemma WalkOnChangingTable(tables: seq<set<Row>>, limit: nat)
    requires limit > 0 && Ends(tables, None, limit)
    ensures var p := Page(tables[0], None, limit);
            p == [] || NeverBack(tables, p[0].updatedAt) ==> DistinctIds(WalkOver(tables, None, limit))
    ensures forall r | forall i | 0 <= i < |tables| :: r in tables[i] :: r in WalkOver(tables, None, limit)
  {
    var p := Page(tables[0], None, limit);
    if p != [] && NeverBack(tables, p[0].updatedAt) { NoRowTwice(tables, None, limit, p[0].updatedAt); }
    forall r | forall i | 0 <= i < |tables| :: r in tables[i] ensures r in WalkOver(tables, None, limit) {
      UntouchedListed(tables, None, limit, r);
    }
  }

  // ---------------------------------------------------------------- the timestamp-only cursor

  /** `updated_at < cursor` */
  ghost function Older(t: set<Row>, cursor: Option<int>): set<Row> {
    if cursor.None? then t else set r | r in t && r.updatedAt < cursor.value
  }

  /** `ORDER BY updated_at DESC LIMIT limit` leaves the order within a timestamp open: any
      such list is a possible answer. */
  ghost predicate IsAnswer(p: seq<Row>, t: set<Row>, cursor: Option<int>, limit: nat) {
    && (forall i, j :: 0 <= i < j < |p| ==> p[i].updatedAt >= p[j].updatedAt && p[i] != p[j])
    && (forall r | r in p :: r in Older(t, cursor))
    && |p| <= limit
    && (|p| < limit ==> forall r | r in Older(t, cursor) :: r in p)
    && (forall r, q | r in Older(t, cursor) && r !in p && q in p :: r.updatedAt <= q.updatedAt)
  }

  /**
   After an answer with its next cursor, the rows asked for fall apart into the answer,
   the rows left for later pages, and those that no page will list: exactly the
   remaining rows tied with the last row of the page.
   */
  lemma TiesAreSkipped(p: seq<Row>, t: set<Row>, cursor: Option<int>, limit: nat, r: Row)
    requires limit > 0 && p != [] && IsAnswer(p, t, cursor, limit) && r in Older(t, cursor)
    ensures var next := p[|p| - 1].updatedAt;
            && !(r in p && r in Older(t, Some(next)))
            && (r !in p && r !in Older(t, Some(next)) <==> r !in p && r.updatedAt == next)
  {
    var last := p[|p| - 1];
    assert last in p;
    if r in p { var i :| 0 <= i < |p| && p[i] == r; }
  }

  /** A walk by timestamp alone: each page is an answer after the last timestamp of the page
      before, and the walk ends with an empty page. */
  ghost predicate IsTimeWalk(pages: seq<seq<Row>>, t: set<Row>, cursor: Option<int>, limit: nat) {
    && pages != [] && IsAnswer(pages[0], t, cursor, limit)
    && if pages[0] == [] then |pages| == 1
       else IsTimeWalk(pages[1..], t, Some(pages[0][|pages[0]| - 1].updatedAt), limit)
  }

  ghost predicate OnSomePage(pages: seq<seq<Row>>, r: Row) { exists i | 0 <= i < |pages| :: r in pages[i] }

  /** Some page without the row ends on its timestamp. */
  ghost predicate CutOff(pages: seq<seq<Row>>, r: Row) { exists i | 0 <= i < |pages| :: CutsOff(pages[i], r) }

  predicate CutsOff(p: seq<Row>, r: Row) { p != [] && r !in p && p[|p| - 1].updatedAt == r.updatedAt }

  lemma {:induction false} TimeWalkIsOlder(pages: seq<seq<Row>>, t: set<Row>, cursor: int, limit: nat)
    requires IsTimeWalk(pages, t, Some(cursor), limit)
    ensures forall i | 0 <= i < |pages| :: forall r | r in pages[i] :: r.updatedAt < cursor
    decreases |pages|
  {
    if pages[0] != [] {
      var last := pages[0][|pages[0]| - 1];
      assert last in pages[0];
      TimeWalkIsOlder(pages[1..], t, last.updatedAt, limit);
      forall i | 0 <= i < |pages| ensures forall r | r in pages[i] :: r.updatedAt < cursor {
        if i > 0 { assert pages[i] == pages[1..][i - 1]; }
      }
    }
  }

  lemma PagesSplit(pages: seq<seq<Row>>, r: Row)
    requires pages != []
    ensures OnSomePage(pages, r) <==> r in pages[0] || OnSomePage(pages[1..], r)
    ensures CutOff(pages, r) <==> CutsOff(pages[0], r) || CutOff(pages[1..], r)
  {
    var rest := pages[1..];
    if OnSomePage(rest, r) {
      var i :| 0 <= i < |rest| && r in rest[i];
      assert r in pages[i + 1];
    }
    if CutOff(rest, r) {
      var i :| 0 <= i < |rest| && CutsOff(rest[i], r);
      assert CutsOff(pages[i + 1], r);
    }
    assert forall i | 0 < i < |pages| :: pages[i] == rest[i - 1];
  }

  /** The rows of a walk after timestamp `next` neither contain nor cut off what lies at or before it. */
  lemma LaterPagesSpare(pages: seq<seq<Row>>, t: set<Row>, next: int, limit: nat, r: Row)
    requires IsTimeWalk(pages, t, Some(next), limit) && r.updatedAt >= next
    ensures !OnSomePage(pages, r) && !CutOff(pages, r)
  {
    TimeWalkIsOlder(pages, t, next, limit);
    forall i | 0 <= i < |pages| ensures !CutsOff(pages[i], r) {
      if pages[i] != [] { assert pages[i][|pages[i]| - 1] in pages[i]; }
    }
  }

  /**
   Over the whole walk by timestamp alone, a row asked for is on no page if and only if
   some page without it ends on its timestamp.
   */
  lemma {:induction false} SkippedExactly(pages: seq<seq<Row>>, t: set<Row>, cursor: Option<int>, limit: nat, r: Row)
    requires limit > 0 && IsTimeWalk(pages, t, cursor, limit) && r in Older(t, cursor)
    ensures OnSomePage(pages, r) <==> !CutOff(pages, r)
    decreases |pages|
  {
    var p := pages[0];
    PagesSplit(pages, r);
    if p != [] {
      TiesAreSkipped(p, t, cursor, limit, r);
      var next := p[|p| - 1].updatedAt;
      if r in Older(t, Some(next)) {
        SkippedExactly(pages[1..], t, Some(next), limit, r);
      } else {
        LaterPagesSpare(pages[1..], t, next, limit, r);
      }
    }
  }

  /** With distinct timestamps the two queries give the same pages. */
  lemma AgreesOnDistinctTimestamps(p: seq<Row>, t: set<Row>, cursor: Option<Row>, limit: nat)
    requires limit > 0 && (cursor.Some? ==> cursor.value in t)
    requires forall r, q | r in t && q in t && r.updatedAt == q.updatedAt :: r == q
    ensures var c := if cursor.Some? then Some(cursor.value.updatedAt) else None;
            IsAnswer(p, t, c, limit) <==> p == Page(t, cursor, limit)
  {
    var c := if cursor.Some? then Some(cursor.value.updatedAt) else None;
    var rows := After(t, cursor);
    if cursor.Some? { BeforeOrder(cursor.value, cursor.value, cursor.value); }
    assert Older(t, c) == rows;
    if p == Page(t, cursor, limit) { PageIsAnswer(t, cursor, c, limit); }
    if IsAnswer(p, t, c, limit) { AnswerIsPage(p, t, cursor, c, limit); }
  }

  lemma PageIsAnswer(t: set<Row>, cursor: Option<Row>, c: Option<int>, limit: nat)
    requires limit > 0 && Older(t, c) == After(t, cursor)
    ensures IsAnswer(Page(t, cursor, limit), t, c, limit)
  {
    var p, s := Page(t, cursor, limit), Listing(After(t, cursor));
    ListingLists(After(t, cursor));
    PageRows(t, cursor, limit);
    forall i, j | 0 <= i < j < |p| ensures p[i].updatedAt >= p[j].updatedAt && p[i] != p[j] {
      BeforeOrder(p[i], p[j], p[i]);
    }
    forall r, q | r in Older(t, c) && r !in p && q in p ensures r.updatedAt <= q.updatedAt {
      assert Before(p[|p| - 1], r);
      BeforeOrder(q, p[|p| - 1], r);
    }
  }

  /** With distinct timestamps an answer is in list order, and before all that it leaves out. */
  lemma AnswerInOrder(p: seq<Row>, t: set<Row>, c: Option<int>, limit: nat)
    requires IsAnswer(p, t, c, limit)
    requires forall r, q | r in t && q in t && r.updatedAt == q.updatedAt :: r == q
    ensures forall i, j | 0 <= i < j < |p| :: Before(p[i], p[j])
    ensures forall r, q | r in p && q in Older(t, c) && q !in p :: Before(r, q)
  {
    forall i, j | 0 <= i < j < |p| ensures Before(p[i], p[j]) {
      assert p[i] in p && p[j] in p && p[i] in t && p[j] in t;
    }
    forall r, q | r in p && q in Older(t, c) && q !in p ensures Before(r, q) { assert r in t && q in t; }
  }

  /** The list of what an answer leaves out continues the answer. */
  lemma AnswerIsPage(p: seq<Row>, t: set<Row>, cursor: Option<Row>, c: Option<int>, limit: nat)
    requires limit > 0 && Older(t, c) == After(t, cursor) && IsAnswer(p, t, c, limit)
    requires forall r, q | r in t && q in t && r.updatedAt == q.updatedAt :: r == q
    ensures p == Page(t, cursor, limit)
  {
    var rows := After(t, cursor);
    var out := set r | r in rows && r !in p;
    var rest := Listing(out);
    ListingLists(out);
    ListingLists(rows);
    AnswerInOrder(p, t, c, limit);
    forall r, q | r in p && q in rest ensures Before(r, q) { assert q in out; }
    JoinListings(p, rest, rows);
    ListingUnique(p + rest, Listing(rows), rows);
    assert |p| < limit ==> out == {};
  }
}
