/** The bid rows of one auction and the order every query lists them in. */
module BidTable {
  import opened Wrappers

  datatype BidRow = BidRow(id: string, bidder: string, amount: int, time: int, hold: Option<nat>)

  /** What the order looks at: highest amount first, then earliest, then smallest id. */
  datatype Key = Key(amount: int, time: int, id: string)

  function KeyOf(row: BidRow): Key { Key(row.amount, row.time, row.id) }

  /** Lexicographic text order, as the database compares ids. */
  predicate TextBefore(a: string, b: string) {
    b != "" && (a == "" || a[0] < b[0] || (a[0] == b[0] && TextBefore(a[1..], b[1..])))
  }

  predicate KeyBefore(a: Key, b: Key) {
    || b.amount < a.amount
    || (a.amount == b.amount && a.time < b.time)
    || (a.amount == b.amount && a.time == b.time && TextBefore(a.id, b.id))
  }

  predicate Before(a: BidRow, b: BidRow) { KeyBefore(KeyOf(a), KeyOf(b)) }

  lemma {:induction false} TextOrderIsTotal(a: string, b: string)
    ensures (TextBefore(a, b) && a != b && !TextBefore(b, a)) || (TextBefore(b, a) && a != b && !TextBefore(a, b))
            || (a == b && !TextBefore(a, b))
    decreases |a|
  {
    if a != "" && b != "" {
      TextOrderIsTotal(a[1..], b[1..]);
      assert a == [a[0]] + a[1..] && b == [b[0]] + b[1..];
    }
  }

  lemma {:induction false} TextOrderIsTransitive(a: string, b: string, c: string)
    requires TextBefore(a, b) && TextBefore(b, c)
    ensures TextBefore(a, c)
    decreases |a|
  {
    if a != "" && a[0] == b[0] == c[0] {
      TextOrderIsTransitive(a[1..], b[1..], c[1..]);
    }
  }

  /** Text order is by the first character in which two texts differ; a proper prefix comes first. */
  lemma {:induction false} TextOrderIsLexicographic(a: string, b: string)
    ensures TextBefore(a, b) <==>
              exists k | 0 <= k <= |a| && k < |b| :: a[..k] == b[..k] && (k == |a| || a[k] < b[k])
    decreases |a|
  {
    if TextBefore(a, b) {
      if a == "" || a[0] < b[0] {
        assert a[..0] == b[..0];
      } else {
        TextOrderIsLexicographic(a[1..], b[1..]);
        var k :| 0 <= k <= |a[1..]| && k < |b[1..]| && a[1..][..k] == b[1..][..k]
                 && (k == |a[1..]| || a[1..][k] < b[1..][k]);
        assert a[..k + 1] == [a[0]] + a[1..][..k] && b[..k + 1] == [b[0]] + b[1..][..k];
      }
    } else if k :| 0 <= k <= |a| && k < |b| && a[..k] == b[..k] && (k == |a| || a[k] < b[k]) {
      if 0 < k {
        assert a[0] == a[..k][0] == b[..k][0] == b[0];
        assert a[1..][..k - 1] == a[..k][1..] == b[..k][1..] == b[1..][..k - 1];
        TextOrderIsLexicographic(a[1..], b[1..]);
      }
    }
  }

  /** Of two keys exactly one comes first, unless they are the same key. */
  lemma KeyOrderIsTotal(a: Key, b: Key)
    ensures KeyBefore(a, b) <==> a != b && !KeyBefore(b, a)
  {
    TextOrderIsTotal(a.id, b.id);
  }

  lemma KeyOrderIsTransitive(a: Key, b: Key, c: Key)
    requires KeyBefore(a, b) && KeyBefore(b, c)
    ensures KeyBefore(a, c)
  {
    if a.amount == b.amount == c.amount && a.time == b.time == c.time {
      TextOrderIsTransitive(a.id, b.id, c.id);
    }
  }

  // ----- queries

  function Where(rows: seq<BidRow>, p: BidRow -> bool): (r: seq<BidRow>)
    ensures forall x :: x in r <==> x in rows && p(x)
    ensures |r| <= |rows|
  {
    if rows == [] then []
    else if p(rows[0]) then [rows[0]] + Where(rows[1..], p)
    else Where(rows[1..], p)
  }

  function Insert(row: BidRow, listed: seq<BidRow>): (r: seq<BidRow>)
    ensures forall x :: x in r <==> x == row || x in listed
    ensures |r| == |listed| + 1
  {
    if listed == [] || Before(row, listed[0]) then [row] + listed
    else [listed[0]] + Insert(row, listed[1..])
  }

  /** All rows in the listing order. */
  function Listed(rows: seq<BidRow>): (r: seq<BidRow>)
    ensures forall x :: x in r <==> x in rows
    ensures |r| == |rows|
  {
    if rows == [] then []
    else
      assert rows == rows[..|rows| - 1] + [rows[|rows| - 1]];
      Insert(rows[|rows| - 1], Listed(rows[..|rows| - 1]))
  }

  function First(rows: seq<BidRow>): Option<BidRow> {
    if rows == [] then None else Some(rows[0])
  }

  /** The row the winner query returns. */
  function Winner(rows: seq<BidRow>): Option<BidRow> { First(Listed(rows)) }

  /** The row a replayed request is recognised by. */
  function Matching(rows: seq<BidRow>, bidder: string, amount: int, time: int): (r: Option<BidRow>)
    ensures r.Some? ==> r.value in rows && r.value.bidder == bidder && r.value.amount == amount && r.value.time == time
    ensures r.None? ==> forall x <- rows :: !(x.bidder == bidder && x.amount == amount && x.time == time)
  {
    var found := Where(rows, (x: BidRow) => x.bidder == bidder && x.amount == amount && x.time == time);
    assert Listed(found) != [] ==> Listed(found)[0] in found;
    assert found != [] ==> found[0] in Listed(found);
    First(Listed(found))
  }

  predicate HasId(rows: seq<BidRow>, id: string) { exists x <- rows :: x.id == id }

  /** Ids are the table's primary key. */
  predicate DistinctIds(rows: seq<BidRow>) {
    forall i, j | 0 <= i < j < |rows| :: rows[i].id != rows[j].id
  }

  /** Each row comes strictly before all later ones. */
  predicate Ordered(rows: seq<BidRow>) {
    forall i, j | 0 <= i < j < |rows| :: Before(rows[i], rows[j])
  }

  /** In insertion order every bid tops the ones before it. */
  predicate Rising(rows: seq<BidRow>) {
    forall i, j | 0 <= i < j < |rows| :: rows[i].amount < rows[j].amount
  }

  // ----- facts about the listing

  lemma {:induction false} InsertKeepsOrder(row: BidRow, listed: seq<BidRow>)
    requires Ordered(listed)
    requires forall x <- listed :: x.id != row.id
    ensures Ordered(Insert(row, listed))
  {
    if listed != [] {
      KeyOrderIsTotal(KeyOf(row), KeyOf(listed[0]));
      if Before(row, listed[0]) {
        forall j | 1 <= j < |listed| ensures Before(row, listed[j]) {
          KeyOrderIsTransitive(KeyOf(row), KeyOf(listed[0]), KeyOf(listed[j]));
        }
      } else {
        InsertKeepsOrder(row, listed[1..]);
        var rest := Insert(row, listed[1..]);
        forall j | 0 <= j < |rest| ensures Before(listed[0], rest[j]) {
          assert rest[j] in rest;
        }
      }
    }
  }

  /** With distinct ids the listing is strictly ordered, so it has no ties and no duplicates. */
  lemma {:induction false} ListingIsOrdered(rows: seq<BidRow>)
    requires DistinctIds(rows)
    ensures Ordered(Listed(rows))
  {
    if rows != [] {
      var init, last := rows[..|rows| - 1], rows[|rows| - 1];
      ListingIsOrdered(init);
      forall x <- Listed(init) ensures x.id != last.id {
        assert x in init;
      }
      InsertKeepsOrder(last, Listed(init));
    }
  }

  /** The listing by the columns alone: no amount is followed by a higher one, among equal amounts no time by an earlier
      one, and among equal times the ids rise. */
  lemma ListingFollowsColumns(rows: seq<BidRow>, i: nat, j: nat)
    requires DistinctIds(rows) && i < j < |Listed(rows)|
    ensures var a, b := Listed(rows)[i], Listed(rows)[j];
            && b.amount <= a.amount
            && (a.amount == b.amount ==> a.time <= b.time)
            && (a.amount == b.amount && a.time == b.time ==> TextBefore(a.id, b.id))
  {
    hide Listed;
    ListingIsOrdered(rows);
    assert Before(Listed(rows)[i], Listed(rows)[j]);
  }

  /** An ordered list is determined by which rows it holds. */
  lemma {:induction false} OrderedListIsUnique(a: seq<BidRow>, b: seq<BidRow>)
    requires Ordered(a) && Ordered(b)
    requires forall x :: x in a <==> x in b
    ensures a == b
  {
    if a == [] {
      if b != [] { SameMembersAreNotEmpty(b, a); }
    } else {
      SameMembersAreNotEmpty(a, b);
      HeadsAgree(a, b);
      forall x ensures x in a[1..] <==> x in b[1..] {
        TailMembership(a, x);
        TailMembership(b, x);
      }
      OrderedListIsUnique(a[1..], b[1..]);
    }
  }

  lemma SameMembersAreNotEmpty(a: seq<BidRow>, b: seq<BidRow>)
    requires a != []
    requires forall x :: x in a <==> x in b
    ensures b != [] && a[0] in b && b[0] in a
  {
    assert a[0] in b;
    assert b[0] in b;
  }

  lemma HeadsAgree(a: seq<BidRow>, b: seq<BidRow>)
    requires a != [] && b != [] && Ordered(a) && Ordered(b)
    requires a[0] in b && b[0] in a
    ensures a[0] == b[0]
  {
    var i :| 0 <= i < |b| && b[i] == a[0];
    var j :| 0 <= j < |a| && a[j] == b[0];
    KeyOrderIsTotal(KeyOf(a[0]), KeyOf(b[0]));
  }

  lemma TailMembership(a: seq<BidRow>, x: BidRow)
    requires a != [] && Ordered(a)
    ensures x in a[1..] <==> x in a && x != a[0]
  {
    KeyOrderIsTotal(KeyOf(a[0]), KeyOf(a[0]));
    if x in a[1..] {
      var i :| 0 <= i < |a[1..]| && a[1..][i] == x;
      assert Before(a[0], a[i + 1]);
    }
  }

  lemma NoRowsNoWinner()
    ensures Winner([]) == None
  {
  }

  lemma WinnerIsARow(rows: seq<BidRow>)
    ensures Winner(rows).Some? ==> Winner(rows).value in rows
  {
    assert Listed(rows) != [] ==> Listed(rows)[0] in Listed(rows);
  }

  /** The winner is the row nothing precedes. */
  lemma WinnerIsFirst(rows: seq<BidRow>)
    requires DistinctIds(rows) && rows != []
    ensures Winner(rows).Some? && Winner(rows).value in rows
    ensures forall x <- rows :: x == Winner(rows).value || Before(Winner(rows).value, x)
  {
    ListingIsOrdered(rows);
    var listed := Listed(rows);
    assert listed[0] in listed;
    forall x <- rows ensures x == listed[0] || Before(listed[0], x) {
      assert x in listed;
      var i :| 0 <= i < |listed| && listed[i] == x;
    }
  }

  /** In a rising table the newest row is listed first, whatever the tie-breaks say. */
  lemma NewestIsListedFirst(rows: seq<BidRow>)
    requires rows != [] && Rising(rows)
    ensures Listed(rows) == [rows[|rows| - 1]] + Listed(rows[..|rows| - 1])
    ensures Winner(rows) == Some(rows[|rows| - 1])
  {
    var init := rows[..|rows| - 1];
    if init != [] {
      assert Listed(init)[0] in init;
    }
  }
}
