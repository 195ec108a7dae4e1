/** Keyset pages over the bid table, and what walking them returns. */
module BidPages {
  import opened Wrappers
  import opened BidTable
  import opened BidCursor

  const DEFAULT_LIMIT := 20
  const MAX_LIMIT := 100

  datatype Page = Page(items: seq<BidRow>, next: Option<string>, size: int)

  function PageSize(limit: Option<int>): (n: int)
    ensures 1 <= n <= 100
    ensures limit.None? ==> n == 20
    ensures limit.Some? && 1 <= limit.value <= 100 ==> n == limit.value
    ensures limit.Some? && 100 < limit.value ==> n == 100
    ensures limit.Some? && limit.value < 1 ==> n == 1
  {
    var wanted := if limit.Some? then limit.value else DEFAULT_LIMIT;
    Max(1, Min(wanted, MAX_LIMIT))
  }

  /** The rows strictly after a cursor, in listing order; all rows when there is no cursor. */
  function Remaining(rows: seq<BidRow>, after: Option<Key>): (r: seq<BidRow>)
    ensures forall x :: x in r <==> x in rows && (after.Some? ==> KeyBefore(after.value, KeyOf(x)))
  {
    Listed(Where(rows, (x: BidRow) => after.Some? ==> KeyBefore(after.value, KeyOf(x))))
  }

  function Take(rows: seq<BidRow>, n: int): seq<BidRow>
    requires 0 <= n
  {
    if n < |rows| then rows[..n] else rows
  }

  function CursorOf(text: Option<string>): Result<Option<Key>, CursorError> {
    if text.None? then Ok(None)
    else match Parse(text.value)
      case Ok(key) => Ok(Some(key))
      case Err(e) => Err(e)
  }

  /** A page is as many remaining rows as its size, with a cursor to its last row just when some are left over. */
  function PageOf(rows: seq<BidRow>, cursor: Option<string>, limit: Option<int>): Result<Page, CursorError> {
    match CursorOf(cursor)
    case Err(e) => Err(e)
    case Ok(after) =>
      var rest, size := Remaining(rows, after), PageSize(limit);
      if size < |rest| then Ok(Page(rest[..size], Some(Print(KeyOf(rest[size - 1]))), size))
      else Ok(Page(rest, None, size))
  }

  /** The query fetches one row too many to learn whether there are more, then truncates. */
  method ListBidsWithCursor(rows: seq<BidRow>, cursor: Option<string>, limit: Option<int>)
    returns (r: Result<Page, CursorError>)
    ensures r == PageOf(rows, cursor, limit)
  {
    hide Remaining, Print, Parse;
    var sanitizedLimit := PageSize(limit);
    var after: Option<Key> := None;
    if cursor.Some? {
      var parsed := Parse(cursor.value);
      if parsed.Err? {
        return Err(parsed.error);
      }
      after := Some(parsed.value);
    }
    var bids := Take(Remaining(rows, after), sanitizedLimit + 1);
    var hasMore := sanitizedLimit < |bids|;
    if hasMore {
      assert bids[..sanitizedLimit] == Remaining(rows, after)[..sanitizedLimit];
      bids := bids[..sanitizedLimit];
    }
    var nextCursor := if hasMore then Some(Print(KeyOf(bids[|bids| - 1]))) else None;
    r := Ok(Page(bids, nextCursor, sanitizedLimit));
  }

  // ----- what a page holds

  /** The cursor text stands for this key; no text stands for none. */
  predicate Denotes(cursor: Option<string>, after: Option<Key>) {
    if cursor.None? then after.None? else after.Some? && Parse(cursor.value) == Ok(after.value)
  }

  /** The row comes strictly after the cursor. */
  predicate IsAfter(x: BidRow, after: Option<Key>) { after.None? || KeyBefore(after.value, KeyOf(x)) }

  /** How many rows come after the cursor. */
  function CountAfter(rows: seq<BidRow>, after: Option<Key>): nat {
    if rows == [] then 0 else (if IsAfter(rows[0], after) then 1 else 0) + CountAfter(rows[1..], after)
  }

  lemma {:induction false} CountIsLength(rows: seq<BidRow>, after: Option<Key>, p: BidRow -> bool)
    requires forall x :: p(x) <==> IsAfter(x, after)
    ensures |Where(rows, p)| == CountAfter(rows, after)
  {
    if rows != [] { CountIsLength(rows[1..], after, p); }
  }

  lemma {:induction false} ListingKeepsLength(rows: seq<BidRow>)
    ensures |Listed(rows)| == |rows|
  {
    if rows != [] { ListingKeepsLength(rows[..|rows| - 1]); }
  }

  lemma RemainingCount(rows: seq<BidRow>, after: Option<Key>)
    ensures |Remaining(rows, after)| == CountAfter(rows, after)
  {
    var p := (x: BidRow) => after.Some? ==> KeyBefore(after.value, KeyOf(x));
    CountIsLength(rows, after, p);
    ListingKeepsLength(Where(rows, p));
  }

  /**
   * What a page is, for every accepted cursor: as many rows as the limit asks for, or all that are left; rows after the
   * cursor, in listing order, before every row left out; and a next cursor exactly when rows are left out, to the last
   * row of the page.
   */
  lemma PageIsExact(rows: seq<BidRow>, cursor: Option<string>, limit: Option<int>, after: Option<Key>)
    requires DistinctIds(rows) && Denotes(cursor, after)
    ensures PageOf(rows, cursor, limit).Ok?
    ensures var page, left := PageOf(rows, cursor, limit).value, CountAfter(rows, after);
            && page.size == PageSize(limit) && |page.items| == Min(page.size, left)
            && Ordered(page.items)
            && (forall x <- page.items :: x in rows && IsAfter(x, after))
            && (forall x <- rows | IsAfter(x, after) && x !in page.items ::
                  forall y <- page.items :: Before(y, x))
            && (page.next.Some? <==> page.size < left)
            && (page.next.Some? ==> page.items != [] && page.next.value == Print(KeyOf(page.items[|page.items| - 1])))
  {
    hide Print, Parse, Remaining, DistinctIds, Ordered, Before, KeyBefore;
    RemainingCount(rows, after);
    RemainingIsOrdered(rows, after);
    var rest, page := Remaining(rows, after), PageOf(rows, cursor, limit).value;
    assert page.items == rest[..|page.items|];
    PrefixComesFirst(rest, |page.items|);
    forall x <- page.items ensures x in rest {}
    forall x <- rows | IsAfter(x, after) && x !in page.items ensures x in rest && x !in rest[..|page.items|] {}
  }

  lemma PrefixComesFirst(list: seq<BidRow>, n: nat)
    requires Ordered(list) && n <= |list|
    ensures Ordered(list[..n])
    ensures forall x <- list | x !in list[..n] :: forall y <- list[..n] :: Before(y, x)
  {
    hide Before;
    forall x <- list, y <- list[..n] | x !in list[..n] ensures Before(y, x) {
      assert list == list[..n] + list[n..];
      var i, k :| 0 <= i < n && list[..n][i] == y && 0 <= k < |list[n..]| && list[n..][k] == x;
      assert Before(list[i], list[n + k]);
    }
  }

  /** A cursor that cannot be read is an error, and the error is the cursor's. */
  lemma BadCursorIsRefused(rows: seq<BidRow>, cursor: string, limit: Option<int>)
    ensures PageOf(rows, Some(cursor), limit).Err? <==> Parse(cursor).Err?
    ensures Parse(cursor).Err? ==> PageOf(rows, Some(cursor), limit).error == Parse(cursor).error
  {
    hide Print, Parse, Remaining;
  }

  // ----- what follows a cursor

  lemma {:induction false} WhereKeepsDistinctIds(rows: seq<BidRow>, p: BidRow -> bool)
    requires DistinctIds(rows)
    ensures DistinctIds(Where(rows, p))
  {
    if rows != [] {
      WhereKeepsDistinctIds(rows[1..], p);
      forall x <- Where(rows[1..], p) ensures x.id != rows[0].id {
        assert x in rows[1..];
      }
    }
  }

  lemma RemainingIsOrdered(rows: seq<BidRow>, after: Option<Key>)
    requires DistinctIds(rows)
    ensures Ordered(Remaining(rows, after))
  {
    var p := (x: BidRow) => after.Some? ==> KeyBefore(after.value, KeyOf(x));
    WhereKeepsDistinctIds(rows, p);
    ListingIsOrdered(Where(rows, p));
  }

  lemma SuffixIsWhatFollows(list: seq<BidRow>, k: nat, x: BidRow)
    requires Ordered(list) && 1 <= k <= |list|
    ensures x in list[k..] <==> x in list && Before(list[k - 1], x)
  {
    if x in list[k..] {
      var i :| 0 <= i < |list[k..]| && list[k..][i] == x;
      assert Before(list[k - 1], list[k + i]);
    } else if x in list {
      assert list == list[..k] + list[k..];
      var i :| 0 <= i < |list[..k]| && list[..k][i] == x;
      KeyOrderIsTotal(KeyOf(list[k - 1]), KeyOf(x));
    }
  }

  lemma FollowsLaterToo(rows: seq<BidRow>, after: Option<Key>, last: BidRow, x: BidRow)
    requires last in Remaining(rows, after)
    ensures x in Remaining(rows, Some(KeyOf(last))) <==> x in Remaining(rows, after) && Before(last, x)
  {
    if after.Some? && Before(last, x) {
      KeyOrderIsTransitive(after.value, KeyOf(last), KeyOf(x));
    }
  }

  /** After the k-th remaining row come exactly the remaining rows from k on. */
  lemma RemainingAfterRow(rows: seq<BidRow>, after: Option<Key>, k: nat)
    requires DistinctIds(rows)
    requires 1 <= k <= |Remaining(rows, after)|
    ensures Remaining(rows, Some(KeyOf(Remaining(rows, after)[k - 1]))) == Remaining(rows, after)[k..]
  {
    var rest := Remaining(rows, after);
    var last := rest[k - 1];
    assert last in rest;
    RemainingIsOrdered(rows, after);
    RemainingIsOrdered(rows, Some(KeyOf(last)));
    forall x ensures x in Remaining(rows, Some(KeyOf(last))) <==> x in rest[k..] {
      FollowsLaterToo(rows, after, last, x);
      SuffixIsWhatFollows(rest, k, x);
    }
    OrderedListIsUnique(Remaining(rows, Some(KeyOf(last))), rest[k..]);
  }

  // ----- walking

  /** One fetch of a walk: the table as it is then, and the limit asked for. */
  datatype Fetch = Fetch(table: seq<BidRow>, limit: Option<int>)

  datatype WalkResult = WalkResult(items: seq<BidRow>, done: bool)

  /** Fetch page after page, each time with the cursor the page before returned. */
  function Walk(fetches: seq<Fetch>, cursor: Option<string>): WalkResult {
    if fetches == [] then WalkResult([], false)
    else match PageOf(fetches[0].table, cursor, fetches[0].limit)
      case Err(_) => WalkResult([], false)
      case Ok(page) =>
        if page.next.None? then WalkResult(page.items, true)
        else
          var more := Walk(fetches[1..], page.next);
          WalkResult(page.items + more.items, more.done)
  }

  /** Rows whose cursor survives printing. */
  predicate Printable(rows: seq<BidRow>) {
    forall x <- rows :: IsI64(x.amount) && IsI64(x.time) && !Blank(x.id)
  }

  /** Behind any row of `base`, `table` lists the same rows as `base` does. */
  predicate SameBehind(base: seq<BidRow>, table: seq<BidRow>) {
    forall x <- base :: Remaining(table, Some(KeyOf(x))) == Remaining(base, Some(KeyOf(x)))
  }

  predicate Covers(result: WalkResult, expected: seq<BidRow>, fetches: nat) {
    && result.items <= expected
    && (result.done ==> result.items == expected)
    && (|expected| <= fetches && 1 <= fetches ==> result.done)
  }

  lemma {:induction false} WalkFromRow(base: seq<BidRow>, fetches: seq<Fetch>, x: BidRow)
    requires DistinctIds(base) && Printable(base) && x in base
    requires forall f <- fetches :: SameBehind(base, f.table)
    ensures Covers(Walk(fetches, Some(Print(KeyOf(x)))), Remaining(base, Some(KeyOf(x))), |fetches|)
    decreases |fetches|, 1
  {
    if fetches != [] {
      CursorRoundTripIff(KeyOf(x));
      assert fetches[0] in fetches;
      PageThenRest(base, fetches, Some(KeyOf(x)), Some(Print(KeyOf(x))));
    }
  }

  /** One page and the walk behind it together cover what remained. */
  lemma {:induction false} PageThenRest(base: seq<BidRow>, fetches: seq<Fetch>, after: Option<Key>,
                                        cursor: Option<string>)
    requires DistinctIds(base) && Printable(base) && fetches != []
    requires CursorOf(cursor) == Ok(after)
    requires Remaining(fetches[0].table, after) == Remaining(base, after)
    requires forall f <- fetches[1..] :: SameBehind(base, f.table)
    ensures Covers(Walk(fetches, cursor), Remaining(base, after), |fetches|)
    decreases |fetches|, 0
  {
    hide Remaining, Print, Parse, Printable;
    var rest, size := Remaining(base, after), PageSize(fetches[0].limit);
    var page := PageOf(fetches[0].table, cursor, fetches[0].limit);
    if size < |rest| {
      var y := rest[size - 1];
      assert y in rest && y in base;
      assert page == Ok(Page(rest[..size], Some(Print(KeyOf(y))), size));
      WalkFromRow(base, fetches[1..], y);
      RemainingAfterRow(base, after, size);
      CoversJoined(Walk(fetches[1..], Some(Print(KeyOf(y)))), rest, size, |fetches| - 1);
    } else {
      assert page == Ok(Page(rest, None, size));
    }
  }

  lemma CoversJoined(more: WalkResult, rest: seq<BidRow>, size: nat, fetches: nat)
    requires 1 <= size < |rest|
    requires Covers(more, rest[size..], fetches)
    ensures Covers(WalkResult(rest[..size] + more.items, more.done), rest, fetches + 1)
  {
    assert rest == rest[..size] + rest[size..];
  }

  /** On a fixed table, any limits return the full listing: no gap, no duplicate, and one fetch per row is enough. */
  lemma WalkReturnsListing(rows: seq<BidRow>, limits: seq<Option<int>>)
    requires DistinctIds(rows) && Printable(rows)
    ensures var fetches := seq(|limits|, i requires 0 <= i < |limits| => Fetch(rows, limits[i]));
            Covers(Walk(fetches, None), Listed(rows), |limits|)
  {
    var fetches := seq(|limits|, i requires 0 <= i < |limits| => Fetch(rows, limits[i]));
    NoCursorRemains(rows);
    if fetches != [] {
      PageThenRest(rows, fetches, None, None);
    }
  }

  lemma NoCursorRemains(rows: seq<BidRow>)
    requires DistinctIds(rows)
    ensures Remaining(rows, None) == Listed(rows)
  {
    RemainingIsOrdered(rows, None);
    ListingIsOrdered(rows);
    OrderedListIsUnique(Remaining(rows, None), Listed(rows));
  }

  // ----- walking while the table grows at the top

  /** Rows appended above every older amount stay out of what follows an older row. */
  lemma GrowthAtTopIsBehindCursor(base: seq<BidRow>, table: seq<BidRow>)
    requires base <= table && Rising(table) && DistinctIds(table)
    ensures SameBehind(base, table)
  {
    forall x <- base ensures Remaining(table, Some(KeyOf(x))) == Remaining(base, Some(KeyOf(x))) {
      var a, b := Remaining(table, Some(KeyOf(x))), Remaining(base, Some(KeyOf(x)));
      var i :| 0 <= i < |base| && base[i] == x;
      forall y ensures y in a <==> y in b {
        if y in a {
          var j :| 0 <= j < |table| && table[j] == y;
          assert j <= i;
          assert base[j] == y;
        }
      }
      RemainingIsOrdered(table, Some(KeyOf(x)));
      RemainingIsOrdered(base, Some(KeyOf(x)));
      OrderedListIsUnique(a, b);
    }
  }

  /** A walk over tables that only grow at the top returns the listing of the first table it saw. */
  lemma WalkReturnsSnapshot(fetches: seq<Fetch>)
    requires fetches != []
    requires Printable(fetches[0].table)
    requires forall f <- fetches :: fetches[0].table <= f.table && Rising(f.table) && DistinctIds(f.table)
    ensures Covers(Walk(fetches, None), Listed(fetches[0].table), |fetches|)
  {
    var base := fetches[0].table;
    assert fetches[0] in fetches;
    forall f <- fetches[1..] ensures SameBehind(base, f.table) {
      assert f in fetches;
      GrowthAtTopIsBehindCursor(base, f.table);
    }
    NoCursorRemains(base);
    PageThenRest(base, fetches, None, None);
  }
}
