/** Listing conversations newest first, one page at a time, by following next_cursor. */
module Pagination {
  import opened Json
  import opened Ids

  datatype Conversation = Conversation(id: string, user: string, deleted: bool)

  /** Newest first: strictly descending in the order of the identifiers. */
  predicate Descending(ids: seq<string>) {
    forall i, j :: 0 <= i < j < |ids| ==> Before(ids[j], ids[i])
  }

  // ----- the query: the user's live conversations below the cursor, newest first -----

  function Insert(ids: seq<string>, id: string): seq<string> {
    if ids == [] || Before(ids[0], id) then [id] + ids
    else if ids[0] == id then ids
    else [ids[0]] + Insert(ids[1..], id)
  }

  predicate Selects(c: Conversation, user: string, cursor: Option<string>) {
    c.user == user && !c.deleted && (cursor.Some? ==> Before(c.id, cursor.value))
  }

  function Selected(table: seq<Conversation>, user: string, cursor: Option<string>): seq<string> {
    if table == [] then []
    else
      var rest := Selected(table[1..], user, cursor);
      if Selects(table[0], user, cursor) then Insert(rest, table[0].id) else rest
  }

  lemma {:induction false} InsertExact(ids: seq<string>, id: string)
    requires Descending(ids)
    ensures Descending(Insert(ids, id))
    ensures forall x :: x in Insert(ids, id) <==> x in ids || x == id
  {
    if ids == [] || Before(ids[0], id) {
      forall k | 0 <= k < |ids| ensures Before(ids[k], id) {
        if k > 0 {
          BeforeTransitive(ids[k], ids[0], id);
        }
      }
    } else if ids[0] != id {
      BeforeTotal(ids[0], id);
      InsertExact(ids[1..], id);
      var rest := Insert(ids[1..], id);
      forall k | 0 <= k < |rest| ensures Before(rest[k], ids[0]) {
        assert rest[k] in rest;
      }
    }
  }

  /** The query yields exactly the user's live conversations below the cursor, each once, newest first. */
  lemma {:induction false} SelectedExact(table: seq<Conversation>, user: string, cursor: Option<string>)
    ensures Descending(Selected(table, user, cursor))
    ensures forall x :: x in Selected(table, user, cursor) <==>
              exists i :: 0 <= i < |table| && table[i].id == x && Selects(table[i], user, cursor)
  {
    if table != [] {
      var rest := Selected(table[1..], user, cursor);
      SelectedExact(table[1..], user, cursor);
      if Selects(table[0], user, cursor) {
        InsertExact(rest, table[0].id);
      }
      forall x ensures x in Selected(table, user, cursor) <==>
                 exists i :: 0 <= i < |table| && table[i].id == x && Selects(table[i], user, cursor)
      {
        if i :| 0 <= i < |table| && table[i].id == x && Selects(table[i], user, cursor) {
          if i > 0 {
            assert table[1..][i - 1].id == x;
          }
        }
        if x in rest {
          var i :| 0 <= i < |table[1..]| && table[1..][i].id == x && Selects(table[1..][i], user, cursor);
          assert table[i + 1].id == x;
        }
        if Selects(table[0], user, cursor) && x == table[0].id {
          assert table[0].id == x;
        }
      }
    }
  }

  // ----- a page -----

  datatype Page = Page(ids: seq<string>, next: Option<string>, hasMore: bool)

  /** A page of a descending list: its first entries, and where to go on if there are more. */
  predicate PageOf(p: Page, all: seq<string>, limit: nat) {
    && p.ids == (if |all| > limit then all[..limit] else all)
    && p.hasMore == (|all| > limit)
    && p.next == if |all| > limit > 0 then Some(all[limit - 1]) else None
  }

  /** GET /conversations: one row more than the page is asked for, only to learn whether there are more. */
  method ListConversations(table: seq<Conversation>, user: string, limit: nat, cursor: Option<string>)
    returns (p: Page)
    requires 1 <= limit <= 100
    ensures PageOf(p, Selected(table, user, cursor), limit)
  {
    var found := Selected(table, user, cursor);
    var rows := if |found| > limit + 1 then found[..limit + 1] else found;
    var hasMore := |rows| > limit;
    var ids := if hasMore then rows[..limit] else rows;
    var next := if hasMore && ids != [] then Some(ids[|ids| - 1]) else None;
    return Page(ids, next, hasMore);
  }

  function PageFrom(table: seq<Conversation>, user: string, limit: nat, cursor: Option<string>): (p: Page)
    ensures PageOf(p, Selected(table, user, cursor), limit)
  {
    var found := Selected(table, user, cursor);
    if |found| > limit then Page(found[..limit], if limit > 0 then Some(found[limit - 1]) else None, true)
    else Page(found, None, false)
  }

  // ----- following the cursors while the table changes -----

  /** A client that follows next_cursor; tables[k] is what the database holds when page k is fetched. */
  function Followed(tables: seq<seq<Conversation>>, user: string, limit: nat, cursor: Option<string>): seq<string>
    decreases |tables|
  {
    if tables == [] then []
    else
      var p := PageFrom(tables[0], user, limit, cursor);
      if p.next.None? then p.ids else p.ids + Followed(tables[1..], user, limit, p.next)
  }

  /** The client reached the last page. */
  predicate Complete(tables: seq<seq<Conversation>>, user: string, limit: nat, cursor: Option<string>)
    decreases |tables|
  {
    && tables != []
    && var p := PageFrom(tables[0], user, limit, cursor);
       p.next.None? || Complete(tables[1..], user, limit, p.next)
  }

  predicate Live(table: seq<Conversation>, user: string, id: string) {
    exists i :: 0 <= i < |table| && table[i].id == id && Selects(table[i], user, None)
  }

  predicate BelowCursor(id: string, cursor: Option<string>) {
    cursor.Some? ==> Before(id, cursor.value)
  }

  lemma LiveSelected(table: seq<Conversation>, user: string, cursor: Option<string>, id: string)
    ensures id in Selected(table, user, cursor) <==> Live(table, user, id) && BelowCursor(id, cursor)
  {
    SelectedExact(table, user, cursor);
    if Live(table, user, id) && BelowCursor(id, cursor) {
      var i :| 0 <= i < |table| && table[i].id == id && Selects(table[i], user, None);
      assert Selects(table[i], user, cursor);
    }
    if id in Selected(table, user, cursor) {
      var i :| 0 <= i < |table| && table[i].id == id && Selects(table[i], user, cursor);
      assert Selects(table[i], user, None);
    }
  }

  /** What is on the page is at or above the next cursor; what is selected and not on the page is below it. */
  lemma PageSplits(table: seq<Conversation>, user: string, limit: nat, cursor: Option<string>, id: string)
    requires 0 < limit
    ensures var p, all := PageFrom(table, user, limit, cursor), Selected(table, user, cursor);
            && Descending(p.ids)
            && (id in p.ids ==> id in all && (p.next.Some? ==> !Before(id, p.next.value)))
            && (id in all && id !in p.ids ==> p.next.Some? && Before(id, p.next.value))
            && (p.next.Some? ==> BelowCursor(p.next.value, cursor))
  {
    var p, all := PageFrom(table, user, limit, cursor), Selected(table, user, cursor);
    SelectedExact(table, user, cursor);
    if p.next.Some? {
      LiveSelected(table, user, cursor, all[limit - 1]);
      if k :| 0 <= k < |p.ids| && p.ids[k] == id {
        BeforeIrreflexive(id);
        if k < limit - 1 && Before(id, all[limit - 1]) {
          BeforeTransitive(id, all[limit - 1], id);
        }
      }
    }
  }

  /** Whatever is delivered was live in the table of its page and below the cursor the client started with. */
  lemma {:induction false} DeliveredBelow(tables: seq<seq<Conversation>>, user: string, limit: nat,
                                          cursor: Option<string>, id: string)
    requires 0 < limit && id in Followed(tables, user, limit, cursor)
    ensures BelowCursor(id, cursor) && exists k :: 0 <= k < |tables| && Live(tables[k], user, id)
    decreases |tables|
  {
    var p := PageFrom(tables[0], user, limit, cursor);
    PageSplits(tables[0], user, limit, cursor, id);
    LiveSelected(tables[0], user, cursor, id);
    if id !in p.ids {
      DeliveredBelow(tables[1..], user, limit, p.next, id);
      var k :| 0 <= k < |tables[1..]| && Live(tables[1..][k], user, id);
      assert Live(tables[k + 1], user, id);
      if cursor.Some? {
        BeforeTransitive(id, p.next.value, cursor.value);
      }
    }
  }

  /** Nothing is delivered twice or out of order, however the table changes between the pages. */
  lemma {:induction false} FollowedDescending(tables: seq<seq<Conversation>>, user: string, limit: nat,
                                              cursor: Option<string>)
    requires 0 < limit
    ensures Descending(Followed(tables, user, limit, cursor))
    decreases |tables|
  {
    if tables != [] {
      var p := PageFrom(tables[0], user, limit, cursor);
      SelectedExact(tables[0], user, cursor);
      if p.next.Some? {
        var rest := Followed(tables[1..], user, limit, p.next);
        FollowedDescending(tables[1..], user, limit, p.next);
        forall i, j | 0 <= i < |p.ids| && 0 <= j < |rest| ensures Before(rest[j], p.ids[i]) {
          DeliveredBelow(tables[1..], user, limit, p.next, rest[j]);
          if i < |p.ids| - 1 {
            BeforeTransitive(rest[j], p.next.value, p.ids[i]);
          }
        }
      }
    }
  }

  /** A client that reaches the last page has been given every conversation that was live all the while. */
  lemma {:induction false} StayingIsDelivered(tables: seq<seq<Conversation>>, user: string, limit: nat,
                                              cursor: Option<string>, id: string)
    requires 0 < limit && Complete(tables, user, limit, cursor) && BelowCursor(id, cursor)
    requires forall k :: 0 <= k < |tables| ==> Live(tables[k], user, id)
    ensures id in Followed(tables, user, limit, cursor)
    decreases |tables|
  {
    var p := PageFrom(tables[0], user, limit, cursor);
    LiveSelected(tables[0], user, cursor, id);
    PageSplits(tables[0], user, limit, cursor, id);
    if id !in p.ids {
      StayingIsDelivered(tables[1..], user, limit, p.next, id);
    }
  }

  lemma Inhabited(b: seq<string>)
    ensures b == [] || exists x :: x in b
  {
    if b != [] {
      assert b[0] in b;
    }
  }

  /** A descending list is determined by its members. */
  lemma {:induction false} DescendingUnique(a: seq<string>, b: seq<string>)
    requires Descending(a) && Descending(b) && forall x :: x in a <==> x in b
    ensures a == b
  {
    if a == [] {
      Inhabited(b);
    } else {
      assert a[0] in b && (b != [] ==> b[0] in a);
      HeadsMeet(a, b);
      forall x ensures x in a[1..] <==> x in b[1..] {
        TailMember(a, x);
        TailMember(b, x);
      }
      DescendingUnique(a[1..], b[1..]);
      assert a == [a[0]] + a[1..] && b == [b[0]] + b[1..];
    }
  }

  lemma HeadsMeet(a: seq<string>, b: seq<string>)
    requires Descending(a) && Descending(b) && a != [] && b != [] && a[0] in b && b[0] in a
    ensures a[0] == b[0]
  {
    if a[0] != b[0] {
      BeforeTransitive(a[0], b[0], a[0]);
      BeforeIrreflexive(a[0]);
    }
  }

  lemma TailMember(a: seq<string>, x: string)
    requires Descending(a) && a != []
    ensures x in a[1..] <==> x in a && x != a[0]
  {
    if i :| 0 <= i < |a[1..]| && a[1..][i] == x {
      assert Before(a[i + 1], a[0]);
      BeforeIrreflexive(x);
    }
  }

  /** Going on from the last entry of a page selects what the page left. */
  lemma NextSelects(table: seq<Conversation>, user: string, limit: nat, cursor: Option<string>)
    requires 0 < limit && PageFrom(table, user, limit, cursor).next.Some?
    ensures Selected(table, user, PageFrom(table, user, limit, cursor).next)
         == Selected(table, user, cursor)[limit..]
  {
    var p, all := PageFrom(table, user, limit, cursor), Selected(table, user, cursor);
    SelectedExact(table, user, cursor);
    SelectedExact(table, user, p.next);
    assert all == p.ids + all[limit..];
    forall x ensures x in Selected(table, user, p.next) <==> x in all[limit..] {
      LiveSelected(table, user, p.next, x);
      LiveSelected(table, user, cursor, x);
      PageSplits(table, user, limit, cursor, x);
      if x in Selected(table, user, p.next) && cursor.Some? {
        BeforeTransitive(x, p.next.value, cursor.value);
      }
      if k :| limit <= k < |all| && all[k] == x {
        assert Before(all[k], all[limit - 1]);
      }
    }
    DescendingUnique(Selected(table, user, p.next), all[limit..]);
  }

  /** Over a table that does not change, one page per conversation and one more always reaches the end. */
  lemma {:induction false} EnoughPages(table: seq<Conversation>, n: nat, user: string, limit: nat, cursor: Option<string>)
    requires 0 < limit && |Selected(table, user, cursor)| < n
    ensures Complete(seq(n, _ => table), user, limit, cursor)
    decreases n
  {
    var p := PageFrom(table, user, limit, cursor);
    if p.next.Some? {
      NextSelects(table, user, limit, cursor);
      EnoughPages(table, n - 1, user, limit, p.next);
      assert seq(n, _ => table)[1..] == seq(n - 1, _ => table);
    }
  }

  /** Over a table that does not change, following the cursors to the end yields exactly the user's live conversations,
      each once, newest first. */
  lemma FixedTable(table: seq<Conversation>, n: nat, user: string, limit: nat)
    requires 0 < limit && |Selected(table, user, None)| < n
    ensures var ids := Followed(seq(n, _ => table), user, limit, None);
            Descending(ids) && forall id :: id in ids <==> Live(table, user, id)
  {
    var tables := seq(n, _ => table);
    EnoughPages(table, n, user, limit, None);
    FollowedDescending(tables, user, limit, None);
    forall id ensures id in Followed(tables, user, limit, None) <==> Live(table, user, id) {
      if id in Followed(tables, user, limit, None) {
        DeliveredBelow(tables, user, limit, None, id);
      }
      if Live(table, user, id) {
        StayingIsDelivered(tables, user, limit, None, id);
      }
    }
  }
}
